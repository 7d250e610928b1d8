/**
 * What each OSC handler, the dispatch, `handle_sigchld` and `die` do to the
 * program's whole state, as functions on one value of it. The methods of
 * `NsmProxy.App` are proved to move the state exactly as these say.
 */
module Effects {
  import opened Wrappers
  import opened Osc
  import opened WaitStatus
  import opened ConfigFile
  import opened Host
  import opened ProxyLogic

  /** The global state of the proxy that is neither the descriptor nor the process bookkeeping. */
  datatype Session = Session(
    nsmAddr: Option<string>,
    guiAddr: Option<string>,
    nsmIsActive: bool,
    projectFile: Option<string>,
    nsmClientId: Option<string>,
    nsmDisplayName: Option<string>)

  /** What stays fixed during a run: the server's URL and the paths `fopen` refuses. */
  datatype Env = Env(serverUrl: string, unreadable: set<string>, unwritable: set<string>)

  /**
   * Everything the handlers and the main loop change: the session globals,
   * the processes and the message log, the persisted settings, the files and
   * the signal log.
   */
  datatype World = World(
    session: Session,
    reaping: Reaper,
    settings: Settings,
    files: map<string, string>,
    signals: seq<SignalSent>)

  /** `ms` appended to the message log. */
  function Sent(w: World, ms: seq<Message>): World {
    w.(reaping := w.reaping.(outbox := w.reaping.outbox + ms))
  }

  /** `kill(pid, sig)` when `pid` is non-zero, nothing otherwise: the guard of `kill`, `save`, `hide_gui` and `die`. */
  function SignalIfSet(w: World, pid: int, sig: int): World {
    if pid != 0 then w.(signals := w.signals + [SignalSent(pid, sig)]) else w
  }

  /** `/nsm/client/save`: dump, save signal, then the reply saying whether the dump was written. */
  function SaveEffect(w: World, env: Env, path: string): World {
    var target := DumpTarget(w.session.projectFile);
    var to := w.session.nsmAddr;
    var dumped := w.(files := Dumped(w.files, env.unwritable, target, w.settings));
    Sent(SignalIfSet(dumped, w.reaping.pid, w.settings.saveSignal),
         [if target !in env.unwritable then Reply(to, path) else Failure(to, path, "Error saving project file")])
  }

  /** The end of a successful `/nsm/client/open`: the new project path, the reply, the report to a known GUI. */
  function Adopted(w: World, path: string, newPath: string): World {
    var report := if w.session.guiAddr.Some? then StateReport(w.session.guiAddr, w.settings, w.reaping.clientError) else [];
    Sent(w.(session := w.session.(projectFile := Some(newPath))), [Reply(w.session.nsmAddr, path)] + report)
  }

  /**
   * `/nsm/client/open`: take the client id and display name, then open the
   * session as `Opened` says.
   */
  function OpenEffect(w: World, env: Env, path: string, newPath: string, displayName: string, clientId: string): World {
    Opened(w.(session := w.session.(nsmClientId := Some(clientId), nsmDisplayName := Some(displayName))), env, path, newPath)
  }

  /**
   * The rest of `/nsm/client/open`: a missing configuration shows the GUI; an
   * unreadable one is an error and the project stays; a readable one is
   * restored and started (the dump going to the previous project) and the GUI
   * reported hidden.
   */
  function Opened(w: World, env: Env, path: string, newPath: string): World {
    var file := PathIn(newPath);
    var to := w.session.nsmAddr;
    if file !in w.files then
      Adopted(w.(reaping := GuiShown(w.reaping, to, env.serverUrl)), path, newPath)
    else if file in env.unreadable then
      Sent(w, [Failure(to, path, "Could not open file")])
    else
      Adopted(Sent(Restored(w, env, w.files[file]), [Message(to, "/nsm/client/gui_is_hidden", [])]), path, newPath)
  }

  /**
   * `NSM_Proxy::restore` from a configuration with contents `text`, then
   * `start`, whose dump goes to the current project.
   */
  function Restored(w: World, env: Env, text: string): World {
    var records := Records(text);
    var s := ApplyAll(w.settings, records);
    var r := w.reaping;
    var l := Launch(r.pid, s, w.session.nsmClientId, w.session.nsmDisplayName, r.forkScript, r.forks);
    var started := w.(
      settings := s,
      files := Dumped(w.files, env.unwritable, DumpTarget(w.session.projectFile), s),
      reaping := r.(pid := l.pid, forkScript := l.forkScript, forks := l.forks));
    Sent(started, LabelNotices(w.session.nsmAddr, Labels(records)))
  }

  /** `/nsm/client/show_optional_gui`. */
  function ShowGuiEffect(w: World, env: Env, path: string): World {
    Sent(w.(reaping := GuiShown(w.reaping, w.session.nsmAddr, env.serverUrl)), [Reply(w.session.nsmAddr, path)])
  }

  /** `/nsm/client/hide_optional_gui`. */
  function HideGuiEffect(w: World, path: string): World {
    var to := w.session.nsmAddr;
    Sent(SignalIfSet(w, w.reaping.guiPid, SIGTERM), [Message(to, "/nsm/client/gui_is_hidden", []), Reply(to, path)])
  }

  /** `/error` from the server. */
  function AnnounceErrorEffect(w: World, request: string): World {
    if request == "/nsm/server/announce" then w.(session := w.session.(nsmIsActive := false)) else w
  }

  /** `/reply` from the server. */
  function AnnounceReplyEffect(w: World, request: string, source: string): World {
    if request == "/nsm/server/announce" then w.(session := w.session.(nsmIsActive := true, nsmAddr := Some(source))) else w
  }

  /** `/nsm/proxy/label`. */
  function LabelEffect(w: World, s: string): World {
    Sent(w.(settings := w.settings.(labelText := Some(s))), [Message(w.session.nsmAddr, "/nsm/client/label", [Str(s)])])
  }

  /** `/nsm/proxy/start`: dump, new command line, `start` (which dumps again), and hide the GUI when it succeeded. */
  function StartEffect(w: World, env: Env, exe: string, args: string, cfg: string): World {
    var s := w.settings.(executable := Some(exe), arguments := Some(args), configFile := Some(cfg));
    var r := w.reaping;
    var l := Launch(r.pid, s, w.session.nsmClientId, w.session.nsmDisplayName, r.forkScript, r.forks);
    var started := w.(
      settings := s,
      files := Dumped(w.files, env.unwritable, DumpTarget(w.session.projectFile), s),
      reaping := r.(pid := l.pid, forkScript := l.forkScript, forks := l.forks));
    if l.ok then SignalIfSet(started, r.guiPid, SIGTERM) else started
  }

  /** `/nsm/proxy/update`: report to the sender, which becomes the GUI address. */
  function UpdateEffect(w: World, source: string): World {
    Sent(w.(session := w.session.(guiAddr := Some(source))), StateReport(Some(source), w.settings, w.reaping.clientError))
  }

  /** The handler `h` run on the arguments of `m`; arguments of another signature never reach it. */
  function Handle(w: World, env: Env, h: Handler, m: Inbound): World {
    if Typespec(m.args) != Signature(h) then w
    else
      var a := m.args;
      match h
      case SaveRequest => SaveEffect(w, env, m.path)
      case OpenRequest => OpenEffect(w, env, m.path, a[0].s, a[1].s, a[2].s)
      case ShowGuiRequest => ShowGuiEffect(w, env, m.path)
      case HideGuiRequest => HideGuiEffect(w, m.path)
      case AnnounceError => AnnounceErrorEffect(w, a[0].s)
      case AnnounceReply => AnnounceReplyEffect(w, a[0].s, m.source)
      case SetLabel => LabelEffect(w, a[0].s)
      case SetSaveSignal => w.(settings := w.settings.(saveSignal := a[0].i))
      case SetStopSignal => w.(settings := w.settings.(stopSignal := a[0].i))
      case KillRequest => SignalIfSet(w, w.reaping.pid, w.settings.stopSignal)
      case StartRequest => StartEffect(w, env, a[0].s, a[1].s, a[2].s)
      case UpdateRequest => UpdateEffect(w, m.source)
  }

  /** The server's dispatch: the handler the table chooses, or nothing for a message no entry matches. */
  function Dispatched(w: World, env: Env, m: Inbound): World {
    match Lookup(m.path, Typespec(m.args))
    case None => w
    case Some(h) => Handle(w, env, h, m)
  }

  /** `handle_sigchld` over the children `waitpid` reports. */
  function Reap(w: World, env: Env, reaped: seq<Reaped>): World {
    w.(reaping := ReapAll(w.reaping, reaped, w.session.nsmAddr, env.serverUrl))
  }

  /** `die` before its `exit`: SIGTERM to a recorded GUI, then the stop signal to a recorded proxied process. */
  function Died(w: World): World {
    SignalIfSet(SignalIfSet(w, w.reaping.guiPid, SIGTERM), w.reaping.pid, w.settings.stopSignal)
  }

  /** A message with the path and types of a table entry runs that entry's handler on its arguments. */
  lemma DispatchRoutes(w: World, env: Env, m: Inbound, i: nat)
    requires i < |Table| && m.path == Table[i].path && Typespec(m.args) == Table[i].types
    ensures Dispatched(w, env, m) == Handle(w, env, Table[i].handler, m)
    ensures Typespec(m.args) == Signature(Table[i].handler)
  {
    LookupRoute(i);
    RoutedSignature(m.path, Typespec(m.args), Table[i].handler);
  }

  /** No handler touches the shutdown flag: only signals and `handle_sigchld` raise it. */
  lemma DispatchKeepsShutdown(w: World, env: Env, m: Inbound)
    ensures Dispatched(w, env, m).reaping.dieNow == w.reaping.dieNow
  {
    match Lookup(m.path, Typespec(m.args))
    case None =>
    case Some(h) => HandleKeepsShutdown(w, env, h, m);
  }

  lemma HandleKeepsShutdown(w: World, env: Env, h: Handler, m: Inbound)
    ensures Handle(w, env, h, m).reaping.dieNow == w.reaping.dieNow
  {
    if Typespec(m.args) == Signature(h) {
      var a := m.args;
      match h
      case OpenRequest =>
        var named := w.(session := w.session.(nsmClientId := Some(a[2].s), nsmDisplayName := Some(a[1].s)));
        OpenedKeepsShutdown(named, env, m.path, a[0].s);
      case StartRequest =>
        StartKeepsShutdown(w, env, a[0].s, a[1].s, a[2].s);
      case _ =>
    }
  }

  lemma OpenedKeepsShutdown(w: World, env: Env, path: string, newPath: string)
    ensures Opened(w, env, path, newPath).reaping.dieNow == w.reaping.dieNow
  {
    var file := PathIn(newPath);
    if file in w.files && file !in env.unreadable {
      var q := Restored(w, env, w.files[file]);
      assert q.reaping.dieNow == w.reaping.dieNow;
    }
  }

  lemma StartKeepsShutdown(w: World, env: Env, exe: string, args: string, cfg: string)
    ensures StartEffect(w, env, exe, args, cfg).reaping.dieNow == w.reaping.dieNow
  {
  }

  /** Messages from the GUI never change the session globals, except that an update names the GUI. */
  lemma GuiLeavesSession(w: World, env: Env, h: Handler, m: Inbound)
    requires !FromServer(h)
    ensures var q := Handle(w, env, h, m);
      q.session == if h.UpdateRequest? && Typespec(m.args) == Signature(h) then w.session.(guiAddr := Some(m.source)) else w.session
  {
  }

  /** Messages from the session manager never change the persisted settings, except through `open`'s restore. */
  lemma ServerKeepsSettings(w: World, env: Env, h: Handler, m: Inbound)
    requires FromServer(h) && !h.OpenRequest?
    ensures Handle(w, env, h, m).settings == w.settings
  {
  }

  /**
   * `die` adds at most the two signals, in that order, to the signal log,
   * each only to a recorded process, and changes nothing else.
   */
  lemma DiedSignals(w: World)
    ensures var q := Died(w);
      q == w.(signals := q.signals) && w.signals <= q.signals && |q.signals| <= |w.signals| + 2 &&
      (forall j :: |w.signals| <= j < |q.signals| ==> q.signals[j].pid != 0) &&
      (w.reaping.guiPid != 0 ==> q.signals[|w.signals|] == SignalSent(w.reaping.guiPid, SIGTERM)) &&
      (w.reaping.pid != 0 ==> q.signals[|q.signals| - 1] == SignalSent(w.reaping.pid, w.settings.stopSignal))
  {
  }
}
