/**
 * The NSM proxy in imperative form: `Proxy` is the `NSM_Proxy` descriptor of
 * the proxied process, and `App` holds the program's global state (the NSM
 * and GUI addresses, the project file, the shutdown flag, the GUI pid) with
 * the OSC handlers, `show_gui`/`hide_gui`, `handle_sigchld`, `die` and one
 * pass of the main loop. Every effect goes through a `Host`.
 */
module NsmProxy {
  import opened Wrappers
  import opened Text
  import opened Osc
  import opened WaitStatus
  import opened ConfigFile
  import opened Host
  import opened ProxyLogic
  import opened Effects

  /**
   * The bookkeeping invariant on processes: a recorded pid for the proxied
   * process or the GUI is one a `fork` of that program returned, and no signal
   * was ever sent to pid 0 (the whole process group) or to a value no `fork`
   * returned. It admits -1 from a failed `fork`, and a pid whose process died
   * by a signal `handle_sigchld` ignores, so it is weaker than "signals only
   * reach live children".
   */
  ghost predicate Consistent(pid: int, guiPid: int, forks: seq<ForkCall>, signals: seq<SignalSent>) {
    (pid != 0 ==> ForkedAs(forks, pid, false)) &&
    (guiPid != 0 ==> ForkedAs(forks, guiPid, true)) &&
    (forall j :: 0 <= j < |signals| ==> signals[j].pid != 0 && Forked(forks, signals[j].pid))
  }

  lemma ConsistentAfterFork(pid: int, guiPid: int, forks: seq<ForkCall>, signals: seq<SignalSent>, c: ForkCall)
    requires Consistent(pid, guiPid, forks, signals)
    ensures Consistent(pid, guiPid, forks + [c], signals)
    ensures c.program.Gui? ==> Consistent(pid, c.pid, forks + [c], signals)
    ensures c.program.Shell? ==> Consistent(c.pid, guiPid, forks + [c], signals)
  {
    ForkedAsGrows(forks, c, pid, false);
    ForkedAsGrows(forks, c, guiPid, true);
    forall j | 0 <= j < |signals| ensures Forked(forks + [c], signals[j].pid) {
      ForkedAsGrows(forks, c, signals[j].pid, false);
      ForkedAsGrows(forks, c, signals[j].pid, true);
    }
  }

  lemma ConsistentAfterSignal(pid: int, guiPid: int, forks: seq<ForkCall>, signals: seq<SignalSent>, target: int, sig: int)
    requires Consistent(pid, guiPid, forks, signals)
    requires target != 0 && Forked(forks, target)
    ensures Consistent(pid, guiPid, forks, signals + [SignalSent(target, sig)])
  {
    var ss := signals + [SignalSent(target, sig)];
    forall j | 0 <= j < |ss| ensures ss[j].pid != 0 && Forked(forks, ss[j].pid) {
      if j < |signals| {
        assert ss[j] == signals[j];
      }
    }
  }

  /** The descriptor of the proxied process (`class NSM_Proxy`). */
  class Proxy {
    var labelText: Option<string>
    var executable: Option<string>
    var configFile: Option<string>
    var arguments: Option<string>
    var saveSignal: int
    var stopSignal: int
    var pid: int
    var clientError: Option<string>

    /** The fields `dump` writes and `restore` reads. */
    function Persisted(): Settings
      reads this
    {
      Settings(executable, arguments, configFile, saveSignal, stopSignal, labelText)
    }

    constructor ()
      ensures labelText == None && executable == None && arguments == None && configFile == None
      ensures saveSignal == 0 && stopSignal == SIGTERM && pid == 0 && clientError == None
    {
      labelText, executable, arguments, configFile := None, None, None, None;
      saveSignal := 0;
      stopSignal := SIGTERM;
      pid := 0;
      clientError := None;
    }

    /** The proxied process exited with a non-zero status: record the error, show the GUI, forget the pid. */
    method HandleClientDeath(status: int, app: App)
      requires app.proxy == this && app.Valid()
      modifies this, app, app.host
      ensures app.Valid()
      ensures app.Reaping() == ClientDeath(old(app.Reaping()), status, app.nsmAddr, app.serverUrl)
      ensures Persisted() == old(Persisted())
      ensures app.Registration() == old(app.Registration()) && app.exited == old(app.exited)
      ensures app.host.files == old(app.host.files) && app.host.signals == old(app.host.signals)
    {
      clientError := Some(ClientErrorText(status));
      app.ShowGui();
      pid := 0;
    }

    /** Send the stop signal to the proxied process, if one is recorded. */
    method Kill(host: Host)
      modifies host
      ensures host.signals == old(host.signals) + if pid != 0 then [SignalSent(pid, stopSignal)] else []
      ensures host.files == old(host.files) && host.outbox == old(host.outbox)
      ensures host.forkScript == old(host.forkScript) && host.forks == old(host.forks)
    {
      if pid != 0 {
        host.Kill(pid, stopSignal);
      }
    }

    /** Replace executable, arguments and configuration file, then `start`. */
    method StartWith(app: App, exe: string, args: Option<string>, cfg: Option<string>) returns (ok: bool)
      requires app.proxy == this && app.Valid()
      modifies this, app.host
      ensures app.Valid()
      ensures Persisted() == old(Persisted()).(executable := Some(exe), arguments := args, configFile := cfg)
      ensures clientError == old(clientError)
      ensures app.host.files == Dumped(old(app.host.files), app.host.unwritable, DumpTarget(app.projectFile), Persisted())
      ensures Launched(ok, pid, app.host.forkScript, app.host.forks) ==
        Launch(old(pid), Persisted(), app.nsmClientId, app.nsmDisplayName, old(app.host.forkScript), old(app.host.forks))
      ensures app.host.signals == old(app.host.signals) && app.host.outbox == old(app.host.outbox)
    {
      executable := Some(exe);
      arguments := args;
      configFile := cfg;
      ok := Start(app);
    }

    /**
     * `start(void)`: dump to the current project, then launch the shell
     * command unless a pid is recorded or no executable is set.
     */
    method Start(app: App) returns (ok: bool)
      requires app.proxy == this && app.Valid()
      modifies this, app.host
      ensures app.Valid()
      ensures Persisted() == old(Persisted()) && clientError == old(clientError)
      ensures app.host.files == Dumped(old(app.host.files), app.host.unwritable, DumpTarget(app.projectFile), Persisted())
      ensures Launched(ok, pid, app.host.forkScript, app.host.forks) ==
        Launch(old(pid), Persisted(), app.nsmClientId, app.nsmDisplayName, old(app.host.forkScript), old(app.host.forks))
      ensures app.host.signals == old(app.host.signals) && app.host.outbox == old(app.host.outbox)
    {
      var dumped := Dump(app.host, app.projectFile);
      if pid != 0 {
        return true;
      }
      if executable.None? {
        return false;
      }
      var program := Shell(LaunchCommand(executable.value, arguments), app.nsmClientId, app.nsmDisplayName, configFile);
      var child := app.host.Fork(program);
      ConsistentAfterFork(pid, app.guiPid, old(app.host.forks), app.host.signals, ForkCall(program, child));
      pid := child;
      ok := pid > 0;
    }

    method SetSaveSignal(s: int)
      modifies this
      ensures Persisted() == old(Persisted()).(saveSignal := s)
      ensures pid == old(pid) && clientError == old(clientError)
    {
      saveSignal := s;
    }

    method SetStopSignal(s: int)
      modifies this
      ensures Persisted() == old(Persisted()).(stopSignal := s)
      ensures pid == old(pid) && clientError == old(clientError)
    {
      stopSignal := s;
    }

    /** Store the label and announce it to the session manager. */
    method Label(s: string, app: App)
      modifies this, app.host
      ensures Persisted() == old(Persisted()).(labelText := Some(s))
      ensures pid == old(pid) && clientError == old(clientError)
      ensures app.host.outbox == old(app.host.outbox) + [Message(app.nsmAddr, "/nsm/client/label", [Str(s)])]
      ensures app.host.files == old(app.host.files) && app.host.signals == old(app.host.signals)
      ensures app.host.forkScript == old(app.host.forkScript) && app.host.forks == old(app.host.forks)
    {
      labelText := Some(s);
      app.host.Send(app.nsmAddr, "/nsm/client/label", [Str(s)]);
    }

    /** Send the save signal to the proxied process, if one is recorded. */
    method Save(host: Host)
      modifies host
      ensures host.signals == old(host.signals) + if pid != 0 then [SignalSent(pid, saveSignal)] else []
      ensures host.files == old(host.files) && host.outbox == old(host.outbox)
      ensures host.forkScript == old(host.forkScript) && host.forks == old(host.forks)
    {
      if pid != 0 {
        host.Kill(pid, saveSignal);
      }
    }

    /** The text `dump` prints: each set, non-empty text field and both signals, as two-line records. */
    method RecordText() returns (text: string)
      ensures text == Render(Persisted())
    {
      ghost var written: seq<Entry>;
      text, written := PrintOptional("", [], Executable, executable);
      text, written := PrintOptional(text, written, Arguments, arguments);
      text, written := PrintOptional(text, written, ConfigPath, configFile);
      text, written := PrintRecord(text, written, SaveSignal, IntToString(saveSignal));
      text, written := PrintRecord(text, written, StopSignal, IntToString(stopSignal));
      text, written := PrintOptional(text, written, ConfigFile.Label, labelText);
      assert written == Entries(Persisted());
    }

    /** Write the durable fields to `<dir>/nsm-proxy.config`; false when the file cannot be opened. */
    method Dump(host: Host, dir: Option<string>) returns (ok: bool)
      modifies host
      ensures ok == (DumpTarget(dir) !in host.unwritable)
      ensures host.files == Dumped(old(host.files), host.unwritable, DumpTarget(dir), Persisted())
      ensures host.signals == old(host.signals) && host.outbox == old(host.outbox)
      ensures host.forkScript == old(host.forkScript) && host.forks == old(host.forks)
    {
      var text := RecordText();
      ok := host.Write(DumpTarget(dir), text);
    }

    /**
     * `restore(path)`: apply every record of the file in order (a label
     * record also announces the label), then `start`; false only when the
     * file cannot be opened.
     */
    method Restore(app: App, path: string) returns (ok: bool)
      requires app.proxy == this && app.Valid()
      modifies this, app.host
      ensures app.Valid()
      ensures ok == old(app.host.Contents(path)).Some?
      ensures !ok ==> unchanged(this) && unchanged(app.host)
      ensures ok ==>
        var records := Records(old(app.host.Contents(path)).value);
        var s := ApplyAll(old(Persisted()), records);
        var l := Launch(old(pid), s, app.nsmClientId, app.nsmDisplayName, old(app.host.forkScript), old(app.host.forks));
        Persisted() == s && clientError == old(clientError) &&
        app.host.files == Dumped(old(app.host.files), app.host.unwritable, DumpTarget(app.projectFile), s) &&
        app.host.outbox == old(app.host.outbox) + LabelNotices(app.nsmAddr, Labels(records)) &&
        app.host.signals == old(app.host.signals) &&
        pid == l.pid && app.host.forkScript == l.forkScript && app.host.forks == l.forks
    {
      var contents := app.host.Contents(path);
      if contents.None? {
        return false;
      }
      ReadRecords(contents.value, app);
      var started := Start(app);
      ok := true;
    }

    /** The `fscanf` loop of `restore`: apply the records of `text` in order. */
    method ReadRecords(text: string, app: App)
      modifies this, app.host
      ensures Persisted() == ApplyAll(old(Persisted()), Records(text))
      ensures app.host.outbox == old(app.host.outbox) + LabelNotices(app.nsmAddr, Labels(Records(text)))
      ensures pid == old(pid) && clientError == old(clientError)
      ensures app.host.files == old(app.host.files) && app.host.signals == old(app.host.signals)
      ensures app.host.forkScript == old(app.host.forkScript) && app.host.forks == old(app.host.forks)
    {
      ghost var s0 := Persisted();
      ghost var out0 := app.host.outbox;
      var rest := text;
      var next := ScanRecord(rest);
      while next.Some?
        invariant next == ScanRecord(rest)
        invariant ApplyAll(Persisted(), Records(rest)) == ApplyAll(s0, Records(text))
        invariant app.host.outbox + LabelNotices(app.nsmAddr, Labels(Records(rest))) ==
          out0 + LabelNotices(app.nsmAddr, Labels(Records(text)))
        invariant pid == old(pid) && clientError == old(clientError)
        invariant app.host.files == old(app.host.files) && app.host.signals == old(app.host.signals)
        invariant app.host.forkScript == old(app.host.forkScript) && app.host.forks == old(app.host.forks)
        decreases |rest|
      {
        var (e, after) := next.value;
        ghost var s1 := Persisted();
        ghost var out1 := app.host.outbox;
        ApplyRecord(e, app);
        assert Records(rest) == [e] + Records(after);
        ReadStep(e, Records(after), Records(text), app.nsmAddr, s0, out0, s1, out1, Persisted(), app.host.outbox);
        rest := after;
        next := ScanRecord(rest);
      }
      assert app.host.outbox + [] == app.host.outbox;
    }

    /** The body of the `restore` loop: the `strcmp` chain on the record name. */
    method ApplyRecord(e: Entry, app: App)
      modifies this, app.host
      ensures Persisted() == Apply(old(Persisted()), e)
      ensures app.host.outbox == old(app.host.outbox) +
        if FieldOf(e.name) == Some(ConfigFile.Label) then [Message(app.nsmAddr, "/nsm/client/label", [Str(e.value)])] else []
      ensures pid == old(pid) && clientError == old(clientError)
      ensures app.host.files == old(app.host.files) && app.host.signals == old(app.host.signals)
      ensures app.host.forkScript == old(app.host.forkScript) && app.host.forks == old(app.host.forks)
    {
      if e.name == "executable" {
        executable := Some(e.value);
      } else if e.name == "arguments" {
        arguments := Some(e.value);
      } else if e.name == "config file" {
        configFile := Some(e.value);
      } else if e.name == "save signal" {
        saveSignal := Atoi(e.value);
      } else if e.name == "stop signal" {
        stopSignal := Atoi(e.value);
      } else if e.name == "label" {
        Label(e.value, app);
      } else {
        assert app.host.outbox + [] == app.host.outbox;
      }
    }

    /** Send the whole state to `to`, one message per field. */
    method Update(host: Host, to: Option<string>)
      modifies host
      ensures host.outbox == old(host.outbox) + StateReport(to, Persisted(), clientError)
      ensures host.files == old(host.files) && host.signals == old(host.signals)
      ensures host.forkScript == old(host.forkScript) && host.forks == old(host.forks)
    {
      ghost var report := StateReport(to, Persisted(), clientError);
      ghost var out0 := host.outbox;
      assert out0 + report[..0] == out0;
      host.Send(to, "/nsm/proxy/save_signal", [Int(saveSignal)]);
      SentNext(out0, report, 0, host.outbox);
      host.Send(to, "/nsm/proxy/label", [Str(labelText.GetOr(""))]);
      SentNext(out0, report, 1, host.outbox);
      host.Send(to, "/nsm/proxy/executable", [Str(executable.GetOr(""))]);
      SentNext(out0, report, 2, host.outbox);
      host.Send(to, "/nsm/proxy/arguments", [Str(arguments.GetOr(""))]);
      SentNext(out0, report, 3, host.outbox);
      host.Send(to, "/nsm/proxy/config_file", [Str(configFile.GetOr(""))]);
      SentNext(out0, report, 4, host.outbox);
      host.Send(to, "/nsm/proxy/stop_signal", [Int(stopSignal)]);
      SentNext(out0, report, 5, host.outbox);
      host.Send(to, "/nsm/proxy/client_error", [Str(clientError.GetOr(""))]);
      SentNext(out0, report, 6, host.outbox);
      assert report[..7] == report;
    }
  }

  /** After the `k`-th message of `report` is sent, the first `k + 1` of them have been. */
  lemma SentNext(out0: seq<Message>, report: seq<Message>, k: nat, out: seq<Message>)
    requires k < |report|
    requires out == out0 + report[..k] + [report[k]]
    ensures out == out0 + report[..k + 1]
  {
    assert report[..k + 1] == report[..k] + [report[k]];
  }

  /** `fprintf(fp, "<name>\n\t%s\n", value)` on a file whose text so far is the encoding of `written`. */
  method PrintRecord(text: string, ghost written: seq<Entry>, f: Field, value: string)
    returns (text': string, ghost written': seq<Entry>)
    requires text == Encode(written)
    ensures written' == written + [Entry(FieldName(f), value)]
    ensures text' == Encode(written')
  {
    var e := Entry(FieldName(f), value);
    EncodeSnoc(written, e);
    text' := text + EncodeEntry(e);
    written' := written + [e];
  }

  /** `if (v && strlen(v)) fprintf(fp, "<name>\n\t%s\n", v)`. */
  method PrintOptional(text: string, ghost written: seq<Entry>, f: Field, v: Option<string>)
    returns (text': string, ghost written': seq<Entry>)
    requires text == Encode(written)
    ensures written' == written + Optional(f, v)
    ensures text' == Encode(written')
  {
    if v.Some? && |v.value| > 0 {
      text', written' := PrintRecord(text, written, f, v.value);
    } else {
      text', written' := text, written;
      assert written + [] == written;
    }
  }

  /** The label notices of one record followed by more. */
  lemma NoticesCons(to: Option<string>, e: Entry, later: seq<Entry>)
    ensures LabelNotices(to, Labels([e] + later)) ==
      (if FieldOf(e.name) == Some(Label) then [Message(to, "/nsm/client/label", [Str(e.value)])] else []) +
      LabelNotices(to, Labels(later))
  {
    var rs := [e] + later;
    assert rs[1..] == later;
    var here := if FieldOf(e.name) == Some(Label) then [e.value] else [];
    assert Labels(rs) == here + Labels(later);
    NoticesConcat(to, here, Labels(later));
  }

  lemma ApplyAllCons(s: Settings, e: Entry, rs: seq<Entry>)
    ensures ApplyAll(s, [e] + rs) == ApplyAll(Apply(s, e), rs)
  {
    assert ([e] + rs)[1..] == rs;
  }

  /** The `restore` loop invariant survives one record `e` taken off the front of `[e] + later`. */
  lemma ReadStep(e: Entry, later: seq<Entry>, total: seq<Entry>, to: Option<string>,
                 s0: Settings, out0: seq<Message>, s: Settings, out: seq<Message>, s': Settings, out': seq<Message>)
    requires ApplyAll(s, [e] + later) == ApplyAll(s0, total)
    requires out + LabelNotices(to, Labels([e] + later)) == out0 + LabelNotices(to, Labels(total))
    requires s' == Apply(s, e)
    requires out' == out + if FieldOf(e.name) == Some(Label) then [Message(to, "/nsm/client/label", [Str(e.value)])] else []
    ensures ApplyAll(s', later) == ApplyAll(s0, total)
    ensures out' + LabelNotices(to, Labels(later)) == out0 + LabelNotices(to, Labels(total))
  {
    NoticesCons(to, e, later);
    ApplyAllCons(s, e, later);
    var x := if FieldOf(e.name) == Some(Label) then [Message(to, "/nsm/client/label", [Str(e.value)])] else [];
    var rest := LabelNotices(to, Labels(later));
    assert out' + rest == out + (x + rest);
  }

  lemma {:induction false} NoticesConcat(to: Option<string>, a: seq<string>, b: seq<string>)
    ensures LabelNotices(to, a + b) == LabelNotices(to, a) + LabelNotices(to, b)
    decreases |a|
  {
    if a != [] {
      assert (a + b)[1..] == a[1..] + b;
      NoticesConcat(to, a[1..], b);
    } else {
      assert a + b == b;
    }
  }

  /** The program's globals, its OSC handlers and its main-loop step. */
  class App {
    const proxy: Proxy
    const host: Host
    /** What `lo_server_get_url` returns: the address the GUI is told to connect to. */
    const serverUrl: string
    var nsmAddr: Option<string>
    var guiAddr: Option<string>
    var nsmIsActive: bool
    var projectFile: Option<string>
    var dieNow: bool
    var nsmClientId: Option<string>
    var nsmDisplayName: Option<string>
    var guiPid: int
    /** `exit(0)` was called. */
    var exited: bool

    ghost predicate Valid()
      reads this, host, proxy
    {
      host.Valid() && Consistent(proxy.pid, guiPid, host.forks, host.signals)
    }

    function Reaping(): Reaper
      reads this, host, proxy
    {
      Reaper(guiPid, dieNow, proxy.pid, proxy.clientError, host.forkScript, host.forks, host.outbox)
    }

    function Registration(): Session
      reads this
    {
      Session(nsmAddr, guiAddr, nsmIsActive, projectFile, nsmClientId, nsmDisplayName)
    }

    /** The whole state the handlers and the main loop change, as one value. */
    function Now(): World
      reads this, host, proxy
    {
      World(Registration(), Reaping(), proxy.Persisted(), host.files, host.signals)
    }

    /** What stays fixed: the server's URL and the host's unreadable and unwritable paths. */
    function Environment(): Env {
      Env(serverUrl, host.unreadable, host.unwritable)
    }

    /** The initial globals and descriptor. */
    constructor (host: Host, serverUrl: string)
      requires host.Valid() && host.signals == []
      ensures Valid() && fresh(proxy)
      ensures this.host == host && this.serverUrl == serverUrl
      ensures proxy.Persisted() == Settings(None, None, None, 0, SIGTERM, None)
      ensures proxy.pid == 0 && proxy.clientError == None
      ensures Registration() == Session(None, None, false, None, None, None)
      ensures !dieNow && guiPid == 0 && !exited
    {
      proxy := new Proxy();
      this.host := host;
      this.serverUrl := serverUrl;
      nsmAddr, guiAddr, nsmIsActive, projectFile := None, None, false, None;
      dieNow := false;
      nsmClientId, nsmDisplayName := None, None;
      guiPid := 0;
      exited := false;
    }

    method Snapshot(file: Option<string>) returns (ok: bool)
      modifies host
      ensures ok == (DumpTarget(file) !in host.unwritable)
      ensures host.files == Dumped(old(host.files), host.unwritable, DumpTarget(file), proxy.Persisted())
      ensures host.signals == old(host.signals) && host.outbox == old(host.outbox)
      ensures host.forkScript == old(host.forkScript) && host.forks == old(host.forks)
    {
      ok := proxy.Dump(host, file);
    }

    /** Restore from `<file>/nsm-proxy.config`. */
    method Open(file: string) returns (ok: bool)
      requires Valid()
      modifies host, proxy
      ensures Valid()
      ensures ok == old(host.Contents(PathIn(file))).Some?
      ensures !ok ==> unchanged(proxy) && unchanged(host)
      ensures ok ==>
        var records := Records(old(host.Contents(PathIn(file))).value);
        var s := ApplyAll(old(proxy.Persisted()), records);
        var l := Launch(old(proxy.pid), s, nsmClientId, nsmDisplayName, old(host.forkScript), old(host.forks));
        proxy.Persisted() == s && proxy.clientError == old(proxy.clientError) &&
        host.files == Dumped(old(host.files), host.unwritable, DumpTarget(projectFile), s) &&
        host.outbox == old(host.outbox) + LabelNotices(nsmAddr, Labels(records)) &&
        host.signals == old(host.signals) &&
        proxy.pid == l.pid && host.forkScript == l.forkScript && host.forks == l.forks
      ensures ok ==> Now() == Restored(old(Now()), Environment(), old(host.Contents(PathIn(file))).value)
    {
      ok := proxy.Restore(this, PathIn(file));
    }

    method ShowGui()
      requires Valid()
      modifies this, host
      ensures Valid()
      ensures Reaping() == GuiShown(old(Reaping()), nsmAddr, serverUrl)
      ensures Registration() == old(Registration()) && exited == old(exited)
      ensures host.files == old(host.files) && host.signals == old(host.signals)
    {
      var pid := host.Fork(Gui(serverUrl));
      ConsistentAfterFork(proxy.pid, guiPid, old(host.forks), host.signals, ForkCall(Gui(serverUrl), pid));
      guiPid := pid;
      host.Send(nsmAddr, "/nsm/client/gui_is_shown", []);
    }

    /** Ask the GUI to terminate; its pid stays recorded until it is reaped. */
    method HideGui()
      requires Valid()
      modifies host
      ensures Valid()
      ensures host.signals == old(host.signals) + if guiPid != 0 then [SignalSent(guiPid, SIGTERM)] else []
      ensures host.files == old(host.files) && host.outbox == old(host.outbox)
      ensures host.forkScript == old(host.forkScript) && host.forks == old(host.forks)
    {
      if guiPid != 0 {
        ConsistentAfterSignal(proxy.pid, guiPid, host.forks, host.signals, guiPid, SIGTERM);
        host.Kill(guiPid, SIGTERM);
      }
    }

    /** `/nsm/client/save`: dump to the project, ask the proxied process to save, report whether the dump succeeded. */
    method OscSave(path: string)
      requires Valid()
      modifies host
      ensures Valid()
      ensures host.files == Dumped(old(host.files), host.unwritable, DumpTarget(projectFile), proxy.Persisted())
      ensures host.signals == old(host.signals) + if proxy.pid != 0 then [SignalSent(proxy.pid, proxy.saveSignal)] else []
      ensures host.outbox == old(host.outbox) +
        [if DumpTarget(projectFile) !in host.unwritable then Reply(nsmAddr, path)
         else Failure(nsmAddr, path, "Error saving project file")]
      ensures host.forkScript == old(host.forkScript) && host.forks == old(host.forks)
      ensures Now() == SaveEffect(old(Now()), Environment(), path)
    {
      var r := Snapshot(projectFile);
      if proxy.pid != 0 {
        ConsistentAfterSignal(proxy.pid, guiPid, host.forks, host.signals, proxy.pid, proxy.saveSignal);
      }
      proxy.Save(host);
      if r {
        host.Send(nsmAddr, "/reply", [Str(path), Str("OK")]);
      } else {
        host.Send(nsmAddr, "/error", [Str(path), Int(-1), Str("Error saving project file")]);
      }
    }

    /** `/nsm/client/show_optional_gui`. */
    method OscShowGui(path: string)
      requires Valid()
      modifies this, host
      ensures Valid()
      ensures var g := GuiShown(old(Reaping()), nsmAddr, serverUrl);
        Reaping() == g.(outbox := g.outbox + [Reply(nsmAddr, path)])
      ensures Registration() == old(Registration()) && exited == old(exited)
      ensures host.files == old(host.files) && host.signals == old(host.signals)
      ensures Now() == ShowGuiEffect(old(Now()), Environment(), path)
    {
      ShowGui();
      host.Send(nsmAddr, "/reply", [Str(path), Str("OK")]);
    }

    /** `/nsm/client/hide_optional_gui`: signal the GUI, then announce it hidden and reply. */
    method OscHideGui(path: string)
      requires Valid()
      modifies host
      ensures Valid()
      ensures host.signals == old(host.signals) + if guiPid != 0 then [SignalSent(guiPid, SIGTERM)] else []
      ensures host.outbox == old(host.outbox) + [Message(nsmAddr, "/nsm/client/gui_is_hidden", []), Reply(nsmAddr, path)]
      ensures host.files == old(host.files)
      ensures host.forkScript == old(host.forkScript) && host.forks == old(host.forks)
      ensures Now() == HideGuiEffect(old(Now()), path)
    {
      HideGui();
      host.Send(nsmAddr, "/nsm/client/gui_is_hidden", []);
      host.Send(nsmAddr, "/reply", [Str(path), Str("OK")]);
    }

    /** `/error` from the server: a failed announcement marks the proxy as not registered. */
    method OscAnnounceError(request: string)
      modifies this
      ensures Registration() == if request == "/nsm/server/announce" then old(Registration()).(nsmIsActive := false) else old(Registration())
      ensures Reaping() == old(Reaping()) && exited == old(exited)
      ensures Now() == AnnounceErrorEffect(old(Now()), request)
    {
      if request != "/nsm/server/announce" {
        return;
      }
      nsmIsActive := false;
    }

    /** `/reply` from the server: a successful announcement records the server's address. */
    method OscAnnounceReply(request: string, source: string)
      modifies this
      ensures Registration() ==
        if request == "/nsm/server/announce" then old(Registration()).(nsmIsActive := true, nsmAddr := Some(source))
        else old(Registration())
      ensures Reaping() == old(Reaping()) && exited == old(exited)
      ensures Now() == AnnounceReplyEffect(old(Now()), request, source)
    {
      if request != "/nsm/server/announce" {
        return;
      }
      nsmIsActive := true;
      nsmAddr := Some(source);
    }

    method OscLabel(s: string)
      requires Valid()
      modifies proxy, host
      ensures Valid()
      ensures proxy.Persisted() == old(proxy.Persisted()).(labelText := Some(s))
      ensures proxy.pid == old(proxy.pid) && proxy.clientError == old(proxy.clientError)
      ensures host.outbox == old(host.outbox) + [Message(nsmAddr, "/nsm/client/label", [Str(s)])]
      ensures host.files == old(host.files) && host.signals == old(host.signals)
      ensures host.forkScript == old(host.forkScript) && host.forks == old(host.forks)
      ensures Now() == LabelEffect(old(Now()), s)
    {
      proxy.Label(s, this);
    }

    method OscSaveSignal(sig: int)
      requires Valid()
      modifies proxy
      ensures Valid()
      ensures proxy.Persisted() == old(proxy.Persisted()).(saveSignal := sig)
      ensures proxy.pid == old(proxy.pid) && proxy.clientError == old(proxy.clientError)
      ensures Now() == old(Now()).(settings := old(proxy.Persisted()).(saveSignal := sig))
    {
      proxy.SetSaveSignal(sig);
    }

    method OscStopSignal(sig: int)
      requires Valid()
      modifies proxy
      ensures Valid()
      ensures proxy.Persisted() == old(proxy.Persisted()).(stopSignal := sig)
      ensures proxy.pid == old(proxy.pid) && proxy.clientError == old(proxy.clientError)
      ensures Now() == old(Now()).(settings := old(proxy.Persisted()).(stopSignal := sig))
    {
      proxy.SetStopSignal(sig);
    }

    /**
     * `/nsm/proxy/start` from the GUI: dump, take the new command line and
     * start; when the start succeeds, ask the GUI to go away.
     */
    method OscStart(exe: string, args: string, cfg: string)
      requires Valid()
      modifies host, proxy
      ensures Valid()
      ensures proxy.Persisted() == old(proxy.Persisted()).(executable := Some(exe), arguments := Some(args), configFile := Some(cfg))
      ensures proxy.clientError == old(proxy.clientError)
      ensures host.files == Dumped(old(host.files), host.unwritable, DumpTarget(projectFile), proxy.Persisted())
      ensures var l := Launch(old(proxy.pid), proxy.Persisted(), nsmClientId, nsmDisplayName, old(host.forkScript), old(host.forks));
        proxy.pid == l.pid && host.forkScript == l.forkScript && host.forks == l.forks &&
        host.signals == old(host.signals) + if l.ok && guiPid != 0 then [SignalSent(guiPid, SIGTERM)] else []
      ensures host.outbox == old(host.outbox)
      ensures Now() == StartEffect(old(Now()), Environment(), exe, args, cfg)
    {
      var snapshotted := Snapshot(projectFile);
      ghost var s0 := proxy.Persisted();
      ghost var files1 := host.files;
      var ok := proxy.StartWith(this, exe, Some(args), Some(cfg));
      DumpedTwice(old(host.files), host.unwritable, DumpTarget(projectFile), s0, proxy.Persisted());
      if ok {
        HideGui();
      }
    }

    method OscKill()
      requires Valid()
      modifies host
      ensures Valid()
      ensures host.signals == old(host.signals) + if proxy.pid != 0 then [SignalSent(proxy.pid, proxy.stopSignal)] else []
      ensures host.files == old(host.files) && host.outbox == old(host.outbox)
      ensures host.forkScript == old(host.forkScript) && host.forks == old(host.forks)
      ensures Now() == SignalIfSet(old(Now()), proxy.pid, proxy.stopSignal)
    {
      if proxy.pid != 0 {
        ConsistentAfterSignal(proxy.pid, guiPid, host.forks, host.signals, proxy.pid, proxy.stopSignal);
      }
      proxy.Kill(host);
    }

    /** `/nsm/proxy/update` from the GUI: report the state to it and remember it as the GUI. */
    method OscUpdate(source: string)
      requires Valid()
      modifies this, host
      ensures Valid()
      ensures host.outbox == old(host.outbox) + StateReport(Some(source), proxy.Persisted(), proxy.clientError)
      ensures Registration() == old(Registration()).(guiAddr := Some(source))
      ensures dieNow == old(dieNow) && guiPid == old(guiPid) && exited == old(exited)
      ensures host.files == old(host.files) && host.signals == old(host.signals)
      ensures host.forkScript == old(host.forkScript) && host.forks == old(host.forks)
      ensures Now() == UpdateEffect(old(Now()), source)
    {
      proxy.Update(host, Some(source));
      guiAddr := Some(source);
    }

    /** A termination signal (HUP, INT or TERM) only raises the shutdown flag. */
    method SignalHandler(sig: int)
      modifies this
      ensures dieNow
      ensures Registration() == old(Registration()) && guiPid == old(guiPid) && exited == old(exited)
    {
      dieNow := true;
    }

    /** `die`: signal the GUI and the proxied process, then exit. */
    method Die()
      requires Valid()
      modifies this, host
      ensures Valid()
      ensures exited
      ensures host.signals == old(host.signals) +
        (if guiPid != 0 then [SignalSent(guiPid, SIGTERM)] else []) +
        (if proxy.pid != 0 then [SignalSent(proxy.pid, proxy.stopSignal)] else [])
      ensures Reaping() == old(Reaping()) && Registration() == old(Registration())
      ensures host.files == old(host.files)
      ensures Now() == Died(old(Now()))
    {
      if guiPid != 0 {
        ConsistentAfterSignal(proxy.pid, guiPid, host.forks, host.signals, guiPid, SIGTERM);
        host.Kill(guiPid, SIGTERM);
      }
      ghost var mid := host.signals;
      if proxy.pid != 0 {
        ConsistentAfterSignal(proxy.pid, guiPid, host.forks, host.signals, proxy.pid, proxy.stopSignal);
      }
      proxy.Kill(host);
      exited := true;
    }

    /**
     * `/nsm/client/open`: take the client id and display name; restore and
     * start from the saved configuration when one exists (replying with an
     * error when it cannot be read), or show the GUI for a new session;
     * then adopt the new project path, reply, and refresh a known GUI.
     */
    method OscOpen(path: string, newPath: string, displayName: string, clientId: string)
      requires Valid()
      modifies this, host, proxy
      ensures Valid()
      ensures nsmClientId == Some(clientId) && nsmDisplayName == Some(displayName)
      ensures nsmAddr == old(nsmAddr) && guiAddr == old(guiAddr) && nsmIsActive == old(nsmIsActive)
      ensures dieNow == old(dieNow) && exited == old(exited)
      ensures host.signals == old(host.signals)
      ensures var file := PathIn(newPath);
        var report := if guiAddr.Some? then StateReport(guiAddr, proxy.Persisted(), proxy.clientError) else [];
        if file !in old(host.files) then
          var gui := NextPid(old(host.forkScript));
          projectFile == Some(newPath) &&
          proxy.Persisted() == old(proxy.Persisted()) && proxy.pid == old(proxy.pid) && proxy.clientError == old(proxy.clientError) &&
          host.files == old(host.files) &&
          guiPid == gui && host.forkScript == AfterFork(old(host.forkScript)) &&
          host.forks == old(host.forks) + [ForkCall(Gui(serverUrl), gui)] &&
          host.outbox == old(host.outbox) + [Message(nsmAddr, "/nsm/client/gui_is_shown", []), Reply(nsmAddr, path)] + report
        else if file in host.unreadable then
          projectFile == old(projectFile) && guiPid == old(guiPid) &&
          proxy.Persisted() == old(proxy.Persisted()) && proxy.pid == old(proxy.pid) && proxy.clientError == old(proxy.clientError) &&
          host.files == old(host.files) && host.forkScript == old(host.forkScript) && host.forks == old(host.forks) &&
          host.outbox == old(host.outbox) + [Failure(nsmAddr, path, "Could not open file")]
        else
          var records := Records(old(host.files)[file]);
          var s := ApplyAll(old(proxy.Persisted()), records);
          var l := Launch(old(proxy.pid), s, Some(clientId), Some(displayName), old(host.forkScript), old(host.forks));
          projectFile == Some(newPath) && guiPid == old(guiPid) &&
          proxy.Persisted() == s && proxy.clientError == old(proxy.clientError) &&
          proxy.pid == l.pid && host.forkScript == l.forkScript && host.forks == l.forks &&
          host.files == Dumped(old(host.files), host.unwritable, DumpTarget(old(projectFile)), s) &&
          host.outbox == old(host.outbox) + LabelNotices(nsmAddr, Labels(records)) +
            [Message(nsmAddr, "/nsm/client/gui_is_hidden", []), Reply(nsmAddr, path)] + report
      ensures Now() == OpenEffect(old(Now()), Environment(), path, newPath, displayName, clientId)
    {
      nsmClientId := Some(clientId);
      nsmDisplayName := Some(displayName);
      ghost var named := Now();
      assert named == old(Now()).(session := old(Now()).session.(nsmClientId := Some(clientId), nsmDisplayName := Some(displayName)));
      if host.Exists(PathIn(newPath)) {
        OpenSaved(path, newPath);
      } else {
        OpenNew(path, newPath);
      }
    }

    /** `/nsm/client/open` of a session with no saved configuration: show the GUI so the user can set one up. */
    method OpenNew(path: string, newPath: string)
      requires Valid() && PathIn(newPath) !in host.files
      modifies this, host
      ensures Valid()
      ensures nsmAddr == old(nsmAddr) && guiAddr == old(guiAddr) && nsmIsActive == old(nsmIsActive)
      ensures nsmClientId == old(nsmClientId) && nsmDisplayName == old(nsmDisplayName)
      ensures dieNow == old(dieNow) && exited == old(exited)
      ensures host.signals == old(host.signals)
      ensures var gui := NextPid(old(host.forkScript));
        projectFile == Some(newPath) &&
        host.files == old(host.files) &&
        guiPid == gui && host.forkScript == AfterFork(old(host.forkScript)) &&
        host.forks == old(host.forks) + [ForkCall(Gui(serverUrl), gui)] &&
        host.outbox == old(host.outbox) + [Message(nsmAddr, "/nsm/client/gui_is_shown", []), Reply(nsmAddr, path)] +
          if guiAddr.Some? then StateReport(guiAddr, proxy.Persisted(), proxy.clientError) else []
      ensures Now() == Opened(old(Now()), Environment(), path, newPath)
    {
      ShowGui();
      Adopt(path, newPath);
    }

    /** `/nsm/client/open` of a session with a saved configuration: restore and start from it. */
    method OpenSaved(path: string, newPath: string)
      requires Valid() && PathIn(newPath) in host.files
      modifies this, host, proxy
      ensures Valid()
      ensures nsmAddr == old(nsmAddr) && guiAddr == old(guiAddr) && nsmIsActive == old(nsmIsActive)
      ensures nsmClientId == old(nsmClientId) && nsmDisplayName == old(nsmDisplayName)
      ensures dieNow == old(dieNow) && exited == old(exited) && guiPid == old(guiPid)
      ensures host.signals == old(host.signals)
      ensures var file := PathIn(newPath);
        if file in host.unreadable then
          projectFile == old(projectFile) &&
          proxy.Persisted() == old(proxy.Persisted()) && proxy.pid == old(proxy.pid) && proxy.clientError == old(proxy.clientError) &&
          host.files == old(host.files) && host.forkScript == old(host.forkScript) && host.forks == old(host.forks) &&
          host.outbox == old(host.outbox) + [Failure(nsmAddr, path, "Could not open file")]
        else
          var records := Records(old(host.files)[file]);
          var s := ApplyAll(old(proxy.Persisted()), records);
          var l := Launch(old(proxy.pid), s, nsmClientId, nsmDisplayName, old(host.forkScript), old(host.forks));
          projectFile == Some(newPath) &&
          proxy.Persisted() == s && proxy.clientError == old(proxy.clientError) &&
          proxy.pid == l.pid && host.forkScript == l.forkScript && host.forks == l.forks &&
          host.files == Dumped(old(host.files), host.unwritable, DumpTarget(old(projectFile)), s) &&
          host.outbox == old(host.outbox) + LabelNotices(nsmAddr, Labels(records)) +
            [Message(nsmAddr, "/nsm/client/gui_is_hidden", []), Reply(nsmAddr, path)] +
            if guiAddr.Some? then StateReport(guiAddr, proxy.Persisted(), proxy.clientError) else []
      ensures Now() == Opened(old(Now()), Environment(), path, newPath)
    {
      var restored := Open(newPath);
      if !restored {
        host.Send(nsmAddr, "/error", [Str(path), Int(-1), Str("Could not open file")]);
        return;
      }
      AdoptRestored(path, newPath);
    }

    /** The end of `/nsm/client/open` once the saved configuration is running: the GUI is reported hidden. */
    method AdoptRestored(path: string, newPath: string)
      modifies this, host
      ensures projectFile == Some(newPath)
      ensures host.outbox == old(host.outbox) + [Message(nsmAddr, "/nsm/client/gui_is_hidden", []), Reply(nsmAddr, path)] +
        if guiAddr.Some? then StateReport(guiAddr, proxy.Persisted(), proxy.clientError) else []
      ensures nsmAddr == old(nsmAddr) && guiAddr == old(guiAddr) && nsmIsActive == old(nsmIsActive)
      ensures nsmClientId == old(nsmClientId) && nsmDisplayName == old(nsmDisplayName)
      ensures dieNow == old(dieNow) && guiPid == old(guiPid) && exited == old(exited)
      ensures host.files == old(host.files) && host.signals == old(host.signals)
      ensures host.forkScript == old(host.forkScript) && host.forks == old(host.forks)
      ensures Now() == Adopted(Sent(old(Now()), [Message(nsmAddr, "/nsm/client/gui_is_hidden", [])]), path, newPath)
    {
      host.Send(nsmAddr, "/nsm/client/gui_is_hidden", []);
      Adopt(path, newPath);
    }

    /** The end of a successful `/nsm/client/open`: take the new project path, reply, refresh a known GUI. */
    method Adopt(path: string, newPath: string)
      modifies this, host
      ensures projectFile == Some(newPath)
      ensures host.outbox == old(host.outbox) + [Reply(nsmAddr, path)] +
        if guiAddr.Some? then StateReport(guiAddr, proxy.Persisted(), proxy.clientError) else []
      ensures nsmAddr == old(nsmAddr) && guiAddr == old(guiAddr) && nsmIsActive == old(nsmIsActive)
      ensures nsmClientId == old(nsmClientId) && nsmDisplayName == old(nsmDisplayName)
      ensures dieNow == old(dieNow) && guiPid == old(guiPid) && exited == old(exited)
      ensures host.files == old(host.files) && host.signals == old(host.signals)
      ensures host.forkScript == old(host.forkScript) && host.forks == old(host.forks)
      ensures Now() == Adopted(old(Now()), path, newPath)
    {
      projectFile := Some(newPath);
      host.Send(nsmAddr, "/reply", [Str(path), Str("OK")]);
      if guiAddr.Some? {
        proxy.Update(host, guiAddr);
      } else {
        assert host.outbox + [] == host.outbox;
      }
    }

    /**
     * The server's dispatch of one inbound message: the first table entry
     * matching its path and exact type signature chooses the handler, which
     * gets the message's arguments; a message that matches no entry is dropped.
     */
    method Dispatch(m: Inbound)
      requires Valid()
      modifies this, host, proxy
      ensures Valid()
      ensures dieNow == old(dieNow) && exited == old(exited)
      ensures Lookup(m.path, Typespec(m.args)).None? ==> unchanged(this) && unchanged(host) && unchanged(proxy)
      ensures Now() == Dispatched(old(Now()), Environment(), m)
    {
      var types := Typespec(m.args);
      var handler := Lookup(m.path, types);
      if handler.None? {
        return;
      }
      var h := handler.value;
      RoutedSignature(m.path, types, h);
      if FromServer(h) {
        ServeServer(h, m);
      } else {
        ServeGui(h, m);
      }
    }

    /** Run the handler of a message from the session manager on its arguments. */
    method ServeServer(h: Handler, m: Inbound)
      requires Valid() && FromServer(h) && Typespec(m.args) == Signature(h)
      modifies this, host, proxy
      ensures Valid()
      ensures dieNow == old(dieNow) && exited == old(exited)
      ensures Now() == Handle(old(Now()), Environment(), h, m)
    {
      var args := m.args;
      match h
      case SaveRequest => OscSave(m.path);
      case OpenRequest => OscOpen(m.path, args[0].s, args[1].s, args[2].s);
      case ShowGuiRequest => OscShowGui(m.path);
      case HideGuiRequest => OscHideGui(m.path);
      case AnnounceError => OscAnnounceError(args[0].s);
      case AnnounceReply => OscAnnounceReply(args[0].s, m.source);
    }

    /** Run the handler of a message from the GUI on its arguments. */
    method ServeGui(h: Handler, m: Inbound)
      requires Valid() && !FromServer(h) && Typespec(m.args) == Signature(h)
      modifies this, host, proxy
      ensures Valid()
      ensures dieNow == old(dieNow) && exited == old(exited)
      ensures Now() == Handle(old(Now()), Environment(), h, m)
    {
      var args := m.args;
      match h
      case SetLabel => OscLabel(args[0].s);
      case SetSaveSignal => OscSaveSignal(args[0].i);
      case SetStopSignal => OscStopSignal(args[0].i);
      case KillRequest => OscKill();
      case StartRequest => OscStart(args[0].s, args[1].s, args[2].s);
      case UpdateRequest => OscUpdate(m.source);
    }

    /**
     * `handle_sigchld`: reap children until `waitpid` reports none; each
     * reaped child is handled as `ReapStep` says.
     */
    method HandleSigchld(reaped: seq<Reaped>)
      requires Valid()
      modifies this, host, proxy
      ensures Valid()
      ensures Reaping() == ReapAll(old(Reaping()), reaped, nsmAddr, serverUrl)
      ensures Registration() == old(Registration()) && exited == old(exited)
      ensures proxy.Persisted() == old(proxy.Persisted())
      ensures host.files == old(host.files) && host.signals == old(host.signals)
      ensures Now() == Reap(old(Now()), Environment(), reaped)
    {
      var i := 0;
      while i < |reaped| && reaped[i].pid > 0
        invariant 0 <= i <= |reaped|
        invariant Valid()
        invariant ReapAll(Reaping(), reaped[i..], nsmAddr, serverUrl) == ReapAll(old(Reaping()), reaped, nsmAddr, serverUrl)
        invariant Registration() == old(Registration()) && exited == old(exited)
        invariant proxy.Persisted() == old(proxy.Persisted())
        invariant host.files == old(host.files) && host.signals == old(host.signals)
        decreases |reaped| - i
      {
        var x := reaped[i];
        ghost var r0 := Reaping();
        assert reaped[i..][1..] == reaped[i + 1..];
        if x.pid == guiPid {
          host.Send(nsmAddr, "/nsm/client/gui_is_hidden", []);
          guiPid := 0;
        } else if Signaled(x.status) {
          if IsStopSignal(TermSig(x.status)) {
            dieNow := true;
          }
        } else if Exited(x.status) {
          if ExitCode(x.status) == 0 {
            dieNow := true;
          } else {
            proxy.HandleClientDeath(ExitCode(x.status), this);
          }
        }
        assert Reaping() == ReapStep(r0, x, nsmAddr, serverUrl);
        i := i + 1;
      }
    }

    /**
     * One pass of the main loop: handle a pending SIGCHLD, dispatch at most
     * one inbound message, and call `die` once the shutdown flag is up.
     */
    method Step(sigchld: bool, reaped: seq<Reaped>, inbound: Option<Inbound>)
      requires Valid() && !exited
      modifies this, host, proxy
      ensures Valid()
      ensures exited == if sigchld then ReapAll(old(Reaping()), reaped, old(nsmAddr), serverUrl).dieNow else old(dieNow)
      ensures var env := Environment();
        var afterReap := if sigchld then Reap(old(Now()), env, reaped) else old(Now());
        var served := if inbound.Some? then Dispatched(afterReap, env, inbound.value) else afterReap;
        exited == served.reaping.dieNow && Now() == if exited then Died(served) else served
    {
      if sigchld {
        HandleSigchld(reaped);
      }
      if inbound.Some? {
        Dispatch(inbound.value);
      }
      if dieNow {
        Die();
      }
    }
  }
}
