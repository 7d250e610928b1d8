/**
 * The decisions of the proxy in pure form: how `start` launches the proxied
 * process, the error text `handle_client_death` records, what `handle_sigchld`
 * does for each reaped child, and the messages `update` and `label` send.
 * The methods of `NsmProxy` are proved to follow these functions.
 */
module ProxyLogic {
  import opened Wrappers
  import opened Text
  import opened Osc
  import opened WaitStatus
  import opened ConfigFile
  import opened Host

  /**
   * The shell command `start` hands to `/bin/sh -c`: the executable, a space,
   * the arguments (none when unset), then the output redirection.
   */
  function LaunchCommand(executable: string, arguments: Option<string>): (cmd: string)
    ensures cmd == "exec " + executable + " " + arguments.GetOr("") + " >error.log 2>&1"
  {
    if arguments.Some? then "exec " + executable + " " + arguments.value + " >error.log 2>&1"
    else "exec " + executable + "  >error.log 2>&1"
  }

  /** Empty arguments and no arguments launch the same command. */
  lemma LaunchCommandNoArguments(executable: string)
    ensures LaunchCommand(executable, Some("")) == LaunchCommand(executable, None)
  {
    assert "exec " + executable + " " + "" == "exec " + executable + " ";
  }

  /** The outcome of `start(void)` after its dump: its result, the stored pid and the updated fork records. */
  datatype Launched = Launched(ok: bool, pid: int, forkScript: seq<int>, forks: seq<ForkCall>)

  /**
   * `start(void)` past the dump: nothing when a pid is stored (reported as
   * running), failure without an executable, otherwise one `fork` of the
   * shell command whose result is stored, succeeding when it is a real pid.
   */
  function Launch(pid: int, s: Settings, clientId: Option<string>, session: Option<string>,
                  script: seq<int>, forks: seq<ForkCall>): Launched
  {
    if pid != 0 then Launched(true, pid, script, forks)
    else if s.executable.None? then Launched(false, pid, script, forks)
    else
      var child := NextPid(script);
      var program := Shell(LaunchCommand(s.executable.value, s.arguments), clientId, session, s.configFile);
      Launched(child > 0, child, AfterFork(script), forks + [ForkCall(program, child)])
  }

  /**
   * `start` succeeds exactly when a process is already recorded, or an
   * executable is set and `fork` returns a child; it forks at most once, and
   * only when no pid was recorded and an executable is set.
   */
  lemma LaunchOutcome(pid: int, s: Settings, clientId: Option<string>, session: Option<string>,
                      script: seq<int>, forks: seq<ForkCall>)
    ensures var r := Launch(pid, s, clientId, session, script, forks);
      (r.ok <==> pid != 0 || (s.executable.Some? && script != [] && script[0] > 0)) &&
      (|r.forks| == |forks| + 1 <==> pid == 0 && s.executable.Some?) &&
      (|r.forks| == |forks| || |r.forks| == |forks| + 1) &&
      forks <= r.forks &&
      (r.ok ==> r.pid != 0) &&
      (|r.forks| == |forks| ==> r.pid == pid && r.forkScript == script && r.forks == forks) &&
      (|r.forks| == |forks| + 1 ==>
         r.pid == NextPid(script) && r.ok == (r.pid > 0) && r.forkScript == AfterFork(script) &&
         r.forks[|forks|].pid == r.pid && r.forks[|forks|].program.Shell?)
  {
  }

  /** Starting again after a start that recorded a pid changes nothing, whatever the settings are by then. */
  lemma LaunchTwice(pid: int, s: Settings, s2: Settings, clientId: Option<string>, session: Option<string>,
                    c2: Option<string>, n2: Option<string>, script: seq<int>, forks: seq<ForkCall>)
    requires Launch(pid, s, clientId, session, script, forks).pid != 0
    ensures var r := Launch(pid, s, clientId, session, script, forks);
      Launch(r.pid, s2, c2, n2, r.forkScript, r.forks) == Launched(true, r.pid, r.forkScript, r.forks)
  {
  }

  /**
   * A failed `fork` stores -1, so every later `start` reports success and
   * never forks again.
   */
  lemma LaunchAfterFailedFork(s: Settings, clientId: Option<string>, session: Option<string>,
                              script: seq<int>, forks: seq<ForkCall>)
    requires s.executable.Some?
    requires script == [] || script[0] == -1
    ensures var r := Launch(0, s, clientId, session, script, forks);
      !r.ok && r.pid == -1 && |r.forks| == |forks| + 1 &&
      Launch(r.pid, s, clientId, session, r.forkScript, r.forks).ok &&
      Launch(r.pid, s, clientId, session, r.forkScript, r.forks).forks == r.forks
  {
  }

  const ClientErrorPrefix := "The proxied process terminated abnormally during invocation. Exit status: "

  /** The text `handle_client_death(status)` stores as the client error. */
  function ClientErrorText(status: int): string {
    ClientErrorPrefix + IntToString(status) + "."
  }

  /** The exit status can be read back from the error text. */
  lemma ClientErrorStatus(status: int)
    ensures ClientErrorPrefix <= ClientErrorText(status)
    ensures Atoi(ClientErrorText(status)[|ClientErrorPrefix|..]) == status
  {
    var t := ClientErrorText(status);
    assert t == ClientErrorPrefix + (IntToString(status) + ".");
    assert t[|ClientErrorPrefix|..] == IntToString(status) + ".";
    AtoiIntToString(status, ".");
  }

  /** The file map after `dump` wrote the record text of `s` to `target` (unchanged when it cannot be opened). */
  function Dumped(files: map<string, string>, unwritable: set<string>, target: string, s: Settings): (r: map<string, string>)
    ensures target !in unwritable ==> target in r && r[target] == Render(s)
    ensures forall p :: p in files && p != target ==> p in r && r[p] == files[p]
    ensures forall p :: p in r ==> p in files || p == target
  {
    if target in unwritable then files else files[target := Render(s)]
  }

  /** A second dump to the same file replaces the first. */
  lemma DumpedTwice(files: map<string, string>, unwritable: set<string>, target: string, a: Settings, b: Settings)
    ensures Dumped(Dumped(files, unwritable, target, a), unwritable, target, b) == Dumped(files, unwritable, target, b)
  {
  }

  /** The `/nsm/client/label` notices `label` sends for each label in turn. */
  function LabelNotices(to: Option<string>, labels: seq<string>): (r: seq<Message>)
    ensures |r| == |labels|
  {
    if labels == [] then [] else [Message(to, "/nsm/client/label", [Str(labels[0])])] + LabelNotices(to, labels[1..])
  }

  /** The `k`th label notice carries the `k`th label, to the NSM address. */
  lemma {:induction false} LabelNoticesAt(to: Option<string>, labels: seq<string>)
    ensures forall k :: 0 <= k < |labels| ==> LabelNotices(to, labels)[k] == Message(to, "/nsm/client/label", [Str(labels[k])])
    decreases |labels|
  {
    if labels != [] {
      LabelNoticesAt(to, labels[1..]);
      assert forall k :: 1 <= k < |labels| ==> labels[1..][k - 1] == labels[k];
    }
  }

  /** The positive reply to a request from the session manager. */
  function Reply(to: Option<string>, path: string): Message {
    Message(to, "/reply", [Str(path), Str("OK")])
  }

  /** The error reply to a request from the session manager, with error code -1. */
  function Failure(to: Option<string>, path: string, text: string): Message {
    Message(to, "/error", [Str(path), Int(-1), Str(text)])
  }

  /** The seven messages `update` sends, with "" for each unset text field. */
  function StateReport(to: Option<string>, s: Settings, clientError: Option<string>): seq<Message> {
    [Message(to, "/nsm/proxy/save_signal", [Int(s.saveSignal)]),
     Message(to, "/nsm/proxy/label", [Str(s.labelText.GetOr(""))]),
     Message(to, "/nsm/proxy/executable", [Str(s.executable.GetOr(""))]),
     Message(to, "/nsm/proxy/arguments", [Str(s.arguments.GetOr(""))]),
     Message(to, "/nsm/proxy/config_file", [Str(s.configFile.GetOr(""))]),
     Message(to, "/nsm/proxy/stop_signal", [Int(s.stopSignal)]),
     Message(to, "/nsm/proxy/client_error", [Str(clientError.GetOr(""))])]
  }

  /**
   * The save signal, label and stop signal messages of the report are ones
   * the proxy itself accepts, each routed to the handler that sets the field
   * it reports.
   */
  lemma ReportRoutes(to: Option<string>, s: Settings, clientError: Option<string>)
    ensures var r := StateReport(to, s, clientError);
      |r| == 7 &&
      Lookup(r[0].path, Typespec(r[0].args)) == Some(SetSaveSignal) &&
      Lookup(r[1].path, Typespec(r[1].args)) == Some(SetLabel) &&
      Lookup(r[5].path, Typespec(r[5].args)) == Some(SetStopSignal)
  {
    var r := StateReport(to, s, clientError);
    assert Typespec(r[0].args) == Table[7].types;
    assert Typespec(r[1].args) == Table[6].types;
    assert Typespec(r[5].args) == Table[8].types;
    LookupRoute(6);
    LookupRoute(7);
    LookupRoute(8);
  }

  /** One `waitpid` result: the child's pid (0 or -1 when there is none) and its status word. */
  datatype Reaped = Reaped(pid: int, status: Status)

  /** The part of the state `handle_sigchld` reads and writes. */
  datatype Reaper = Reaper(
    guiPid: int,
    dieNow: bool,
    pid: int,
    clientError: Option<string>,
    forkScript: seq<int>,
    forks: seq<ForkCall>,
    outbox: seq<Message>)

  /** `show_gui`: fork the GUI, store what `fork` returned as its pid, announce it shown. */
  function GuiShown(r: Reaper, nsmAddr: Option<string>, serverUrl: string): Reaper {
    var gui := NextPid(r.forkScript);
    r.(guiPid := gui,
       forkScript := AfterFork(r.forkScript),
       forks := r.forks + [ForkCall(Gui(serverUrl), gui)],
       outbox := r.outbox + [Message(nsmAddr, "/nsm/client/gui_is_shown", [])])
  }

  /** `handle_client_death(code)`: record the error text, show the GUI, forget the pid. */
  function ClientDeath(r: Reaper, code: int, nsmAddr: Option<string>, serverUrl: string): Reaper {
    GuiShown(r.(clientError := Some(ClientErrorText(code))), nsmAddr, serverUrl).(pid := 0)
  }

  /**
   * One pass of the `handle_sigchld` loop for a reaped child: the GUI's exit
   * is announced as hidden and forgotten; otherwise the child is taken to be
   * the proxied process, and its death by TERM, HUP, INT or KILL or its exit
   * with status 0 raises the shutdown flag, an exit with any other status is
   * a client death, and anything else is ignored.
   */
  function ReapStep(r: Reaper, x: Reaped, nsmAddr: Option<string>, serverUrl: string): Reaper {
    if x.pid == r.guiPid then
      r.(outbox := r.outbox + [Message(nsmAddr, "/nsm/client/gui_is_hidden", [])], guiPid := 0)
    else
      match Classify(x.status)
      case Shutdown => r.(dieNow := true)
      case Ignore => r
      case Abnormal(code) => ClientDeath(r, code, nsmAddr, serverUrl)
  }

  /** The whole `handle_sigchld` loop: one step per reaped child, up to the first result without a child. */
  function ReapAll(r: Reaper, rs: seq<Reaped>, nsmAddr: Option<string>, serverUrl: string): Reaper
    decreases |rs|
  {
    if rs == [] || rs[0].pid <= 0 then r
    else ReapAll(ReapStep(r, rs[0], nsmAddr, serverUrl), rs[1..], nsmAddr, serverUrl)
  }

  /**
   * Reaping never lowers the shutdown flag, only ever clears the proxied pid,
   * and only appends to the fork and message logs.
   */
  lemma {:induction false} ReapAllMonotone(r: Reaper, rs: seq<Reaped>, nsmAddr: Option<string>, serverUrl: string)
    ensures var q := ReapAll(r, rs, nsmAddr, serverUrl);
      (r.dieNow ==> q.dieNow) && (q.pid == r.pid || q.pid == 0) &&
      r.forks <= q.forks && r.outbox <= q.outbox
    decreases |rs|
  {
    if rs != [] && rs[0].pid > 0 {
      var r1 := ReapStep(r, rs[0], nsmAddr, serverUrl);
      ReapAllMonotone(r1, rs[1..], nsmAddr, serverUrl);
    }
  }

  /** The cases of `ReapStep`, for a child the GUI is not: which status does what. */
  lemma ReapExit(r: Reaper, pid: int, code: int, nsmAddr: Option<string>, serverUrl: string)
    requires pid != r.guiPid
    requires 0 <= code < 0x100
    ensures var q := ReapStep(r, Reaped(pid, ExitedWith(code)), nsmAddr, serverUrl);
      if code == 0 then q == r.(dieNow := true)
      else
        q.pid == 0 && q.dieNow == r.dieNow &&
        q.clientError == Some(ClientErrorText(code)) &&
        q.guiPid == NextPid(r.forkScript) &&
        q.forks == r.forks + [ForkCall(Gui(serverUrl), q.guiPid)] &&
        q.outbox == r.outbox + [Message(nsmAddr, "/nsm/client/gui_is_shown", [])]
  {
    ClassifyExit(code);
  }

  lemma ReapKilled(r: Reaper, pid: int, sig: int, core: bool, nsmAddr: Option<string>, serverUrl: string)
    requires pid != r.guiPid
    requires 0 < sig < 0x7f
    ensures ReapStep(r, Reaped(pid, KilledBy(sig, core)), nsmAddr, serverUrl) ==
      if IsStopSignal(sig) then r.(dieNow := true) else r
  {
    ClassifyKill(sig, core);
  }

  /** The GUI's exit, whatever its status, only announces the GUI hidden and forgets its pid. */
  lemma ReapGui(r: Reaper, st: Status, nsmAddr: Option<string>, serverUrl: string)
    ensures ReapStep(r, Reaped(r.guiPid, st), nsmAddr, serverUrl) ==
      r.(outbox := r.outbox + [Message(nsmAddr, "/nsm/client/gui_is_hidden", [])], guiPid := 0)
  {
  }

  /** An abnormal exit leaves an error text that names its exit status. */
  lemma ReapAbnormalReports(r: Reaper, pid: int, code: int, nsmAddr: Option<string>, serverUrl: string)
    requires pid != r.guiPid
    requires 0 < code < 0x100
    ensures var q := ReapStep(r, Reaped(pid, ExitedWith(code)), nsmAddr, serverUrl);
      q.clientError.Some? && ClientErrorPrefix <= q.clientError.value &&
      Atoi(q.clientError.value[|ClientErrorPrefix|..]) == code
  {
    ReapExit(r, pid, code, nsmAddr, serverUrl);
    ClientErrorStatus(code);
  }
}
