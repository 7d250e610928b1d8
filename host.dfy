/**
 * The operating-system and network effects of the proxy, recorded instead of
 * performed: the file system as a map from path to text, `fork` as a
 * pre-chosen sequence of results, and logs of every `fork`, `kill` and
 * `lo_send_from` call in the order they were made.
 */
module Host {
  import opened Wrappers
  import opened Osc

  /** What a forked child goes on to run. */
  datatype Program =
    | Shell(command: string, clientId: Option<string>, sessionName: Option<string>, configFile: Option<string>)
      // `/bin/sh -c command` with NSM_CLIENT_ID, NSM_SESSION_NAME and (when set) CONFIG_FILE in its environment
    | Gui(connectTo: string)
      // `nsm-proxy-gui --connect-to <url>`

  /** One call of `fork`, with the value it returned to the parent. */
  datatype ForkCall = ForkCall(program: Program, pid: int)

  /** One call of `kill(pid, sig)`. */
  datatype SignalSent = SignalSent(pid: int, sig: int)

  /** A value `fork` can return to the parent: a child's process id, or -1 on failure. */
  predicate ForkResult(pid: int) {
    pid > 0 || pid == -1
  }

  /** What the next `fork` returns: the head of the script, or failure once it is used up. */
  function NextPid(script: seq<int>): (pid: int)
    ensures script != [] ==> pid == script[0]
    ensures script == [] ==> pid == -1
  {
    if script == [] then -1 else script[0]
  }

  /** The script left for the `fork` calls after the next one. */
  function AfterFork(script: seq<int>): (rest: seq<int>)
    ensures script != [] ==> script == [script[0]] + rest
    ensures script == [] ==> rest == []
  {
    if script == [] then [] else script[1..]
  }

  /** `pid` was returned by some recorded `fork` call, of the GUI (`gui`) or of the shell. */
  predicate ForkedAs(forks: seq<ForkCall>, pid: int, gui: bool) {
    exists i :: 0 <= i < |forks| && forks[i].pid == pid && forks[i].program.Gui? == gui
  }

  /** `pid` was returned by some recorded `fork` call. */
  predicate Forked(forks: seq<ForkCall>, pid: int) {
    ForkedAs(forks, pid, true) || ForkedAs(forks, pid, false)
  }

  lemma ForkedAsGrows(forks: seq<ForkCall>, c: ForkCall, pid: int, gui: bool)
    ensures ForkedAs(forks, pid, gui) ==> ForkedAs(forks + [c], pid, gui)
    ensures ForkedAs(forks + [c], c.pid, c.program.Gui?)
  {
    var fs := forks + [c];
    assert fs[|forks|] == c;
    if ForkedAs(forks, pid, gui) {
      var i :| 0 <= i < |forks| && forks[i].pid == pid && forks[i].program.Gui? == gui;
      assert fs[i] == forks[i];
    }
  }

  class Host {
    var files: map<string, string>
    /** Paths `fopen(path, "r")` fails on although they exist (no read permission). */
    const unreadable: set<string>
    /** Paths `fopen(path, "w")` fails on. */
    const unwritable: set<string>
    var forkScript: seq<int>
    var forks: seq<ForkCall>
    var signals: seq<SignalSent>
    var outbox: seq<Message>

    ghost predicate Valid()
      reads this
    {
      forall i :: 0 <= i < |forkScript| ==> ForkResult(forkScript[i])
    }

    constructor (files: map<string, string>, unreadable: set<string>, unwritable: set<string>, forkScript: seq<int>)
      requires forall i :: 0 <= i < |forkScript| ==> ForkResult(forkScript[i])
      ensures Valid()
      ensures this.files == files && this.unreadable == unreadable && this.unwritable == unwritable
      ensures this.forkScript == forkScript
      ensures forks == [] && signals == [] && outbox == []
    {
      this.files := files;
      this.unreadable := unreadable;
      this.unwritable := unwritable;
      this.forkScript := forkScript;
      forks := [];
      signals := [];
      outbox := [];
    }

    /** `stat(path)` succeeds. */
    predicate Exists(path: string)
      reads this
    {
      path in files
    }

    /** The text `fopen(path, "r")` gives access to, or `None` when it fails. */
    function Contents(path: string): (r: Option<string>)
      reads this
      ensures r.Some? <==> path in files && path !in unreadable
      ensures r.Some? ==> r.value == files[path]
    {
      if path in files && path !in unreadable then Some(files[path]) else None
    }

    method Fork(p: Program) returns (pid: int)
      requires Valid()
      modifies this
      ensures Valid()
      ensures ForkResult(pid)
      ensures pid == NextPid(old(forkScript)) && forkScript == AfterFork(old(forkScript))
      ensures forks == old(forks) + [ForkCall(p, pid)]
      ensures files == old(files) && signals == old(signals) && outbox == old(outbox)
    {
      pid := NextPid(forkScript);
      forkScript := AfterFork(forkScript);
      forks := forks + [ForkCall(p, pid)];
    }

    method Kill(pid: int, sig: int)
      modifies this
      ensures signals == old(signals) + [SignalSent(pid, sig)]
      ensures files == old(files) && forkScript == old(forkScript) && forks == old(forks) && outbox == old(outbox)
    {
      signals := signals + [SignalSent(pid, sig)];
    }

    method Send(to: Option<string>, path: string, args: seq<Arg>)
      modifies this
      ensures outbox == old(outbox) + [Message(to, path, args)]
      ensures files == old(files) && forkScript == old(forkScript) && forks == old(forks) && signals == old(signals)
    {
      outbox := outbox + [Message(to, path, args)];
    }

    /** `fopen(path, "w")`, then writing `text` and closing; false when the open fails. */
    method Write(path: string, text: string) returns (ok: bool)
      modifies this
      ensures ok == (path !in unwritable)
      ensures files == if ok then old(files)[path := text] else old(files)
      ensures forkScript == old(forkScript) && forks == old(forks) && signals == old(signals) && outbox == old(outbox)
    {
      ok := path !in unwritable;
      if ok {
        files := files[path := text];
      }
    }
  }
}
