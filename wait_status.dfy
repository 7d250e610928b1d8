/**
 * Linux signal numbers and the `waitpid` status word, with the glibc
 * definitions of the macros `handle_sigchld` tests, and the classification of
 * a proxied-process exit that `handle_sigchld` performs.
 */
module WaitStatus {

  const SIGHUP := 1
  const SIGINT := 2
  const SIGKILL := 9
  const SIGTERM := 15

  /** A status word as `waitpid` stores it: 16 bits. */
  type Status = x: int | 0 <= x < 0x1_0000

  /** `WIFEXITED`: the low seven bits are zero. */
  predicate Exited(st: Status) {
    st % 0x80 == 0
  }

  /** `WEXITSTATUS`: bits 8 to 15. */
  function ExitCode(st: Status): int {
    (st / 0x100) % 0x100
  }

  /** `WIFSIGNALED`: the low seven bits name a signal (neither 0 nor the stopped marker 0x7f). */
  predicate Signaled(st: Status) {
    st % 0x80 != 0 && st % 0x80 != 0x7f
  }

  /** `WTERMSIG`: the low seven bits. */
  function TermSig(st: Status): int {
    st % 0x80
  }

  /** The status of a child that called `exit(code)`. */
  function ExitedWith(code: int): Status
    requires 0 <= code < 0x100
  {
    code * 0x100
  }

  /** The status of a child killed by signal `sig`, with or without a core dump. */
  function KilledBy(sig: int, core: bool): Status
    requires 0 < sig < 0x7f
  {
    sig + if core then 0x80 else 0
  }

  /** The signals after which the proxied process is taken to have been stopped on purpose. */
  predicate IsStopSignal(sig: int) {
    sig == SIGTERM || sig == SIGHUP || sig == SIGINT || sig == SIGKILL
  }

  /** What `handle_sigchld` does about an exit of the proxied process. */
  datatype Verdict =
    | Shutdown          // set the shutdown flag
    | Abnormal(code: int)  // report it through `handle_client_death(code)`
    | Ignore            // do nothing

  function Classify(st: Status): (v: Verdict)
    ensures v.Abnormal? <==> Exited(st) && ExitCode(st) != 0
    ensures v.Abnormal? ==> v.code == ExitCode(st) && 0 < v.code < 0x100
    ensures v.Shutdown? <==> (Signaled(st) && IsStopSignal(TermSig(st))) || (Exited(st) && ExitCode(st) == 0)
  {
    if Signaled(st) then
      if IsStopSignal(TermSig(st)) then Shutdown else Ignore
    else if Exited(st) then
      if ExitCode(st) == 0 then Shutdown else Abnormal(ExitCode(st))
    else Ignore
  }

  /** An exit status is reported as a shutdown when it is 0 and as abnormal otherwise. */
  lemma ClassifyExit(code: int)
    requires 0 <= code < 0x100
    ensures Exited(ExitedWith(code)) && !Signaled(ExitedWith(code))
    ensures ExitCode(ExitedWith(code)) == code
    ensures Classify(ExitedWith(code)) == if code == 0 then Shutdown else Abnormal(code)
  {
    var st := code * 0x100;
    assert st % 0x80 == 0 by {
      assert st == (code * 2) * 0x80;
    }
    assert st / 0x100 == code;
  }

  /** A death by signal is a shutdown for TERM, HUP, INT and KILL and ignored for every other signal. */
  lemma ClassifyKill(sig: int, core: bool)
    requires 0 < sig < 0x7f
    ensures Signaled(KilledBy(sig, core)) && !Exited(KilledBy(sig, core))
    ensures TermSig(KilledBy(sig, core)) == sig
    ensures Classify(KilledBy(sig, core)) == if IsStopSignal(sig) then Shutdown else Ignore
  {
  }

  /** Every status is a normal exit, a death by signal, or neither (a stopped or continued child), never both. */
  lemma ExitOrSignal(st: Status)
    ensures !(Exited(st) && Signaled(st))
    ensures Exited(st) ==> st / 0x100 == ExitCode(st)
    ensures Signaled(st) ==> exists core: bool :: st % 0x100 == KilledBy(TermSig(st), core)
  {
    if Signaled(st) {
      var core := st % 0x100 >= 0x80;
      assert st % 0x100 == KilledBy(TermSig(st), core);
    }
  }
}
