/**
 * `ProcessManager` of srott/srott.py: the system-port test and the three
 * lifecycle actions, each one signal sent with `os.kill`. Signal delivery is
 * an oracle `Os`; what is modelled is which signal each action sends and how
 * the outcome becomes the `(success, message)` pair.
 */
module Manager {
  import opened Wrappers
  import Strings

  datatype Signal = SIGCONT | SIGSTOP | SIGTERM | SIGKILL

  /** What `os.kill(pid, sig)` does: returns, or raises with the given text as `str(e)`. */
  datatype Delivery = Delivered | Raised(reason: string)

  type Os = (int, Signal) -> Delivery

  /** The `(success, message)` pair every action returns. */
  datatype ActionResult = ActionResult(success: bool, message: string)

  // ---------------------------------------------------------------------
  // is_system_port
  // ---------------------------------------------------------------------

  /**
   * `is_system_port(port)`: below 1024. On every valid port number this is
   * the System Ports range of section 6 of RFC 6335.
   */
  function IsSystemPort(port: int): (r: bool)
    ensures 0 <= port <= 65535 ==> (r <==> Rfc6335Kind(port) == SystemPort)
  {
    port < 1024
  }

  /** The three port ranges of section 6 of RFC 6335. */
  datatype PortKind = SystemPort | UserPort | DynamicPort

  function Rfc6335Kind(port: int): PortKind
    requires 0 <= port <= 65535
  {
    if port <= 1023 then SystemPort
    else if port <= 49151 then UserPort
    else DynamicPort
  }

  // ---------------------------------------------------------------------
  // start_process, pause_process, kill_process
  // ---------------------------------------------------------------------

  /** "Process <pid> <done>" */
  function SuccessMessage(pid: int, done: string): string
  {
    "Process " + Strings.IntToString(pid) + " " + done
  }

  /** "Failed to <verb> process <pid>: <reason>" */
  function FailureMessage(verb: string, pid: int, reason: string): string
  {
    "Failed to " + verb + " process " + Strings.IntToString(pid) + ": " + reason
  }

  /** One `os.kill` call and the pair it is reported as. */
  function Send(os: Os, pid: int, sig: Signal, done: string, verb: string): (r: ActionResult)
    ensures r.success <==> os(pid, sig).Delivered?
    ensures r.success ==> r.message == SuccessMessage(pid, done)
    ensures !r.success ==> r.message == FailureMessage(verb, pid, os(pid, sig).reason)
  {
    match os(pid, sig)
    case Delivered => ActionResult(true, SuccessMessage(pid, done))
    case Raised(reason) => ActionResult(false, FailureMessage(verb, pid, reason))
  }

  /** `start_process(pid)`: resume with SIGCONT. */
  function StartProcess(pid: int, os: Os): (r: ActionResult)
    ensures r.success <==> os(pid, SIGCONT).Delivered?
  {
    Send(os, pid, SIGCONT, "resumed successfully", "resume")
  }

  /** `pause_process(pid)`: suspend with SIGSTOP. */
  function PauseProcess(pid: int, os: Os): (r: ActionResult)
    ensures r.success <==> os(pid, SIGSTOP).Delivered?
  {
    Send(os, pid, SIGSTOP, "paused successfully", "pause")
  }

  /** `kill_process(pid, force)`: SIGKILL when forced, SIGTERM otherwise. */
  function KillProcess(pid: int, force: bool, os: Os): (r: ActionResult)
    ensures r.success <==> os(pid, if force then SIGKILL else SIGTERM).Delivered?
  {
    if force then Send(os, pid, SIGKILL, "killed successfully", "kill")
    else Send(os, pid, SIGTERM, "killed successfully", "kill")
  }

  /**
   * An action reports failure, and never raises, when the signal cannot be
   * delivered; the message carries the pid and the reason. Repeating a kill
   * on a process that is gone repeats the same failure.
   */
  lemma FailureIsReported(pid: int, force: bool, os: Os, reason: string)
    requires os(pid, if force then SIGKILL else SIGTERM) == Raised(reason)
    ensures KillProcess(pid, force, os) == ActionResult(false, FailureMessage("kill", pid, reason))
  {
  }

  /** The messages name the pid so that it can be read back. */
  lemma {:induction false} SuccessMessageNamesPid(pid: int, os: Os)
    requires os(pid, SIGCONT).Delivered?
    ensures var m := StartProcess(pid, os).message;
      var digits := Strings.IntToString(pid);
      |m| > 8 + |digits| && m[8..8 + |digits|] == digits && Strings.ParseInt(m[8..8 + |digits|]) == Some(pid)
  {
    var digits := Strings.IntToString(pid);
    var m := StartProcess(pid, os).message;
    assert m == "Process " + digits + " resumed successfully";
    assert m[8..8 + |digits|] == digits;
    Strings.ParseIntToString(pid);
  }
}
