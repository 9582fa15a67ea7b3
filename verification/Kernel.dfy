/** What the supervising parent sees of the kernel: one child, the child's
    unreported state change, and the parent's blocked and pending signals.

    There is one slot for an unreported change, as waitpid offers one; a newer
    change replaces an older one. A pending signal is a bit, so several SIGCHLD
    coalesce. A signal that is not blocked when it arrives leaves no trace. */
module Kernel {
  import opened Common

  const SIGHUP := 1
  const SIGINT := 2
  const SIGQUIT := 3
  const SIGKILL := 9
  const SIGALRM := 14
  const SIGTERM := 15
  const SIGCHLD := 17
  const SIGCONT := 18
  const SIGSTOP := 19
  const SIGTSTP := 20
  const SIGWINCH := 28

  /** How a process ended. */
  datatype Ending = Exited(code: int) | Killed(sig: int)

  /** The status `runas` reports for an ended child. */
  function Status(how: Ending): int {
    match how
    case Exited(code) => code
    case Killed(sig) => 128 + sig
  }

  datatype Fate =
    | Running
    | Stopped
    | Zombie(how: Ending)
    | Reaped(how: Ending)   // waited for by this parent
    | Stolen(how: Ending)   // waited for by somebody else

  datatype Notice = StoppedBy(sig: int) | Resumed | Ended(how: Ending)

  datatype Kernel = Kernel(fate: Fate, notice: Option<Notice>, mask: set<int>, pending: set<int>)

  /** Things that happen outside the parent. Any signal may also arrive from
      somebody else, SIGCHLD too: sent with kill, or from a child that the process
      had before. */
  datatype Event =
    | Stops(sig: int)
    | Resumes
    | Ends(how: Ending)
    | Steals
    | Arrives(sig: int)

  function Raise(k: Kernel, sig: int): Kernel {
    // A continue and the stop signals discard each other while pending.
    var rest := if sig == SIGCONT then k.pending - {SIGTSTP}
                else if sig == SIGTSTP then k.pending - {SIGCONT} else k.pending;
    k.(pending := if sig in k.mask then rest + {sig} else rest)
  }

  function Report(k: Kernel, fate: Fate, notice: Notice): Kernel {
    Raise(k.(fate := fate, notice := Some(notice)), SIGCHLD)
  }

  /** One event; one that cannot happen now changes nothing. */
  function Happen(k: Kernel, e: Event): Kernel {
    match e
    case Stops(sig) => if k.fate.Running? then Report(k, Stopped, StoppedBy(sig)) else k
    case Resumes => if k.fate.Stopped? then Report(k, Running, Resumed) else k
    case Ends(how) => if k.fate.Running? || k.fate.Stopped? then Report(k, Zombie(how), Ended(how)) else k
    case Steals => if k.fate.Zombie? then k.(fate := Stolen(k.fate.how), notice := None) else k
    case Arrives(sig) => Raise(k, sig)
  }

  datatype WaitResult = Changed(notice: Notice) | StillAlive | NoChild

  /** waitpid with WNOHANG, WUNTRACED and WCONTINUED. */
  function WaitPid(k: Kernel): (WaitResult, Kernel) {
    if k.fate.Reaped? || k.fate.Stolen? then (NoChild, k)
    else if k.notice == None then (StillAlive, k)
    else
      var fate := if k.notice.value.Ended? then Reaped(k.notice.value.how) else k.fate;
      (Changed(k.notice.value), k.(fate := fate, notice := None))
  }

  predicate Sane(k: Kernel) {
    match k.fate
    case Running => k.notice == None || k.notice == Some(Resumed)
    case Stopped => k.notice == None || k.notice.value.StoppedBy?
    case Zombie(how) => k.notice == Some(Ended(how))
    case _ => k.notice == None
  }

  /** Something a waitpid call would tell the parent. */
  predicate Unreported(k: Kernel) {
    k.notice.Some? || k.fate.Stolen?
  }

  /** SIGCHLD is blocked, and pending whenever a change is unreported. */
  predicate Armed(k: Kernel) {
    && SIGCHLD in k.mask
    && (Unreported(k) ==> SIGCHLD in k.pending)
  }

  predicate Alive(k: Kernel) {
    k.fate.Running? || k.fate.Stopped?
  }

  /** The same for the child's end alone. */
  predicate EndArmed(k: Kernel) {
    && SIGCHLD in k.mask
    && (k.fate.Zombie? || k.fate.Stolen? ==> SIGCHLD in k.pending)
  }

  /** Nothing but the child's end has raised the pending SIGCHLD, if any. */
  predicate Single(k: Kernel) {
    !k.fate.Stolen? && (SIGCHLD in k.pending ==> k.fate.Zombie?)
  }

  /** A stop, a resumption or an end that happens while SIGCHLD is blocked
      cannot be lost, whatever else happens around it. */
  lemma EventsKeepArmed(k: Kernel, e: Event)
    requires Sane(k)
    ensures Sane(Happen(k, e)) && Happen(k, e).mask == k.mask
    ensures Armed(k) ==> Armed(Happen(k, e))
    ensures EndArmed(k) ==> EndArmed(Happen(k, e))
  {}
}
