/** The parent's half of `launch_helper` in src/modules/passwd.rs: reading an
    askpass helper's output in pieces while its end, forwarded signals and the
    end of the stream arrive in any order.

    The verdict is first defined on the whole output, and the log of a run on an
    automaton that tells what has happened. Then come the waitpid loop, one turn of
    the stream loop, what the loop keeps, and the loop itself. */
module Helper {
  import opened Common
  import opened Kernel
  import opened Host
  import opened Prompt
  import SignalReceiver
  import ForkSync

  const CHUNK: nat := 128
  const LF: Byte := 10
  const CR: Byte := 13

  const HELPER_SIGNALS := [SIGCHLD, SIGHUP, SIGINT, SIGQUIT, SIGTERM, SIGTSTP, SIGCONT]

  // ----- The answer as a function of the whole output -----

  datatype Verdict = Accepted(password: seq<Byte>) | TooLong | NotUtf8 | BadStatus(status: int)

  /** One trailing newline, and one carriage return before it. */
  function Strip(t: seq<Byte>): seq<Byte> {
    var n := |t|;
    if n == 0 || t[n - 1] != LF then t
    else if n > 1 && t[n - 2] == CR then t[..n - 2] else t[..n - 1]
  }

  function Judge(total: seq<Byte>, status: int, utf8: seq<Byte> -> bool): Verdict {
    if status != 0 then BadStatus(status)
    else if |total| > MAX_INPUT_LEN + 1 || |Strip(total)| > MAX_INPUT_LEN then TooLong
    else if !utf8(Strip(total)) then NotUtf8
    else Accepted(Strip(total))
  }

  /** The output is the password `p`, alone or with a newline or CR LF. A password of
      the full 1024 bytes may have a newline behind it but not CR LF. */
  predicate Carries(total: seq<Byte>, p: seq<Byte>) {
    || (total == p && |p| <= 1024 && (p == [] || p[|p| - 1] != 10))
    || (total == p + [10] && |p| <= 1024 && (p == [] || p[|p| - 1] != 13))
    || (total == p + [13, 10] && |p| < 1024)
  }

  /** Which outputs yield a password, and what the others give. */
  lemma WhichOutputsYield(total: seq<Byte>, p: seq<Byte>, utf8: seq<Byte> -> bool)
    ensures Judge(total, 0, utf8) == Accepted(p) <==> utf8(p) && Carries(total, p)
    ensures Judge(total, 0, utf8) == TooLong <==> |total| > 1025 || (|total| == 1025 && total[1024] != 10)
  {
    var n := |total|;
    if n > 0 && total[n - 1] == LF {
      assert total == total[..n - 1] + [LF];
      if n > 1 && total[n - 2] == CR {
        assert total == total[..n - 2] + [CR, LF];
      }
    }
  }

  // ----- What the log of a run tells -----

  /** What has happened so far: the state in which the child's end was reported;
      whether the stream's end was read; whether a SIGCHLD was pending when the
      child's end was reported before the stream's end was read; whether a SIGCHLD
      was taken after that report; a taken signal that is still to be sent on; and
      whether the mask was restored. */
  datatype Tale = Tale(reaped: Option<Station>, ended: bool, doomed: bool, asked: bool, owed: Option<int>, closed: bool)

  const OPENING := Tale(None, false, false, false, None, false)

  /** The tale after one more logged point, if the parent may get there. It sleeps
      only while the child lives or somebody else has the stream's write end. */
  function Next(t: Tale, e: Entry): Option<Tale> {
    if t.closed then None
    else if t.owed.Some? then (if e == Forwarded(t.owed.value) then Some(t.(owed := None)) else None)
    else
      match e
      case Asleep(s) => if Alive(s.k) || s.othersHold then Some(t) else None
      case Took(sig) => if sig in HELPER_SIGNALS then Some(Taken(t, sig)) else None
      case Told(Ended(how), s) => if t.reaped == None && s.k.fate == Reaped(how) then Some(ReapedAt(t, s)) else None
      case Told(_, _) => Some(t)
      case StreamEnded => if t.ended then None else Some(t.(ended := true))
      case MaskRestored(_) => Some(t.(closed := true))
      case _ => None
  }

  function Taken(t: Tale, sig: int): Tale {
    if sig == SIGCHLD then t.(asked := t.asked || t.reaped.Some?) else t.(owed := Some(sig))
  }

  function ReapedAt(t: Tale, s: Station): Tale {
    t.(reaped := Some(s), doomed := !t.ended && SIGCHLD in s.k.pending)
  }

  /** The tale of the log's points from the `n`-th on. */
  function Story(n: nat, log: seq<Entry>): Option<Tale> {
    if |log| <= n then Some(OPENING)
    else
      match Story(n, log[..|log| - 1])
      case None => None
      case Some(t) => Next(t, log[|log| - 1])
  }

  predicate At(n: nat, log: seq<Entry>, t: Tale) {
    && n <= |log|
    && Story(n, log) == Some(t)
  }

  lemma Goes(n: nat, log: seq<Entry>, t: Tale, e: Entry)
    requires At(n, log, t) && Next(t, e).Some?
    ensures At(n, log + [e], Next(t, e).value)
  {
    assert (log + [e])[..|log|] == log;
  }

  lemma {:induction false} RunPrefix(n: nat, log: seq<Entry>, i: nat)
    requires Story(n, log).Some? && i <= |log|
    ensures Story(n, log[..i]).Some?
    decreases |log| - i
  {
    if i < |log| {
      RunPrefix(n, log, i + 1);
      assert log[..i + 1][..i] == log[..i];
    } else {
      assert log[..i] == log;
    }
  }

  lemma TaleBefore(n: nat, log: seq<Entry>, i: nat)
    requires Story(n, log).Some? && n <= i < |log|
    ensures Story(n, log[..i]).Some? && Story(n, log[..i + 1]).Some?
    ensures Story(n, log[..i + 1]) == Next(Story(n, log[..i]).value, log[i])
  {
    RunPrefix(n, log, i);
    RunPrefix(n, log, i + 1);
    assert log[..i + 1][..i] == log[..i];
  }

  predicate IsEndReport(e: Entry) {
    && e.Told?
    && e.notice.Ended?
  }

  /** A report of the child's end is the only one, and the tale knows it. */
  lemma {:induction false} ReportIsKnown(n: nat, log: seq<Entry>, i: nat)
    requires Story(n, log).Some? && n <= i < |log| && IsEndReport(log[i])
    ensures Story(n, log).value.reaped == Some(log[i].s)
    decreases |log|
  {
    if i < |log| - 1 {
      ReportIsKnown(n, log[..|log| - 1], i);
    }
  }

  lemma {:induction false} KnownWasReported(n: nat, log: seq<Entry>) returns (i: nat)
    requires Story(n, log).Some? && Story(n, log).value.reaped.Some?
    ensures n <= i < |log|
    ensures IsEndReport(log[i])
    ensures Story(n, log).value.reaped == Some(log[i].s)
    decreases |log|
  {
    if IsEndReport(log[|log| - 1]) {
      return |log| - 1;
    }
    i := KnownWasReported(n, log[..|log| - 1]);
  }

  lemma {:induction false} EndedMeans(n: nat, log: seq<Entry>)
    requires Story(n, log).Some?
    ensures Story(n, log).value.ended <==> exists j | n <= j < |log| :: log[j] == StreamEnded
    decreases |log|
  {
    if n < |log| {
      var init := log[..|log| - 1];
      EndedMeans(n, init);
      if j :| n <= j < |init| && init[j] == StreamEnded {
        assert log[j] == StreamEnded;
      }
      assert forall j | n <= j < |init| :: log[j] == init[j];
    }
  }

  /** `doomed` means that a SIGCHLD was pending when the child's end was reported,
      and that the stream's end had not been read. */
  lemma {:induction false} DoomedMeans(n: nat, log: seq<Entry>, i: nat)
    requires Story(n, log).Some? && n <= i < |log| && IsEndReport(log[i])
    ensures Story(n, log).value.doomed <==>
            SIGCHLD in log[i].s.k.pending && forall j | n <= j < i :: log[j] != StreamEnded
    decreases |log|
  {
    var init := log[..|log| - 1];
    if i < |log| - 1 {
      DoomedMeans(n, init, i);
      ReportIsKnown(n, init, i);
      assert forall j | n <= j < i :: log[j] == init[j];
    } else {
      EndedMeans(n, init);
      assert forall j | n <= j < i :: log[j] == init[j];
    }
  }

  /** `asked` means that a SIGCHLD was taken after the child's end was reported. */
  lemma AskedMeans(n: nat, log: seq<Entry>)
    requires Story(n, log).Some?
    ensures Story(n, log).value.asked <==>
            exists i, j | n <= i < j < |log| :: IsEndReport(log[i]) && log[j] == Took(SIGCHLD)
  {
    if Story(n, log).value.asked {
      var i, j := AskedWasTaken(n, log);
      assert IsEndReport(log[i]) && log[j] == Took(SIGCHLD);
    }
    forall i, j | n <= i < j < |log| && IsEndReport(log[i]) && log[j] == Took(SIGCHLD)
      ensures Story(n, log).value.asked
    {
      TakenIsAsked(n, log, i, j);
    }
  }

  lemma {:induction false} TakenIsAsked(n: nat, log: seq<Entry>, i: nat, j: nat)
    requires Story(n, log).Some? && n <= i < j < |log| && IsEndReport(log[i]) && log[j] == Took(SIGCHLD)
    ensures Story(n, log).value.asked
    decreases |log|
  {
    var init := log[..|log| - 1];
    if j < |log| - 1 {
      TakenIsAsked(n, init, i, j);
    } else {
      ReportIsKnown(n, init, i);
    }
  }

  lemma {:induction false} AskedWasTaken(n: nat, log: seq<Entry>) returns (i: nat, j: nat)
    requires Story(n, log).Some? && Story(n, log).value.asked
    ensures n <= i < j < |log|
    ensures IsEndReport(log[i])
    ensures log[j] == Took(SIGCHLD)
    decreases |log|
  {
    var init := log[..|log| - 1];
    if Story(n, init).value.asked {
      i, j := AskedWasTaken(n, init);
    } else {
      i := KnownWasReported(n, init);
      j := |log| - 1;
    }
  }

  /** A taken signal other than SIGCHLD is sent on next. */
  lemma TakenIsSentOn(n: nat, log: seq<Entry>, i: nat)
    requires Story(n, log).Some? && Story(n, log).value.owed == None
    requires n <= i < |log| && log[i].Took? && log[i].sig != SIGCHLD
    ensures i + 1 < |log| && log[i + 1] == Forwarded(log[i].sig)
  {
    assert log[..|log|] == log;
    TaleBefore(n, log, i);
    if i + 1 < |log| {
      TaleBefore(n, log, i + 1);
    }
  }

  /** Nothing else is sent on. */
  lemma SentOnWasTaken(n: nat, log: seq<Entry>, i: nat)
    requires Story(n, log).Some? && n <= i < |log| && log[i].Forwarded?
    ensures i > n && log[i - 1] == Took(log[i].sig) && log[i].sig in {1, 2, 3, 15, 18, 20}
  {
    TaleBefore(n, log, i);
    if i > n {
      TaleBefore(n, log, i - 1);
    }
  }

  // ----- The stream loop -----

  datatype Run =
    | Finished(buffer: seq<Byte>, overflow: bool, status: int)  // left the loop
    | ChildGone                                                  // waitpid failed with ECHILD
    | Failed(error: Errno)                                       // another call failed
    | Hung                                                       // asleep when the schedule ended

  /** What the loop's steps keep of the surroundings. */
  ghost predicate Along(a: Machine, b: Machine) {
    && b.s.k.mask == a.s.k.mask
    && (Sane(a.s.k) ==> Sane(b.s.k))
    && a.s.sent <= b.s.sent
    && (!Held(a.s) ==> !Held(b.s) && b.s.sent == a.s.sent)
    && (Open(a.s) ==> Open(b.s))
    && (Piped(a.s) ==> Piped(b.s))
    && (Alive(b.s.k) ==> Alive(a.s.k))
    && Follows(a.ticks, b.ticks)
  }

  lemma AlongComposes(a: Machine, b: Machine, c: Machine)
    ensures Along(a, b) && Along(b, c) ==> Along(a, c)
  {}

  /** Like `Along`, and nothing of the child's end is lost or taken. */
  ghost predicate Spares(a: Machine, b: Machine) {
    && Along(a, b) && EndKept(a.s.k, b.s.k) && Unprovoked(a, b)
    && (a.s.k.fate.Reaped? ==> b.s.k.fate == a.s.k.fate)
    && (b.s.k.fate.Reaped? ==> a.s.k.fate.Reaped?)
  }

  // ----- waitpid -----

  /** A waitpid call that is not interrupted. */
  function Waited(m: Machine): (WaitResult, Machine) {
    var (w, k) := WaitPid(Advance(m).s.k);
    var b := Advance(m).(s := Advance(m).s.(k := k));
    (w, if w.Changed? then Log(b, Told(w.notice, b.s)) else b)
  }

  /** A waitpid call takes nothing away but the child's report. */
  ghost predicate Waits(a: Machine, b: Machine) {
    && Along(a, b)
    && b.s.taken == a.s.taken
    && if a.ticks == [] then b.s.sent == a.s.sent && b.s.k.pending == a.s.k.pending
       else |b.ticks| < |a.ticks|
  }

  lemma WaitsCompose(a: Machine, b: Machine, c: Machine)
    ensures (b == a || Waits(a, b)) && Waits(b, c) ==> Waits(a, c)
  {}

  /** Once the child has ended, SIGCHLD comes only from others. */
  predicate Foreseen(a: Machine, b: Machine) {
    Free(a.ticks, IsForeign) && !Alive(a.s.k) && SIGCHLD in b.s.k.pending ==> SIGCHLD in a.s.k.pending
  }

  /** The tale and the kernel agree on whether the child was waited for. */
  predicate Agrees(t: Tale, k: Kernel) {
    t.owed == None && !t.closed && (t.reaped.Some? <==> k.fate.Reaped?)
  }

  lemma WaitPidKeeps(k: Kernel)
    requires Sane(k)
    ensures var after := WaitPid(k).1;
            && Sane(after) && after.mask == k.mask && after.pending == k.pending && (Alive(after) ==> Alive(k))
  {}

  lemma AdvanceWaits(m: Machine)
    requires m.ticks != []
    ensures Waits(m, Advance(m))
  {
    AdvanceIsOutside(m);
  }

  lemma WaitedKeeps(m: Machine)
    requires Sane(m.s.k)
    ensures Waits(m, Waited(m).1)
    ensures Foreseen(m, Waited(m).1)
    ensures m.ticks != [] ==> Waits(m, Advance(m)) && Foreseen(m, Advance(m))
  {
    AdvanceIsOutside(m);
    WaitPidKeeps(Advance(m).s.k);
    if m.ticks != [] {
      AdvanceWaits(m);
    }
  }

  /** What the answers of waitpid mean. */
  lemma WaitedTells(n: nat, t: Tale, m: Machine)
    requires Sane(m.s.k) && SIGCHLD in m.s.k.mask && Agrees(t, m.s.k) && At(n, m.log, t)
    ensures var (w, b) := Waited(m);
            match w
            case StillAlive => EndArmed(b.s.k) && Agrees(t, b.s.k) && t.reaped == None && At(n, b.log, t)
            case NoChild => (b.s.k.fate.Stolen? || t.reaped.Some?) && At(n, b.log, t)
            case Changed(notice) =>
              && t.reaped == None && b.s.k.notice == None && (m.ticks == [] ==> m.s.k.notice.Some?)
              && (if notice.Ended? then b.s.k.fate == Reaped(notice.how) && At(n, b.log, ReapedAt(t, b.s))
                  else Agrees(t, b.s.k) && At(n, b.log, t))
  {
    AdvanceIsOutside(m);
    var (w, b) := Waited(m);
    if w.Changed? {
      Goes(n, m.log, t, Told(w.notice, b.s));
    }
  }

  /** The end that happened is reported, unless somebody else took the report. */
  lemma WaitedFindsEnd(m: Machine)
    requires Sane(m.s.k) && Advance(m).s.k.fate.Zombie?
    ensures Waited(m).0.Changed?
    ensures Waited(m).0.notice.Ended?
  {
    AdvanceIsOutside(m);
  }

  /** waitpid; None if it was interrupted. */
  method WaitForChild(m0: Machine) returns (result: Option<WaitResult>, m: Machine)
    ensures if Fault(m0) == Some(EINTR) then result == None && m == Advance(m0)
            else result == Some(Waited(m0).0) && m == Waited(m0).1
  {
    var fault := Fault(m0);
    m := Advance(m0);
    if fault == Some(EINTR) {
      return None, m;
    }
    var (w, k) := WaitPid(m.s.k);
    m := m.(s := m.s.(k := k));
    if w.Changed? {
      m := Log(m, Told(w.notice, m.s));
    }
    return Some(w), m;
  }

  /** The next waitpid call reports the child's end. */
  predicate EndsNow(m: Machine) {
    Fault(m) == None && Waited(m).0.Changed? && Waited(m).0.notice.Ended?
  }

  datatype Drained = NoEnd | End(status: int) | Gone

  /** What a finished waitpid loop says. */
  predicate Drains(n: nat, t: Tale, d: Drained, m: Machine) {
    match d
    case NoEnd => EndArmed(m.s.k) && Agrees(t, m.s.k) && t.reaped == None && At(n, m.log, t)
    case End(status) =>
      && t.reaped == None && m.s.k.fate.Reaped? && status == Status(m.s.k.fate.how)
      && At(n, m.log, ReapedAt(t, m.s))
    case Gone => (m.s.k.fate.Stolen? || t.reaped.Some?) && At(n, m.log, t)
  }

  /** The waitpid loop's invariant. */
  ghost predicate Draining(n: nat, t: Tale, m0: Machine, m: Machine) {
    && (m == m0 || (Waits(m0, m) && !EndsNow(m0)))
    && Sane(m.s.k) && SIGCHLD in m.s.k.mask && Agrees(t, m.s.k) && At(n, m.log, t) && Foreseen(m0, m)
    && (Free(m0.ticks, IsLoud) && m0.s.k.fate.Zombie? ==> m.s.k.fate.Zombie?)
  }

  lemma DrainsOn(n: nat, t: Tale, m0: Machine, a: Machine)
    requires Draining(n, t, m0, a)
    ensures Waits(m0, Waited(a).1)
    ensures Foreseen(m0, Waited(a).1)
    ensures a.ticks != [] ==> Waits(m0, Advance(a)) && Foreseen(m0, Advance(a))
  {
    WaitedKeeps(a);
    WaitsCompose(m0, a, Waited(a).1);
    if a.ticks != [] {
      WaitsCompose(m0, a, Advance(a));
    }
  }

  /** What an answer of waitpid leads to; None to ask again. */
  function Heard(w: WaitResult): Option<Drained> {
    match w
    case Changed(notice) => if notice.Ended? then Some(End(Status(notice.how))) else None
    case StillAlive => Some(NoEnd)
    case NoChild => Some(Gone)
  }

  lemma HeardDrains(n: nat, t: Tale, m0: Machine, m1: Machine)
    requires Draining(n, t, m0, m1)
    ensures var (w, m) := Waited(m1);
            if Heard(w).Some? then Drains(n, t, Heard(w).value, m) else EndsNow(m1) || Draining(n, t, m0, m)
    ensures Heard(Waited(m1).0).Some? && Free(m0.ticks, IsLoud) && m0.s.k.fate.Zombie? ==>
              Heard(Waited(m1).0).value.End?
  {
    AdvanceIsOutside(m1);
    DrainsOn(n, t, m0, m1);
    WaitedTells(n, t, m1);
    if Free(m0.ticks, IsLoud) && m0.s.k.fate.Zombie? {
      WaitedFindsEnd(m1);
    }
  }

  lemma InterruptedDrains(n: nat, t: Tale, m0: Machine, m1: Machine)
    requires Draining(n, t, m0, m1) && Fault(m1) == Some(EINTR)
    ensures Draining(n, t, m0, Advance(m1)) && Waits(m0, Advance(m1)) && Foreseen(m0, Advance(m1))
  {
    AdvanceIsOutside(m1);
    DrainsOn(n, t, m0, m1);
  }

  /** One turn of the waitpid loop; None to ask again. */
  method DrainOnce(ghost n: nat, ghost t: Tale, ghost m0: Machine, m1: Machine) returns (d: Option<Drained>, m: Machine)
    requires Draining(n, t, m0, m1)
    ensures Waits(m0, m) && Foreseen(m0, m)
    ensures if d.Some? then Drains(n, t, d.value, m) else Draining(n, t, m0, m)
    ensures d == None
      ==> |m.ticks| < |m1.ticks| || (m.ticks == m1.ticks && m1.s.k.notice.Some? && m.s.k.notice == None)
    ensures d.Some? && Free(m0.ticks, IsLoud) && m0.s.k.fate.Zombie? ==> d.value.End?
    ensures EndsNow(m1) ==> d == Some(End(Status(Waited(m1).0.notice.how))) && m == Waited(m1).1
  {
    if Fault(m1) == Some(EINTR) {
      InterruptedDrains(n, t, m0, m1);
    }
    HeardDrains(n, t, m0, m1);
    DrainsOn(n, t, m0, m1);
    AdvanceIsOutside(m1);
    var result;
    result, m := WaitForChild(m1);
    match result
    case None => return None, m;
    case Some(Changed(Ended(Exited(code)))) => return Some(End(code)), m;
    case Some(Changed(Ended(Killed(sig)))) => return Some(End(128 + sig)), m;
    case Some(Changed(_)) => return None, m;
    case Some(StillAlive) => return Some(NoEnd), m;
    case Some(NoChild) => return Some(Gone), m;
  }

  /** The waitpid loop: changes other than the end are ignored. */
  method Drain(ghost n: nat, ghost t: Tale, m0: Machine) returns (d: Drained, m: Machine)
    requires Sane(m0.s.k) && SIGCHLD in m0.s.k.mask && Agrees(t, m0.s.k) && At(n, m0.log, t)
    ensures Waits(m0, m)
    ensures Foreseen(m0, m)
    ensures Drains(n, t, d, m)
    ensures Free(m0.ticks, IsLoud) && m0.s.k.fate.Zombie? ==> d.End?
    ensures EndsNow(m0) ==> d == End(Status(Waited(m0).0.notice.how)) && m == Waited(m0).1
  {
    m := m0;
    while true
      invariant Draining(n, t, m0, m)
      decreases |m.ticks|, if m.s.k.notice.Some? then 1 else 0
    {
      var turn;
      turn, m := DrainOnce(n, t, m0, m);
      if turn.Some? {
        return turn.value, m;
      }
    }
  }

  // ----- One turn of the stream loop -----

  /** The receiver selects the helper's signals. */
  predicate Selects(r: SignalReceiver.Receiver) {
    r.fd == set i | 0 <= i < |HELPER_SIGNALS| :: HELPER_SIGNALS[i]
  }

  lemma LiteralQuiet(r: SignalReceiver.Receiver, s: Station)
    ensures Selects(r) ==> (SignalReceiver.Quiet(s, r) <==> {1, 2, 3, 15, 17, 18, 20} !! s.k.pending)
  {
    if Selects(r) {
      assert HELPER_SIGNALS[0] in r.fd && HELPER_SIGNALS[1] in r.fd && HELPER_SIGNALS[2] in r.fd;
      assert HELPER_SIGNALS[3] in r.fd && HELPER_SIGNALS[4] in r.fd && HELPER_SIGNALS[5] in r.fd;
      assert HELPER_SIGNALS[6] in r.fd;
      assert r.fd == {1, 2, 3, 15, 17, 18, 20};
    }
  }

  lemma SelectedIsNamed(r: SignalReceiver.Receiver, n: int)
    ensures Selects(r) && n in r.fd ==> n in HELPER_SIGNALS && SignalReceiver.ToSignal(n) == Some(n)
  {}

  lemma ChldIsSelected(r: SignalReceiver.Receiver)
    requires Selects(r)
    ensures SIGCHLD in r.fd
  {
    assert HELPER_SIGNALS[0] in r.fd;
  }

  /** What one turn of the loop finds. */
  datatype Found = Input(bytes: seq<Byte>) | Signal(sig: int) | Nothing | Leave(reason: Run)

  /** What it adds to the log after its sleeps. */
  function Noted(f: Found): seq<Entry> {
    match f
    case Signal(sig) => [Took(sig)]
    case Input(bytes) => if bytes == [] then [StreamEnded] else []
    case _ => []
  }

  /** The next read of the signalfd takes SIGCHLD, because nothing else selected is
      pending. */
  predicate OnlyChld(r: SignalReceiver.Receiver, m: Machine) {
    && Fault(m) == None && SIGCHLD in Advance(m).s.k.pending
    && forall n | n in r.fd && n in Advance(m).s.k.pending :: n == SIGCHLD
  }

  /** So does the next turn. */
  predicate Summoned(r: SignalReceiver.Receiver, m: Machine) {
    Fault(m) == None && SIGCHLD in Advance(m).s.k.pending && OnlyChld(r, Advance(m))
  }

  /** The machine after such a turn: a poll and a signalfd read. */
  function Woken(m: Machine): Machine {
    SignalReceiver.Taking(Advance(m), SIGCHLD)
  }

  /** What a signalfd read that starts in `m0` finds. */
  ghost predicate FindsSignal(r: SignalReceiver.Receiver, m0: Machine, f: Found, m: Machine) {
    && Along(m0, m)
    && Unprovoked(m0, m)
    && InRange(m.s)
    && m.s.taken == m0.s.taken
    && m.log == m0.log + Noted(f)
    && (m.s.k.fate.Reaped? <==> m0.s.k.fate.Reaped?)
    && (if f == Signal(SIGCHLD) then TakenForEnd(m0, m) else Spares(m0, m))
    && (m0.ticks == [] ==> m.ticks == [] && m.s.sent == m0.s.sent) && (m0.ticks != [] ==> |m.ticks| < |m0.ticks|)
    && match f
       case Signal(sig) => sig in HELPER_SIGNALS && (m0.ticks == [] ==> |m.s.k.pending| < |m0.s.k.pending|)
       case Nothing => m0.ticks == [] ==> SignalReceiver.Quiet(m0.s, r)
       case Leave(reason) => reason.Failed? && Fails(m0.ticks, reason.error)
       case Input(_) => false
  }

  /** `signals.read`, when a read of the stream was refused for a signal. */
  method TakeSignal(r: SignalReceiver.Receiver, m0: Machine) returns (f: Found, m: Machine)
    requires InRange(m0.s) && Selects(r)
    ensures FindsSignal(r, m0, f, m)
    ensures Due(m0.ticks) == None && !({1, 2, 3, 15, 17, 18, 20} !! Advance(m0).s.k.pending) ==>
              f.Signal? && f.sig in Advance(m0).s.k.pending
    ensures OnlyChld(r, m0) ==> f == Signal(SIGCHLD) && m == SignalReceiver.Taking(m0, SIGCHLD)
  {
    ChldIsSelected(r);
    LiteralQuiet(r, Advance(m0).s);
    AdvanceIsOutside(m0);
    var event;
    event, m := SignalReceiver.Read(r, m0);
    match event
    case Err(e) => return Leave(Run.Failed(e)), m;
    case Ok(None) => return Nothing, m;
    case Ok(Some(n)) =>
      SelectedIsNamed(r, n);
      match SignalReceiver.ToSignal(n)
      case Some(s) => return Signal(s), m;
      case None => return Leave(Run.Failed(EINVAL)), m;
  }

  predicate AtEnd(eof: bool, s: Station) {
    eof ==> s.taken == |s.sent| && !Held(s)
  }

  /** A SIGCHLD was taken that, in a quiet schedule, only the child's end can have
      raised. */
  predicate TakenForEnd(a: Machine, b: Machine) {
    && SIGCHLD !in b.s.k.pending
    && (Free(a.ticks, IsLoud) && Single(a.s.k) ==> b.s.k.fate.Zombie?)
    && (Free(a.ticks, IsForeign) && a.s.k.fate.Reaped? ==> SIGCHLD in a.s.k.pending)
  }

  /** What a turn that starts in `m0` finds; `slept` is the log up to what it
      took. */
  ghost predicate Finds(p: Prompt, eof0: bool, eof: bool, m0: Machine, f: Found, slept: seq<Entry>, m: Machine) {
    && Along(m0, m) && Unprovoked(m0, m) && InRange(m.s)
    && p.SleptIdle(eof0, m0.s, m0.log, slept) && m.log == slept + Noted(f)
    && (m.s.k.fate.Reaped? <==> m0.s.k.fate.Reaped?)
    && (if f == Signal(SIGCHLD) then TakenForEnd(m0, m) else Spares(m0, m))
    && eof == (eof0 || f == Input([]))
    && match f
       case Input(bytes) =>
         && SIGCHLD !in m0.s.k.pending && !eof0 && AtEnd(eof, m.s) && |bytes| <= CHUNK
         && m.s.taken == m0.s.taken + |bytes| && bytes == m.s.sent[m0.s.taken..m.s.taken]
         && (m0.ticks == [] ==> m.s.sent == m0.s.sent) && (m0.ticks != [] ==> |m.ticks| < |m0.ticks|)
       case Signal(sig) =>
         && sig in HELPER_SIGNALS && m.s.taken == m0.s.taken
         && (m0.ticks == [] ==> m.s.sent == m0.s.sent && |m.s.k.pending| < |m0.s.k.pending|)
         && (m0.ticks != [] ==> |m.ticks| < |m0.ticks|)
       case Nothing => m.s.taken == m0.s.taken && |m.ticks| < |m0.ticks|
       case Leave(reason) =>
         (reason.Failed? && Fails(m0.ticks, reason.error)) || (reason == Hung && p.Idle(eof, m0.s, m.s) && m.ticks == [])
  }

  /** What `prompt.read` finds in the helper's stream. */
  ghost predicate Peeked(p: Prompt, eof0: bool, eof: bool, a: Machine, got: Outcome, b: Machine) {
    && Beside(a, b) && InRange(b.s) && p.SleptIdle(eof0, a.s, a.log, b.log) && eof == (eof0 || got == Got([]))
    && match got
       case Never => p.Idle(eof0, a.s, b.s) && b.ticks == []
       case Got(bytes) =>
         && !eof0 && p.Received(CHUNK, bytes, a.s, b.s) && SIGCHLD !in a.s.k.pending && AtEnd(bytes == [], b.s)
         && (if a.ticks == [] then b.s.sent == a.s.sent else |b.ticks| < |a.ticks|)
       case Failed(e) =>
         && b.s.taken == a.s.taken && (e != EINTR ==> Fails(a.ticks, e))
         && (if a.ticks == [] then b.ticks == [] && b.s == a.s && !SignalReceiver.Quiet(b.s, p.signals)
             else |b.ticks| < |a.ticks|)
  }

  method Peek(p: Prompt, m0: Machine) returns (got: Outcome, m: Machine)
    requires InRange(m0.s) && Piped(m0.s) && SIGCHLD in p.signals.fd
    modifies p`inputEof
    ensures Peeked(p, old(p.inputEof), p.inputEof, m0, got, m)
    ensures Fault(m0) == None && SIGCHLD in Advance(m0).s.k.pending
      ==> got == Outcome.Failed(EINTR) && m == Advance(m0)
  {
    got, m := p.Read(CHUNK, m0);
  }

  /** `prompt.read`, and on EINTR `signals.read`. */
  method Look(p: Prompt, m0: Machine) returns (f: Found, ghost slept: seq<Entry>, m: Machine)
    requires InRange(m0.s) && Piped(m0.s) && Selects(p.signals)
    modifies p`inputEof
    ensures Finds(p, old(p.inputEof), p.inputEof, m0, f, slept, m)
    ensures Summoned(p.signals, m0) ==> f == Signal(SIGCHLD) && m == Woken(m0)
  {
    ChldIsSelected(p.signals);
    ghost var eof0 := p.inputEof;
    var got;
    got, m := Peek(p, m0);
    slept := m.log;
    ghost var read := m;
    match got
    case Never =>
      FindsSleep(p, eof0, p.inputEof, m0, m);
      return Leave(Hung), slept, m;
    case Got(bytes) =>
      if bytes == [] {
        m := Log(m, StreamEnded);
      }
      FindsPiece(p, eof0, p.inputEof, m0, read, bytes, m);
      return Input(bytes), slept, m;
    case Failed(e) =>
      if e != EINTR {
        FindsFailure(p, eof0, p.inputEof, m0, m, e);
        return Leave(Run.Failed(e)), slept, m;
      }
      f, m := TakeSignal(p.signals, m);
      FindsAfterRefusal(p, eof0, p.inputEof, m0, read, f, m);
  }

  lemma FindsSleep(p: Prompt, eof0: bool, eof: bool, a: Machine, b: Machine)
    ensures Peeked(p, eof0, eof, a, Never, b) ==> Finds(p, eof0, eof, a, Leave(Hung), b.log, b)
  {
    BesideSpares(a, b);
    assert b.log + [] == b.log;
  }

  lemma FindsFailure(p: Prompt, eof0: bool, eof: bool, a: Machine, b: Machine, e: Errno)
    ensures Peeked(p, eof0, eof, a, Outcome.Failed(e), b) && e != EINTR
      ==> Finds(p, eof0, eof, a, Leave(Run.Failed(e)), b.log, b)
  {
    BesideSpares(a, b);
    assert b.log + [] == b.log;
  }

  lemma FindsPiece(p: Prompt, eof0: bool, eof: bool, a: Machine, b: Machine, bytes: seq<Byte>, m: Machine)
    requires Peeked(p, eof0, eof, a, Got(bytes), b)
    requires m == if bytes == [] then Log(b, StreamEnded) else b
    ensures Finds(p, eof0, eof, a, Input(bytes), b.log, m)
  {
    BesideSpares(a, b);
    SparesLogged(a, b, m);
    assert b.log + [] == b.log;
  }

  lemma BesideSpares(a: Machine, b: Machine)
    ensures Beside(a, b) ==> Spares(a, b)
  {}

  lemma SparesLogged(a: Machine, b: Machine, c: Machine)
    ensures Spares(a, b) && c.s == b.s && c.ticks == b.ticks ==> Spares(a, c)
  {}

  /** The read of the stream that a signal refused comes before it. */
  lemma FindsAfterRefusal(p: Prompt, eof0: bool, eof: bool, a: Machine, b: Machine, f: Found, m: Machine)
    ensures Peeked(p, eof0, eof, a, Outcome.Failed(EINTR), b) && FindsSignal(p.signals, b, f, m)
      ==> Finds(p, eof0, eof, a, f, b.log, m)
  {}

  // ----- What the loop keeps -----

  /** The local variables of the loop. */
  datatype Tally = Tally(buffer: seq<Byte>, overflow: bool, status: Option<int>)

  /** The buffer is the beginning of what was read, and `overflow` says that
      something did not fit. */
  predicate Gathered(s: Station, buffer: seq<Byte>, overflow: bool) {
    && s.taken <= |s.sent|
    && var n := Min(s.taken, MAX_INPUT_LEN + 1);
    && buffer == s.sent[..n] && (overflow <==> s.taken > MAX_INPUT_LEN + 1)
  }

  /** How many of `count` read bytes the buffer takes. */
  function Accept(buffer: seq<Byte>, count: nat): nat {
    Min(count, if |buffer| < MAX_INPUT_LEN + 1 then MAX_INPUT_LEN + 1 - |buffer| else 0)
  }

  /** Whatever its size, the next piece is gathered. */
  lemma GathersMore(a: Station, b: Station, buffer: seq<Byte>, overflow: bool, bytes: seq<Byte>)
    requires Gathered(a, buffer, overflow) && a.sent <= b.sent
    requires b.taken == a.taken + |bytes| <= |b.sent| && bytes == b.sent[a.taken..b.taken]
    ensures var accepted := Accept(buffer, |bytes|);
            Gathered(b, buffer + bytes[..accepted], overflow || accepted != |bytes|)
  {}

  /** The stream's half of the loop invariant. */
  ghost predicate StreamInv(m0: Machine, m: Machine, eof: bool, buffer: seq<Byte>, overflow: bool) {
    Along(m0, m) && Open(m.s) && Piped(m.s) && AtEnd(eof, m.s) && Gathered(m.s, buffer, overflow)
  }

  /** The child's half. The recorded status is the child's; without one its end, if
      it happened, is announced by a pending SIGCHLD. No SIGCHLD was taken after the
      end's report. One that was pending then still is, and without others' no
      SIGCHLD came since; after a quiet start it never gets to that. */
  predicate ChildInv(m0: Machine, m: Machine, eof: bool, status: Option<int>, t: Tale) {
    var k := m.s.k;
    && Sane(k)
    && SIGCHLD in k.mask
    && Agrees(t, k)
    && !t.asked
    && t.ended == eof
    && (if status.Some? then k.fate.Reaped? && status.value == Status(k.fate.how) else !k.fate.Reaped? && EndArmed(k))
    && (t.doomed ==> t.reaped.Some? && !eof && SIGCHLD in k.pending)
    && (Free(m0.ticks, IsForeign) && t.reaped.Some? && !eof && SIGCHLD in k.pending ==> t.doomed)
    && (Free(m0.ticks, IsLoud) && Single(m0.s.k) ==> Single(k))
  }

  ghost predicate LoopInv(n: nat, m0: Machine, m: Machine, eof: bool, y: Tally) {
    && StreamInv(m0, m, eof, y.buffer, y.overflow)
    && n <= |m.log|
    && Story(n, m.log).Some?
    && ChildInv(m0, m, eof, y.status, Story(n, m.log).value)
  }

  lemma StreamStays(m0: Machine, a: Machine, b: Machine, eof: bool, buffer: seq<Byte>, overflow: bool)
    ensures StreamInv(m0, a, eof, buffer, overflow) && Along(a, b) && b.s.taken == a.s.taken
      ==> StreamInv(m0, b, eof, buffer, overflow)
  {
    AlongComposes(m0, a, b);
  }

  lemma StreamFlows(m0: Machine, a: Machine, b: Machine, eof: bool, buffer: seq<Byte>, overflow: bool, bytes: seq<Byte>)
    requires StreamInv(m0, a, false, buffer, overflow)
    requires Along(a, b) && AtEnd(eof, b.s)
    requires b.s.taken == a.s.taken + |bytes| <= |b.s.sent| && bytes == b.s.sent[a.s.taken..b.s.taken]
    ensures var accepted := Accept(buffer, |bytes|);
            StreamInv(m0, b, eof, buffer + bytes[..accepted], overflow || accepted != |bytes|)
  {
    AlongComposes(m0, a, b);
    GathersMore(a.s, b.s, buffer, overflow, bytes);
  }

  lemma ChildStays(m0: Machine, a: Machine, b: Machine, eof: bool, status: Option<int>, t: Tale)
    ensures ChildInv(m0, a, eof, status, t) && Along(m0, a) && Spares(a, b)
      ==> ChildInv(m0, b, eof, status, t)
  {}

  /** A piece of the stream is read only while no SIGCHLD is pending. */
  lemma ChildAtInput(m0: Machine, a: Machine, b: Machine, status: Option<int>, t: Tale, eof: bool)
    requires ChildInv(m0, a, false, status, t) && Along(m0, a) && Spares(a, b)
    requires SIGCHLD !in a.s.k.pending
    ensures ChildInv(m0, b, eof, status, t.(ended := eof)) && !t.doomed
  {
    ChildStays(m0, a, b, false, status, t);
  }

  /** Sleeping is sound: without a status the child's end would be announced, and
      without the stream's end somebody holds it. */
  lemma IdleIsSound(p: Prompt, m0: Machine, a: Machine, eof: bool, status: Option<int>, t: Tale, s: Station)
    requires ChildInv(m0, a, eof, status, t) && Open(a.s) && !(eof && status.Some?)
    requires SIGCHLD in p.signals.fd && p.Idle(eof, a.s, s)
    ensures (Alive(s.k) || s.othersHold) && SIGCHLD !in a.s.k.pending
  {
    assert status == None ==> EndArmed(s.k);
  }

  lemma {:induction false} SleepsGoOn(n: nat, p: Prompt, m0: Machine, a: Machine, eof: bool, status: Option<int>, t: Tale, log: seq<Entry>)
    requires ChildInv(m0, a, eof, status, t) && Open(a.s) && !(eof && status.Some?) && At(n, a.log, t)
    requires SIGCHLD in p.signals.fd && p.SleptIdle(eof, a.s, a.log, log)
    ensures At(n, log, t)
    decreases |log|
  {
    if |log| == |a.log| {
      assert log == a.log;
    } else {
      SleepsGoOn(n, p, m0, a, eof, status, t, log[..|log| - 1]);
      IdleIsSound(p, m0, a, eof, status, t, log[|log| - 1].s);
    }
  }

  // ----- The body of the loop -----

  /** Sending a signal on to the helper's group. */
  method Forward(ghost n: nat, ghost t: Tale, sig: int, m0: Machine) returns (m: Machine)
    requires sig != SIGCHLD && t.owed == None && At(n, m0.log, Taken(t, sig)) && !t.closed
    ensures Spares(m0, m)
    ensures m.s.taken == m0.s.taken
    ensures At(n, m.log, t)
    ensures if m0.ticks == [] then m.s == m0.s else |m.ticks| < |m0.ticks|
  {
    Goes(n, m0.log, Taken(t, sig), Forwarded(sig));
    m := Log(m0, Forwarded(sig));
    AdvanceIsOutside(m);
    m := Advance(m);
  }

  /** What a taken SIGCHLD leads to. */
  predicate Heeded(n: nat, m0: Machine, eof: bool, t0: Tale, gone: bool, status: Option<int>, m: Machine) {
    if gone then
      && At(n, m.log, Taken(t0, SIGCHLD)) && (t0.reaped.Some? || m.s.k.fate.Stolen?)
      && (Free(m0.ticks, IsForeign) && !m.s.k.fate.Stolen? ==> t0.doomed)
      && !(Free(m0.ticks, IsLoud) && Single(m0.s.k))
    else
      n <= |m.log| && Story(n, m.log).Some? && ChildInv(m0, m, eof, status, Story(n, m.log).value)
  }

  lemma GoneIsHeeded(n: nat, t: Tale, m0: Machine, a: Machine, m1: Machine, eof: bool, status: Option<int>, m: Machine)
    requires ChildInv(m0, a, eof, status, t) && Along(m0, a) && TakenForEnd(a, m1) && !(eof && status.Some?)
    requires Drains(n, Taken(t, SIGCHLD), Gone, m)
    requires !(Free(m1.ticks, IsLoud) && m1.s.k.fate.Zombie?) && Along(a, m1)
    ensures Heeded(n, m0, eof, t, true, status, m)
  {}

  lemma NoEndIsHeeded(n: nat, t: Tale, m0: Machine, a: Machine, m1: Machine, eof: bool, status: Option<int>, m: Machine)
    requires ChildInv(m0, a, eof, status, t) && Along(m0, a) && Along(a, m1) && TakenForEnd(a, m1) && Along(m1, m)
    requires Drains(n, Taken(t, SIGCHLD), NoEnd, m)
    requires !(Free(m1.ticks, IsLoud) && m1.s.k.fate.Zombie?)
    ensures Heeded(n, m0, eof, t, false, status, m)
  {}

  lemma EndIsHeeded(n: nat, t: Tale, m0: Machine, a: Machine, m1: Machine, eof: bool, status: Option<int>, code: int, m: Machine)
    requires ChildInv(m0, a, eof, status, t) && Along(m0, a) && Along(a, m1) && TakenForEnd(a, m1) && Along(m1, m)
    requires Drains(n, Taken(t, SIGCHLD), End(code), m) && Foreseen(m1, m)
    ensures Heeded(n, m0, eof, t, false, Some(code), m)
  {
    if Free(m0.ticks, IsLoud) && Single(m0.s.k) {
      QuietIsUnforeign(m1.ticks);
    }
  }

  /** A taken SIGCHLD: waitpid is asked. */
  method HeedChld(ghost n: nat, ghost t: Tale, ghost m0: Machine, ghost a: Machine, ghost eof: bool, status0: Option<int>, m1: Machine)
    returns (gone: bool, status: Option<int>, m: Machine)
    requires ChildInv(m0, a, eof, status0, t) && Along(m0, a) && Along(a, m1) && TakenForEnd(a, m1) && !(eof && status0.Some?)
    requires m1.s.k.fate.Reaped? <==> a.s.k.fate.Reaped?
    requires At(n, m1.log, Taken(t, SIGCHLD))
    ensures Waits(m1, m)
    ensures Heeded(n, m0, eof, t, gone, status, m)
    ensures EndsNow(m1) ==> !gone && status.Some? && m == Waited(m1).1
    ensures status0.Some? ==> gone
  {
    var d;
    d, m := Drain(n, Taken(t, SIGCHLD), m1);
    match d
    case Gone =>
      GoneIsHeeded(n, t, m0, a, m1, eof, status0, m);
      return true, status0, m;
    case NoEnd =>
      NoEndIsHeeded(n, t, m0, a, m1, eof, status0, m);
      return false, status0, m;
    case End(code) =>
      EndIsHeeded(n, t, m0, a, m1, eof, status0, code, m);
      return false, Some(code), m;
  }

  /** How a run's end is accounted for. */
  predicate Concluded(n: nat, m0: Machine, r: Run, m: Machine) {
    && n <= |m.log|
    && Story(n, m.log).Some?
    && var t := Story(n, m.log).value;
    && t.owed == None && !t.closed
    && match r
       case Finished(buffer, overflow, status) =>
         && m.s.k.fate.Reaped? && status == Status(m.s.k.fate.how)
         && AtEnd(true, m.s) && Gathered(m.s, buffer, overflow) && !t.asked && !t.doomed
       case ChildGone =>
         && (t.asked || m.s.k.fate.Stolen?)
         && (Free(m0.ticks, IsForeign) && !m.s.k.fate.Stolen? ==> t.doomed)
         && !(Free(m0.ticks, IsLoud) && Single(m0.s.k))
       case Hung =>
         && m.ticks == [] && (Alive(m.s.k) || m.s.othersHold) && !t.asked && !t.doomed
         && {1, 2, 3, 15, 17, 18, 20} !! m.s.k.pending
       case Failed(e) => Fails(m0.ticks, e)
  }

  /** What a turn that goes on uses up. */
  predicate Progresses(a: Machine, aEof: bool, b: Machine, bEof: bool) {
    if a.ticks == [] then
      && b.ticks == [] && b.s.sent == a.s.sent
      && (|| b.s.taken > a.s.taken
          || (b.s.taken == a.s.taken && bEof && !aEof)
          || (b.s.taken == a.s.taken && bEof == aEof && |b.s.k.pending| < |a.s.k.pending|))
    else |b.ticks| < |a.ticks|
  }

  /** A taken signal: SIGCHLD asks waitpid, any other is sent on. */
  method Heed(ghost n: nat, ghost t: Tale, ghost m0: Machine, ghost a: Machine, ghost eof: bool, sig: int, y0: Tally, m1: Machine)
    returns (r: Option<Run>, y: Tally, m: Machine)
    requires StreamInv(m0, m1, eof, y0.buffer, y0.overflow) && ChildInv(m0, a, eof, y0.status, t)
    requires Along(m0, a) && Along(a, m1) && !(eof && y0.status.Some?) && (m1.s.k.fate.Reaped? <==> a.s.k.fate.Reaped?)
    requires if sig == SIGCHLD then TakenForEnd(a, m1) else Spares(a, m1)
    requires At(n, m1.log, Taken(t, sig))
    ensures Along(m0, m)
    ensures m.s.taken == m1.s.taken
    ensures if m1.ticks == [] then m.ticks == [] && m.s.sent == m1.s.sent && m.s.k.pending == m1.s.k.pending
            else |m.ticks| < |m1.ticks|
    ensures if r == None then LoopInv(n, m0, m, eof, y) else r == Some(ChildGone) && Concluded(n, m0, ChildGone, m)
    ensures sig == SIGCHLD && EndsNow(m1) ==> r == None && y.status.Some? && m == Waited(m1).1
    ensures sig == SIGCHLD && y0.status.Some? ==> r.Some?
  {
    if sig == SIGCHLD {
      var gone, status;
      gone, status, m := HeedChld(n, t, m0, a, eof, y0.status, m1);
      StreamStays(m0, m1, m, eof, y0.buffer, y0.overflow);
      return if gone then Some(ChildGone) else None, y0.(status := status), m;
    }
    m := Forward(n, t, sig, m1);
    StreamStays(m0, m1, m, eof, y0.buffer, y0.overflow);
    ChildStays(m0, a, m1, eof, y0.status, t);
    AlongComposes(m0, a, m1);
    ChildStays(m0, m1, m, eof, y0.status, t);
    return None, y0, m;
  }

  lemma LeavingIsConcluded(n: nat, p: Prompt, m0: Machine, a: Machine, eof: bool, status: Option<int>, t: Tale, reason: Run, m: Machine)
    requires ChildInv(m0, a, eof, status, t) && Open(a.s) && !(eof && status.Some?) && Selects(p.signals)
    requires At(n, m.log, t) && Along(m0, a)
    requires (reason.Failed? && Fails(a.ticks, reason.error)) || (reason == Hung && p.Idle(eof, a.s, m.s) && m.ticks == [])
    ensures Concluded(n, m0, reason, m)
  {
    if reason == Hung {
      ChldIsSelected(p.signals);
      LiteralQuiet(p.signals, m.s);
      IdleIsSound(p, m0, a, eof, status, t, m.s);
    }
  }

  lemma NothingGoesOn(n: nat, m0: Machine, a: Machine, m: Machine, y: Tally, t: Tale, eof: bool)
    requires StreamInv(m0, a, eof, y.buffer, y.overflow) && ChildInv(m0, a, eof, y.status, t)
    requires Spares(a, m) && m.s.taken == a.s.taken && At(n, m.log, t)
    ensures LoopInv(n, m0, m, eof, y)
  {
    StreamStays(m0, a, m, eof, y.buffer, y.overflow);
    ChildStays(m0, a, m, eof, y.status, t);
  }

  lemma InputGoesOn(n: nat, m0: Machine, a: Machine, m: Machine, y: Tally, t: Tale, eof: bool, slept: seq<Entry>, bytes: seq<Byte>)
    requires StreamInv(m0, a, false, y.buffer, y.overflow) && ChildInv(m0, a, false, y.status, t)
    requires Spares(a, m) && SIGCHLD !in a.s.k.pending && AtEnd(eof, m.s) && eof == (bytes == [])
    requires m.s.taken == a.s.taken + |bytes| <= |m.s.sent| && bytes == m.s.sent[a.s.taken..m.s.taken]
    requires At(n, slept, t) && m.log == slept + Noted(Input(bytes))
    ensures var accepted := Accept(y.buffer, |bytes|);
            LoopInv(n, m0, m, eof, y.(buffer := y.buffer + bytes[..accepted], overflow := y.overflow || accepted != |bytes|))
  {
    StreamFlows(m0, a, m, eof, y.buffer, y.overflow, bytes);
    ChildAtInput(m0, a, m, y.status, t, eof);
    NotesInput(n, t, slept, bytes);
  }

  /** What the body of the loop makes of what it finds. */
  method Act(p: Prompt, ghost eof0: bool, ghost n: nat, ghost m0: Machine, ghost m1: Machine, y0: Tally,
             f: Found, ghost slept: seq<Entry>, m2: Machine)
    returns (r: Option<Run>, y: Tally, m: Machine)
    requires LoopInv(n, m0, m1, eof0, y0) && Selects(p.signals) && !(eof0 && y0.status.Some?)
    requires Finds(p, eof0, p.inputEof, m1, f, slept, m2) && At(n, slept, Story(n, m1.log).value)
    ensures r == None ==> LoopInv(n, m0, m, p.inputEof, y) && Progresses(m1, eof0, m, p.inputEof)
    ensures r.Some? ==> Along(m0, m) && Concluded(n, m0, r.value, m)
    ensures f == Signal(SIGCHLD) && EndsNow(m2) ==> r == None && y.status.Some? && m == Waited(m2).1
    ensures f == Signal(SIGCHLD) && y0.status.Some? ==> r == Some(ChildGone)
  {
    ghost var t := Story(n, m1.log).value;
    assert slept + [] == slept;
    match f
    case Leave(reason) =>
      ChldIsSelected(p.signals);
      AlongComposes(m0, m1, m2);
      LeavingIsConcluded(n, p, m0, m1, eof0, y0.status, t, reason, m2);
      return Some(reason), y0, m2;
    case Nothing =>
      NothingGoesOn(n, m0, m1, m2, y0, t, eof0);
      return None, y0, m2;
    case Input(bytes) =>
      InputGoesOn(n, m0, m1, m2, y0, t, p.inputEof, slept, bytes);
      var accepted := Accept(y0.buffer, |bytes|);
      y := y0.(buffer := y0.buffer + bytes[..accepted], overflow := y0.overflow || accepted != |bytes|);
      return None, y, m2;
    case Signal(sig) =>
      Goes(n, slept, t, Took(sig));
      StreamStays(m0, m1, m2, eof0, y0.buffer, y0.overflow);
      r, y, m := Heed(n, t, m0, m1, eof0, sig, y0, m2);
  }

  /** The body of the loop. */
  method Step(p: Prompt, ghost n: nat, ghost m0: Machine, m1: Machine, y0: Tally) returns (r: Option<Run>, y: Tally, m: Machine)
    requires LoopInv(n, m0, m1, p.inputEof, y0) && Selects(p.signals) && !(p.inputEof && y0.status.Some?)
    modifies p`inputEof
    ensures r == None
      ==> LoopInv(n, m0, m, p.inputEof, y) && Progresses(m1, old(p.inputEof), m, p.inputEof)
    ensures r.Some? ==> Along(m0, m) && Concluded(n, m0, r.value, m)
    ensures Summoned(p.signals, m1) && EndsNow(Woken(m1)) ==>
              r == None && p.inputEof == old(p.inputEof) && y.status.Some? && m == Waited(Woken(m1)).1
    ensures Summoned(p.signals, m1) && y0.status.Some? ==> r == Some(ChildGone)
  {
    ghost var eof := p.inputEof;
    var found;
    ghost var slept;
    ChldIsSelected(p.signals);
    found, slept, m := Look(p, m1);
    SleepsGoOn(n, p, m0, m1, eof, y0.status, Story(n, m1.log).value, slept);
    r, y, m := Act(p, eof, n, m0, m1, y0, found, slept, m);
  }

  lemma NotesInput(n: nat, t: Tale, slept: seq<Entry>, bytes: seq<Byte>)
    requires At(n, slept, t) && t.owed == None && !t.closed && !t.ended
    ensures At(n, slept + Noted(Input(bytes)), t.(ended := bytes == []))
  {
    if bytes == [] {
      Goes(n, slept, t, StreamEnded);
    } else {
      assert slept + [] == slept;
    }
  }

  // ----- The loop -----

  /** The first turn reaps the child, and the second takes one more SIGCHLD. */
  predicate AsksTwice(r: SignalReceiver.Receiver, m: Machine) {
    && Summoned(r, m) && EndsNow(Woken(m))
    && Summoned(r, Waited(Woken(m)).1)
  }

  method Gather(p: Prompt, m0: Machine) returns (r: Run, m: Machine)
    requires InRange(m0.s) && Open(m0.s) && Piped(m0.s) && m0.s.taken == 0
    requires EndArmed(m0.s.k) && !m0.s.k.fate.Reaped? && !p.inputEof && Selects(p.signals)
    modifies p`inputEof
    ensures Along(m0, m) && Concluded(|m0.log|, m0, r, m)
    ensures AsksTwice(p.signals, m0) ==> r == ChildGone
  {
    m := m0;
    var y := Tally([], false, None);
    while true
      invariant LoopInv(|m0.log|, m0, m, p.inputEof, y)
      invariant !(p.inputEof && y.status.Some?)
      invariant AsksTwice(p.signals, m0) ==>
                  (m == m0 && y.status == None) || (y.status.Some? && Summoned(p.signals, m))
      decreases |m.ticks|, |m.s.sent| - m.s.taken, !p.inputEof, |m.s.k.pending|
    {
      var done;
      done, y, m := Step(p, |m0.log|, m0, m, y);
      if done.Some? {
        return done.value, m;
      }
      if p.inputEof && y.status.Some? {
        return Finished(y.buffer, y.overflow, y.status.value), m;
      }
    }
  }

  // ----- The answer -----

  datatype Result = Answer(verdict: Verdict) | Lost | Broken(error: Errno) | Waiting

  /** What was gathered of the whole output gives the whole output's verdict. */
  lemma GatheredIsEnough(total: seq<Byte>, buffer: seq<Byte>, overflow: bool, status: int, utf8: seq<Byte> -> bool)
    requires buffer == total[..Min(|total|, MAX_INPUT_LEN + 1)]
    requires overflow <==> |total| > MAX_INPUT_LEN + 1
    ensures Decide(buffer, overflow, status, utf8) == Judge(total, status, utf8)
  {
    var n := |total|;
    if !overflow {
      assert buffer == total;
      if n > 1 {
        assert total[..n - 1][..n - 2] == total[..n - 2];
      }
    }
  }

  /** The checks after the loop, on what was gathered. */
  function Decide(buffer: seq<Byte>, overflow: bool, status: int, utf8: seq<Byte> -> bool): Verdict {
    if status != 0 then BadStatus(status)
    else
      var stripped :=
        if buffer != [] && buffer[|buffer| - 1] == LF then
          var line := buffer[..|buffer| - 1];
          if line != [] && line[|line| - 1] == CR then line[..|line| - 1] else line
        else buffer;
      if overflow || |stripped| > MAX_INPUT_LEN then TooLong
      else if utf8(stripped) then Accepted(stripped) else NotUtf8
  }

  /** When an answer is lost, in terms of the log and of the schedule: exactly if
      somebody else waited for the child or a SIGCHLD was taken after the child's
      end was reported. One that was pending then, before the stream's end was read,
      suffices; without SIGCHLD from others it is necessary; and a quiet schedule
      never loses one. */
  predicate Accounted(n: nat, m0: Machine, a: Result, m: Machine) {
    && n <= |m.log|
    && Story(n, m.log).Some?
    && var t, stolen := Story(n, m.log).value, m.s.k.fate.Stolen?;
    && t.owed == None && (t.closed <==> !a.Waiting?)
    && match a
       case Answer(_) => !stolen && !t.asked && !t.doomed
       case Lost =>
         && (stolen || t.asked) && (Free(m0.ticks, IsForeign) ==> stolen || t.doomed)
         && !(Free(m0.ticks, IsLoud) && Single(m0.s.k))
       case Waiting =>
         && m.ticks == [] && (Alive(m.s.k) || m.s.othersHold) && !t.asked && !t.doomed
         && {1, 2, 3, 15, 17, 18, 20} !! m.s.k.pending
       case Broken(e) => Fails(m0.ticks, e)
  }

  /** What a verdict says in numbers: a password only from a child that exited with 0
      and an output that carries it, and for any other end its status. */
  ghost predicate Verdicts(total: seq<Byte>, how: Ending, utf8: seq<Byte> -> bool, v: Verdict) {
    match how
    case Exited(code) =>
      if code != 0 then v == BadStatus(code)
      else
        && (forall p :: v == Accepted(p) <==> utf8(p) && Carries(total, p))
        && (v == TooLong <==> |total| > 1025 || (|total| == 1025 && total[1024] != 10))
        && !v.BadStatus?
    case Killed(sig) => sig > 0 ==> v == BadStatus(128 + sig)
  }

  lemma JudgeVerdicts(total: seq<Byte>, how: Ending, utf8: seq<Byte> -> bool)
    ensures Verdicts(total, how, utf8, Judge(total, Status(how), utf8))
  {
    forall p | how == Exited(0)
      ensures Judge(total, 0, utf8) == Accepted(p) <==> utf8(p) && Carries(total, p)
    {
      WhichOutputsYield(total, p, utf8);
    }
    WhichOutputsYield(total, [], utf8);
  }

  /** The parent from the barrier's Continue on. Whatever the pieces and the
      interleaving, an answer is the verdict on everything that was ever written
      to the stream and the child's status. */
  method AwaitAnswer(r: SignalReceiver.Receiver, utf8: seq<Byte> -> bool, m0: Machine)
    returns (a: Result, m: Machine)
    requires InRange(m0.s) && Open(m0.s) && Piped(m0.s) && m0.s.taken == 0
    requires EndArmed(m0.s.k) && !m0.s.k.fate.Reaped? && Selects(r)
    ensures a.Answer? ==>
              && m.s.k.fate.Reaped? && !Held(m.s)
              && a.verdict == Judge(m.s.sent, Status(m.s.k.fate.how), utf8)
    ensures a.Answer? ==> Verdicts(m.s.sent, m.s.k.fate.how, utf8, a.verdict)
    ensures Accounted(|m0.log|, m0, a, m)
    ensures AsksTwice(r, m0) ==> a == Lost
    ensures !a.Waiting? ==> m.s.k.mask == r.prevMask
  {
    var p := new Prompt(r);
    var run;
    run, m := Gather(p, m0);
    if run.Hung? {
      return Waiting, m;
    }
    ghost var gathered := m;
    m := SignalReceiver.Drop(r, m);
    Goes(|m0.log|, gathered.log, Story(|m0.log|, gathered.log).value, MaskRestored(m.s));
    match run
    case ChildGone => return Lost, m;
    case Failed(e) => return Broken(e), m;
    case Finished(buffer, overflow, status) =>
      GatheredIsEnough(m.s.sent, buffer, overflow, status, utf8);
      JudgeVerdicts(m.s.sent, m.s.k.fate.how, utf8);
      return Answer(Decide(buffer, overflow, status, utf8)), m;
  }

  /** A start from which every run loses the answer, although the child wrote a
      password and exited with 0 and no call fails: a SIGCHLD from somebody else
      arrives just before waitpid reports the child's end. */
  function LosingStart(r: SignalReceiver.Receiver): Machine {
    var k := Kernel(Zombie(Exited(0)), Some(Notice.Ended(Exited(0))), r.fd, {SIGCHLD});
    Machine(Station(k, 0, false, true, true, 0, Attrs(true, true, 0), false, [65], 0, false, {}, false, false, false, []),
            [Tick([], None), Tick([], None), Tick([Child(Arrives(SIGCHLD))], None)], [])
  }

  lemma FaultlessFirst(t: Tick, rest: seq<Tick>)
    ensures t.fault == None && !Faulty(rest) ==> !Faulty([t] + rest)
  {
    assert ([t] + rest)[1..] == rest;
  }

  lemma OneEvent(s: Station, o: Outside)
    ensures ApplyAll(s, [o]) == Apply(s, o)
  {
    assert [o][1..] == [];
    assert ApplyAll(Apply(s, o), []) == Apply(s, o);
  }

  lemma LosingStartAsksTwice(r: SignalReceiver.Receiver)
    requires Selects(r)
    ensures AsksTwice(r, LosingStart(r))
    ensures !Faulty(LosingStart(r).ticks)
  {
    var m0 := LosingStart(r);
    ChldIsSelected(r);
    var quiet, kick := Tick([], None), Tick([Child(Arrives(SIGCHLD))], None);
    assert m0.ticks[1..] == [quiet, kick] && [quiet, kick][1..] == [kick] && [kick][1..] == [];
    FaultlessFirst(kick, []);
    FaultlessFirst(quiet, [kick]);
    FaultlessFirst(quiet, [quiet, kick]);
    assert [kick] + [] == [kick] && [quiet] + [kick] == [quiet, kick] && [quiet] + [quiet, kick] == m0.ticks;
    var m1 := Advance(m0);
    assert m1 == m0.(ticks := [quiet, kick]);
    var m2 := Woken(m0);
    assert m2.s.k == m0.s.k.(pending := {}) && m2.ticks == [kick];
    OneEvent(m2.s, Child(Arrives(SIGCHLD)));
    assert Advance(m2).s.k == m0.s.k;
    var m3 := Waited(m2).1;
    assert m3.ticks == [] && m3.s.k.pending == {SIGCHLD};
  }

  method LosingRun(r: SignalReceiver.Receiver, utf8: seq<Byte> -> bool) returns (a: Result, m: Machine)
    requires Selects(r) && utf8([65])
    ensures a == Lost && Judge(LosingStart(r).s.sent, 0, utf8) == Accepted([65])
  {
    ChldIsSelected(r);
    LosingStartAsksTwice(r);
    a, m := AwaitAnswer(r, utf8, LosingStart(r));
  }

  // ----- Why the loop starts with nothing lost -----

  /** `k` is the kernel's view of a barrier state: whether SIGCHLD is blocked and
      pending, and whether the child has ended. */
  predicate Pictures(b: ForkSync.World, k: Kernel) {
    && Sane(k) && !k.fate.Reaped? && !k.fate.Stolen?
    && (b.chldBlocked ==> SIGCHLD in k.mask)
    && (b.chldPending ==> SIGCHLD in k.pending)
    && (k.fate.Zombie? ==> b.child.phase == ForkSync.Dead)
  }

  /** A parent that the barrier let continue meets the precondition of the loop,
      on every run of the barrier. */
  lemma ContinueStartsArmed(moves: seq<ForkSync.Move>, k: Kernel)
    requires ForkSync.Legal(ForkSync.START, moves)
    requires ForkSync.Decides(ForkSync.After(ForkSync.START, moves), ForkSync.Parent, ForkSync.Continue)
    requires Pictures(ForkSync.After(ForkSync.START, moves), k)
    ensures EndArmed(k) && !k.fate.Reaped?
  {
    ForkSync.ContinueArmsSigchld(moves);
  }
}
