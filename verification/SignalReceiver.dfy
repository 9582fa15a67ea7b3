/** src/modules/signal_recv.rs: signals blocked on the thread and read from a
    signalfd. */
module SignalReceiver {
  import opened Common
  import opened Kernel
  import opened Host

  /** Signal numbers nix's `Signal` knows; the others convert to nothing. */
  function ToSignal(n: int): Option<int> {
    if 1 <= n <= 31 then Some(n) else None
  }

  /** A taken number that names no signal. */
  predicate Unnamed(e: Entry) {
    e.Took? && ToSignal(e.sig) == None
  }

  datatype Receiver = Receiver(fd: set<int>, prevMask: set<int>)

  /** Setting the mask delivers what it unblocks. */
  function SetMask(s: Station, mask: set<int>): Station {
    s.(k := s.k.(mask := mask, pending := s.k.pending * mask))
  }

  /** No selected signal is readable. */
  predicate Quiet(s: Station, r: Receiver) {
    forall n | n in r.fd :: n !in s.k.pending
  }

  /** The mask of the signals, unless one of them cannot be blocked. */
  method Select(signals: seq<int>) returns (mask: Option<set<int>>)
    ensures mask.None? <==> SIGKILL in signals || SIGSTOP in signals
    ensures mask.Some? ==> mask.value == set i | 0 <= i < |signals| :: signals[i]
  {
    var selected: set<int> := {};
    for i := 0 to |signals|
      invariant selected == set j | 0 <= j < i :: signals[j]
      invariant forall j | 0 <= j < i :: signals[j] != SIGKILL && signals[j] != SIGSTOP
    {
      if signals[i] == SIGKILL || signals[i] == SIGSTOP {
        return None;
      }
      selected := selected + {signals[i]};
    }
    return Some(selected);
  }

  function Remask(s: Station, mask: set<int>): Station {
    s.(k := s.k.(mask := mask))
  }

  lemma MaskingKeeps(a: Station, s: Station, mask: set<int>)
    ensures Kept(a, s) ==> Kept(a, SetMask(s, mask)) && Kept(a, Remask(s, mask))
  {
    KeptComposes(a, s, SetMask(s, mask));
    KeptComposes(a, s, Remask(s, mask));
  }

  /** What `install` keeps apart from the mask. */
  ghost predicate Installs(a: Machine, b: Machine) {
    && Kept(a.s, b.s)
    && b.log == a.log
    && Follows(a.ticks, b.ticks)
    && Unmoved(a, b)
    && Unset(a, b)
    && Prospects(a, b)
  }

  /** Whatever mask a call sets, it keeps the rest. */
  lemma CallInstalls(m0: Machine, mask: set<int>)
    ensures Installs(m0, Advance(m0))
    ensures Installs(m0, Advance(m0).(s := Remask(Advance(m0).s, mask)))
  {
    var m := Advance(m0);
    AdvanceIsOutside(m0);
    CallProspects(m0, m);
    CallProspects(m0, m.(s := Remask(m.s, mask)));
    MaskingKeeps(m0.s, m.s, mask);
  }

  /** The call that blocks the signals. */
  method Block(mask: set<int>, m0: Machine) returns (r: Result<set<int>, Errno>, m: Machine)
    ensures Installs(m0, m)
    ensures m.ticks == Rest(m0.ticks)
    ensures r.Err? <==> Due(m0.ticks).Some?
    ensures r.Err? ==> r.error != EINTR && Fails(m0.ticks, r.error)
    ensures r.Err? ==> m.s.k.mask == m0.s.k.mask
    ensures r.Ok? ==> r.value == m0.s.k.mask && m.s.k.mask == m0.s.k.mask + mask
    ensures SIGCHLD in mask && !Unreported(Advance(m0).s.k) ==> r.Err? || Armed(m.s.k)
  {
    var fault := Due(m0.ticks);
    AdvanceIsOutside(m0);
    m := Advance(m0);
    var prevMask := m.s.k.mask;
    CallInstalls(m0, prevMask + mask);
    if fault.Some? {
      return Err(fault.value), m;
    }
    m := m.(s := Remask(m.s, prevMask + mask));
    return Ok(prevMask), m;
  }

  /** `install`: blocks the signals, or fails and leaves the mask as it was. */
  method Install(signals: seq<int>, m0: Machine) returns (r: Result<Receiver, Errno>, m: Machine)
    ensures Installs(m0, m)
    ensures r.Err? ==> m.s.k.mask == m0.s.k.mask
    ensures r.Err? <==>
            SIGKILL in signals || SIGSTOP in signals || Due(m0.ticks).Some? || Due(Rest(m0.ticks)).Some?
    ensures SIGKILL in signals || SIGSTOP in signals ==> r == Err(EINVAL)
    ensures r.Err? && SIGKILL !in signals && SIGSTOP !in signals ==> r.error != EINTR && Fails(m0.ticks, r.error)
    ensures r.Ok? ==>
              && r.value.prevMask == m0.s.k.mask
              && r.value.fd == (set i | 0 <= i < |signals| :: signals[i])
              && m.s.k.mask == m0.s.k.mask + r.value.fd
              && m.ticks == Rest(Rest(m0.ticks))
    ensures r.Ok? && SIGCHLD in signals && Sane(m0.s.k) && !Unreported(Advance(m0).s.k) ==> Armed(m.s.k)
  {
    var mask := Select(signals);
    if mask == None {
      CallProspects(m0, Advance(m0));
      return Err(EINVAL), m0;
    }
    var prevMask;
    prevMask, m := Block(mask.value, m0);
    if prevMask.Err? {
      return Err(prevMask.error), m;
    }
    var fault, before := Due(m.ticks), m;
    AdvanceIsOutside(m);
    m := Advance(m);
    KeptComposes(m0.s, before.s, m.s);
    CallProspects(before, m);
    if fault.Some? {
      MaskingKeeps(m0.s, m.s, prevMask.value);
      m := m.(s := SetMask(m.s, prevMask.value));
      CallProspects(before, m);
      return Err(fault.value), m;
    }
    return Ok(Receiver(mask.value, prevMask.value)), m;
  }

  function Take(s: Station, n: int): Station {
    s.(k := s.k.(pending := s.k.pending - {n}))
  }

  /** A signalfd read that finds signal `n`. */
  function Taking(m: Machine, n: int): Machine {
    Log(Advance(m).(s := Take(Advance(m).s, n)), Took(n))
  }

  /** Everything but a pending signal is as outside events left it. */
  ghost predicate Takes(a: Machine, b: Machine) {
    && Kept(a.s, b.s)
    && Sane(b.s.k)
    && b.s.k.mask == a.s.k.mask
    && Follows(a.ticks, b.ticks)
    && Unmoved(a, b)
    && Unset(a, b)
    && Unprovoked(a, b)
  }

  lemma TakingKeeps(m: Machine, n: int)
    requires Sane(m.s.k) && n in Advance(m).s.k.pending
    ensures Takes(m, Taking(m, n))
    ensures n != SIGCHLD ==> Passes(m, Taking(m, n))
  {
    AdvanceIsOutside(m);
    KeptComposes(m.s, Advance(m).s, Taking(m, n).s);
  }

  lemma TakesLater(a: Machine, b: Machine, c: Machine)
    ensures Passes(a, b) && Takes(b, c) ==> Takes(a, c)
  {
    KeptComposes(a.s, b.s, c.s);
  }

  /** `read`: takes some pending selected signal; never sleeps. */
  method Read(r: Receiver, m0: Machine) returns (sig: Result<Option<int>, Errno>, m: Machine)
    requires Sane(m0.s.k)
    ensures Takes(m0, m)
    ensures sig != Ok(Some(SIGCHLD)) ==> Passes(m0, m)
    ensures sig.Err? <==> Due(m0.ticks).Some?
    ensures sig.Err? ==> sig.error != EINTR && Fails(m0.ticks, sig.error)
    ensures sig == Ok(None) ==> Quiet(m.s, r)
    ensures sig.Ok? && sig.value.Some? ==>
              var n := sig.value.value;
              n in r.fd && n in Advance(m0).s.k.pending && m == Taking(m0, n)
    ensures sig.Err? || sig == Ok(None) ==> m == Advance(m0)
  {
    var fault := Due(m0.ticks);
    AdvanceIsOutside(m0);
    m := Advance(m0);
    if fault.Some? {
      return Err(fault.value), m;
    }
    if Quiet(m.s, r) {
      return Ok(None), m;
    }
    var n :| n in r.fd && n in m.s.k.pending;
    TakingKeeps(m0, n);
    m := Log(m.(s := Take(m.s, n)), Took(n));
    return Ok(Some(n)), m;
  }

  /** Since `m0` the log grew only by sleeps, and at each of them nothing was
      readable. */
  predicate SleptOnly(m0: Machine, log: seq<Entry>, r: Receiver) {
    && m0.log <= log
    && forall i | |m0.log| <= i < |log| :: log[i].Asleep? && Rested(m0, log[i].s, r)
  }

  /** A wait slept, and if it got a signal then took it last. */
  predicate Waited(w: Waiting, m0: Machine, m: Machine, r: Receiver) {
    if w.Got? then
      && |m.log| > 0 && m.log[|m.log| - 1] == Took(w.sig)
      && SleptOnly(m0, m.log[..|m.log| - 1], r)
    else SleptOnly(m0, m.log, r)
  }

  predicate Rested(m0: Machine, s: Station, r: Receiver) {
    Outsiders(m0.s, s) && Quiet(s, r) && Sane(s.k) && (Free(m0.ticks, IsTake) ==> s.owner == m0.s.owner)
  }

  lemma WaitedFor(n: int, m0: Machine, before: Machine, r: Receiver)
    requires SleptOnly(m0, before.log, r)
    ensures Waited(Got(n), m0, Taking(before, n), r)
  {
    assert Taking(before, n).log[..|before.log|] == before.log;
  }

  lemma SleptOnlyComposes(a: Machine, b: Machine, c: Machine, r: Receiver)
    requires SleptOnly(a, b.log, r) && SleptOnly(b, c.log, r) && Passes(a, b)
    ensures SleptOnly(a, c.log, r)
  {
    forall i | |a.log| <= i < |c.log| ensures c.log[i].Asleep? && Rested(a, c.log[i].s, r) {
      if i < |b.log| {
        assert c.log[i] == b.log[i];
      } else {
        OutsidersCompose(a.s, b.s, c.log[i].s);
      }
    }
  }

  datatype Polled = Ready | PollFailed(error: Errno) | Never

  /** poll on the signalfd. `Never` means that the schedule is over and the
      process would sleep on. */
  method Poll(r: Receiver, m0: Machine) returns (p: Polled, m: Machine)
    requires Sane(m0.s.k)
    ensures Passes(m0, m)
    ensures SleptOnly(m0, m.log, r)
    ensures p.Ready? ==> !Quiet(m.s, r)
    ensures p.Never? ==> m.ticks == [] && Quiet(m.s, r)
    ensures p.PollFailed? ==> Fails(m0.ticks, p.error)
    ensures m0.ticks == [] && Quiet(m0.s, r) ==> p.Never?
  {
    m := m0;
    PassesSelf(m);
    while true
      invariant Passes(m0, m) && SleptOnly(m0, m.log, r)
      invariant m0.ticks == [] ==> m == m0
      decreases |m.ticks|
    {
      var fault, before, last := Fault(m), m, m.ticks == [];
      AdvanceIsOutside(m);
      m := Advance(m);
      PassesCompose(m0, before, m);
      if fault.Some? {
        return PollFailed(fault.value), m;
      }
      if !Quiet(m.s, r) {
        return Ready, m;
      }
      m := Log(m, Asleep(m.s));
      if last {
        return Never, m;
      }
    }
  }

  lemma ReadThenPolled(a: Machine, b: Machine, c: Machine, r: Receiver)
    requires Sane(a.s.k) && Passes(a, b) && b.log == a.log
    requires Passes(b, c) && SleptOnly(b, c.log, r)
    ensures Passes(a, c) && Takes(a, c) && SleptOnly(a, c.log, r)
  {
    PassesCompose(a, b, c);
    SleptOnlyComposes(a, b, c, r);
  }

  datatype Waiting = Got(sig: int) | Broken(error: Errno) | Blocked

  /** A turn that goes on has slept at most, as one that would sleep on. */
  function Found(w: Option<Waiting>): Waiting {
    if w.Some? then w.value else Blocked
  }

  /** The next read of the signalfd finds something. */
  predicate Summoned(r: Receiver, m: Machine) {
    Due(m.ticks) == None && !Quiet(Advance(m).s, r)
  }

  predicate TookNext(sig: int, m0: Machine, m: Machine) {
    sig in Advance(m0).s.k.pending && m == Taking(m0, sig)
  }

  /** One turn of `wait`; None to go on. */
  method WaitOnce(r: Receiver, m0: Machine) returns (w: Option<Waiting>, m: Machine)
    requires Sane(m0.s.k)
    ensures Takes(m0, m)
    ensures w != Some(Got(SIGCHLD)) ==> Passes(m0, m)
    ensures Waited(Found(w), m0, m, r)
    ensures w.Some? && w.value.Got? ==> w.value.sig in r.fd
    ensures w == Some(Blocked) ==> m.ticks == [] && Quiet(m.s, r)
    ensures w.Some? && w.value.Broken? ==> w.value.error != EINTR && Fails(m0.ticks, w.value.error)
    ensures m0.ticks != [] ==> |m.ticks| < |m0.ticks|
    ensures m0.ticks == [] ==> w.Some? && (w.value.Got? ==> |m.s.k.pending| < |m0.s.k.pending|)
    ensures Summoned(r, m0) ==> w.Some? && w.value.Got? && TookNext(w.value.sig, m0, m)
  {
    var sig;
    AdvanceIsOutside(m0);
    sig, m := Read(r, m0);
    match sig
    case Err(e) => return Some(Broken(e)), m;
    case Ok(Some(n)) =>
      WaitedFor(n, m0, m0, r);
      return Some(Got(n)), m;
    case Ok(None) =>
      w, m := PollAfter(r, m0, m);
  }

  /** The poll of a turn, after a read that found nothing. */
  method PollAfter(r: Receiver, ghost m0: Machine, m1: Machine) returns (w: Option<Waiting>, m: Machine)
    requires Sane(m0.s.k) && Passes(m0, m1) && m1.log == m0.log
    ensures Passes(m0, m) && Takes(m0, m)
    ensures SleptOnly(m0, m.log, r)
    ensures w.Some? ==> w.value.Blocked? || w.value.Broken?
    ensures w == Some(Blocked) ==> m.ticks == [] && Quiet(m.s, r)
    ensures w.Some? && w.value.Broken? ==> w.value.error != EINTR && Fails(m0.ticks, w.value.error)
    ensures |m.ticks| <= |m1.ticks|
    ensures m1.ticks == [] && Quiet(m1.s, r) ==> w == Some(Blocked)
  {
    var polled;
    polled, m := Poll(r, m1);
    ReadThenPolled(m0, m1, m, r);
    match polled
    case Ready => return None, m;
    case PollFailed(e) => return if e == EINTR then None else Some(Broken(e)), m;
    case Never => return Some(Blocked), m;
  }

  lemma WaitedLater(w: Waiting, a: Machine, b: Machine, c: Machine, r: Receiver)
    requires SleptOnly(a, b.log, r) && Passes(a, b) && Waited(w, b, c, r)
    ensures Waited(w, a, c, r)
  {
    if w.Got? {
      SleptOnlyComposes(a, b, c.(log := c.log[..|c.log| - 1]), r);
    } else {
      SleptOnlyComposes(a, b, c, r);
    }
  }

  /** `wait`: reads, and polls while nothing is pending. It ends as Blocked only
      when the schedule is over and it would sleep on. */
  method Wait(r: Receiver, m0: Machine) returns (w: Waiting, m: Machine)
    requires Sane(m0.s.k)
    ensures Takes(m0, m)
    ensures w != Got(SIGCHLD) ==> Passes(m0, m)
    ensures Waited(w, m0, m, r)
    ensures w.Got? ==> w.sig in r.fd
    ensures w.Blocked? ==> m.ticks == [] && Quiet(m.s, r)
    ensures w.Broken? ==> w.error != EINTR && Fails(m0.ticks, w.error)
    ensures m0.ticks != [] ==> |m.ticks| < |m0.ticks|
    ensures m0.ticks == [] && w.Got? ==> |m.s.k.pending| < |m0.s.k.pending|
    ensures Summoned(r, m0) ==> w.Got? && TookNext(w.sig, m0, m)
  {
    m := m0;
    PassesSelf(m);
    while true
      invariant Passes(m0, m) && Sane(m.s.k) && SleptOnly(m0, m.log, r)
      invariant m0.ticks == [] || Summoned(r, m0) ==> m == m0
      decreases |m.ticks|
    {
      var turn, before := *, m;
      turn, m := WaitOnce(r, m);
      TakesLater(m0, before, m);
      WaitedLater(Found(turn), m0, before, m, r);
      if turn != Some(Got(SIGCHLD)) {
        PassesCompose(m0, before, m);
      }
      if turn.Some? {
        return turn.value, m;
      }
    }
  }

  /** `drop`: the exact previous mask is back. */
  method Drop(r: Receiver, m0: Machine) returns (m: Machine)
    ensures m.s == SetMask(m0.s, r.prevMask) && m.s.k.mask == r.prevMask && m.ticks == m0.ticks
    ensures m.log == m0.log + [MaskRestored(m.s)]
  {
    m := m0.(s := SetMask(m0.s, r.prevMask));
    m := Log(m, MaskRestored(m.s));
  }
}
