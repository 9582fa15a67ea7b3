/** `watch_process` of src/modules/proc.rs and src/modules/fg_handler.rs. */
module Supervisor {
  import opened Common
  import opened Kernel
  import opened Host
  import ForkSync
  import SignalReceiver

  const RECEIVED_SIGNALS := [SIGCHLD, SIGHUP, SIGINT, SIGQUIT, SIGTERM, SIGALRM, SIGTSTP, SIGCONT, SIGWINCH]

  // ----- fg_handler.rs -----

  /** `captured` is the state in which the terminal's owner was read; it is there
      only if the first transfer to the child succeeded. */
  datatype Handler = Handler(prevTtou: int, captured: Option<Station>, child: int)

  /** The terminal's owner may change, and nothing else but by outside events. */
  ghost predicate OnlyOwner(m0: Machine, m: Machine) {
    && Base(m0.s, m.s)
    && m.s.ttou == m0.s.ttou
    && m.s.k.mask == m0.s.k.mask
    && (Sane(m0.s.k) && Armed(m0.s.k) ==> Armed(m.s.k))
    && m.log == m0.log
    && Follows(m0.ticks, m.ticks)
    && (m0.ticks == [] ==> m.s.k == m0.s.k)
  }

  /** tcsetpgrp. A group that does not exist yet cannot become the owner. */
  method SetOwner(pgrp: int, child: int, m0: Machine) returns (ok: bool, m: Machine)
    ensures OnlyOwner(m0, m)
    ensures Prospects(m0, m)
    ensures m.ticks == Rest(m0.ticks)
    ensures ok ==> m.s.owner == pgrp && !m.s.disturbed
    ensures !ok ==> m.s.disturbed && Unmoved(m0, m)
    ensures !ok ==> Failing(m0.ticks) || (pgrp == child && !m.s.grouped)
  {
    var fault := Due(m0.ticks);
    AdvanceIsOutside(m0);
    m := Advance(m0);
    ok := fault == None && (pgrp == child ==> m.s.grouped);
    var owner := if ok then pgrp else m.s.owner;
    OwnerCall(m0, owner, !ok);
    m := m.(s := m.s.(owner := owner, disturbed := !ok));
  }

  lemma OwnerCall(m0: Machine, owner: int, disturbed: bool)
    ensures var m := Advance(m0).(s := Advance(m0).s.(owner := owner, disturbed := disturbed));
            OnlyOwner(m0, m) && Prospects(m0, m)
  {
    var m := Advance(m0).(s := Advance(m0).s.(owner := owner, disturbed := disturbed));
    AdvanceIsOutside(m0);
    CallProspects(m0, m);
  }

  /** The terminal has its original owner, or the handler's request for it was
      refused or undone by somebody else. */
  predicate WithOriginal(h: Handler, s: Station) {
    h.captured.Some? && !s.disturbed ==> s.owner == h.captured.value.owner
  }

  predicate WithChild(h: Handler, s: Station) {
    h.captured.Some? && !s.disturbed ==> s.owner == h.child
  }

  /** The original owner has the terminal, whoever disturbed it before. */
  predicate Returned(h: Handler, s: Station) {
    h.captured.Some? ==> s.owner == h.captured.value.owner
  }

  /** The child has it. */
  predicate Given(h: Handler, s: Station) {
    h.captured.Some? ==> s.owner == h.child
  }

  /** What the schedule does not contain does not happen; a handler that claims
      nothing leaves the terminal alone. */
  ghost predicate Tracks(h: Handler, a: Machine, b: Machine) {
    && Follows(a.ticks, b.ticks)
    && (h.captured == None ==> Unmoved(a, b))
  }

  lemma TracksCompose(h: Handler, a: Machine, b: Machine, c: Machine)
    ensures Tracks(h, a, b) && Tracks(h, b, c) ==> Tracks(h, a, c)
  {}

  /** What is left of the schedule after a successful `install`: tcsetpgrp is not
      called if tcgetpgrp failed. */
  function AfterHandler(ticks: seq<Tick>): seq<Tick> {
    var read := Rest(ticks);
    if Due(read).Some? then Rest(read) else Rest(Rest(read))
  }

  /** What `install` keeps. */
  ghost predicate Handles(a: Machine, b: Machine) {
    && Base(a.s, b.s)
    && b.s.k.mask == a.s.k.mask
    && (Sane(a.s.k) && Armed(a.s.k) ==> Armed(b.s.k))
    && b.log == a.log
    && Follows(a.ticks, b.ticks)
    && Prospects(a, b)
  }

  /** `install`. It claims nothing only if a call failed or the child's group
      does not exist yet. */
  method InstallHandler(child: int, m0: Machine) returns (r: Result<Handler, Errno>, m: Machine)
    ensures Handles(m0, m)
    ensures r.Err? <==> Due(m0.ticks).Some?
    ensures r.Err? ==> r.error != EINTR && Fails(m0.ticks, r.error)
    ensures r.Err? ==> m.s.ttou == m0.s.ttou && Unmoved(m0, m)
    ensures r.Ok? ==> r.value.prevTtou == m0.s.ttou && m.s.ttou == SIG_IGN && r.value.child == child
    ensures r.Ok? ==> m.ticks == AfterHandler(m0.ticks) && Given(r.value, m.s)
    ensures r.Ok? && r.value.captured == None ==> Unmoved(m0, m) && (Failing(m0.ticks) || !m.s.grouped)
    ensures r.Ok? && r.value.captured.Some? && Free(m0.ticks, IsTake) ==> r.value.captured.value.owner == m0.s.owner
  {
    var fault;
    fault, m := IgnoreTtou(m0);
    if fault.Some? {
      return Err(fault.value), m;
    }
    var captured, before := *, m;
    captured, m := Capture(child, m);
    HandlesCompose(m0, before, m);
    return Ok(Handler(m0.s.ttou, captured, child)), m;
  }

  lemma HandlesCompose(a: Machine, b: Machine, c: Machine)
    ensures Handles(a, b) && Handles(b, c) ==> Handles(a, c)
  {}

  /** sigaction. */
  method IgnoreTtou(m0: Machine) returns (fault: Option<Errno>, m: Machine)
    ensures Handles(m0, m)
    ensures Unmoved(m0, m)
    ensures fault == Due(m0.ticks) && m.ticks == Rest(m0.ticks)
    ensures fault.Some? ==> fault.value != EINTR && Fails(m0.ticks, fault.value)
    ensures m.s.ttou == if fault.Some? then m0.s.ttou else SIG_IGN
  {
    fault := Due(m0.ticks);
    AdvanceIsOutside(m0);
    m := Advance(m0);
    if fault == None {
      m := m.(s := m.s.(ttou := SIG_IGN));
    }
    CallProspects(m0, m);
  }

  /** tcgetpgrp, and tcsetpgrp if it succeeded. */
  method Capture(child: int, m0: Machine) returns (captured: Option<Station>, m: Machine)
    ensures Handles(m0, m)
    ensures m.s.ttou == m0.s.ttou
    ensures m.ticks == if Due(m0.ticks).Some? then Rest(m0.ticks) else Rest(Rest(m0.ticks))
    ensures captured.Some? ==> m.s.owner == child
    ensures captured.Some? && Free(m0.ticks, IsTake) ==> captured.value.owner == m0.s.owner
    ensures captured == None ==> Unmoved(m0, m) && (Failing(m0.ticks) || !m.s.grouped)
  {
    var fault := Due(m0.ticks);
    AdvanceIsOutside(m0);
    m := Advance(m0);
    CallProspects(m0, m);
    if fault.Some? {
      return None, m;
    }
    var ok, seen := *, m;
    ok, m := SetOwner(child, child, m);
    BaseComposes(m0.s, seen.s, m.s);
    return if ok then Some(seen.s) else None, m;
  }

  method TransferToParent(h: Handler, m0: Machine) returns (m: Machine)
    ensures OnlyOwner(m0, m)
    ensures Tracks(h, m0, m)
    ensures WithOriginal(h, m.s)
    ensures m0.s.grouped && !Failing(m0.ticks) ==> Returned(h, m.s)
  {
    m := m0;
    if h.captured.Some? {
      var ok;
      ok, m := SetOwner(h.captured.value.owner, h.child, m);
    }
  }

  method TransferToChild(h: Handler, m0: Machine) returns (m: Machine)
    ensures OnlyOwner(m0, m)
    ensures Tracks(h, m0, m)
    ensures WithChild(h, m.s)
    ensures m0.s.grouped && !Failing(m0.ticks) ==> Given(h, m.s)
  {
    m := m0;
    if h.captured.Some? {
      var ok;
      ok, m := SetOwner(h.child, h.child, m);
    }
  }

  /** `drop`: terminal first, then the disposition of SIGTTOU. */
  method DropHandler(h: Handler, m0: Machine) returns (m: Machine)
    ensures Base(m0.s, m.s)
    ensures m.s.k.mask == m0.s.k.mask
    ensures Tracks(h, m0, m)
    ensures m.s.ttou == h.prevTtou && WithOriginal(h, m.s)
    ensures m0.s.grouped && !Failing(m0.ticks) ==> Returned(h, m.s)
    ensures m.log == m0.log + [TtouRestored(m.s)]
  {
    m := TransferToParent(h, m0);
    m := m.(s := m.s.(ttou := h.prevTtou));
    m := Log(m, TtouRestored(m.s));
  }

  // ----- The order of events that watching keeps -----

  /** What a log is read against: the handler, where the log begins, and the
      schedule it begins with. */
  datatype Course = Course(h: Handler, n: nat, ticks: seq<Tick>)

  /** No call fails for more than an interruption, and nobody else takes the
      terminal. */
  predicate Calm(c: Course) {
    !Failing(c.ticks) && Free(c.ticks, IsTake)
  }

  /** The original owner has the terminal back. */
  predicate Back(c: Course, s: Station) {
    WithOriginal(c.h, s) && (!Failing(c.ticks) ==> Returned(c.h, s))
  }

  /** The child has it. */
  predicate Lent(c: Course, s: Station) {
    WithChild(c.h, s) && (Calm(c) ==> Given(c.h, s))
  }

  /** What the supervisor has to do next, as its log tells. */
  datatype Stage =
    | Meeting           // in the barrier, or before it
    | Idle
    | Owes(sig: int)    // a taken signal is to be sent on
    | MustStop          // the child's stop was reported
    | MustContinue      // the supervisor stopped itself, and is to continue the child
    | Over(how: Ending) // the child's end was reported
    | Closing(end: Option<Ending>)
    | Closed(end: Option<Ending>)

  /** The stage after one more logged point, if the supervisor may get there. */
  function Next(c: Course, stage: Stage, e: Entry): Option<Stage> {
    match stage
    case Meeting => NextMeeting(c, e)
    case Idle => NextIdle(c, e)
    case Owes(sig) => if e == Forwarded(sig) then Some(Idle) else None
    case MustStop => if e.SelfStop? && Back(c, e.s) then Some(MustContinue) else None
    case MustContinue => if e == Forwarded(SIGCONT) then Some(Idle) else None
    case Over(how) => if e.TtouRestored? && Back(c, e.s) then Some(Closing(Some(how))) else None
    case Closing(end) => if e.MaskRestored? && Back(c, e.s) then Some(Closed(end)) else None
    case Closed(_) => None
  }

  function NextMeeting(c: Course, e: Entry): Option<Stage> {
    match e
    case AtBarrier(s) => if !Replied(s) && Lent(c, s) then Some(Meeting) else None
    case Met => Some(Idle)
    case TtouRestored(s) => if Back(c, s) then Some(Closing(None)) else None
    case _ => None
  }

  function NextIdle(c: Course, e: Entry): Option<Stage> {
    match e
    case Asleep(s) => if Alive(s.k) && !Unreported(s.k) && Lent(c, s) then Some(Idle) else None
    case Took(sig) =>
      if sig !in RECEIVED_SIGNALS then None else if sig == SIGCHLD then Some(Idle) else Some(Owes(sig))
    case Told(StoppedBy(_), _) => Some(MustStop)
    case Told(Resumed, _) => Some(Idle)
    case Told(Ended(how), s) => if s.k.fate == Reaped(how) then Some(Over(how)) else None
    case TtouRestored(s) => if Back(c, s) then Some(Closing(None)) else None
    case _ => None
  }

  /** The stage after the log's points from `c.n` on. */
  function Run(c: Course, log: seq<Entry>): Option<Stage> {
    if |log| <= c.n then Some(Meeting)
    else
      match Run(c, log[..|log| - 1])
      case None => None
      case Some(stage) => Next(c, stage, log[|log| - 1])
  }

  predicate At(c: Course, log: seq<Entry>, stage: Stage) {
    && c.n <= |log|
    && Run(c, log) == Some(stage)
  }

  lemma Goes(c: Course, log: seq<Entry>, stage: Stage, e: Entry)
    requires At(c, log, stage) && Next(c, stage, e).Some?
    ensures At(c, log + [e], Next(c, stage, e).value)
  {
    assert (log + [e])[..|log|] == log;
  }

  lemma {:induction false} RunPrefix(c: Course, log: seq<Entry>, i: nat)
    requires Run(c, log).Some? && i <= |log|
    ensures Run(c, log[..i]).Some?
    decreases |log| - i
  {
    if i < |log| {
      RunPrefix(c, log, i + 1);
      assert log[..i + 1][..i] == log[..i];
    } else {
      assert log[..i] == log;
    }
  }

  lemma StageBefore(c: Course, log: seq<Entry>, i: nat)
    requires Run(c, log).Some? && c.n <= i < |log|
    ensures Run(c, log[..i]).Some?
    ensures Run(c, log[..i + 1]) == Next(c, Run(c, log[..i]).value, log[i]) && Run(c, log[..i + 1]).Some?
  {
    RunPrefix(c, log, i);
    RunPrefix(c, log, i + 1);
    assert log[..i + 1][..i] == log[..i];
  }

  predicate Settled(stage: Stage) {
    stage.Meeting? || stage.Idle? || stage.Closed?
  }

  /** A log that ends settled goes on after a point that is not. */
  lemma GoesOn(c: Course, log: seq<Entry>, i: nat)
    requires Run(c, log).Some? && Settled(Run(c, log).value) && c.n <= i <= |log|
    ensures Run(c, log[..i]).Some?
    ensures !Settled(Run(c, log[..i]).value) ==>
              i < |log| && Run(c, log[..i + 1]) == Next(c, Run(c, log[..i]).value, log[i])
              && Run(c, log[..i + 1]).Some?
  {
    if i < |log| {
      StageBefore(c, log, i);
    } else {
      assert log[..i] == log;
    }
  }

  /** What a log that ends in the barrier, idle or closed has after a point: every
      taken signal is sent on next, and every reported stop is followed by a self-stop
      and then by SIGCONT for the child. */
  lemma WhatFollows(c: Course, log: seq<Entry>, i: nat)
    requires Run(c, log).Some? && Settled(Run(c, log).value) && c.n <= i < |log|
    ensures log[i].Took? && log[i].sig != SIGCHLD ==> i + 1 < |log| && log[i + 1] == Forwarded(log[i].sig)
    ensures log[i].Told? && log[i].notice.StoppedBy? ==>
              i + 2 < |log| && log[i + 1].SelfStop? && log[i + 2] == Forwarded(SIGCONT)
  {
    StageBefore(c, log, i);
    GoesOn(c, log, i + 1);
    if i + 1 < |log| {
      GoesOn(c, log, i + 2);
    }
  }

  /** What an accepted log has before a point: only a taken signal is sent on, or
      SIGCONT after a self-stop; the supervisor stops only for a reported stop. */
  lemma WhatPrecedes(c: Course, log: seq<Entry>, i: nat)
    requires Run(c, log).Some? && c.n <= i < |log|
    ensures log[i].Forwarded? ==>
              i > c.n && (log[i - 1] == Took(log[i].sig) || (log[i - 1].SelfStop? && log[i].sig == SIGCONT))
    ensures log[i].SelfStop? ==> i > c.n && log[i - 1].Told? && log[i - 1].notice.StoppedBy?
    ensures log[i].Took? ==> log[i].sig in {1, 2, 3, 14, 15, 17, 18, 20, 28}
  {
    StageBefore(c, log, i);
    if i > c.n {
      StageBefore(c, log, i - 1);
    }
  }

  /** Where the terminal is and what is unreported at a point. The supervisor stops
      itself and leaves with the terminal given back; without failing calls its
      original owner has it. It sleeps with the terminal lent to the child, in the
      barrier over a living child that has not answered, afterwards over a living
      child whose every change was reported; without failing calls and others' claims
      the child has the terminal. */
  lemma WhatHolds(c: Course, log: seq<Entry>, i: nat)
    requires Run(c, log).Some? && c.n <= i < |log|
    ensures log[i].SelfStop? || log[i].TtouRestored? || log[i].MaskRestored? ==>
              && WithOriginal(c.h, log[i].s)
              && (!Failing(c.ticks) ==> Returned(c.h, log[i].s))
    ensures log[i].Asleep? || log[i].AtBarrier? ==>
              && Alive(log[i].s.k)
              && (if log[i].Asleep? then !Unreported(log[i].s.k) else !log[i].s.answered)
              && WithChild(c.h, log[i].s)
              && (!Failing(c.ticks) && Free(c.ticks, IsTake) ==> Given(c.h, log[i].s))
  {
    StageBefore(c, log, i);
  }

  /** In the barrier nothing is taken, sent on or followed. */
  lemma {:induction false} BarrierIsDeaf(c: Course, log: seq<Entry>, i: nat)
    requires At(c, log, Meeting) && c.n <= i < |log|
    ensures log[i].AtBarrier?
    decreases |log|
  {
    if i < |log| - 1 {
      BarrierIsDeaf(c, log[..|log| - 1], i);
    }
  }

  /** The barrier comes first: before a sleep in it there are only such sleeps. */
  lemma BarrierIsFirst(c: Course, log: seq<Entry>, i: nat, j: nat)
    requires Run(c, log).Some? && c.n <= i < j < |log| && log[j].AtBarrier?
    ensures log[i].AtBarrier?
  {
    StageBefore(c, log, j);
    BarrierIsDeaf(c, log[..j], i);
  }

  /** How often waitpid reported the child's end. */
  function EndsTold(log: seq<Entry>): nat {
    if log == [] then 0
    else EndsTold(log[..|log| - 1]) + (if log[|log| - 1].Told? && log[|log| - 1].notice.Ended? then 1 else 0)
  }

  /** The end of the child that the stage remembers. */
  function EndIn(stage: Stage): Option<Ending> {
    match stage
    case Over(how) => Some(how)
    case Closing(end) => end
    case Closed(end) => end
    case _ => None
  }

  /** The end is reported at most once, and the stage remembers it. */
  lemma {:induction false} EndIsToldOnce(c: Course, log: seq<Entry>)
    requires c.n <= |log| && Run(c, log).Some?
    ensures EndsTold(log) == EndsTold(log[..c.n]) + (if EndIn(Run(c, log).value).Some? then 1 else 0)
    decreases |log|
  {
    if |log| == c.n {
      assert log[..c.n] == log;
    } else {
      EndIsToldOnce(c, log[..|log| - 1]);
      assert log[..|log| - 1][..c.n] == log[..c.n];
    }
  }

  /** The end that the stage remembers was reported. */
  lemma {:induction false} EndWasTold(c: Course, log: seq<Entry>) returns (i: nat)
    requires Run(c, log).Some? && EndIn(Run(c, log).value).Some?
    ensures c.n <= i < |log| && log[i].Told? && log[i].notice == Ended(EndIn(Run(c, log).value).value)
    decreases |log|
  {
    var init := log[..|log| - 1];
    if EndIn(Run(c, init).value).Some? {
      i := EndWasTold(c, init);
    } else {
      i := |log| - 1;
    }
  }

  // ----- proc.rs: watch_process -----

  /** How a run ends; the last two are asleep when the schedule ended, waiting for
      a signal or for the child's answer to the barrier. */
  datatype Outcome = Exit(code: int) | Error(error: Errno) | Hung | Stalled

  predicate Returns(o: Outcome) {
    o.Exit? || o.Error?
  }

  /** SIGCHLD is blocked, SIGTTOU ignored, and the child not yet waited for. */
  ghost predicate Minds(c: Course, m: Machine) {
    && Sane(m.s.k)
    && !m.s.k.fate.Reaped?
    && SIGCHLD in m.s.k.mask
    && m.s.ttou == SIG_IGN
    && m.s.grouped
    && Follows(c.ticks, m.ticks)
  }

  /** And the terminal is lent to it. */
  ghost predicate OnWatch(c: Course, m: Machine) {
    Minds(c, m) && Lent(c, m.s)
  }

  lemma StaysLent(c: Course, a: Machine, b: Machine)
    ensures Lent(c, a.s) && Follows(c.ticks, a.ticks) && Kept(a.s, b.s) && Unmoved(a, b) ==> Lent(c, b.s)
  {}

  // ----- The barrier -----

  /** The barrier's state `b` and the station agree on whether the child's byte was
      written or its end closed. */
  predicate Shows(b: ForkSync.World, s: Station) {
    Replied(s) <==> b.child.wrote != [] || ForkSync.Gone(b.child)
  }

  /** A parent that announced itself goes on exactly when the child has replied. */
  lemma ListenerNeedsReply(b: ForkSync.World, s: Station)
    requires ForkSync.Inv(b) && b.parent.phase == ForkSync.Listening && Shows(b, s)
    ensures (exists a :: ForkSync.Progress(b, ForkSync.Parent, a)) <==> Replied(s)
  {
    if Replied(s) {
      assert ForkSync.Progress(b, ForkSync.Parent, ForkSync.Read);
    }
  }

  /** The child never answers the barrier. */
  predicate Mute(m: Machine) {
    !Replied(Whole(m.s, m.ticks))
  }

  /** The write of READY, whose failure is ignored. */
  method Announce(m0: Machine) returns (sent: bool, m: Machine)
    ensures Passes(m0, m)
    ensures Prospects(m0, m)
    ensures m.log == m0.log
    ensures !sent ==> Failing(m0.ticks) || Replied(m.s)
    ensures sent ==> (Failing(m0.ticks) <==> Failing(m.ticks))
  {
    m := m0;
    PassesSelf(m);
    while true
      invariant Passes(m0, m) && Prospects(m0, m) && m.log == m0.log
      invariant Failing(m0.ticks) <==> Failing(m.ticks)
      decreases |m.ticks|
    {
      var fault, before := Fault(m), m;
      AdvanceIsOutside(m);
      m := Advance(m);
      CallProspects(before, m);
      PassesCompose(m0, before, m);
      match fault
      case Some(EINTR) => continue;
      case Some(_) => return false, m;
      case None =>
        // EPIPE, if the child has closed its end for reading
        var refused := *;
        return !(refused && Replied(m.s)), m;
    }
  }

  /** The read of the child's byte. False if the schedule is over and it would sleep
      on. */
  method Listen(ghost c: Course, m0: Machine) returns (met: bool, m: Machine)
    requires Lent(c, m0.s) && Follows(c.ticks, m0.ticks) && At(c, m0.log, Meeting)
    ensures Passes(m0, m)
    ensures Prospects(m0, m)
    ensures At(c, m.log, Meeting)
    ensures met ==> Failing(m0.ticks) || Replied(m.s)
    ensures !met ==> !Failing(m0.ticks) && !Replied(m.s) && m.ticks == []
  {
    m := m0;
    PassesSelf(m);
    while true
      invariant Passes(m0, m) && Prospects(m0, m) && At(c, m.log, Meeting)
      invariant Failing(m0.ticks) <==> Failing(m.ticks)
      decreases |m.ticks|
    {
      var fault, before, last := Fault(m), m, m.ticks == [];
      AdvanceIsOutside(m);
      m := Advance(m);
      CallProspects(before, m);
      PassesCompose(m0, before, m);
      match fault
      case Some(EINTR) => continue;
      case Some(_) => return true, m;
      case None =>
        if Replied(m.s) {
          return true, m;
        }
        StaysLent(c, m0, m);
        Goes(c, m.log, Meeting, AtBarrier(m.s));
        m := Log(m, AtBarrier(m.s));
        if last {
          return false, m;
        }
    }
  }

  /** `ready_and_wait`, whose result is ignored. It returns exactly if a call fails
      or, before the schedule is over, the child replies. */
  method Meet(ghost c: Course, m0: Machine) returns (met: bool, m: Machine)
    requires Lent(c, m0.s) && Follows(c.ticks, m0.ticks) && At(c, m0.log, Meeting)
    ensures Passes(m0, m)
    ensures At(c, m.log, if met then Idle else Meeting)
    ensures met <==> Failing(m0.ticks) || !Mute(m0)
    ensures !met ==> m.ticks == [] && !Replied(m.s) && Alike(m.s, Whole(m0.s, m0.ticks))
  {
    met, m := Announce(m0);
    if met {
      var sent := m;
      StaysLent(c, m0, m);
      met, m := Listen(c, m);
      PassesCompose(m0, sent, m);
    } else {
      met := true;
    }
    if met {
      if Replied(m.s) {
        RepliesStay(m.s, m.ticks);
      }
      Goes(c, m.log, Meeting, Met);
      m := Log(m, Met);
    }
  }

  // ----- Following the child -----

  /** The child stopped: give the terminal back, stop, and when resumed give the
      terminal to the child and continue it. */
  method FollowStop(h: Handler, ghost c: Course, m0: Machine) returns (m: Machine)
    requires c.h == h && OnWatch(c, m0) && At(c, m0.log, MustStop)
    ensures OnWatch(c, m)
    ensures m.s.k.mask == m0.s.k.mask
    ensures At(c, m.log, Idle)
    ensures Tracks(h, m0, m)
    ensures m0.ticks == [] ==> m.s.k == m0.s.k
  {
    m := TransferToParent(h, m0);
    var before := m;
    Goes(c, m.log, MustStop, SelfStop(m.s));
    m := Log(m, SelfStop(m.s));
    AdvanceIsOutside(m);
    m := Advance(m);
    TracksCompose(h, m0, before, m);
    m := Resume(h, c, m0, m);
  }

  /** The rest, when the supervisor is continued. */
  method Resume(h: Handler, ghost c: Course, ghost m0: Machine, m1: Machine) returns (m: Machine)
    requires c.h == h && Minds(c, m1) && At(c, m1.log, MustContinue)
    requires Tracks(h, m0, m1)
    ensures OnWatch(c, m)
    ensures m.s.k.mask == m1.s.k.mask
    ensures At(c, m.log, Idle)
    ensures Tracks(h, m0, m)
    ensures m1.ticks == [] ==> m.s.k == m1.s.k
  {
    m := TransferToChild(h, m1);
    TracksCompose(h, m0, m1, m);
    var before := m;
    Goes(c, m.log, MustContinue, Forwarded(SIGCONT));
    m := Log(m, Forwarded(SIGCONT));
    AdvanceIsOutside(m);
    m := Advance(m);
    StaysLent(c, before, m);
    TracksCompose(h, m0, before, m);
  }

  /** waitpid reported a change. */
  predicate Changes(result: Option<WaitResult>) {
    result.Some? && result.value.Changed?
  }

  /** waitpid; None if it was interrupted. */
  method WaitForChild(h: Handler, ghost c: Course, m0: Machine) returns (result: Option<WaitResult>, m: Machine)
    requires c.h == h && OnWatch(c, m0)
    ensures m.s.ttou == SIG_IGN
    ensures m.s.grouped
    ensures m.s.k.mask == m0.s.k.mask
    ensures m.log == if Changes(result) then m0.log + [Told(result.value.notice, m.s)] else m0.log
    ensures Tracks(h, m0, m)
    ensures m0.ticks != [] ==> |m.ticks| < |m0.ticks|
    ensures m0.ticks == [] ==> result.Some? && m.s.k.pending == m0.s.k.pending
    ensures m0.ticks == [] && m0.s.k.notice == None ==> !result.value.Changed?
    ensures result == None ==> OnWatch(c, m)
    ensures result == Some(StillAlive) ==> OnWatch(c, m) && Armed(m.s.k)
    ensures result == Some(NoChild) ==> m.s.k.fate.Stolen?
    ensures Changes(result) ==>
              var n := result.value.notice;
              m.s.k.notice == None && (if n.Ended? then m.s.k.fate == Reaped(n.how) else OnWatch(c, m))
  {
    var fault := Fault(m0);
    AdvanceIsOutside(m0);
    m := Advance(m0);
    StaysLent(c, m0, m);
    if fault == Some(EINTR) {
      return None, m;
    }
    var (w, k) := WaitPid(m.s.k);
    m := m.(s := m.s.(k := k));
    if w.Changed? {
      m := Log(m, Told(w.notice, m.s));
    }
    return Some(w), m;
  }

  /** Where the waiting for the child's end has got to. */
  predicate Answers(c: Course, code: int, m: Machine) {
    if m.s.k.fate.Reaped? then code == Status(m.s.k.fate.how) && At(c, m.log, Over(m.s.k.fate.how))
    else m.s.k.fate.Stolen? && code == 1 && At(c, m.log, Idle)
  }

  datatype Drained = Again | AllTold | Finished(code: int)

  /** One turn of the inner loop. */
  method DrainOnce(h: Handler, ghost c: Course, m0: Machine) returns (d: Drained, m: Machine)
    requires c.h == h && OnWatch(c, m0) && At(c, m0.log, Idle)
    ensures m.s.ttou == SIG_IGN
    ensures m.s.grouped
    ensures m.s.k.mask == m0.s.k.mask
    ensures Tracks(h, m0, m)
    ensures m0.ticks != [] ==> |m.ticks| < |m0.ticks|
    ensures if d.Finished? then Answers(c, d.code, m) else OnWatch(c, m) && At(c, m.log, Idle)
    ensures d.Finished? ==>
              match m.s.k.fate
              case Reaped(Exited(code)) => d.code == code
              case Reaped(Killed(sig)) => d.code == 128 + sig
              case _ => d.code == 1
    ensures !d.Finished? && m0.ticks == [] ==> m.s.k.pending == m0.s.k.pending
    ensures d.Again? && m0.ticks == [] ==> m0.s.k.notice.Some? && m.s.k.notice == None
    ensures d.AllTold? ==> Armed(m.s.k)
  {
    var result;
    result, m := WaitForChild(h, c, m0);
    match result
    case None => return Again, m;
    case Some(StillAlive) => return AllTold, m;
    case Some(NoChild) => return Finished(1), m;
    case Some(Changed(notice)) =>
      Goes(c, m0.log, Idle, Told(notice, m.s));
      match notice {
        case Ended(Exited(code)) => return Finished(code), m;
        case Ended(Killed(sig)) => return Finished(128 + sig), m;
        case Resumed => return Again, m;
        case StoppedBy(_) =>
          var told := m;
          m := FollowStop(h, c, m);
          TracksCompose(h, m0, told, m);
          return Again, m;
      }
  }

  /** The inner loop: every change is taken until waitpid has nothing to tell. */
  method Drain(h: Handler, ghost c: Course, m0: Machine) returns (code: Option<int>, m: Machine)
    requires c.h == h && OnWatch(c, m0) && At(c, m0.log, Idle)
    ensures m.s.ttou == SIG_IGN
    ensures m.s.grouped
    ensures m.s.k.mask == m0.s.k.mask
    ensures Tracks(h, m0, m)
    ensures m0.ticks != [] ==> |m.ticks| < |m0.ticks|
    ensures code == None ==> OnWatch(c, m) && Armed(m.s.k) && At(c, m.log, Idle)
    ensures code == None && m0.ticks == [] ==> m.s.k.pending == m0.s.k.pending
    ensures code.Some? ==> Answers(c, code.value, m)
  {
    m := m0;
    while true
      invariant OnWatch(c, m) && m.s.k.mask == m0.s.k.mask && At(c, m.log, Idle)
      invariant Tracks(h, m0, m)
      invariant m0.ticks == [] ==> m.s.k.pending == m0.s.k.pending
      decreases |m.ticks|, if m.s.k.notice.Some? then 1 else 0
    {
      var d, before := *, m;
      d, m := DrainOnce(h, c, m);
      TracksCompose(h, m0, before, m);
      match d
      case Again =>
      case AllTold => return None, m;
      case Finished(status) => return Some(status), m;
    }
  }

  // ----- Waiting for signals -----

  /** The receiver selects the supervisor's signals. */
  predicate Selects(r: SignalReceiver.Receiver) {
    r.fd == set i | 0 <= i < |RECEIVED_SIGNALS| :: RECEIVED_SIGNALS[i]
  }

  lemma LiteralSignals(r: SignalReceiver.Receiver)
    ensures Selects(r) ==> r.fd == {1, 2, 3, 14, 15, 17, 18, 20, 28}
  {
    if Selects(r) {
      assert RECEIVED_SIGNALS[0] in r.fd && RECEIVED_SIGNALS[1] in r.fd && RECEIVED_SIGNALS[2] in r.fd;
      assert RECEIVED_SIGNALS[3] in r.fd && RECEIVED_SIGNALS[4] in r.fd && RECEIVED_SIGNALS[5] in r.fd;
      assert RECEIVED_SIGNALS[6] in r.fd && RECEIVED_SIGNALS[7] in r.fd && RECEIVED_SIGNALS[8] in r.fd;
    }
  }

  lemma LiteralQuiet(r: SignalReceiver.Receiver, s: Station)
    ensures Selects(r) ==>
              (SignalReceiver.Quiet(s, r) <==> {1, 2, 3, 14, 15, 17, 18, 20, 28} !! s.k.pending)
  {
    LiteralSignals(r);
  }

  /** A supervisor that waits with nothing lost sleeps only over a living child
      whose every change was reported. */
  lemma {:induction false} SleepsStayIdle(c: Course, r: SignalReceiver.Receiver, m0: Machine, log: seq<Entry>)
    requires OnWatch(c, m0) && Armed(m0.s.k) && SIGCHLD in r.fd && At(c, m0.log, Idle)
    requires SignalReceiver.SleptOnly(m0, log, r)
    ensures At(c, log, Idle)
    decreases |log|
  {
    if |log| == |m0.log| {
      assert log == m0.log;
    } else {
      var init, e := log[..|log| - 1], log[|log| - 1];
      SleepsStayIdle(c, r, m0, init);
      assert SignalReceiver.Rested(m0, e.s, r);
    }
  }

  /** The stage after taking a signal. */
  function AfterTaking(sig: int): Stage {
    if sig == SIGCHLD then Idle else Owes(sig)
  }

  /** `signals.wait()`, while watching. */
  method NextSignal(h: Handler, ghost c: Course, r: SignalReceiver.Receiver, m0: Machine)
    returns (event: SignalReceiver.Waiting, m: Machine)
    requires c.h == h && OnWatch(c, m0) && Armed(m0.s.k) && Selects(r) && At(c, m0.log, Idle)
    ensures OnWatch(c, m)
    ensures Tracks(h, m0, m)
    ensures At(c, m.log, if event.Got? then AfterTaking(event.sig) else Idle)
    ensures event.Got? ==> event.sig in RECEIVED_SIGNALS
    ensures Due(m0.ticks) == None && !({1, 2, 3, 14, 15, 17, 18, 20, 28} !! Advance(m0).s.k.pending) ==>
              event.Got? && event.sig in Advance(m0).s.k.pending
    ensures event.Blocked? ==> {1, 2, 3, 14, 15, 17, 18, 20, 28} !! m.s.k.pending
    ensures event != SignalReceiver.Got(SIGCHLD) ==> Armed(m.s.k)
    ensures event.Blocked? ==> Alive(m.s.k) && !Unreported(m.s.k) && m.ticks == []
    ensures event.Broken? ==> event.error != EINTR && Fails(m0.ticks, event.error)
    ensures m0.ticks != [] ==> |m.ticks| < |m0.ticks|
    ensures m0.ticks == [] && event.Got? ==> |m.s.k.pending| < |m0.s.k.pending|
  {
    assert RECEIVED_SIGNALS[0] in r.fd;
    event, m := SignalReceiver.Wait(r, m0);
    LiteralQuiet(r, Advance(m0).s);
    LiteralQuiet(r, m.s);
    WaitGoes(c, r, event, m0, m);
    WaitKeepsWatch(c, r, event, m0, m);
  }

  lemma WaitGoes(c: Course, r: SignalReceiver.Receiver, event: SignalReceiver.Waiting, m0: Machine, m: Machine)
    requires OnWatch(c, m0) && Armed(m0.s.k) && SIGCHLD in r.fd && At(c, m0.log, Idle)
    requires SignalReceiver.Waited(event, m0, m, r) && (event.Got? ==> event.sig in RECEIVED_SIGNALS)
    ensures At(c, m.log, if event.Got? then AfterTaking(event.sig) else Idle)
  {
    var slept := if event.Got? then m.log[..|m.log| - 1] else m.log;
    SleepsStayIdle(c, r, m0, slept);
    if event.Got? {
      Goes(c, slept, Idle, Took(event.sig));
      assert slept + [Took(event.sig)] == m.log;
    }
  }

  lemma WaitKeepsWatch(c: Course, r: SignalReceiver.Receiver, event: SignalReceiver.Waiting, m0: Machine, m: Machine)
    requires OnWatch(c, m0) && Armed(m0.s.k) && SIGCHLD in r.fd && SignalReceiver.Takes(m0, m)
    requires event != SignalReceiver.Got(SIGCHLD) ==> Passes(m0, m)
    requires event.Blocked? ==> SignalReceiver.Quiet(m.s, r)
    ensures OnWatch(c, m)
    ensures Tracks(c.h, m0, m)
    ensures event != SignalReceiver.Got(SIGCHLD) ==> Armed(m.s.k)
    ensures event.Blocked? ==> Alive(m.s.k) && !Unreported(m.s.k)
  {
    StaysLent(c, m0, m);
  }

  /** Sending the signal on to the child's group. */
  method Forward(h: Handler, ghost c: Course, signal: int, m0: Machine) returns (m: Machine)
    requires c.h == h && OnWatch(c, m0) && Armed(m0.s.k) && At(c, m0.log, Owes(signal))
    ensures OnWatch(c, m)
    ensures Armed(m.s.k)
    ensures Tracks(h, m0, m)
    ensures At(c, m.log, Idle)
    ensures if m0.ticks == [] then m.s == m0.s else |m.ticks| < |m0.ticks|
  {
    Goes(c, m0.log, Owes(signal), Forwarded(signal));
    m := Log(m0, Forwarded(signal));
    AdvanceIsOutside(m);
    m := Advance(m);
    StaysLent(c, m0, m);
  }

  /** How watching ends: with the child's status, asleep over a living child, or
      because a call failed. */
  ghost predicate Watched(c: Course, o: Outcome, m0: Machine, m: Machine) {
    && m.s.ttou == SIG_IGN
    && m.s.grouped
    && Tracks(c.h, m0, m)
    && match o
       case Exit(code) => Answers(c, code, m)
       case Error(e) =>
         && !m.s.k.fate.Reaped? && At(c, m.log, Idle)
         && e != EINTR && Fails(m0.ticks, e)
       case Hung =>
         && Alive(m.s.k) && !Unreported(m.s.k) && m.ticks == [] && At(c, m.log, Idle)
         && {1, 2, 3, 14, 15, 17, 18, 20, 28} !! m.s.k.pending
       case Stalled => false
  }

  /** The outer loop. */
  method Watch(h: Handler, ghost c: Course, r: SignalReceiver.Receiver, m0: Machine) returns (o: Outcome, m: Machine)
    requires c.h == h && OnWatch(c, m0) && Selects(r) && At(c, m0.log, Idle)
    ensures Watched(c, o, m0, m)
  {
    m := m0;
    var initiate := true;
    while true
      invariant OnWatch(c, m) && At(c, m.log, Idle) && Tracks(h, m0, m)
      invariant initiate || Armed(m.s.k)
      decreases |m.ticks|, |m.s.k.pending|, initiate
    {
      var signal, before := SIGCHLD, m;
      if initiate {
        initiate := false;
      } else {
        var event;
        event, m := NextSignal(h, c, r, m);
        TracksCompose(h, m0, before, m);
        match event {
          case Broken(e) => return Error(e), m;
          case Blocked => return Hung, m;
          case Got(number) =>
            match SignalReceiver.ToSignal(number)
            case Some(s) => signal := s;
            case None => continue;
        }
      }
      before := m;
      if signal == SIGCHLD {
        var code;
        code, m := Drain(h, c, m);
        TracksCompose(h, m0, before, m);
        if code.Some? {
          return Exit(code.value), m;
        }
      } else {
        m := Forward(h, c, signal, m);
        TracksCompose(h, m0, before, m);
      }
    }
  }

  /** Leaving `watch_process`: the handler is dropped before the receiver. */
  method CloseDown(h: Handler, ghost c: Course, ghost stage: Stage, r: SignalReceiver.Receiver, m0: Machine)
    returns (m: Machine)
    requires c.h == h && Follows(c.ticks, m0.ticks) && (m0.s.grouped || Failing(c.ticks))
    requires At(c, m0.log, stage) && (stage.Meeting? || stage.Idle? || stage.Over?)
    ensures At(c, m.log, Closed(if stage.Over? then Some(stage.how) else None))
    ensures Tracks(h, m0, m)
    ensures m.s.ttou == h.prevTtou && m.s.k.mask == r.prevMask
    ensures !Failing(c.ticks) ==> Returned(h, m.s)
    ensures m0.s.k.fate.Reaped? || m0.s.k.fate.Stolen? ==> m.s.k.fate == m0.s.k.fate
    ensures m.s.k.fate.Reaped? ==> m0.s.k.fate.Reaped?
  {
    ghost var end := if stage.Over? then Some(stage.how) else None;
    m := DropHandler(h, m0);
    Goes(c, m0.log, stage, TtouRestored(m.s));
    ghost var dropped := m.log;
    m := SignalReceiver.Drop(r, m);
    Goes(c, dropped, Closing(end), MaskRestored(m.s));
  }

  function EndOf(fate: Fate): Option<Ending> {
    if fate.Reaped? then Some(fate.how) else None
  }

  /** The result is the child's own status, or 1 if somebody else waited for it; an
      error is that of a call that failed. A hung supervisor sleeps over a living
      child with nothing unreported, a stalled one over a living child that has not
      answered the barrier. Otherwise the log is closed: terminal, SIGTTOU and mask
      were restored in this order. */
  predicate Concluded(c: Course, o: Outcome, m: Machine) {
    match o
    case Exit(code) =>
      && At(c, m.log, Closed(EndOf(m.s.k.fate)))
      && (if m.s.k.fate.Reaped? then code == Status(m.s.k.fate.how) else m.s.k.fate.Stolen? && code == 1)
    case Error(e) => At(c, m.log, Closed(None)) && !m.s.k.fate.Reaped? && e != EINTR && Fails(c.ticks, e)
    case Hung =>
      && At(c, m.log, Idle) && Alive(m.s.k) && !Unreported(m.s.k) && m.ticks == []
      && {1, 2, 3, 14, 15, 17, 18, 20, 28} !! m.s.k.pending
    case Stalled => At(c, m.log, Meeting) && !Replied(m.s) && m.ticks == []
  }

  /** The result in numbers, and the report of waitpid it comes from. */
  lemma ExitMeans(c: Course, o: Outcome, m: Machine)
    requires o.Exit? && Concluded(c, o, m)
    ensures match m.s.k.fate
            case Reaped(Exited(code)) => o.code == code
            case Reaped(Killed(sig)) => o.code == 128 + sig && (sig > 0 ==> o.code > 128)
            case Stolen(_) => o.code == 1
            case _ => false
    ensures m.s.k.fate.Reaped? ==> exists i | c.n <= i < |m.log| && m.log[i].Told? ::
              m.log[i].notice == Ended(Exited(o.code)) || m.log[i].notice == Ended(Killed(o.code - 128))
  {
    if m.s.k.fate.Reaped? {
      var i := EndWasTold(c, m.log);
    }
  }

  /** setpgid succeeds, and no call fails from the barrier on. */
  predicate Passable(ticks: seq<Tick>) {
    Due(ticks) == None && !Failing(Rest(ticks))
  }

  /** A stalled supervisor left the child as the schedule leaves it. */
  predicate Untouched(m0: Machine, m: Machine) {
    Alike(m.s, Whole(m0.s, m0.ticks)) && (Sane(m0.s.k) && Armed(m0.s.k) ==> Armed(m.s.k))
  }

  /** `watch_process` after both guards are in place. */
  method Supervise(h: Handler, ghost c: Course, r: SignalReceiver.Receiver, m0: Machine) returns (o: Outcome, m: Machine)
    requires c.h == h && OnWatch(c, m0.(s := m0.s.(grouped := true))) && Selects(r) && At(c, m0.log, Meeting)
    ensures Concluded(c, o, m)
    ensures Tracks(h, m0, m)
    ensures o.Stalled? <==> Passable(m0.ticks) && Mute(m0)
    ensures o.Stalled? ==> Untouched(m0, m) && m.s.k.mask == m0.s.k.mask
    ensures Returns(o) ==> m.s.ttou == h.prevTtou && m.s.k.mask == r.prevMask
    ensures Returns(o) && !Failing(c.ticks) ==> Returned(h, m.s)
  {
    var fault := Due(m0.ticks);
    AdvanceIsOutside(m0);
    m := Advance(m0);
    var before := m;
    if fault.Some? {
      m := CloseDown(h, c, Meeting, r, m);
      TracksCompose(h, m0, before, m);
      return Error(fault.value), m;
    }
    StaysLent(c, m0, m);
    m := m.(s := m.s.(grouped := true));
    CallProspects(m0, m);
    o, m := Attend(h, c, r, m);
    TracksCompose(h, m0, before, m);
  }

  /** From the barrier on. */
  method Attend(h: Handler, ghost c: Course, r: SignalReceiver.Receiver, m0: Machine) returns (o: Outcome, m: Machine)
    requires c.h == h && OnWatch(c, m0) && Selects(r) && At(c, m0.log, Meeting)
    ensures Concluded(c, o, m)
    ensures Tracks(h, m0, m)
    ensures o.Stalled? <==> !Failing(m0.ticks) && Mute(m0)
    ensures o.Stalled? ==> Untouched(m0, m) && m.s.k.mask == m0.s.k.mask
    ensures Returns(o) ==> m.s.ttou == h.prevTtou && m.s.k.mask == r.prevMask
    ensures Returns(o) && !Failing(c.ticks) ==> Returned(h, m.s)
  {
    var met;
    met, m := Meet(c, m0);
    if !met {
      return Stalled, m;
    }
    StaysLent(c, m0, m);
    var before := m;
    o, m := Watch(h, c, r, m);
    TracksCompose(h, m0, before, m);
    if !o.Hung? {
      before := m;
      m := CloseDown(h, c, if m.s.k.fate.Reaped? then Over(m.s.k.fate.how) else Idle, r, m);
      TracksCompose(h, m0, before, m);
    }
  }

  // ----- The guards -----

  /** Both guards, from the receiver's mask on; `m0` is the machine before it was
      installed. */
  method Guard(pid: int, r: SignalReceiver.Receiver, ghost m0: Machine, m1: Machine)
    returns (o: Outcome, handler: Option<Handler>, m: Machine)
    requires Sane(m1.s.k) && !m1.s.k.fate.Reaped? && SIGCHLD in m1.s.k.mask && Selects(r)
    requires m1.log == m0.log && Follows(m0.ticks, m1.ticks) && Unmoved(m0, m1)
    ensures handler.Some? ==> Concluded(Course(handler.value, |m0.log|, m0.ticks), o, m)
    ensures handler == None ==> o.Error? && o.error != EINTR && Fails(m0.ticks, o.error)
    ensures handler.Some? && handler.value.captured == None ==> Failing(m1.ticks) || !m1.s.grouped
    ensures o.Exit? ==>
              match m.s.k.fate
              case Reaped(Exited(code)) => o.code == code
              case Reaped(Killed(sig)) => o.code == 128 + sig && (sig > 0 ==> o.code > 128)
              case Stolen(_) => o.code == 1
              case _ => false
    ensures o.Exit? && m.s.k.fate.Reaped? ==> exists i | |m0.log| <= i < |m.log| && m.log[i].Told? ::
              m.log[i].notice == Ended(Exited(o.code)) || m.log[i].notice == Ended(Killed(o.code - 128))
    ensures Returns(o) ==> m.s.ttou == m1.s.ttou && m.s.k.mask == r.prevMask
    ensures Returns(o) && !Failing(m0.ticks) && Free(m0.ticks, IsTake) ==> m.s.owner == m0.s.owner
    ensures o.Stalled? <==> Due(m1.ticks) == None && Passable(AfterHandler(m1.ticks)) && Mute(m1)
    ensures o.Stalled? ==> Untouched(m1, m) && m.s.k.mask == m1.s.k.mask
  {
    var h;
    h, m := InstallHandler(pid, m1);
    if h.Err? {
      m := SignalReceiver.Drop(r, m);
      return Error(h.error), None, m;
    }
    ghost var c := Course(h.value, |m0.log|, m0.ticks);
    o, m := Supervise(h.value, c, r, m);
    if o.Exit? {
      ExitMeans(c, o, m);
    }
    return o, Some(h.value), m;
  }

  /** The five or six calls before the barrier succeed, apart from those on the
      terminal, and no call fails from the barrier on. */
  predicate ReachesBarrier(ticks: seq<Tick>) {
    var handler := Rest(Rest(ticks));
    && Due(ticks) == None && Due(Rest(ticks)) == None && Due(handler) == None
    && Passable(AfterHandler(handler))
  }

  lemma FaultlessReachesBarrier(ticks: seq<Tick>)
    requires !Failing(ticks)
    ensures ReachesBarrier(ticks)
  {
    var handler := Rest(Rest(ticks));
    assert !Failing(Rest(ticks)) && !Failing(handler) && !Failing(Rest(handler));
    assert !Failing(Rest(Rest(handler))) && !Failing(AfterHandler(handler));
  }

  /** `watch_process`. The child may stop, continue, end or be waited for by
      somebody else at any moment, also before the signals were blocked. Unless
      a call fails or somebody takes the terminal, it ends up where it was. It never
      gets past the barrier exactly if the child never answers it and no call fails. */
  method WatchProcess(pid: int, m0: Machine) returns (o: Outcome, handler: Option<Handler>, m: Machine)
    requires Sane(m0.s.k) && !m0.s.k.fate.Reaped?
    ensures handler.Some? ==> Concluded(Course(handler.value, |m0.log|, m0.ticks), o, m)
    ensures handler == None ==> o.Error? && o.error != EINTR && Fails(m0.ticks, o.error)
    ensures handler.Some? && handler.value.captured == None ==> Failing(m0.ticks) || !m0.s.grouped
    ensures o.Exit? ==>
              match m.s.k.fate
              case Reaped(Exited(code)) => o.code == code
              case Reaped(Killed(sig)) => o.code == 128 + sig && (sig > 0 ==> o.code > 128)
              case Stolen(_) => o.code == 1
              case _ => false
    ensures o.Exit? && m.s.k.fate.Reaped? ==> exists i | |m0.log| <= i < |m.log| && m.log[i].Told? ::
              m.log[i].notice == Ended(Exited(o.code)) || m.log[i].notice == Ended(Killed(o.code - 128))
    ensures Returns(o) ==> m.s.ttou == m0.s.ttou && m.s.k.mask == m0.s.k.mask
    ensures Returns(o) && !Failing(m0.ticks) && Free(m0.ticks, IsTake) ==> m.s.owner == m0.s.owner
    ensures o.Stalled? <==> ReachesBarrier(m0.ticks) && Mute(m0)
    ensures o.Stalled? ==> Stranded(m0, m)
  {
    var installed;
    installed, m := SignalReceiver.Install(RECEIVED_SIGNALS, m0);
    if installed.Err? {
      return Error(installed.error), None, m;
    }
    assert RECEIVED_SIGNALS[0] in installed.value.fd && RECEIVED_SIGNALS[0] in RECEIVED_SIGNALS;
    var r := installed.value;
    LiteralSignals(r);
    o, handler, m := Guard(pid, r, m0, m);
  }

  /** Asleep in the barrier: the child is as the schedule leaves it, every received
      signal is blocked, and what the child does after the first call leaves SIGCHLD
      pending. */
  predicate Stranded(m0: Machine, m: Machine) {
    && Alike(m.s, Whole(m0.s, m0.ticks))
    && {1, 2, 3, 14, 15, 17, 18, 20, 28} <= m.s.k.mask
    && (!Unreported(Advance(m0).s.k) ==> Armed(m.s.k))
  }

  /** So many calls before which nothing happens. */
  function Quietly(calls: nat, rest: seq<Tick>): seq<Tick> {
    if calls == 0 then rest else [Tick([], None)] + Quietly(calls - 1, rest)
  }

  lemma {:induction false} NothingHappens(s: Station, calls: nat, rest: seq<Tick>)
    ensures Whole(s, Quietly(calls, rest)) == Whole(s, rest)
    ensures Failing(Quietly(calls, rest)) <==> Failing(rest)
    decreases calls
  {
    if calls > 0 {
      var ticks := Quietly(calls, rest);
      assert ticks[1..] == Quietly(calls - 1, rest) && ticks[0].events == [];
      NothingHappens(s, calls - 1, rest);
    }
  }

  /** A start from which `watch_process` never gets past the barrier: at some moment
      after its first call the child stops, and has not answered. With seven calls
      the parent has written its own byte by then. */
  function StalledStart(calls: nat): Machine {
    var k := Kernel(Running, None, {}, {});
    var s := Station(k, 0, false, true, false, 0, Attrs(true, true, 0), false, [], 0, true, {}, false, false, false, []);
    Machine(s, Quietly(calls, [Tick([Child(Stops(SIGTSTP))], None)]), [])
  }

  lemma StalledStartIsMute(calls: nat)
    ensures var m := StalledStart(calls);
            && Mute(m) && !Failing(m.ticks)
            && Whole(m.s, m.ticks).k.fate == Stopped
            && Whole(m.s, m.ticks).k.notice == Some(StoppedBy(SIGTSTP))
    ensures calls > 0 ==> Advance(StalledStart(calls)).s == StalledStart(calls).s
  {
    var m, stop := StalledStart(calls), [Tick([Child(Stops(SIGTSTP))], None)];
    NothingHappens(m.s, calls, stop);
    assert stop[1..] == [] && stop[0].events[1..] == [];
    assert ApplyAll(m.s, stop[0].events) == ApplyAll(Apply(m.s, stop[0].events[0]), []);
    assert Whole(m.s, stop) == Whole(Apply(m.s, stop[0].events[0]), []);
    if calls > 0 {
      assert m.ticks[0].events == [];
    }
  }

  /** The stop stays unreported, with SIGCHLD pending and every signal blocked, and
      nothing is sent on. */
  method StalledRun(pid: int, calls: nat) returns (o: Outcome, m: Machine)
    requires calls > 0
    ensures o == Stalled && m.s.k.fate == Stopped && m.s.k.notice == Some(StoppedBy(SIGTSTP))
    ensures SIGCHLD in m.s.k.pending && {1, 2, 3, 14, 15, 17, 18, 20, 28} <= m.s.k.mask
    ensures forall e | e in m.log :: e.AtBarrier?
  {
    StalledStartIsMute(calls);
    FaultlessReachesBarrier(StalledStart(calls).ticks);
    var handler;
    o, handler, m := WatchProcess(pid, StalledStart(calls));
    forall i | 0 <= i < |m.log| ensures m.log[i].AtBarrier? {
      BarrierIsDeaf(Course(handler.value, 0, StalledStart(calls).ticks), m.log, i);
    }
  }
}
