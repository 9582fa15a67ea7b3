/** The surroundings of a supervising or prompting parent process: kernel state,
    terminal, the stream it reads and the output it writes. A schedule says what
    happens outside before each system call, and which error the call meets, so
    a method run against every schedule is run against every interleaving. */
module Host {
  import opened Common
  import opened Kernel

  const SIG_IGN: int := 1

  /** Terminal attributes: the two flags the prompt changes, and all others. */
  datatype Attrs = Attrs(canonical: bool, echo: bool, others: int)

  datatype Station = Station(
    k: Kernel,
    owner: int,          // the terminal's foreground process group
    disturbed: bool,     // owner changed by somebody else, or a request of this process
                         // was refused, since this process's last successful request
    grouped: bool,       // the child's process group exists
    answered: bool,      // the child answered the fork barrier, or closed its end of it
    ttou: int,           // disposition of SIGTTOU
    attrs: Attrs,        // terminal attributes
    touched: bool,       // somebody else changed attrs, or a restoring call was refused
    sent: seq<Byte>,     // every byte ever written to the stream this process reads
    taken: nat,          // how many of them it has read
    tty: bool,           // the stream is a terminal
    typed: set<nat>,     // where in the stream an end of file was typed
    spent: bool,         // the one at the reading position was read
    childHolds: bool,    // the child has the stream's write end open
    othersHold: bool,    // some other process has
    shown: seq<Byte>     // what this process wrote to its prompt output
  )

  datatype Outside =
    | Child(e: Event)
    | Regroups                  // the child calls setpgid for itself
    | Answers                   // the child writes its byte to the barrier, or closes its end
    | Takes(pgrp: int)          // somebody else sets the foreground group
    | Sets(attrs: Attrs)        // somebody else sets the attributes
    | Writes(bytes: seq<Byte>)  // a holder writes to the stream
    | Shares                    // the child passes the write end on
    | ChildCloses
    | OthersClose
    | TypesEof                  // somebody types an end of file

  predicate Held(s: Station) {
    s.childHolds || s.othersHold
  }

  /** The barrier's read returns: there is a byte, or nobody can write one. */
  predicate Replied(s: Station) {
    s.answered || !Alive(s.k)
  }

  /** An end of file was typed at the reading position and not read yet. */
  predicate AtMark(s: Station) {
    s.taken in s.typed && !s.spent
  }

  /** The stream is a pipe. */
  predicate Piped(s: Station) {
    !s.tty && s.typed == {}
  }

  function Apply(s: Station, o: Outside): Station {
    match o
    case Child(e) =>
      var k := Happen(s.k, e);
      s.(k := k, childHolds := s.childHolds && Alive(k))
    case Regroups => s.(grouped := true)
    case Answers => if s.k.fate.Running? then s.(answered := true) else s
    case Takes(pgrp) => s.(owner := pgrp, disturbed := true)
    case Sets(attrs) => s.(attrs := attrs, touched := true)
    case Writes(bytes) => if Held(s) then s.(sent := s.sent + bytes) else s
    case Shares => s.(othersHold := Held(s))
    case ChildCloses => s.(childHolds := false)
    case OthersClose => s.(othersHold := false)
    case TypesEof =>
      if s.tty && s.attrs.canonical && Held(s)
      then s.(typed := s.typed + {|s.sent|}, spent := s.spent && s.taken != |s.sent|) else s
  }

  function ApplyAll(s: Station, os: seq<Outside>): Station
    decreases |os|
  {
    if os == [] then s else ApplyAll(Apply(s, os[0]), os[1..])
  }

  // ----- Kinds of outside events -----

  predicate IsTake(o: Outside) {
    o.Takes?
  }

  predicate IsSet(o: Outside) {
    o.Sets?
  }

  /** A SIGCHLD that does not come from the child. */
  predicate IsForeign(o: Outside) {
    o == Child(Arrives(SIGCHLD))
  }

  /** Anything besides the child's end that concerns SIGCHLD or the child's
      report. */
  predicate IsLoud(o: Outside) {
    IsForeign(o) || (o.Child? && (o.e.Stops? || o.e.Resumes? || o.e.Steals?))
  }

  /** What happens just before a system call, and the error it meets. */
  datatype Tick = Tick(events: seq<Outside>, fault: Option<Errno>)

  /** Points of a run that results speak about, with the state there. */
  datatype Entry =
    | Asleep(s: Station)              // sleeping until something is ready
    | AtBarrier(s: Station)           // sleeping until the child answers the barrier
    | Met                             // the barrier is over
    | SelfStop(s: Station)            // raising SIGSTOP
    | Took(sig: int)                  // a signal taken from the signalfd
    | Forwarded(sig: int)             // sent to the child's group
    | Told(notice: Notice, s: Station) // waitpid reported a change
    | StreamEnded                     // the end of the stream was read
    | TtouRestored(s: Station)
    | MaskRestored(s: Station)
    | Raised(sig: int, s: Station)    // re-raising a signal that interrupted a prompt

  datatype Machine = Machine(s: Station, ticks: seq<Tick>, log: seq<Entry>)

  function Fault(m: Machine): Option<Errno> {
    if m.ticks == [] then None else m.ticks[0].fault
  }

  /** The error of a call that signals do not interrupt. */
  function Due(ticks: seq<Tick>): Option<Errno> {
    if ticks == [] || ticks[0].fault == Some(EINTR) then None else ticks[0].fault
  }

  function Rest(ticks: seq<Tick>): seq<Tick> {
    if ticks == [] then [] else ticks[1..]
  }

  /** Some system call of the schedule meets an error. */
  predicate Faulty(ticks: seq<Tick>) {
    ticks != [] && (ticks[0].fault.Some? || Faulty(ticks[1..]))
  }

  /** Some system call fails for more than an interruption. */
  predicate Failing(ticks: seq<Tick>): (b: bool)
    ensures b ==> Faulty(ticks)
  {
    ticks != [] && (Due(ticks).Some? || Failing(ticks[1..]))
  }

  /** Some system call meets this error. */
  predicate Fails(ticks: seq<Tick>, e: Errno): (b: bool)
    ensures b ==> Faulty(ticks) && (e != EINTR ==> Failing(ticks))
  {
    ticks != [] && (ticks[0].fault == Some(e) || Fails(ticks[1..], e))
  }

  /** No event of this kind happens. */
  predicate Free(ticks: seq<Tick>, kind: Outside -> bool) {
    ticks == [] || (Without(ticks[0].events, kind) && Free(ticks[1..], kind))
  }

  predicate Without(os: seq<Outside>, kind: Outside -> bool) {
    forall o | o in os :: !kind(o)
  }

  function Advance(m: Machine): Machine {
    if m.ticks == [] then m else m.(s := ApplyAll(m.s, m.ticks[0].events), ticks := Rest(m.ticks))
  }

  function Log(m: Machine, e: Entry): Machine {
    m.(log := m.log + [e])
  }

  /** What neither outside events nor the parent's own terminal requests, reads
      and writes undo. */
  predicate Base(a: Station, b: Station) {
    && (Sane(a.k) ==> Sane(b.k))
    && (a.k.fate.Reaped? ==> b.k.fate == a.k.fate)
    && (a.k.fate.Stolen? ==> b.k.fate == a.k.fate)
    && (b.k.fate.Reaped? ==> a.k.fate.Reaped?)
    && (Alive(b.k) ==> Alive(a.k))
    && (!b.touched ==> !a.touched && b.attrs == a.attrs)
    && a.sent <= b.sent
    && (!Held(a) ==> !Held(b) && b.sent == a.sent)
    && (Open(a) ==> Open(b))
    && (a.grouped ==> b.grouped)
    && (a.answered ==> b.answered)
    && a.typed <= b.typed
    && (Piped(a) ==> Piped(b))
  }

  /** What outside events leave alone or cannot undo, apart from the mask. */
  predicate Kept(a: Station, b: Station) {
    && Base(a, b)
    && b.ttou == a.ttou
    && b.taken == a.taken
    && b.shown == a.shown
    && (!b.disturbed ==> !a.disturbed && b.owner == a.owner)
    && (b.spent ==> a.spent)
  }

  predicate Outsiders(a: Station, b: Station) {
    && Kept(a, b)
    && b.k.mask == a.k.mask
    && (Sane(a.k) && Armed(a.k) ==> Armed(b.k))
    && EndKept(a.k, b.k)
  }

  /** A pending SIGCHLD stays, and an end is not lost. */
  predicate EndKept(a: Kernel, b: Kernel) {
    && (SIGCHLD in a.pending ==> SIGCHLD in b.pending)
    && (Sane(a) && EndArmed(a) ==> EndArmed(b))
  }

  /** A dead child holds nothing. */
  predicate Open(s: Station) {
    s.childHolds ==> Alive(s.k)
  }

  lemma ChildEventIsOutsider(s: Station, e: Event)
    ensures Outsiders(s, Apply(s, Child(e)))
  {
    var k := Happen(s.k, e);
    assert SIGCHLD in s.k.pending ==> SIGCHLD in k.pending;
    if Sane(s.k) {
      EventsKeepArmed(s.k, e);
    }
  }

  lemma WritingIsOutsider(s: Station, bytes: seq<Byte>)
    ensures Outsiders(s, Apply(s, Writes(bytes)))
  {}

  lemma TypingIsOutsider(s: Station)
    ensures Outsiders(s, Apply(s, TypesEof))
  {}

  lemma HoldingIsOutsider(s: Station, o: Outside)
    requires o.Shares? || o.ChildCloses? || o.OthersClose?
    ensures Outsiders(s, Apply(s, o))
  {}

  lemma EventIsOutsider(s: Station, o: Outside)
    ensures Outsiders(s, Apply(s, o))
  {
    match o {
      case Child(e) => ChildEventIsOutsider(s, e);
      case Regroups =>
      case Answers =>
      case Takes(_) =>
      case Sets(_) =>
      case Writes(bytes) => WritingIsOutsider(s, bytes);
      case TypesEof => TypingIsOutsider(s);
      case _ => HoldingIsOutsider(s, o);
    }
  }

  lemma BaseComposes(a: Station, b: Station, c: Station)
    ensures Base(a, b) && Base(b, c) ==> Base(a, c)
  {}

  lemma KeptComposes(a: Station, b: Station, c: Station)
    ensures Kept(a, b) && Kept(b, c) ==> Kept(a, c)
  {}

  lemma OutsidersCompose(a: Station, b: Station, c: Station)
    ensures Outsiders(a, b) && Outsiders(b, c) ==> Outsiders(a, c)
  {}

  lemma {:induction false} EventsAreOutsiders(s: Station, os: seq<Outside>)
    ensures Outsiders(s, ApplyAll(s, os))
    decreases |os|
  {
    if os != [] {
      var t := Apply(s, os[0]);
      EventIsOutsider(s, os[0]);
      EventsAreOutsiders(t, os[1..]);
      OutsidersCompose(s, t, ApplyAll(t, os[1..]));
    }
  }

  // ----- What a schedule does not contain does not happen -----

  /** What is left of the schedule holds nothing that it did not hold. */
  ghost predicate Follows(a: seq<Tick>, b: seq<Tick>) {
    && |b| <= |a|
    && (Faulty(b) ==> Faulty(a))
    && (Failing(b) ==> Failing(a))
    && (forall e :: Fails(b, e) ==> Fails(a, e))
    && (Free(a, IsTake) ==> Free(b, IsTake))
    && (Free(a, IsSet) ==> Free(b, IsSet))
    && (Free(a, IsForeign) ==> Free(b, IsForeign))
    && (Free(a, IsLoud) ==> Free(b, IsLoud))
  }

  /** The terminal changes hands only if somebody takes it. */
  predicate Unmoved(a: Machine, b: Machine) {
    Free(a.ticks, IsTake) ==> b.s.owner == a.s.owner
  }

  /** So do its attributes. */
  predicate Unset(a: Machine, b: Machine) {
    Free(a.ticks, IsSet) ==> b.s.attrs == a.s.attrs
  }

  /** After the child's end SIGCHLD comes only from others, and before that the
      end alone raises it unless something loud happens. */
  predicate Unprovoked(a: Machine, b: Machine) {
    && (Free(a.ticks, IsForeign) && !Alive(a.s.k) && SIGCHLD in b.s.k.pending ==> SIGCHLD in a.s.k.pending)
    && (Free(a.ticks, IsLoud) && Single(a.s.k) ==> Single(b.s.k))
    && (Free(a.ticks, IsLoud) && a.s.k.fate.Zombie? ==> b.s.k.fate == a.s.k.fate)
  }

  lemma {:induction false} QuietIsUnforeign(ticks: seq<Tick>)
    requires Free(ticks, IsLoud)
    ensures Free(ticks, IsForeign)
  {
    if ticks != [] {
      QuietIsUnforeign(ticks[1..]);
    }
  }

  lemma EventIsQuiet(s: Station, o: Outside)
    ensures !IsTake(o) ==> Apply(s, o).owner == s.owner
    ensures !IsSet(o) ==> Apply(s, o).attrs == s.attrs
    ensures !Alive(s.k) ==> !Alive(Apply(s, o).k)
    ensures !IsForeign(o) && !Alive(s.k) && SIGCHLD in Apply(s, o).k.pending ==> SIGCHLD in s.k.pending
    ensures !IsLoud(o) && s.k.fate.Zombie? ==> Apply(s, o).k.fate == s.k.fate
    ensures !IsLoud(o) && Single(s.k) ==> Single(Apply(s, o).k)
  {}

  lemma {:induction false} EventsAreQuiet(s: Station, os: seq<Outside>)
    ensures var t := ApplyAll(s, os);
            && (Without(os, IsTake) ==> t.owner == s.owner) && (Without(os, IsSet) ==> t.attrs == s.attrs)
            && (Without(os, IsForeign) && !Alive(s.k) && SIGCHLD in t.k.pending ==> SIGCHLD in s.k.pending)
            && (Without(os, IsLoud) && Single(s.k) ==> Single(t.k))
            && (Without(os, IsLoud) && s.k.fate.Zombie? ==> t.k.fate == s.k.fate)
    decreases os
  {
    if os != [] {
      assert os[0] in os;
      EventIsQuiet(s, os[0]);
      EventsAreQuiet(Apply(s, os[0]), os[1..]);
    }
  }

  /** Only outside events happened between the two. */
  ghost predicate Passes(a: Machine, b: Machine) {
    && Outsiders(a.s, b.s)
    && Follows(a.ticks, b.ticks)
    && Unmoved(a, b)
    && Unset(a, b)
    && Unprovoked(a, b)
  }

  lemma PassesCompose(a: Machine, b: Machine, c: Machine)
    ensures Passes(a, b) && Passes(b, c) ==> Passes(a, c)
  {
    OutsidersCompose(a.s, b.s, c.s);
  }

  lemma PassesSelf(a: Machine)
    ensures Passes(a, a)
  {}

  lemma AdvanceIsOutside(m: Machine)
    ensures Passes(m, Advance(m))
    ensures Advance(m).log == m.log
    ensures m.ticks != [] ==> |Advance(m).ticks| < |m.ticks|
    ensures m.ticks == [] ==> Advance(m) == m && Fault(m) == None
    ensures Advance(m).ticks == Rest(m.ticks)
    ensures Faulty(m.ticks) <==> Fault(m).Some? || Faulty(Advance(m).ticks)
    ensures Failing(m.ticks) <==> Due(m.ticks).Some? || Failing(Advance(m).ticks)
    ensures Fault(m).Some? ==> Fails(m.ticks, Fault(m).value)
    ensures Due(m.ticks).Some? ==> Due(m.ticks) == Fault(m) && Due(m.ticks).value != EINTR
  {
    if m.ticks != [] {
      EventsAreOutsiders(m.s, m.ticks[0].events);
      EventsAreQuiet(m.s, m.ticks[0].events);
    }
  }

  // ----- What the whole schedule does to the child -----

  /** The station after everything the schedule has outside. */
  function Whole(s: Station, ticks: seq<Tick>): Station
    decreases |ticks|
  {
    if ticks == [] then s else Whole(ApplyAll(s, ticks[0].events), ticks[1..])
  }

  /** The child, for waitpid and for the barrier. */
  datatype Offspring = Offspring(fate: Fate, notice: Option<Notice>, answered: bool)

  function ChildOf(s: Station): Offspring {
    Offspring(s.k.fate, s.k.notice, s.answered)
  }

  /** The child is in the same state. */
  predicate Alike(a: Station, b: Station) {
    ChildOf(a) == ChildOf(b)
  }

  /** The child will end up alike. */
  predicate Prospects(a: Machine, b: Machine) {
    Alike(Whole(a.s, a.ticks), Whole(b.s, b.ticks))
  }

  /** What an event does to the child depends on nothing else. */
  function Grow(c: Offspring, o: Outside): Offspring {
    match o
    case Child(e) =>
      var k := Happen(Kernel(c.fate, c.notice, {}, {}), e);
      Offspring(k.fate, k.notice, c.answered)
    case Answers => if c.fate.Running? then c.(answered := true) else c
    case _ => c
  }

  function GrowAll(c: Offspring, os: seq<Outside>): Offspring
    decreases |os|
  {
    if os == [] then c else GrowAll(Grow(c, os[0]), os[1..])
  }

  lemma EventGrows(s: Station, o: Outside)
    ensures ChildOf(Apply(s, o)) == Grow(ChildOf(s), o)
  {}

  lemma {:induction false} EventsGrow(s: Station, os: seq<Outside>)
    ensures ChildOf(ApplyAll(s, os)) == GrowAll(ChildOf(s), os)
    decreases |os|
  {
    if os != [] {
      EventGrows(s, os[0]);
      EventsGrow(Apply(s, os[0]), os[1..]);
    }
  }

  lemma {:induction false} WholeAlike(a: Station, b: Station, ticks: seq<Tick>)
    requires Alike(a, b)
    ensures Alike(Whole(a, ticks), Whole(b, ticks))
    decreases |ticks|
  {
    if ticks != [] {
      EventsGrow(a, ticks[0].events);
      EventsGrow(b, ticks[0].events);
      WholeAlike(ApplyAll(a, ticks[0].events), ApplyAll(b, ticks[0].events), ticks[1..]);
    }
  }

  /** A call that does nothing to the child leaves its prospects alone. */
  lemma CallProspects(m: Machine, b: Machine)
    requires Alike(Advance(m).s, b.s) && b.ticks == Advance(m).ticks
    ensures Prospects(m, b)
  {
    WholeAlike(Advance(m).s, b.s, b.ticks);
  }

  /** A reply is not taken back. */
  lemma {:induction false} RepliesStay(s: Station, ticks: seq<Tick>)
    requires Replied(s)
    ensures Replied(Whole(s, ticks))
    decreases |ticks|
  {
    if ticks != [] {
      EventsAreOutsiders(s, ticks[0].events);
      RepliesStay(ApplyAll(s, ticks[0].events), ticks[1..]);
    }
  }
}
