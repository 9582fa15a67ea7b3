/** The barrier of src/modules/fork_sync.rs. */
module ForkSync {
  // A transition system: two processes share two pipes. Each process has its own
  // descriptor table, copied at the fork, a phase, and a log of what it wrote and
  // read. Any interleaving of the two processes is a run; either may crash at any
  // point. The parent's receiver for SIGCHLD is part of its set-up, so the state
  // also says whether SIGCHLD is blocked and pending in the parent.

  import opened Common

  const STATUS_READY: Byte := 1
  const STATUS_FAILED: Byte := 2

  datatype Side = Child | Parent

  function Peer(s: Side): Side {
    if s == Child then Parent else Child
  }

  /** The pipe descriptors a process has open, named as in the source: the
      child writes `childWrite` and the parent reads the same pipe at
      `parentRead`; the other pipe runs the other way. */
  datatype Table = Table(childWrite: bool, childRead: bool, parentWrite: bool, parentRead: bool)

  const ALL_ENDS := Table(true, true, true, true)
  const NO_ENDS := Table(false, false, false, false)

  /** What `into_child` and `into_parent` leave to each side. */
  function Own(s: Side): Table {
    if s == Child then Table(true, true, false, false) else Table(false, false, true, true)
  }

  predicate CanWrite(t: Table, s: Side) {
    if s == Child then t.childWrite else t.parentWrite
  }

  predicate CanRead(t: Table, s: Side) {
    if s == Child then t.childRead else t.parentRead
  }

  function CloseWrite(t: Table, s: Side): Table {
    if s == Child then t.(childWrite := false) else t.(parentWrite := false)
  }

  function CloseRead(t: Table, s: Side): Table {
    if s == Child then t.(childRead := false) else t.(parentRead := false)
  }

  datatype Decision = Continue | Abort

  datatype Phase =
    | Unborn                    // the child before the fork
    | Starting                  // converting descriptors and setting up
    | Announced                 // READY written, write end still open
    | Reported                  // FAILED written, descriptors still open
    | Listening                 // write end dropped, waiting for the peer's byte
    | Heard(reply: Option<Byte>) // read returned, read end still open
    | Decided(decision: Decision)
    | Failed                    // returned an error; the endpoint is dropped
    | Dead

  /** `wrote` is every byte the process ever wrote to its pipe and `taken` how
      many of its peer's bytes it has read. */
  datatype Proc = Proc(phase: Phase, fds: Table, ready: bool, wrote: seq<Byte>, taken: nat)

  datatype World = World(child: Proc, parent: Proc, chldBlocked: bool, chldPending: bool)

  function Get(w: World, s: Side): Proc {
    if s == Child then w.child else w.parent
  }

  function Put(w: World, s: Side, p: Proc): World {
    if s == Child then w.(child := p) else w.(parent := p)
  }

  /** The pipe that `s` reads holds an unread byte. */
  predicate Waiting(w: World, s: Side) {
    Get(w, s).taken < |Get(w, Peer(s)).wrote|
  }

  /** Some process can still read what `s` writes. */
  predicate HasReader(w: World, s: Side) {
    CanRead(w.child.fds, Peer(s)) || CanRead(w.parent.fds, Peer(s))
  }

  /** Some process can still write the pipe of `s`. */
  predicate HasWriter(w: World, s: Side) {
    CanWrite(w.child.fds, s) || CanWrite(w.parent.fds, s)
  }

  /** After `ForkSync::new`, before the fork. */
  const START: World := World(
    Proc(Unborn, NO_ENDS, false, [], 0), Proc(Starting, ALL_ENDS, false, [], 0), false, false)

  datatype Action =
    | Fork              // the child receives a copy of the parent's table
    | ClosePeerRead     // the two drops of `into_child` / `into_parent`
    | ClosePeerWrite
    | FinishSetup       // the side's own preparation is done
    | FailSetup         // it failed: the endpoint is dropped unused
    | WriteReady        // the write of READY succeeds
    | WriteFailed       // the write of FAILED succeeds
    | WriteError        // a write fails: `?` drops the endpoint
    | DropWrite
    | Read              // read returns a byte, or end of file
    | ReadError
    | Conclude          // classify the reply and drop the read end
    | Crash

  /** Whether action `a` of process `s` can happen in `w`. */
  predicate Enabled(w: World, s: Side, a: Action) {
    var p := Get(w, s);
    match a
    case Fork => s == Parent && w.child.phase == Unborn && p.phase == Starting && p.fds == ALL_ENDS
    case ClosePeerRead => p.phase == Starting && w.child.phase != Unborn && CanRead(p.fds, Peer(s))
    case ClosePeerWrite => p.phase == Starting && w.child.phase != Unborn && CanWrite(p.fds, Peer(s))
    case FinishSetup => p.phase == Starting && w.child.phase != Unborn && !p.ready
    case FailSetup => p.phase == Starting
    case WriteReady => p.phase == Starting && p.ready && p.fds == Own(s) && HasReader(w, s)
    case WriteFailed => p.phase == Starting && p.fds == Own(s) && HasReader(w, s)
    case WriteError => p.phase == Starting && p.fds == Own(s)
    case DropWrite => p.phase == Announced || p.phase == Reported
    case Read => p.phase == Listening && (Waiting(w, s) || !HasWriter(w, Peer(s)))
    case ReadError => p.phase == Listening
    case Conclude => p.phase.Heard?
    case Crash => p.phase != Dead && p.phase != Unborn
  }

  function Classify(reply: Option<Byte>): Phase {
    match reply
    case Some(b) => if b == STATUS_READY then Decided(Continue)
                    else if b == STATUS_FAILED then Decided(Abort) else Failed
    case None => Decided(Abort)
  }

  function Drop(p: Proc, phase: Phase): Proc {
    p.(phase := phase, fds := NO_ENDS)
  }

  function Apply(w: World, s: Side, a: Action): World
    requires Enabled(w, s, a)
  {
    var p := Get(w, s);
    match a
    case Fork => w.(child := Proc(Starting, w.parent.fds, false, [], 0))
    case ClosePeerRead => Put(w, s, p.(fds := CloseRead(p.fds, Peer(s))))
    case ClosePeerWrite => Put(w, s, p.(fds := CloseWrite(p.fds, Peer(s))))
    case FinishSetup =>
      var w' := Put(w, s, p.(ready := true));
      if s == Parent then w'.(chldBlocked := true) else w'
    case FailSetup => Put(w, s, Drop(p, Failed))
    case WriteReady => Put(w, s, p.(phase := Announced, wrote := p.wrote + [STATUS_READY]))
    case WriteFailed => Put(w, s, p.(phase := Reported, wrote := p.wrote + [STATUS_FAILED]))
    case WriteError => Put(w, s, Drop(p, Failed))
    case DropWrite =>
      if p.phase == Announced then Put(w, s, p.(phase := Listening, fds := CloseWrite(p.fds, s)))
      else Put(w, s, Drop(p, Failed))
    case Read =>
      if Waiting(w, s)
      then Put(w, s, p.(phase := Heard(Some(Get(w, Peer(s)).wrote[p.taken])), taken := p.taken + 1))
      else Put(w, s, p.(phase := Heard(None)))
    case ReadError => Put(w, s, Drop(p, Failed))
    case Conclude => Put(w, s, Drop(p, Classify(p.phase.reply)))
    case Crash =>
      var w' := Put(w, s, Drop(p, Dead));
      if s == Child && w.chldBlocked then w'.(chldPending := true) else w'
  }

  datatype Move = Move(side: Side, action: Action)

  /** Every move of the list can happen when its turn comes. */
  predicate Legal(w: World, moves: seq<Move>)
    decreases |moves|
  {
    moves == [] ||
    (Enabled(w, moves[0].side, moves[0].action) &&
     Legal(Apply(w, moves[0].side, moves[0].action), moves[1..]))
  }

  function After(w: World, moves: seq<Move>): World
    requires Legal(w, moves)
    decreases |moves|
  {
    if moves == [] then w else After(Apply(w, moves[0].side, moves[0].action), moves[1..])
  }

  // ----- The invariant -----

  predicate Gone(p: Proc) {
    p.phase == Failed || p.phase == Dead
  }

  /** What holds of one side, given the other. */
  predicate SideInv(w: World, s: Side) {
    var p, q := Get(w, s), Get(w, Peer(s));
    && p.taken <= |q.wrote|
    && |p.wrote| <= 1
    && (p.wrote != [] ==> p.wrote[0] == STATUS_READY || p.wrote[0] == STATUS_FAILED)
    && (Announces(p) ==> p.ready)
    && match p.phase {
         case Unborn => s == Child && p.fds == NO_ENDS && p.wrote == [] && p.taken == 0
         case Starting => CanWrite(p.fds, s) && CanRead(p.fds, s) && p.wrote == [] && p.taken == 0
         case Announced => p.fds == Own(s) && Announces(p) && p.taken == 0
         case Reported => p.fds == Own(s) && Reports(p) && p.taken == 0
         case Listening => p.fds == CloseWrite(Own(s), s) && Announces(p) && p.taken == 0
         case Heard(reply) =>
           && p.fds == CloseWrite(Own(s), s) && Announces(p)
           && (if reply.Some? then p.taken == 1 && q.wrote[0] == reply.value else Silent(p, q))
         case Decided(d) =>
           && p.fds == NO_ENDS && Announces(p)
           && (if d == Continue then p.taken == 1 && Announces(q) else Reports(q) || Silent(p, q))
         case Failed => p.fds == NO_ENDS
         case Dead => p.fds == NO_ENDS
       }
    && (Reports(p) ==> p.phase == Reported || Gone(p))
  }

  predicate Announces(p: Proc) {
    p.wrote != [] && p.wrote[0] == STATUS_READY
  }

  predicate Reports(p: Proc) {
    p.wrote != [] && p.wrote[0] == STATUS_FAILED
  }

  /** `q` is gone without a word to `p`. */
  predicate Silent(p: Proc, q: Proc) {
    p.taken == 0 && q.wrote == [] && Gone(q)
  }

  predicate Inv(w: World) {
    && SideInv(w, Child)
    && SideInv(w, Parent)
    && (w.child.phase == Unborn ==> (w.parent.phase == Starting || Gone(w.parent)) && w.parent.wrote == [])
    && (w.child.phase == Unborn && w.parent.phase == Starting ==> w.parent.fds == ALL_ENDS && !w.parent.ready)
    && (w.parent.ready ==> w.chldBlocked)
    && (Announces(w.parent) && w.child.phase == Dead ==> w.chldPending)
  }

  lemma WriteKeepsInv(w: World, s: Side, a: Action)
    requires Inv(w) && Enabled(w, s, a) && (a == WriteReady || a == WriteFailed)
    ensures Inv(Apply(w, s, a))
  {
    if s == Child {} else {}
  }

  lemma ReadKeepsInv(w: World, s: Side)
    requires Inv(w) && Enabled(w, s, Read)
    ensures Inv(Apply(w, s, Read))
  {
    if s == Child {} else {}
  }

  lemma SetupKeepsInv(w: World, s: Side, a: Action)
    requires Inv(w) && Enabled(w, s, a)
    requires a in {Fork, ClosePeerRead, ClosePeerWrite, FinishSetup}
    ensures Inv(Apply(w, s, a))
  {
    if s == Child {} else {}
  }

  lemma ConcludeKeepsInv(w: World, s: Side)
    requires Inv(w) && Enabled(w, s, Conclude)
    ensures Inv(Apply(w, s, Conclude))
  {
    if s == Child {} else {}
  }

  lemma CrashKeepsInv(w: World, s: Side)
    requires Inv(w) && Enabled(w, s, Crash)
    ensures Inv(Apply(w, s, Crash))
  {
    if s == Child {} else {}
  }

  lemma DroppingKeepsInv(w: World, s: Side, a: Action)
    requires Inv(w) && Enabled(w, s, a)
    requires a in {FailSetup, WriteError, DropWrite, ReadError}
    ensures Inv(Apply(w, s, a))
  {
    if s == Child {} else {}
  }

  lemma StepKeepsInv(w: World, s: Side, a: Action)
    requires Inv(w) && Enabled(w, s, a)
    ensures Inv(Apply(w, s, a))
  {
    match a {
      case WriteReady => WriteKeepsInv(w, s, a);
      case WriteFailed => WriteKeepsInv(w, s, a);
      case Read => ReadKeepsInv(w, s);
      case Fork => SetupKeepsInv(w, s, a);
      case ClosePeerRead => SetupKeepsInv(w, s, a);
      case ClosePeerWrite => SetupKeepsInv(w, s, a);
      case FinishSetup => SetupKeepsInv(w, s, a);
      case Conclude => ConcludeKeepsInv(w, s);
      case Crash => CrashKeepsInv(w, s);
      case _ => DroppingKeepsInv(w, s, a);
    }
  }

  lemma {:induction false} RunKeepsInv(w: World, moves: seq<Move>)
    requires Inv(w) && Legal(w, moves)
    ensures Inv(After(w, moves))
    decreases |moves|
  {
    if moves != [] {
      StepKeepsInv(w, moves[0].side, moves[0].action);
      RunKeepsInv(Apply(w, moves[0].side, moves[0].action), moves[1..]);
    }
  }

  // ----- Agreement -----

  predicate Decides(w: World, s: Side, d: Decision) {
    Get(w, s).phase == Decided(d)
  }

  /** What a decision of `s` says about its peer. */
  predicate Justified(w: World, s: Side) {
    var q := Get(w, Peer(s));
    && (Decides(w, s, Continue) ==> Announces(q) && q.ready)
    && (Decides(w, s, Abort) ==> !Announces(q) && (Reports(q) || Gone(q)))
  }

  lemma DecisionsAreJustified(w: World, s: Side)
    ensures Inv(w) ==> Justified(w, s)
  {}

  lemma ListenerWaitsForPeer(w: World, s: Side)
    ensures Inv(w) && Get(w, s).phase == Listening && HasWriter(w, Peer(s))
      ==> CanWrite(Get(w, Peer(s)).fds, Peer(s))
  {}

  /** A reached decision is about what the peer really did, two decisions
      agree, and nobody writes twice. */
  lemma Agreement(moves: seq<Move>)
    requires Legal(START, moves)
    ensures var w := After(START, moves);
            forall s: Side :: Justified(w, s) && |Get(w, s).wrote| <= 1
    ensures var w := After(START, moves);
            w.child.phase.Decided? && w.parent.phase.Decided?
            ==> Decides(w, Child, Continue) && Decides(w, Parent, Continue)
  {
    RunKeepsInv(START, moves);
    var w := After(START, moves);
    DecisionsAreJustified(w, Child);
    DecisionsAreJustified(w, Parent);
  }

  /** A parent that continues blocked SIGCHLD while the child was alive, so a
      child that dies afterwards leaves SIGCHLD pending. */
  lemma ContinueArmsSigchld(moves: seq<Move>)
    requires Legal(START, moves)
    requires Decides(After(START, moves), Parent, Continue)
    ensures var w := After(START, moves);
            w.chldBlocked && (w.child.phase == Dead ==> w.chldPending)
  {
    RunKeepsInv(START, moves);
  }

  // ----- Deadlock freedom -----

  predicate Finished(w: World) {
    && (w.parent.phase.Decided? || Gone(w.parent))
    && (w.child.phase.Decided? || Gone(w.child) || w.child.phase == Unborn)
  }

  /** A move that needs neither a fault nor a crash. Writing to a pipe nobody
      can read fails with EPIPE and is the process's own next step. */
  predicate Progress(w: World, s: Side, a: Action) {
    && Enabled(w, s, a)
    && (a in {Fork, ClosePeerRead, ClosePeerWrite, FinishSetup, WriteReady, DropWrite, Read, Conclude}
        || (a == WriteError && !HasReader(w, s)))
  }

  function NextAction(w: World, s: Side): Action {
    var p := Get(w, s);
    match p.phase
    case Starting =>
      if w.child.phase == Unborn then Fork
      else if CanRead(p.fds, Peer(s)) then ClosePeerRead
      else if CanWrite(p.fds, Peer(s)) then ClosePeerWrite
      else if !p.ready then FinishSetup
      else if HasReader(w, s) then WriteReady else WriteError
    case Listening => Read
    case Heard(_) => Conclude
    case _ => DropWrite
  }

  /** In a reachable state, some process can make progress exactly as long as
      the barrier is not finished. */
  lemma NeverStuck(w: World)
    requires Inv(w)
    ensures (exists s, a :: Progress(w, s, a)) <==> !Finished(w)
  {
    if !Finished(w) {
      var s := if Progress(w, Parent, NextAction(w, Parent)) then Parent else Child;
      SomeoneMoves(w);
      assert Progress(w, s, NextAction(w, s));
    }
    forall s, a | Progress(w, s, a) ensures !Finished(w) {
      if s == Child {} else {}
    }
  }

  lemma SomeoneMoves(w: World)
    ensures Inv(w) && !Finished(w)
      ==> Progress(w, Parent, NextAction(w, Parent)) || Progress(w, Child, NextAction(w, Child))
  {}

  // ----- Every run ends -----

  function Rank(p: Proc): nat {
    match p.phase
    case Unborn => 20
    case Starting => 10 + (if p.ready then 0 else 1)
        + (if p.fds.childWrite then 1 else 0) + (if p.fds.childRead then 1 else 0)
        + (if p.fds.parentWrite then 1 else 0) + (if p.fds.parentRead then 1 else 0)
    case Announced => 5
    case Listening => 4
    case Heard(_) => 3
    case Reported => 3
    case Decided(_) => 2
    case Failed => 1
    case Dead => 0
  }

  lemma SetupRankFalls(w: World, s: Side, a: Action)
    requires Inv(w) && Enabled(w, s, a) && a in {ClosePeerRead, ClosePeerWrite, FinishSetup}
    ensures Rank(Get(Apply(w, s, a), s)) < Rank(Get(w, s)) && Get(Apply(w, s, a), Peer(s)) == Get(w, Peer(s))
  {}

  lemma PhaseRankFalls(w: World, s: Side, a: Action)
    requires Inv(w) && Enabled(w, s, a) && a !in {Fork, ClosePeerRead, ClosePeerWrite, FinishSetup}
    ensures Rank(Get(Apply(w, s, a), s)) < Rank(Get(w, s)) && Get(Apply(w, s, a), Peer(s)) == Get(w, Peer(s))
  {
    if s == Child {} else {}
  }

  lemma StepLowersRank(w: World, s: Side, a: Action)
    requires Inv(w) && Enabled(w, s, a)
    ensures Rank(Apply(w, s, a).child) + Rank(Apply(w, s, a).parent) < Rank(w.child) + Rank(w.parent)
  {
    if a in {ClosePeerRead, ClosePeerWrite, FinishSetup} {
      SetupRankFalls(w, s, a);
    } else if a != Fork {
      PhaseRankFalls(w, s, a);
    }
  }

  /** No run, whatever fails or crashes, is longer than its start's rank. */
  lemma {:induction false} RunsAreBounded(w: World, moves: seq<Move>)
    requires Inv(w) && Legal(w, moves)
    ensures |moves| <= Rank(w.child) + Rank(w.parent)
    decreases |moves|
  {
    if moves != [] {
      StepLowersRank(w, moves[0].side, moves[0].action);
      StepKeepsInv(w, moves[0].side, moves[0].action);
      RunsAreBounded(Apply(w, moves[0].side, moves[0].action), moves[1..]);
    }
  }

  /** Every run of the barrier is at most 35 moves long, and after any of them
      somebody can go on unless both sides are done. */
  lemma BarrierRuns(moves: seq<Move>)
    requires Legal(START, moves)
    ensures |moves| <= 35
    ensures var w := After(START, moves);
            (exists s, a :: Progress(w, s, a)) <==> !Finished(w)
  {
    RunsAreBounded(START, moves);
    RunKeepsInv(START, moves);
    NeverStuck(After(START, moves));
  }

  /** Every reachable state can be finished by progress moves alone. */
  lemma {:induction false} CanFinish(w: World) returns (moves: seq<Move>)
    requires Inv(w)
    ensures Legal(w, moves)
    ensures Finished(After(w, moves))
    decreases Rank(w.child) + Rank(w.parent)
  {
    if Finished(w) {
      return [];
    }
    SomeoneMoves(w);
    var s := if Progress(w, Parent, NextAction(w, Parent)) then Parent else Child;
    var a := NextAction(w, s);
    StepLowersRank(w, s, a);
    StepKeepsInv(w, s, a);
    var more := CanFinish(Apply(w, s, a));
    moves := [Move(s, a)] + more;
    assert moves[1..] == more;
  }

  // ----- Without faults both sides continue -----

  predicate Faultless(a: Action) {
    a in {Fork, ClosePeerRead, ClosePeerWrite, FinishSetup, WriteReady, DropWrite, Read, Conclude}
  }

  predicate Unharmed(w: World) {
    && !Gone(w.child)
    && !Gone(w.parent)
    && !Reports(w.child)
    && !Reports(w.parent)
  }

  lemma {:induction false} FaultlessRunsStayUnharmed(w: World, moves: seq<Move>)
    requires Inv(w) && Unharmed(w) && Legal(w, moves)
    requires forall m | m in moves :: Faultless(m.action)
    ensures Unharmed(After(w, moves))
    decreases |moves|
  {
    if moves != [] {
      var m := moves[0];
      assert m in moves;
      StepKeepsInv(w, m.side, m.action);
      FaultlessStep(w, m.side, m.action);
      FaultlessRunsStayUnharmed(Apply(w, m.side, m.action), moves[1..]);
    }
  }

  lemma FaultlessStep(w: World, s: Side, a: Action)
    requires Inv(w) && Unharmed(w) && Enabled(w, s, a) && Faultless(a)
    ensures Unharmed(Apply(w, s, a))
  {
    if s == Child {} else {}
  }

  lemma FaultlessRunsContinue(moves: seq<Move>)
    requires Legal(START, moves) && forall m | m in moves :: Faultless(m.action)
    requires Finished(After(START, moves))
    ensures var w := After(START, moves);
            Decides(w, Child, Continue) && Decides(w, Parent, Continue)
  {
    RunKeepsInv(START, moves);
    FaultlessRunsStayUnharmed(START, moves);
  }

  // ----- A peer that is gone -----

  /** A peer that is gone stays gone and says no more, and a process that has not
      announced itself by then never does: nobody can read it any more. */
  lemma GoneStep(w: World, s: Side, t: Side, a: Action)
    requires Inv(w) && Gone(Get(w, Peer(s))) && Enabled(w, t, a)
    ensures var v := Apply(w, t, a);
            && Gone(Get(v, Peer(s))) && Get(v, Peer(s)).wrote == Get(w, Peer(s)).wrote
            && (Announces(Get(v, s)) <==> Announces(Get(w, s)))
            && (Gone(Get(w, s)) ==> Gone(Get(v, s)))
  {
    if t == s {
      OwnStepAlone(w, s, a);
    }
  }

  lemma OwnStepAlone(w: World, s: Side, a: Action)
    requires Inv(w) && Gone(Get(w, Peer(s))) && Enabled(w, s, a)
    ensures var v := Apply(w, s, a);
            && Get(v, Peer(s)) == Get(w, Peer(s))
            && (Announces(Get(v, s)) <==> Announces(Get(w, s)))
            && (Gone(Get(w, s)) ==> Gone(Get(v, s)))
  {}

  lemma {:induction false} GoneRun(w: World, s: Side, moves: seq<Move>)
    requires Inv(w) && Gone(Get(w, Peer(s))) && Legal(w, moves)
    ensures var v := After(w, moves);
            && Inv(v)
            && Gone(Get(v, Peer(s)))
            && Get(v, Peer(s)).wrote == Get(w, Peer(s)).wrote
            && (Announces(Get(v, s)) <==> Announces(Get(w, s)))
            && (Gone(Get(w, s)) ==> Gone(Get(v, s)))
    decreases |moves|
  {
    if moves != [] {
      var m := moves[0];
      GoneStep(w, s, m.side, m.action);
      StepKeepsInv(w, m.side, m.action);
      GoneRun(Apply(w, m.side, m.action), s, moves[1..]);
    }
  }

  /** A process that announced itself decides alone. */
  lemma {:induction false} DecidesAlone(w: World, s: Side) returns (moves: seq<Move>)
    requires Inv(w) && Gone(Get(w, Peer(s))) && Announces(Get(w, s)) && !Gone(Get(w, s))
    ensures Legal(w, moves) && Get(After(w, moves), s).phase.Decided?
    decreases Rank(Get(w, s))
  {
    if Get(w, s).phase.Decided? {
      return [];
    }
    var a := NextAction(w, s);
    AloneCanGoOn(w, s);
    GoneStep(w, s, s, a);
    StepKeepsInv(w, s, a);
    var more := DecidesAlone(Apply(w, s, a), s);
    moves := [Move(s, a)] + more;
    assert moves[1..] == more;
  }

  lemma AloneCanGoOn(w: World, s: Side)
    requires Inv(w) && Gone(Get(w, Peer(s))) && Announces(Get(w, s)) && !Gone(Get(w, s))
    requires !Get(w, s).phase.Decided?
    ensures var a := NextAction(w, s);
            Enabled(w, s, a) && !Gone(Get(Apply(w, s, a), s)) && Rank(Get(Apply(w, s, a), s)) < Rank(Get(w, s))
  {
    if s == Child {} else {}
  }

  predicate CanDecide(w: World, s: Side, moves: seq<Move>) {
    Legal(w, moves) && Get(After(w, moves), s).phase.Decided?
  }

  /** Once its peer is gone, a process can still decide if and only if it has
      announced itself and is not gone itself. It then decides by what the peer had
      announced: a peer that went silently makes it abort. */
  lemma GonePeer(w: World, s: Side)
    requires Inv(w) && Gone(Get(w, Peer(s)))
    ensures (exists moves :: CanDecide(w, s, moves)) <==> Announces(Get(w, s)) && !Gone(Get(w, s))
    ensures forall moves | CanDecide(w, s, moves) ::
              Decides(After(w, moves), s, if Announces(Get(w, Peer(s))) then Continue else Abort)
  {
    if Announces(Get(w, s)) && !Gone(Get(w, s)) {
      var moves := DecidesAlone(w, s);
      assert CanDecide(w, s, moves);
    }
    forall moves | CanDecide(w, s, moves)
      ensures Announces(Get(w, s)) && !Gone(Get(w, s))
      ensures Decides(After(w, moves), s, if Announces(Get(w, Peer(s))) then Continue else Abort)
    {
      GoneRun(w, s, moves);
      DecisionsAreJustified(After(w, moves), s);
    }
  }

  /** A child that dies right after the fork: no run lets the parent abort, or
      decide at all. */
  lemma ChildDiesAtOnce()
    ensures var moves := [Move(Parent, Fork), Move(Child, Crash)];
            && Legal(START, moves)
            && forall more :: !CanDecide(After(START, moves), Parent, more)
  {
    var moves := [Move(Parent, Fork), Move(Child, Crash)];
    var forked := Apply(START, Parent, Fork);
    assert moves[1..] == [Move(Child, Crash)] && moves[1..][1..] == [];
    assert Legal(Apply(forked, Child, Crash), []);
    assert Legal(forked, moves[1..]);
    RunKeepsInv(START, moves);
    assert After(forked, moves[1..]) == Apply(forked, Child, Crash);
    GonePeer(After(START, moves), Parent);
  }
}
