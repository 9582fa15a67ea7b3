/** One side of the barrier of src/modules/fork_sync.rs. */
module Endpoint {
  // The code of one process, run against every behaviour of the other. Each system
  // call is one legal move of the transition system in module ForkSync, and any
  // number of the peer's moves may come before it.

  import opened Common
  import opened ForkSync

  /** What happens just before a system call: the peer's moves (moves that
      cannot happen are ignored), and an error the call itself meets. */
  datatype Tick = Tick(peer: seq<Action>, fault: Option<Errno>)

  function Others(w: World, s: Side, peer: seq<Action>): World
    decreases |peer|
  {
    if peer == [] then w
    else Others(if Enabled(w, Peer(s), peer[0]) then Apply(w, Peer(s), peer[0]) else w, s, peer[1..])
  }

  function Now(ticks: seq<Tick>): Tick {
    if ticks == [] then Tick([], None) else ticks[0]
  }

  function Later(ticks: seq<Tick>): seq<Tick> {
    if ticks == [] then [] else ticks[1..]
  }

  predicate Fails(ticks: seq<Tick>, e: Errno) {
    exists t | t in ticks :: t.fault == Some(e)
  }

  /** `w'` comes from `w` by legal moves. */
  ghost predicate Reaches(w: World, w': World) {
    exists moves :: Legal(w, moves) && After(w, moves) == w'
  }

  lemma {:induction false} AfterConcat(w: World, a: seq<Move>, b: seq<Move>)
    requires Legal(w, a) && Legal(After(w, a), b)
    ensures Legal(w, a + b) && After(w, a + b) == After(After(w, a), b)
    decreases |a|
  {
    if a == [] {
      assert a + b == b;
    } else {
      assert (a + b)[1..] == a[1..] + b;
      AfterConcat(Apply(w, a[0].side, a[0].action), a[1..], b);
    }
  }

  lemma ReachesTrans(w: World, v: World, u: World)
    requires Reaches(w, v) && Reaches(v, u)
    ensures Reaches(w, u)
  {
    var a :| Legal(w, a) && After(w, a) == v;
    var b :| Legal(v, b) && After(v, b) == u;
    AfterConcat(w, a, b);
  }

  lemma ReachesSelf(w: World)
    ensures Reaches(w, w)
  {
    assert Legal(w, []) && After(w, []) == w;
  }

  lemma ReachesStep(w: World, v: World, s: Side, a: Action)
    requires Reaches(w, v) && Enabled(v, s, a)
    ensures Reaches(w, Apply(v, s, a))
  {
    var moves := [Move(s, a)];
    assert Legal(Apply(v, s, a), moves[1..]);
    assert Legal(v, moves) && After(v, moves) == Apply(v, s, a);
    ReachesTrans(w, v, Apply(v, s, a));
  }

  lemma PeerMoveLeavesMe(w: World, s: Side, a: Action)
    requires Inv(w) && w.child.phase != Unborn && Enabled(w, Peer(s), a)
    ensures Get(Apply(w, Peer(s), a), s) == Get(w, s)
    ensures Apply(w, Peer(s), a).child.phase != Unborn
  {}

  /** Moves of the peer leave a born process as it is. */
  lemma {:induction false} OthersLeaveMe(w: World, s: Side, peer: seq<Action>)
    requires Inv(w) && w.child.phase != Unborn
    ensures var v := Others(w, s, peer);
            Reaches(w, v) && Inv(v) && Get(v, s) == Get(w, s) && v.child.phase != Unborn
    decreases |peer|
  {
    if peer == [] {
      ReachesSelf(w);
    } else if Enabled(w, Peer(s), peer[0]) {
      var v := Apply(w, Peer(s), peer[0]);
      StepKeepsInv(w, Peer(s), peer[0]);
      PeerMoveLeavesMe(w, s, peer[0]);
      ReachesSelf(w);
      ReachesStep(w, w, Peer(s), peer[0]);
      OthersLeaveMe(v, s, peer[1..]);
      ReachesTrans(w, v, Others(v, s, peer[1..]));
    } else {
      OthersLeaveMe(w, s, peer[1..]);
    }
  }

  /** The write failed because nobody can read it any more. */
  predicate Unheard(w: World, s: Side, e: Errno) {
    e == EPIPE && !HasReader(w, s)
  }

  datatype Outcome<T> = Done(result: Result<T, Errno>) | Blocked

  /** Whoever had not announced itself when its peer went never does. */
  lemma MuteWithoutPeer(w: World, v: World, s: Side)
    requires Inv(w) && Reaches(w, v)
    ensures Gone(Get(w, Peer(s))) && !Announces(Get(w, s)) ==> !Announces(Get(v, s))
  {
    var moves :| Legal(w, moves) && After(w, moves) == v;
    if Gone(Get(w, Peer(s))) {
      GoneRun(w, s, moves);
    }
  }

  /** One drop of a descriptor of the other side. */
  method Close(side: Side, a: Action, ghost w0: World, w1: World, ticks: seq<Tick>) returns (w: World, rest: seq<Tick>)
    requires Inv(w1) && Reaches(w0, w1) && w1.child.phase != Unborn
    requires Enabled(w1, side, a) && (a == ClosePeerRead || a == ClosePeerWrite)
    ensures Inv(w)
    ensures Reaches(w0, w)
    ensures w.child.phase != Unborn
    ensures var p := Get(w1, side);
            Get(w, side) == p.(fds := if a == ClosePeerRead then CloseRead(p.fds, Peer(side)) else CloseWrite(p.fds, Peer(side)))
  {
    OthersLeaveMe(w1, side, Now(ticks).peer);
    w, rest := Others(w1, side, Now(ticks).peer), Later(ticks);
    ReachesTrans(w0, w1, w);
    ReachesStep(w0, w, side, a);
    StepKeepsInv(w, side, a);
    w := Apply(w, side, a);
  }

  /** `into_child` and `into_parent`: what the four descriptors of `ForkSync` become
      in each process, dropped in the order of each. */
  method Convert(side: Side, w0: World, ticks: seq<Tick>) returns (e: ForkEndpoint, w: World, rest: seq<Tick>)
    requires Inv(w0) && w0.child.phase != Unborn
    requires Get(w0, side).phase == Starting && Get(w0, side).fds == ALL_ENDS
    ensures Inv(w)
    ensures Reaches(w0, w)
    ensures w.child.phase != Unborn
    ensures Get(w, side) == Get(w0, side).(fds := Own(side))
    ensures fresh(e) && e.side == side && e.Mirrors(w) && !e.statusSent
  {
    ReachesSelf(w0);
    if side == Child {
      w, rest := Close(side, ClosePeerRead, w0, w0, ticks);
      w, rest := Close(side, ClosePeerWrite, w0, w, rest);
    } else {
      w, rest := Close(side, ClosePeerWrite, w0, w0, ticks);
      w, rest := Close(side, ClosePeerRead, w0, w, rest);
    }
    e := new ForkEndpoint(side);
  }

  /** The source's `ForkEndpoint`. A descriptor field says whether the
      descriptor is still there; it is emptied as the source's `take` does. */
  class ForkEndpoint {
    const side: Side
    var write: bool
    var read: bool
    var statusSent: bool

    constructor (s: Side)
      ensures side == s && write && read && !statusSent
    {
      side := s;
      write, read, statusSent := true, true, false;
    }

    /** The fields agree with the process's descriptor table. */
    predicate Mirrors(w: World)
      reads this
    {
      var p := Get(w, side);
      write == CanWrite(p.fds, side) && read == CanRead(p.fds, side)
    }

    predicate InPhase(w: World, phase: Phase) {
      Inv(w) && w.child.phase != Unborn && Get(w, side).phase == phase
    }

    /** Converted, set up, and nothing sent yet. */
    predicate Unused(w: World)
      reads this
    {
      && InPhase(w, Starting) && Get(w, side).ready && Get(w, side).fds == Own(side)
      && Mirrors(w) && !statusSent
    }

    /** One system call's worth of the peer's moves. */
    method Interleave(w0: World, ticks: seq<Tick>) returns (w: World, fault: Option<Errno>, rest: seq<Tick>)
      requires Inv(w0) && w0.child.phase != Unborn
      ensures Inv(w) && Reaches(w0, w) && w.child.phase != Unborn && Get(w, side) == Get(w0, side)
      ensures fault.Some? ==> |rest| < |ticks| && Fails(ticks, fault.value)
      ensures ticks != [] ==> |rest| < |ticks|
      ensures ticks == [] ==> rest == [] && fault == None
      ensures forall t | t in rest :: t in ticks
    {
      OthersLeaveMe(w0, side, Now(ticks).peer);
      w, fault, rest := Others(w0, side, Now(ticks).peer), Now(ticks).fault, Later(ticks);
      if ticks != [] {
        assert ticks[0] in ticks;
      }
    }

    /** `write_byte`: retries while interrupted. */
    method WriteByte(status: Byte, w0: World, ticks: seq<Tick>)
      returns (r: Result<(), Errno>, w: World, rest: seq<Tick>)
      requires Unused(w0) && (status == STATUS_READY || status == STATUS_FAILED)
      ensures Inv(w) && Reaches(w0, w) && w.child.phase != Unborn
      ensures r.Err? ==> Get(w, side) == Get(w0, side) && (Fails(ticks, r.error) || Unheard(w, side, r.error))
      ensures r.Ok? ==> Get(w, side) == Get(w0, side).(
                phase := if status == STATUS_READY then Announced else Reported, wrote := [status])
      ensures forall t | t in rest :: t in ticks
    {
      w, rest := w0, ticks;
      var a := if status == STATUS_READY then WriteReady else WriteFailed;
      ReachesSelf(w);
      while true
        invariant Inv(w) && Reaches(w0, w) && Get(w, side) == Get(w0, side) && w.child.phase != Unborn
        invariant forall t | t in rest :: t in ticks
        decreases |rest|
      {
        var fault;
        ghost var v := w;
        w, fault, rest := Interleave(w, rest);
        ReachesTrans(w0, v, w);
        match fault
        case Some(EINTR) => continue;
        case Some(e) => return Err(e), w, rest;
        case None =>
          if !HasReader(w, side) {
            return Err(EPIPE), w, rest;
          }
          ReachesStep(w0, w, side, a);
          StepKeepsInv(w, side, a);
          w := Apply(w, side, a);
          return Ok(()), w, rest;
      }
    }

    /** `read_byte`: retries while interrupted, and sleeps while the pipe is
        empty and someone can still write it. */
    method ReadByte(w0: World, ticks: seq<Tick>)
      returns (r: Outcome<Option<Byte>>, w: World, rest: seq<Tick>)
      requires InPhase(w0, Listening)
      ensures Inv(w) && Reaches(w0, w) && w.child.phase != Unborn
      ensures r.Blocked? ==> Get(w, side) == Get(w0, side) && !Waiting(w, side) && HasWriter(w, Peer(side))
      ensures r.Done? && r.result.Err? ==> Get(w, side) == Get(w0, side) && Fails(ticks, r.result.error)
      ensures r.Done? && r.result.Ok? ==> Get(w, side).phase == Heard(r.result.value)
    {
      w, rest := w0, ticks;
      ReachesSelf(w);
      while true
        invariant Inv(w) && Reaches(w0, w) && Get(w, side) == Get(w0, side) && w.child.phase != Unborn
        invariant forall t | t in rest :: t in ticks
        decreases |rest|
      {
        var fault;
        ghost var v := w;
        var last := rest == [];
        w, fault, rest := Interleave(w, rest);
        ReachesTrans(w0, v, w);
        match fault
        case Some(EINTR) => continue;
        case Some(e) => return Done(Err(e)), w, rest;
        case None =>
          if Waiting(w, side) || !HasWriter(w, Peer(side)) {
            var reply := if Waiting(w, side) then Some(Get(w, Peer(side)).wrote[Get(w, side).taken]) else None;
            ReachesStep(w0, w, side, Read);
            StepKeepsInv(w, side, Read);
            w := Apply(w, side, Read);
            return Done(Ok(reply)), w, rest;
          } else if last {
            return Blocked, w, rest;
          }
      }
    }

    /** `send_status`, whose caller is dropped on an error. */
    method SendStatus(status: Byte, w0: World, ticks: seq<Tick>)
      returns (r: Result<(), Errno>, w: World, rest: seq<Tick>)
      requires status == STATUS_READY || status == STATUS_FAILED
      requires statusSent || !write || Unused(w0)
      modifies this
      ensures old(statusSent) ==> r == Err(EALREADY) && w == w0
      ensures !old(statusSent) && !old(write) ==> r == Err(EBADF) && w == w0
      ensures !old(statusSent) && old(write) ==>
                && Inv(w) && Reaches(w0, w) && w.child.phase != Unborn
                && (r.Err? ==> Get(w, side) == Get(w0, side) && (Fails(ticks, r.error) || Unheard(w, side, r.error)))
                && (r.Ok? ==> statusSent && !write && Mirrors(w) && Get(w, side).wrote == [status])
                && (r.Ok? ==> Get(w, side).phase == (if status == STATUS_READY then Listening else Failed))
      ensures forall t | t in rest :: t in ticks
    {
      if statusSent {
        return Err(EALREADY), w0, ticks;
      }
      if !write {
        return Err(EBADF), w0, ticks;
      }
      r, w, rest := WriteByte(status, w0, ticks);
      if r.Err? {
        return;
      }
      statusSent := true;
      ReachesStep(w0, w, side, DropWrite);
      StepKeepsInv(w, side, DropWrite);
      w := Apply(w, side, DropWrite);
      write := false;
      if status == STATUS_FAILED {
        read := false;
      }
    }

    /** `ready_and_wait`. Whatever the peer does, the result means what the
        barrier promises; only a call's own error or a peer that cannot read
        any more makes it fail, and it sleeps only for a peer that is alive. */
    method ReadyAndWait(w0: World, ticks: seq<Tick>) returns (r: Outcome<Decision>, w: World)
      requires Unused(w0)
      modifies this
      ensures Inv(w) && Reaches(w0, w)
      ensures r.Done? && r.result.Ok? ==> Decides(w, side, r.result.value) && Justified(w, side)
      ensures r.Done? && r.result.Err? ==>
                Get(w, side).phase == Failed && (Fails(ticks, r.result.error) || Unheard(w, side, r.result.error))
      ensures r.Blocked? ==> Get(w, side).phase == Listening && CanWrite(Get(w, Peer(side)).fds, Peer(side))
      ensures Gone(Get(w0, Peer(side))) ==> r.Done? && r.result.Err?
    {
      var sent, rest;
      sent, w, rest := SendStatus(STATUS_READY, w0, ticks);
      if sent.Err? {
        w := Abandon(w0, w, WriteError);
        return Done(Err(sent.error)), w;
      }
      if !read {
        return Done(Err(EBADF)), w;
      }
      ghost var v := w;
      var reply;
      reply, w, rest := ReadByte(w, rest);
      ReachesTrans(w0, v, w);
      match reply
      case Blocked =>
        ListenerWaitsForPeer(w, side);
        MuteWithoutPeer(w0, w, side);
        return Blocked, w;
      case Done(Err(e)) =>
        w := Abandon(w0, w, ReadError);
        return Done(Err(e)), w;
      case Done(Ok(b)) =>
        var decision;
        decision, w := Judge(b, w0, w);
        DecisionsAreJustified(w, side);
        MuteWithoutPeer(w0, w, side);
        return Done(decision), w;
    }

    /** The `match` on the reply, and the drop of the read end. */
    method Judge(reply: Option<Byte>, ghost w0: World, w1: World) returns (r: Result<Decision, Errno>, w: World)
      requires Inv(w1) && Reaches(w0, w1) && Get(w1, side).phase == Heard(reply)
      modifies this
      ensures Inv(w) && Reaches(w0, w) && r.Ok? && Decides(w, side, r.value) && !read
    {
      ReachesStep(w0, w1, side, Conclude);
      StepKeepsInv(w1, side, Conclude);
      w := Apply(w1, side, Conclude);
      read := false;
      match reply
      case Some(s) =>
        if s == STATUS_READY {
          return Ok(Continue), w;
        } else if s == STATUS_FAILED {
          return Ok(Abort), w;
        } else {
          return Err(EPROTO), w;
        }
      case None => return Ok(Abort), w;
    }

    /** `report_failure`: the peer will read FAILED and abort. */
    method ReportFailure(w0: World, ticks: seq<Tick>) returns (r: Result<(), Errno>, w: World)
      requires Unused(w0)
      modifies this
      ensures Inv(w) && Reaches(w0, w) && Get(w, side).phase == Failed
      ensures r.Ok? ==> Reports(Get(w, side))
      ensures r.Err? ==> Get(w, side).wrote == [] && (Fails(ticks, r.error) || Unheard(w, side, r.error))
    {
      var rest;
      r, w, rest := SendStatus(STATUS_FAILED, w0, ticks);
      if r.Err? {
        w := Abandon(w0, w, WriteError);
      }
    }

    /** Dropping the endpoint after an error. */
    method Abandon(ghost w0: World, w1: World, a: Action) returns (w: World)
      requires Inv(w1) && Reaches(w0, w1) && Enabled(w1, side, a) && a in {FailSetup, WriteError, ReadError}
      modifies this
      ensures Inv(w) && Reaches(w0, w) && w == Apply(w1, side, a) && !write && !read
    {
      ReachesStep(w0, w1, side, a);
      StepKeepsInv(w1, side, a);
      w := Apply(w1, side, a);
      write, read := false, false;
    }
  }
}
