/** The `Prompt` of src/modules/passwd.rs: terminal attributes, output, and
    reading a stream while a signalfd may interrupt. */
module Prompt {
  import opened Common
  import opened Kernel
  import opened Host
  import SignalReceiver

  function Min(a: nat, b: nat): nat {
    if a < b then a else b
  }

  const MAX_INPUT_LEN: nat := 1024

  /** Like `Passes`, but this process may also have written and read. */
  ghost predicate Beside(a: Machine, b: Machine) {
    && Base(a.s, b.s) && b.s.k.mask == a.s.k.mask && EndKept(a.s.k, b.s.k)
    && Follows(a.ticks, b.ticks) && Unset(a, b) && Unprovoked(a, b)
  }

  lemma BesideComposes(a: Machine, b: Machine, c: Machine)
    ensures Beside(a, b) && Beside(b, c) ==> Beside(a, c)
  {}

  /** What an interactive prompt relies on. */
  ghost predicate Near(a: Machine, b: Machine) {
    && b.s.k.mask == a.s.k.mask
    && (Sane(a.s.k) ==> Sane(b.s.k))
    && a.s.sent <= b.s.sent
    && (!Held(a.s) ==> !Held(b.s) && b.s.sent == a.s.sent)
    && (!b.s.touched ==> !a.s.touched && b.s.attrs == a.s.attrs)
    && a.s.typed <= b.s.typed
    && Follows(a.ticks, b.ticks) && Unset(a, b)
  }

  lemma NearComposes(a: Machine, b: Machine, c: Machine)
    ensures Near(a, b) && Near(b, c) ==> Near(a, c)
  {}

  lemma StreamOnlyGrows(a: Station, b: Station, from: nat, to: nat)
    ensures a.sent <= b.sent && from <= to <= |a.sent|
      ==> to <= |b.sent| && b.sent[from..to] == a.sent[from..to]
  {}

  predicate InRange(s: Station) {
    && Sane(s.k)
    && s.taken <= |s.sent|
  }

  /** Why a read returned no byte: nobody can write any more, or an end of file was
      typed here. */
  predicate NoMore(s: Station) {
    (s.taken == |s.sent| && !Held(s)) || s.taken in s.typed
  }

  /** The result of a read: some bytes, end of file as no bytes, an error, or
      the schedule ends while it sleeps. */
  datatype Outcome = Got(bytes: seq<Byte>) | Failed(error: Errno) | Never

  datatype Polled = SignalReady | StreamReady | PollFailed(error: Errno) | Sleeping

  class Prompt {
    var termios: Option<Attrs>
    var inputEof: bool
    const signals: SignalReceiver.Receiver

    constructor (signals: SignalReceiver.Receiver)
      ensures termios == None && !inputEof && this.signals == signals
    {
      this.signals := signals;
      termios, inputEof := None, false;
    }

    /** poll reports the stream: it has bytes, an end of file was typed here, or nobody
        can write it any more. */
    predicate InputReady(s: Station)
      reads this
    {
      !inputEof && (s.taken < |s.sent| || AtMark(s) || !Held(s))
    }

    /** `hide_input`: the old attributes are saved before they are changed. */
    method HideInput(m0: Machine) returns (r: Result<(), Errno>, m: Machine)
      requires Sane(m0.s.k) && termios == None
      modifies this`termios
      ensures Sane(m.s.k) && m.s.k.mask == m0.s.k.mask && m.log == m0.log && m.s.shown == m0.s.shown
      ensures m.s.taken == m0.s.taken && m0.s.sent <= m.s.sent
        && (!Held(m0.s) ==> !Held(m.s) && m.s.sent == m0.s.sent)
      ensures termios == None ==> Passes(m0, m) && r.Err?
      ensures termios.Some? && Free(m0.ticks, IsSet) ==> termios.value == m0.s.attrs
      ensures Follows(m0.ticks, m.ticks) && m0.s.typed <= m.s.typed && (r.Err? ==> Fails(m0.ticks, r.error))
      ensures termios.Some? && !m.s.touched ==> !m0.s.touched && termios.value == m0.s.attrs
      ensures r.Ok? ==> termios.Some? && m.s.attrs == termios.value.(canonical := false, echo := false)
    {
      var fault := Fault(m0);
      AdvanceIsOutside(m0);
      m := Advance(m0);
      if fault.Some? {
        return Err(fault.value), m;
      }
      var original := m.s.attrs;
      termios := Some(original);
      fault := Fault(m);
      var before := m;
      AdvanceIsOutside(m);
      m := Advance(m);
      PassesCompose(m0, before, m);
      if fault.Some? {
        // a refused change may have been made in part
        var partial: Attrs := *;
        m := m.(s := m.s.(attrs := partial));
        return Err(fault.value), m;
      }
      m := m.(s := m.s.(attrs := original.(canonical := false, echo := false)));
      return Ok(()), m;
    }

    /** One write call, which takes at least one byte. */
    method WriteOnce(bytes: seq<Byte>, m0: Machine) returns (count: Result<nat, Errno>, m: Machine)
      requires bytes != []
      ensures Beside(m0, m) && m.s.taken == m0.s.taken && m.log == m0.log
      ensures if m0.ticks == [] then m.ticks == [] && count.Ok? && m.s == m0.s.(shown := m.s.shown) else |m.ticks| < |m0.ticks|
      ensures count.Ok? ==> 1 <= count.value <= |bytes| && m.s.shown == m0.s.shown + bytes[..count.value]
      ensures count.Err? ==> m.s.shown == m0.s.shown
      ensures count.Err? ==> Fails(m0.ticks, count.error)
    {
      var fault := Fault(m0);
      AdvanceIsOutside(m0);
      m := Advance(m0);
      if fault.Some? {
        return Err(fault.value), m;
      }
      var written: nat :| 1 <= written <= |bytes|;
      m := m.(s := m.s.(shown := m.s.shown + bytes[..written]));
      return Ok(written), m;
    }

    /** The first `done` bytes were shown. */
    static ghost predicate Showing(m0: Machine, m: Machine, bytes: seq<Byte>, done: nat) {
      && done <= |bytes|
      && Beside(m0, m) && m.s.taken == m0.s.taken && m.log == m0.log
      && m.s.shown == m0.s.shown + bytes[..done]
      && (m0.ticks == [] ==> m.s == m0.s.(shown := m.s.shown) && m.ticks == [])
    }

    static lemma ShowsMore(m0: Machine, a: Machine, b: Machine, bytes: seq<Byte>, done: nat, more: nat)
      requires Showing(m0, a, bytes, done) && done + more <= |bytes|
      requires Showing(a, b, bytes[done..], more)
      ensures Showing(m0, b, bytes, done + more)
    {
      BesideComposes(m0, a, b);
      assert bytes[..done + more] == bytes[..done] + bytes[done..][..more];
    }

    /** `write`: all bytes, however few each call takes. */
    method Write(bytes: seq<Byte>, m0: Machine) returns (r: Result<(), Errno>, m: Machine)
      ensures Beside(m0, m) && m.s.taken == m0.s.taken && m.log == m0.log
      ensures m0.ticks == [] ==> m.s == m0.s.(shown := m.s.shown)
      ensures r.Ok? ==> m.s.shown == m0.s.shown + bytes
      ensures r.Err? ==> r.error != EINTR && Fails(m0.ticks, r.error)
      ensures r.Err? ==> exists k | 0 <= k <= |bytes| :: m.s.shown == m0.s.shown + bytes[..k]
    {
      m := m0;
      var done := 0;
      while done < |bytes|
        invariant 0 <= done <= |bytes|
        invariant Showing(m0, m, bytes, done)
        decreases |bytes| - done, |m.ticks|
      {
        var count, before := *, m;
        count, m := WriteOnce(bytes[done..], m);
        ghost var more := if count.Ok? then count.value else 0;
        ShowsMore(m0, before, m, bytes, done, more);
        match count
        case Err(EINTR) => continue;
        case Err(e) => return Err(e), m;
        case Ok(n) => done := done + n;
      }
      assert bytes[..done] == bytes;
      return Ok(()), m;
    }

    /** The log grew only by sleeps with neither a signal nor input ready. */
    predicate SleptIdle(eof: bool, s: Station, a: seq<Entry>, b: seq<Entry>) {
      && a <= b
      && forall i | |a| <= i < |b| :: b[i].Asleep? && Idle(eof, s, b[i].s)
    }

    predicate Idle(eof: bool, a: Station, s: Station) {
      && Outsiders(a, s) && SignalReceiver.Quiet(s, signals)
      && (eof || (s.taken == |s.sent| && Held(s) && !AtMark(s)))
    }

    /** The log grew only by sleeps since `a`. */
    lemma IdleLater(eof: bool, a: Machine, b: Machine, c: Machine)
      requires SleptIdle(eof, a.s, a.log, b.log) && SleptIdle(eof, b.s, b.log, c.log) && Passes(a, b)
      ensures SleptIdle(eof, a.s, a.log, c.log)
    {
      forall i | |a.log| <= i < |c.log| ensures c.log[i].Asleep? && Idle(eof, a.s, c.log[i].s) {
        if i < |b.log| {
          assert c.log[i] == b.log[i];
        } else {
          OutsidersCompose(a.s, b.s, c.log[i].s);
        }
      }
    }

    /** One poll; None to poll again. A pending signal comes before input. */
    method AwaitOnce(m0: Machine) returns (p: Option<Polled>, m: Machine)
      requires InRange(m0.s)
      ensures Passes(m0, m) && InRange(m.s) && SleptIdle(inputEof, m0.s, m0.log, m.log)
      ensures p == Some(SignalReady) ==> !SignalReceiver.Quiet(m.s, signals)
      ensures p == Some(StreamReady) ==> InputReady(m.s) && SignalReceiver.Quiet(m.s, signals)
      ensures p == Some(Sleeping) ==> m.ticks == [] && Idle(inputEof, m0.s, m.s)
      ensures p.Some? && p.value.PollFailed? ==> p.value.error != EINTR && Fails(m0.ticks, p.value.error)
      ensures if m0.ticks == [] then p.Some? && m.s == m0.s && m.ticks == [] && !p.value.PollFailed?
              else |m.ticks| < |m0.ticks|
      ensures Fault(m0) == None && !SignalReceiver.Quiet(Advance(m0).s, signals) ==>
                p == Some(SignalReady) && m == Advance(m0)
    {
      var fault, last := Fault(m0), m0.ticks == [];
      AdvanceIsOutside(m0);
      m := Advance(m0);
      match fault {
        case Some(EINTR) => return None, m;
        case Some(e) => return Some(PollFailed(e)), m;
        case None =>
      }
      if !SignalReceiver.Quiet(m.s, signals) {
        return Some(SignalReady), m;
      }
      if InputReady(m.s) {
        return Some(StreamReady), m;
      }
      m := Log(m, Asleep(m.s));
      return if last then Some(Sleeping) else None, m;
    }

    /** The polls of `read`, retried while interrupted. */
    method Await(m0: Machine) returns (p: Polled, m: Machine)
      requires InRange(m0.s)
      ensures Passes(m0, m) && InRange(m.s) && SleptIdle(inputEof, m0.s, m0.log, m.log)
      ensures p.SignalReady? ==> !SignalReceiver.Quiet(m.s, signals)
      ensures p.StreamReady? ==> InputReady(m.s) && SignalReceiver.Quiet(m.s, signals)
      ensures p.Sleeping? ==> m.ticks == [] && Idle(inputEof, m0.s, m.s)
      ensures p.PollFailed? ==> p.error != EINTR && Fails(m0.ticks, p.error)
      ensures if m0.ticks == [] then m.s == m0.s && m.ticks == [] && !p.PollFailed? else |m.ticks| < |m0.ticks|
      ensures Fault(m0) == None && !SignalReceiver.Quiet(Advance(m0).s, signals)
        ==> p.SignalReady? && m == Advance(m0)
    {
      var polled;
      polled, m := AwaitOnce(m0);
      while polled == None
        invariant Passes(m0, m) && InRange(m.s) && SleptIdle(inputEof, m0.s, m0.log, m.log)
        invariant polled == Some(SignalReady) ==> !SignalReceiver.Quiet(m.s, signals)
        invariant polled == Some(StreamReady) ==> InputReady(m.s) && SignalReceiver.Quiet(m.s, signals)
        invariant polled == Some(Sleeping) ==> m.ticks == [] && Idle(inputEof, m0.s, m.s)
        invariant polled.Some? && polled.value.PollFailed? ==>
                    polled.value.error != EINTR && Fails(m0.ticks, polled.value.error)
        invariant if m0.ticks == [] then polled.Some? && m.s == m0.s && m.ticks == [] && !polled.value.PollFailed?
                  else |m.ticks| < |m0.ticks|
        invariant Fault(m0) == None && !SignalReceiver.Quiet(Advance(m0).s, signals) ==>
                    polled == Some(SignalReady) && m == Advance(m0)
        decreases |m.ticks|, polled == None
      {
        var before := m;
        polled, m := AwaitOnce(m);
        PassesCompose(m0, before, m);
        IdleLater(inputEof, m0, before, m);
        if polled == Some(Sleeping) {
          OutsidersCompose(m0.s, before.s, m.s);
        }
      }
      return polled.value, m;
    }

    /** The bytes are the next ones of the stream, at most `max` of them. */
    static predicate Received(max: nat, bytes: seq<Byte>, a: Station, b: Station) {
      && a.taken + |bytes| == b.taken <= |b.sent| && |bytes| <= max
      && bytes == b.sent[a.taken..b.taken]
    }

    /** The machine after a read of `count` bytes. */
    static function Reading(m0: Machine, count: nat, spent: bool): Machine {
      var m := Advance(m0);
      m.(s := m.s.(taken := m.s.taken + count, spent := spent))
    }

    static lemma ReadingKeeps(m0: Machine, max: nat, count: nat, spent: bool)
      requires InRange(m0.s) && count <= max && m0.s.taken + count <= |Advance(m0).s.sent|
      ensures var m := Reading(m0, count, spent);
              && Beside(m0, m) && InRange(m.s) && m.s.shown == m0.s.shown && m.log == m0.log
              && Received(max, Advance(m0).s.sent[m0.s.taken..m0.s.taken + count], m0.s, m.s)
    {
      AdvanceIsOutside(m0);
    }

    /** The read call on a stream that poll reported ready. It goes no further than to
        a typed end of file; one that ends a piece may have been read with it. */
    method Fetch(max: nat, m0: Machine) returns (r: Outcome, m: Machine)
      requires max > 0 && InRange(m0.s) && InputReady(m0.s)
      modifies this`inputEof
      ensures Beside(m0, m) && InRange(m.s) && m.s.shown == m0.s.shown && m.log == m0.log
      ensures r.Got? ==> Received(max, r.bytes, m0.s, m.s)
      ensures !r.Got? ==> r.Failed? && m.s.taken == m0.s.taken && m0.ticks != []
      ensures r.Failed? ==> Fails(m0.ticks, r.error)
      ensures inputEof == (r == Got([]))
      ensures r == Got([]) ==> NoMore(m.s)
      ensures r.Got? && r.bytes != [] ==> forall i | m0.s.taken < i < m.s.taken :: i !in m.s.typed
      ensures m0.ticks == [] ==> m.s == m0.s.(taken := m.s.taken, spent := m.s.spent)
    {
      var fault := Fault(m0);
      AdvanceIsOutside(m0);
      m := Advance(m0);
      if fault.Some? {
        return Failed(fault.value), m;
      }
      var again: bool := *;
      var count := HowMany(max, m.s);
      inputEof := count == 0;
      var bytes := m.s.sent[m.s.taken..m.s.taken + count];
      ReadingKeeps(m0, max, count, !again);
      m := m.(s := m.s.(taken := m.s.taken + count, spent := !again));
      return Got(bytes), m;
    }

    /** How many bytes a read gets. */
    static method HowMany(max: nat, s: Station) returns (count: nat)
      requires max > 0 && s.taken <= |s.sent|
      ensures count <= max && s.taken + count <= |s.sent|
      ensures count == 0 <==> AtMark(s) || s.taken == |s.sent|
      ensures forall i | s.taken < i < s.taken + count :: i !in s.typed
    {
      if AtMark(s) || s.taken == |s.sent| {
        return 0;
      }
      assert 1 <= max && s.taken + 1 <= |s.sent|;
      count :| 1 <= count <= max && s.taken + count <= |s.sent|
               && forall i | s.taken < i < s.taken + count :: i !in s.typed;
    }

    /** `read`: a pending signal comes first, as EINTR; else up to `max` bytes,
        or none once the stream has ended or where an end of file was typed. */
    method Read(max: nat, m0: Machine) returns (r: Outcome, m: Machine)
      requires max > 0 && InRange(m0.s)
      modifies this`inputEof
      ensures Beside(m0, m) && InRange(m.s) && m.s.shown == m0.s.shown
      ensures SleptIdle(old(inputEof), m0.s, m0.log, m.log)
      ensures r.Got? ==> Received(max, r.bytes, m0.s, m.s) && !old(inputEof)
      ensures !r.Got? ==> m.s.taken == m0.s.taken
      ensures inputEof == (old(inputEof) || r == Got([]))
      ensures r == Got([]) ==> NoMore(m.s)
      ensures r.Got? && r.bytes != [] ==> forall i | m0.s.taken < i < m.s.taken :: i !in m.s.typed
      ensures r.Never? ==> m.ticks == [] && Idle(inputEof, m0.s, m.s)
      ensures r.Failed? && r.error != EINTR ==> Fails(m0.ticks, r.error)
      ensures r.Failed? && !Faulty(m0.ticks) ==> r.error == EINTR && !SignalReceiver.Quiet(m.s, signals)
      ensures SIGCHLD in m0.s.k.pending && SIGCHLD in signals.fd ==> r.Failed?
      ensures m0.ticks != [] ==> |m.ticks| < |m0.ticks|
      ensures m0.ticks == [] ==> m.ticks == [] && m.s == m0.s.(taken := m.s.taken, spent := m.s.spent)
      ensures m0.ticks == [] && r.Failed? ==> r.error == EINTR && !SignalReceiver.Quiet(m.s, signals)
      ensures Fault(m0) == None && !SignalReceiver.Quiet(Advance(m0).s, signals)
        ==> r == Failed(EINTR) && m == Advance(m0)
    {
      var p;
      p, m := Await(m0);
      match p
      case PollFailed(e) => return Failed(e), m;
      case SignalReady => return Failed(EINTR), m;
      case Sleeping => return Never, m;
      case StreamReady =>
        var polled := m;
        r, m := Fetch(max, m);
        BesideComposes(m0, polled, m);
    }

    /** `drop`: a newline, then the saved attributes. */
    method Drop(m0: Machine) returns (m: Machine)
      requires Sane(m0.s.k)
      ensures Sane(m.s.k) && m.s.k.mask == m0.s.k.mask && m.log == m0.log && m.s.taken == m0.s.taken
      ensures m0.s.sent <= m.s.sent && (!Held(m0.s) ==> !Held(m.s) && m.s.sent == m0.s.sent)
      ensures Follows(m0.ticks, m.ticks) && m0.s.typed <= m.s.typed && (termios == None ==> m == m0)
      ensures termios.Some? && !Faulty(m0.ticks) ==> m.s.attrs == termios.value
      ensures !m.s.touched
        ==> !m0.s.touched && m.s.attrs == (if termios.Some? then termios.value else m0.s.attrs)
    {
      m := m0;
      if termios.Some? {
        var w;
        w, m := WriteOnce([10], m);
        var fault, before := Fault(m), m;
        AdvanceIsOutside(m);
        m := Advance(m);
        BesideComposes(m0, before, m);
        if fault == None {
          m := m.(s := m.s.(attrs := termios.value));
        } else {
          var partial: Attrs := *;
          m := m.(s := m.s.(attrs := partial, touched := true));
        }
      }
    }
  }
}
