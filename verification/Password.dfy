/** `launch_prompt` and `ask_password` of src/modules/passwd.rs. */
module Password {
  import opened Common
  import opened Kernel
  import opened Host
  import opened Prompt
  import opened Editor
  import SignalReceiver

  const PROMPT_SIGNALS := [SIGHUP, SIGINT, SIGQUIT, SIGTERM, SIGTSTP]

  datatype Refusal = TooLong | NotUtf8

  /** What is made of an entered line. */
  function Check(l: Line, utf8: seq<Byte> -> bool): Result<seq<Byte>, Refusal> {
    if l.overflow != 0 then Err(TooLong)
    else if utf8(l.buffer) then Ok(l.buffer) else Err(NotUtf8)
  }

  function CheckText(text: seq<Byte>, utf8: seq<Byte> -> bool): Result<seq<Byte>, Refusal> {
    if |text| > MAX_INPUT_LEN then Err(TooLong) else if utf8(text) then Ok(text) else Err(NotUtf8)
  }

  /** The answer in terms of the keys alone: the unbounded text, if it is short
      enough and valid. */
  lemma CheckIsAboutTheText(keys: seq<Byte>, hidden: bool, utf8: seq<Byte> -> bool)
    requires WithinCounter(keys, hidden)
    ensures Check(Typed(keys, hidden), utf8) == CheckText(Edit(keys, hidden), utf8)
    ensures Check(Typed(keys, hidden), utf8)
         == var text := Edit(keys, hidden);
            if |text| > 1024 then Err(TooLong) else if utf8(text) then Ok(text) else Err(NotUtf8)
  {
    LengthCheck(keys, hidden);
  }

  /** The stream from its byte number `start` on held exactly `keys`, and then
      Enter, its end, or an end of file that was typed; and no more was read. */
  predicate Entered(start: nat, b: Station, keys: seq<Byte>) {
    var n := start + |keys|;
    && n <= |b.sent| && keys == b.sent[start..n]
    && (forall i | 0 <= i < |keys| :: !IsEnter(keys[i]))
    && (if b.taken == n then NoMore(b)
        else b.taken == n + 1 <= |b.sent| && IsEnter(b.sent[n]))
  }

  /** What a line that began at byte number `start` means, in numbers: the bytes up to
      the first 13 or 10 or an end of input are edited, and the answer is the text if
      it has at most 1024 bytes. A hidden one never holds 8 or 127. */
  predicate Spells(start: nat, b: Station, keys: seq<Byte>, hidden: bool, utf8: seq<Byte> -> bool,
                   result: Result<seq<Byte>, Refusal>)
  {
    var n := start + |keys|;
    && n <= |b.sent| && keys == b.sent[start..n] && 13 !in keys && 10 !in keys
    && (|| (b.taken == n + 1 <= |b.sent| && (b.sent[n] == 13 || b.sent[n] == 10))
        || (b.taken == n && ((n == |b.sent| && !Held(b)) || n in b.typed)))
    && (WithinCounter(keys, hidden) ==>
          result == if |Edit(keys, hidden)| > 1024 then Err(TooLong)
                    else if utf8(Edit(keys, hidden)) then Ok(Edit(keys, hidden)) else Err(NotUtf8))
    && (result.Ok? ==> |result.value| <= 1024 && utf8(result.value))
    && (result.Ok? && hidden ==> 8 !in result.value && 127 !in result.value)
  }

  lemma LineSpells(start: nat, b: Station, keys: seq<Byte>, hidden: bool, utf8: seq<Byte> -> bool)
    requires Entered(start, b, keys)
    ensures Spells(start, b, keys, hidden, utf8, Check(Typed(keys, hidden), utf8))
  {
    if WithinCounter(keys, hidden) {
      CheckIsAboutTheText(keys, hidden, utf8);
    }
    LineIsBounded(keys, hidden);
    if hidden {
      HiddenHasNoErasers(keys);
    }
  }

  // ----- The order of events that prompting keeps -----

  /** Where prompting is, as its log tells; `start` is how many bytes had been read
      when the current attempt began. */
  datatype Stage =
    | Reading(start: nat)
    | Taken(sig: int, start: nat)  // a signal was taken
    | MustRaise(sig: int)          // and the attempt closed down
    | Done(start: nat)             // the attempt closed down without a signal

  /** The state, the length of the log and the schedule at the beginning. */
  datatype Context = Context(origin: Station, n: nat, ticks: seq<Tick>)

  /** The mask and, absent outside changes, the attributes are those of the
      start. */
  predicate AsBefore(a: Station, b: Station) {
    && b.k.mask == a.k.mask
    && (!b.touched ==> !a.touched && b.attrs == a.attrs)
  }

  /** And so are the attributes in any case if no call fails and nobody else sets
      them. */
  predicate Restored(c: Context, s: Station) {
    && AsBefore(c.origin, s)
    && (!Faulty(c.ticks) && Free(c.ticks, IsSet) ==> s.attrs == c.origin.attrs)
  }

  /** Nothing is left of what was changed in between, but bytes may have been read. */
  ghost predicate Settled(a: Machine, b: Machine) {
    && AsBefore(a.s, b.s)
    && a.s.taken <= b.s.taken
    && Follows(a.ticks, b.ticks)
    && (!Faulty(a.ticks) && Free(a.ticks, IsSet) ==> b.s.attrs == a.s.attrs)
  }

  lemma SettledLater(a: Machine, b: Machine, c: Machine)
    ensures Settled(a, b) && Settled(b, c) ==> Settled(a, c)
  {}

  /** The stage after one more logged point, if prompting may get there. */
  function Next(c: Context, stage: Stage, e: Entry): Option<Stage> {
    match stage
    case Reading(start) =>
      if e.Asleep? || SignalReceiver.Unnamed(e) then Some(stage)
      else if e.Took? && e.sig in PROMPT_SIGNALS then Some(Taken(e.sig, start))
      else if e.MaskRestored? && Restored(c, e.s) then Some(Done(start)) else None
    case Taken(sig, start) =>
      if e.MaskRestored? && Restored(c, e.s) then Some(MustRaise(sig)) else None
    case MustRaise(sig) =>
      if e.Raised? && e.sig == sig && Restored(c, e.s) then Some(Reading(e.s.taken)) else None
    case Done(_) => None
  }

  function Run(c: Context, log: seq<Entry>): Option<Stage> {
    if |log| <= c.n then Some(Reading(c.origin.taken))
    else
      match Run(c, log[..|log| - 1])
      case None => None
      case Some(stage) => Next(c, stage, log[|log| - 1])
  }

  predicate At(c: Context, log: seq<Entry>, stage: Stage) {
    && c.n <= |log|
    && Run(c, log) == Some(stage)
  }

  lemma Goes(c: Context, log: seq<Entry>, stage: Stage, e: Entry)
    requires At(c, log, stage) && Next(c, stage, e).Some?
    ensures At(c, log + [e], Next(c, stage, e).value)
  {
    assert (log + [e])[..|log|] == log;
  }

  lemma {:induction false} RunPrefix(c: Context, log: seq<Entry>, i: nat)
    requires Run(c, log).Some? && i <= |log|
    ensures Run(c, log[..i]).Some?
    decreases |log| - i
  {
    if i < |log| {
      RunPrefix(c, log, i + 1);
      assert log[..i + 1][..i] == log[..i];
    } else {
      assert log[..i] == log;
    }
  }

  lemma StageBefore(c: Context, log: seq<Entry>, i: nat)
    requires Run(c, log).Some? && c.n <= i < |log|
    ensures Run(c, log[..i]).Some? && Run(c, log[..i + 1]).Some?
    ensures Run(c, log[..i + 1]) == Next(c, Run(c, log[..i]).value, log[i])
  {
    RunPrefix(c, log, i);
    RunPrefix(c, log, i + 1);
    assert log[..i + 1][..i] == log[..i];
  }

  /** What a log that ends reading or done means: a taken signal is raised next,
      after the mask was restored, and with mask and attributes of the start. */
  lemma TakenIsRaised(c: Context, log: seq<Entry>, i: nat)
    requires Run(c, log).Some? && (Run(c, log).value.Reading? || Run(c, log).value.Done?)
    requires c.n <= i < |log| && log[i].Took? && !SignalReceiver.Unnamed(log[i])
    ensures i + 2 < |log|
    ensures log[i + 1].MaskRestored?
    ensures log[i + 2].Raised?
    ensures log[i + 2].sig == log[i].sig
    ensures Restored(c, log[i + 2].s)
  {
    assert log[..|log|] == log;
    StageBefore(c, log, i);
    if i + 1 < |log| {
      StageBefore(c, log, i + 1);
    }
    if i + 2 < |log| {
      StageBefore(c, log, i + 2);
    }
  }

  /** Nothing else is raised. */
  lemma RaisedWasTaken(c: Context, log: seq<Entry>, i: nat)
    requires Run(c, log).Some? && c.n <= i < |log| && log[i].Raised?
    ensures i >= c.n + 2 && log[i - 1].MaskRestored? && log[i - 2] == Took(log[i].sig)
    ensures log[i].sig in {1, 2, 3, 15, 20} && Restored(c, log[i].s)
  {
    StageBefore(c, log, i);
    if i > c.n {
      StageBefore(c, log, i - 1);
      if i > c.n + 1 {
        StageBefore(c, log, i - 2);
      }
    }
  }

  /** The last attempt began where the last raise left the stream. */
  lemma {:induction false} StartIsLastRaise(c: Context, log: seq<Entry>, i: nat)
    requires Run(c, log).Some? && (Run(c, log).value.Reading? || Run(c, log).value.Done?)
    requires c.n <= i < |log| && log[i].Raised? && forall j | i < j < |log| :: !log[j].Raised?
    ensures Run(c, log).value.start == log[i].s.taken
    decreases |log|
  {
    var init := log[..|log| - 1];
    StageBefore(c, log, |log| - 1);
    assert log[..|log|] == log;
    if i < |log| - 1 {
      assert init[i] == log[i];
      StartIsLastRaise(c, init, i);
    }
  }

  lemma {:induction false} SleepsGoOn(c: Context, p: Prompt, eof: bool, s: Station, a: seq<Entry>, b: seq<Entry>, stage: Stage)
    requires At(c, a, stage) && stage.Reading? && p.SleptIdle(eof, s, a, b)
    ensures At(c, b, stage)
    decreases |b|
  {
    if |b| == |a| {
      assert a == b;
    } else {
      SleepsGoOn(c, p, eof, s, a, b[..|b| - 1], stage);
    }
  }

  // ----- Reading a line -----

  datatype Reason = Complete | Interrupted(sig: int) | Broken(error: Errno) | Unfinished

  function StageAfter(r: Reason, start: nat): Stage {
    if r.Interrupted? then Taken(r.sig, start) else Reading(start)
  }

  /** Since `m0` exactly `keys` were read and echoed. */
  ghost predicate Reads(m0: Machine, m: Machine, keys: seq<Byte>, echoing: bool, echoed: bool) {
    && Near(m0, m) && InRange(m.s)
    && m.s.taken == m0.s.taken + |keys| && keys == m.s.sent[m0.s.taken..m.s.taken]
    && (forall i | 0 <= i < |keys| :: !IsEnter(keys[i]))
    && (if echoing then echoed ==> m.s.shown == m0.s.shown + Echo(keys) else m.s.shown == m0.s.shown)
  }

  /** A call that reads no byte and shows none. */
  lemma ReadsOn(m0: Machine, a: Machine, b: Machine, keys: seq<Byte>, echoing: bool, echoed: bool)
    requires Reads(m0, a, keys, echoing, echoed)
    requires Near(a, b) && InRange(b.s) && b.s.taken == a.s.taken && b.s.shown == a.s.shown
    ensures Reads(m0, b, keys, echoing, echoed)
  {
    NearComposes(m0, a, b);
    StreamOnlyGrows(a.s, b.s, m0.s.taken, a.s.taken);
  }

  /** A call that reads a key. */
  lemma ReadsKey(m0: Machine, a: Machine, b: Machine, keys: seq<Byte>, key: Byte, echoing: bool, echoed: bool)
    requires Reads(m0, a, keys, echoing, echoed)
    requires Near(a, b) && InRange(b.s) && b.s.shown == a.s.shown && !IsEnter(key)
    requires b.s.taken == a.s.taken + 1 && [key] == b.s.sent[a.s.taken..b.s.taken]
    ensures Near(m0, b) && b.s.taken == m0.s.taken + |keys + [key]| && keys + [key] == b.s.sent[m0.s.taken..b.s.taken]
    ensures forall i | 0 <= i < |keys + [key]| :: !IsEnter((keys + [key])[i])
  {
    NearComposes(m0, a, b);
    StreamOnlyGrows(a.s, b.s, m0.s.taken, a.s.taken);
    assert b.s.sent[m0.s.taken..b.s.taken] == b.s.sent[m0.s.taken..a.s.taken] + b.s.sent[a.s.taken..b.s.taken];
  }

  /** The call that echoes it. */
  lemma EchoesKey(m0: Machine, a: Machine, b: Machine, c: Machine, keys: seq<Byte>, key: Byte,
                  echoing: bool, echoed: bool, written: bool)
    requires Reads(m0, a, keys, echoing, echoed)
    requires Near(a, b) && InRange(b.s) && b.s.shown == a.s.shown && !IsEnter(key)
    requires b.s.taken == a.s.taken + 1 && [key] == b.s.sent[a.s.taken..b.s.taken]
    requires Near(b, c) && InRange(c.s) && c.s.taken == b.s.taken
    requires if echoing then written ==> c.s.shown == b.s.shown + KeyEcho(Typed(keys, true), key)
             else c.s.shown == b.s.shown
    ensures Reads(m0, c, keys + [key], echoing, echoed && written)
  {
    ReadsKey(m0, a, b, keys, key, echoing, echoed);
    NearComposes(m0, b, c);
    StreamOnlyGrows(b.s, c.s, m0.s.taken, b.s.taken);
    assert (keys + [key])[..|keys|] == keys;
  }

  /** The read of Enter, or of no byte. */
  lemma ReadsEnter(m0: Machine, a: Machine, b: Machine, keys: seq<Byte>, bytes: seq<Byte>, echoing: bool, echoed: bool)
    requires Reads(m0, a, keys, echoing, echoed)
    requires Near(a, b) && InRange(b.s) && b.s.shown == a.s.shown
    requires |bytes| <= 1 && b.s.taken == a.s.taken + |bytes| && bytes == b.s.sent[a.s.taken..b.s.taken]
    requires if bytes == [] then NoMore(b.s) else IsEnter(bytes[0])
    ensures Near(m0, b) && Entered(m0.s.taken, b.s, keys)
    ensures if echoing then echoed ==> b.s.shown == m0.s.shown + Echo(keys) else b.s.shown == m0.s.shown
  {
    NearComposes(m0, a, b);
    StreamOnlyGrows(a.s, b.s, m0.s.taken, a.s.taken);
  }

  /** What one turn of the loop finds: a byte or the end, nothing, or a reason to
      leave. */
  datatype Found = Input(bytes: seq<Byte>) | Nothing | Leave(reason: Reason)

  function Why(f: Found): Reason {
    if f.Leave? then f.reason else Complete
  }

  /** The receiver selects the prompt's signals. */
  predicate Selects(r: SignalReceiver.Receiver) {
    r.fd == set i | 0 <= i < |PROMPT_SIGNALS| :: PROMPT_SIGNALS[i]
  }

  lemma SelectedIsNamed(r: SignalReceiver.Receiver, n: int)
    ensures Selects(r) && n in r.fd ==> n in PROMPT_SIGNALS && SignalReceiver.ToSignal(n) == Some(n)
  {}

  /** One of SIGHUP, SIGINT, SIGQUIT, SIGTERM and SIGTSTP is pending at the next two
      calls, which meet no error. */
  predicate Struck(m: Machine) {
    && Fault(m) == None && Due(Rest(m.ticks)) == None
    && !({1, 2, 3, 15, 20} !! Advance(m).s.k.pending)
    && !({1, 2, 3, 15, 20} !! Advance(Advance(m)).s.k.pending)
  }

  lemma LiteralQuiet(r: SignalReceiver.Receiver, s: Station)
    ensures Selects(r) ==> (SignalReceiver.Quiet(s, r) <==> {1, 2, 3, 15, 20} !! s.k.pending)
  {
    if Selects(r) {
      assert PROMPT_SIGNALS[0] in r.fd && PROMPT_SIGNALS[1] in r.fd && PROMPT_SIGNALS[2] in r.fd;
      assert PROMPT_SIGNALS[3] in r.fd && PROMPT_SIGNALS[4] in r.fd;
      assert r.fd == {1, 2, 3, 15, 20};
    }
  }

  /** `signals.read`, when a read of input was refused for a signal. */
  method TakeSignal(ghost c: Context, ghost start: nat, signals: SignalReceiver.Receiver, m0: Machine)
    returns (f: Found, m: Machine)
    requires InRange(m0.s) && Selects(signals) && At(c, m0.log, Reading(start))
    ensures Near(m0, m)
    ensures InRange(m.s)
    ensures m.s.shown == m0.s.shown
    ensures m.s.taken == m0.s.taken
    ensures At(c, m.log, StageAfter(Why(f), start))
    ensures f.Nothing? ==> SignalReceiver.Quiet(m.s, signals)
    ensures !f.Input? && (f.Leave? ==> f.reason.Interrupted? || (f.reason.Broken? && Fails(m0.ticks, f.reason.error)))
    ensures f.Leave? && f.reason.Interrupted? ==> f.reason.sig in PROMPT_SIGNALS
    ensures Due(m0.ticks) == None && !SignalReceiver.Quiet(Advance(m0).s, signals) ==>
              f.Leave? && f.reason.Interrupted? && f.reason.sig in Advance(m0).s.k.pending
    ensures if m0.ticks == [] then m.s.sent == m0.s.sent else |m.ticks| < |m0.ticks|
    ensures m0.ticks == [] && f.Nothing? ==> m.s.k.pending == m0.s.k.pending
  {
    var event;
    AdvanceIsOutside(m0);
    event, m := SignalReceiver.Read(signals, m0);
    match event
    case Err(e) => return Leave(Broken(e)), m;
    case Ok(None) => return Nothing, m;
    case Ok(Some(n)) =>
      SelectedIsNamed(signals, n);
      Goes(c, m0.log, Reading(start), Took(n));
      match SignalReceiver.ToSignal(n)
      case Some(s) => return Leave(Interrupted(s)), m;
      case None => return Leave(Broken(EINVAL)), m;
  }

  /** `prompt.read`, and on EINTR `signals.read`. */
  method Look(ghost c: Context, ghost start: nat, p: Prompt, m0: Machine) returns (f: Found, m: Machine)
    requires InRange(m0.s) && Selects(p.signals) && At(c, m0.log, Reading(start))
    modifies p`inputEof
    ensures Near(m0, m) && InRange(m.s) && m.s.shown == m0.s.shown
    ensures At(c, m.log, StageAfter(Why(f), start))
    ensures m.s.taken == m0.s.taken + (if f.Input? then |f.bytes| else 0)
    ensures f.Input? ==> |f.bytes| <= 1 && f.bytes == m.s.sent[m0.s.taken..m.s.taken]
    ensures f == Input([]) ==> NoMore(m.s)
    ensures f.Leave? ==> !f.reason.Complete? && (f.reason.Interrupted? ==> f.reason.sig in PROMPT_SIGNALS)
    ensures f.Leave? && f.reason.Broken? ==> Fails(m0.ticks, f.reason.error)
    ensures f.Leave? && f.reason.Unfinished? ==> m.ticks == []
    ensures if m0.ticks == [] then m.s.sent == m0.s.sent && !f.Nothing? else |m.ticks| < |m0.ticks|
    ensures Struck(m0) ==> f.Leave? && f.reason.Interrupted? && f.reason.sig in Advance(Advance(m0)).s.k.pending
  {
    LiteralQuiet(p.signals, Advance(m0).s);
    LiteralQuiet(p.signals, Advance(Advance(m0)).s);
    ghost var eof := p.inputEof;
    var got;
    got, m := p.Read(1, m0);
    SleepsGoOn(c, p, eof, m0.s, m0.log, m.log, Reading(start));
    match got
    case Never => return Leave(Unfinished), m;
    case Got(bytes) => return Input(bytes), m;
    case Failed(e) =>
      if e != EINTR {
        return Leave(Broken(e)), m;
      }
      var before := m;
      f, m := TakeSignal(c, start, p.signals, m);
      NearComposes(m0, before, m);
  }

  /** What a turn makes of a key that is not Enter. */
  method TakeKey(p: Prompt, ghost m0: Machine, ghost before: Machine, ghost keys: seq<Byte>, line0: Line, key: Byte,
                 echoing: bool, ghost echoed: bool, m1: Machine)
    returns (written: bool, line: Line, m: Machine)
    requires Reads(m0, before, keys, echoing, echoed) && line0 == Typed(keys, echoing)
    requires Near(before, m1) && InRange(m1.s) && m1.s.shown == before.s.shown && !IsEnter(key)
    requires m1.s.taken == before.s.taken + 1 && [key] == m1.s.sent[before.s.taken..m1.s.taken]
    ensures Reads(m0, m, keys + [key], echoing, echoed && written)
    ensures line == Typed(keys + [key], echoing)
    ensures m.log == m1.log && |m.ticks| <= |m1.ticks|
    ensures !written ==> Faulty(m1.ticks)
    ensures m1.ticks == [] ==> m.s.sent == m1.s.sent
  {
    written, m := EchoKey(p, line0, key, echoing, m1);
    EchoesKey(m0, before, m1, m, keys, key, echoing, echoed, written);
    assert (keys + [key])[..|keys|] == keys;
    line := Press(line0, key, echoing);
  }

  /** The reading loop. `echoed` says that every echo was written. */
  method ReadLine(ghost c: Context, ghost start: nat, p: Prompt, echoing: bool, m0: Machine)
    returns (r: Reason, line: Line, keys: seq<Byte>, echoed: bool, m: Machine)
    requires InRange(m0.s) && Selects(p.signals) && At(c, m0.log, Reading(start))
    modifies p`inputEof
    ensures Near(m0, m) && InRange(m.s) && m.s.taken >= m0.s.taken
    ensures At(c, m.log, StageAfter(r, start))
    ensures line == Typed(keys, echoing)
    ensures r.Complete? ==> Entered(m0.s.taken, m.s, keys)
    ensures r.Broken? ==> Fails(m0.ticks, r.error)
    ensures r.Unfinished? ==> m.ticks == []
    ensures !Faulty(m0.ticks) ==> echoed
    ensures r.Complete? ==>
              if echoing then echoed ==> m.s.shown == m0.s.shown + Echo(keys) else m.s.shown == m0.s.shown
    ensures r.Interrupted? ==> r.sig in PROMPT_SIGNALS
    ensures Struck(m0) ==> r.Interrupted? && keys == []
  {
    m := m0;
    line, keys, echoed := Line([], 0), [], true;
    while true
      invariant Reads(m0, m, keys, echoing, echoed) && line == Typed(keys, echoing)
      invariant At(c, m.log, Reading(start))
      invariant !echoed ==> Faulty(m0.ticks)
      invariant Struck(m0) ==> m == m0 && keys == []
      decreases |m.ticks|, |m.s.sent| - m.s.taken
    {
      var found, before := *, m;
      found, m := Look(c, start, p, m);
      match found
      case Nothing => ReadsOn(m0, before, m, keys, echoing, echoed);
      case Leave(reason) =>
        NearComposes(m0, before, m);
        return reason, line, keys, echoed, m;
      case Input(bytes) =>
        if bytes == [] || IsEnter(bytes[0]) {
          ReadsEnter(m0, before, m, keys, bytes, echoing, echoed);
          return Complete, line, keys, echoed, m;
        }
        var key, written := bytes[0], *;
        assert bytes == [key];
        written, line, m := TakeKey(p, m0, before, keys, line, key, echoing, echoed, m);
        keys, echoed := keys + [key], echoed && written;
    }
  }

  /** The echo of a key, whose failure is ignored. */
  method EchoKey(p: Prompt, line: Line, key: Byte, echoing: bool, m0: Machine) returns (written: bool, m: Machine)
    requires InRange(m0.s)
    ensures Near(m0, m)
    ensures InRange(m.s)
    ensures m.s.taken == m0.s.taken
    ensures m.log == m0.log
    ensures !written ==> Faulty(m0.ticks)
    ensures if echoing then written ==> m.s.shown == m0.s.shown + KeyEcho(line, key)
      else m.s.shown == m0.s.shown
    ensures m0.ticks == [] ==> m.s.sent == m0.s.sent
  {
    if !echoing {
      return true, m0;
    }
    var r;
    r, m := p.Write(KeyEcho(line, key), m0);
    return r.Ok?, m;
  }

  // ----- One prompt -----

  datatype Attempt = Answered(result: Result<seq<Byte>, Refusal>) | Halted(sig: int) | Refused(error: Errno) | Pending

  /** The attributes to go back to. */
  function Original(termios: Option<Attrs>, s: Station): Attrs {
    if termios.Some? then termios.value else s.attrs
  }

  /** During an attempt: the stream only grew, and the attributes of the start are
      in force or saved. */
  ghost predicate Underway(m0: Machine, m: Machine, termios: Option<Attrs>) {
    && Sane(m.s.k) && Follows(m0.ticks, m.ticks) && m0.s.taken <= m.s.taken
    && m0.s.sent <= m.s.sent && (!Held(m0.s) ==> !Held(m.s) && m.s.sent == m0.s.sent)
    && m0.s.typed <= m.s.typed
    && (!m.s.touched ==> !m0.s.touched && Original(termios, m.s) == m0.s.attrs)
    && (Free(m0.ticks, IsSet) && (termios.Some? || !Faulty(m0.ticks)) ==> Original(termios, m.s) == m0.s.attrs)
  }

  /** Locals are dropped in reverse order: the terminal, then the mask. */
  method CloseDown(p: Prompt, ghost m0: Machine, m1: Machine) returns (m: Machine)
    requires Underway(m0, m1, p.termios) && p.signals.prevMask == m0.s.k.mask
    ensures Underway(m0, m, None)
    ensures AsBefore(m0.s, m.s)
    ensures m.log == m1.log + [MaskRestored(m.s)]
    ensures m.s.taken == m1.s.taken && m1.s.sent <= m.s.sent && m1.s.typed <= m.s.typed
      && (!Held(m1.s) ==> !Held(m.s) && m.s.sent == m1.s.sent)
  {
    m := p.Drop(m1);
    m := SignalReceiver.Drop(p.signals, m);
  }

  /** `hide_input`, the message, and a blank if the message does not end in one. */
  method Introduce(p: Prompt, msg: seq<Byte>, hidden: bool, m0: Machine) returns (r: Result<(), Errno>, m: Machine)
    requires Sane(m0.s.k) && p.termios == None
    modifies p`termios
    ensures Underway(m0, m, p.termios) && m.s.taken == m0.s.taken && m.log == m0.log
    ensures r.Ok? && hidden && !m.s.touched ==> m.s.attrs == m0.s.attrs.(canonical := false, echo := false)
    ensures r.Ok? && !hidden ==> p.termios == None
    ensures r.Ok?
      ==> m.s.shown == m0.s.shown + msg + (if msg == [] || msg[|msg| - 1] != 32 then [32] else [])
    ensures r.Err? ==> Fails(m0.ticks, r.error)
  {
    m := m0;
    if hidden {
      r, m := p.HideInput(m);
      if r.Err? {
        return;
      }
    }
    r, m := p.Write(msg, m);
    if r.Err? {
      return;
    }
    if msg == [] || msg[|msg| - 1] != 32 {
      r, m := p.Write([32], m);
    }
  }

  /** From opening the terminal to the end of the line. */
  method Converse(ghost c: Context, p: Prompt, msg: seq<Byte>, useStdin: bool, hidden: bool, m0: Machine)
    returns (r: Reason, line: Line, keys: seq<Byte>, m: Machine)
    requires InRange(m0.s) && p.termios == None && Selects(p.signals) && At(c, m0.log, Reading(m0.s.taken))
    modifies p
    ensures Underway(m0, m, p.termios) && InRange(m.s)
    ensures At(c, m.log, StageAfter(r, m0.s.taken))
    ensures r.Broken? ==> Fails(m0.ticks, r.error)
    ensures r.Unfinished? ==> m.ticks == []
    ensures line == Typed(keys, !useStdin && hidden)
    ensures r.Complete? ==> Entered(m0.s.taken, m.s, keys)
    ensures r.Interrupted? ==> r.sig in PROMPT_SIGNALS
  {
    m := m0;
    if !useStdin {
      // open of the terminal; if it fails standard input and error are used
      AdvanceIsOutside(m);
      m := Advance(m);
      var introduced;
      introduced, m := Introduce(p, msg, hidden, m);
      if introduced.Err? {
        return Broken(introduced.error), Line([], 0), [], m;
      }
    }
    var echoed;
    r, line, keys, echoed, m := ReadLine(c, m0.s.taken, p, !useStdin && hidden, m);
  }

  /** What an attempt leaves in the log. */
  predicate Ends(c: Context, t: Attempt, start: nat, log: seq<Entry>) {
    match t
    case Answered(_) => At(c, log, Done(start))
    case Halted(sig) => At(c, log, MustRaise(sig))
    case Refused(_) => At(c, log, Reading(start)) || At(c, log, Done(start))
    case Pending => At(c, log, Reading(start))
  }

  function Conclusion(r: Reason, line: Line, utf8: seq<Byte> -> bool): Attempt {
    match r
    case Complete => Answered(Check(line, utf8))
    case Interrupted(sig) => Halted(sig)
    case Broken(e) => Refused(e)
    case Unfinished => Pending
  }

  /** `launch_prompt`. */
  method LaunchPrompt(ghost c: Context, msg: seq<Byte>, useStdin: bool, hidden: bool, utf8: seq<Byte> -> bool, m0: Machine)
    returns (a: Attempt, keys: seq<Byte>, m: Machine)
    requires InRange(m0.s) && Restored(c, m0.s) && Follows(c.ticks, m0.ticks) && At(c, m0.log, Reading(m0.s.taken))
    ensures InRange(m.s)
    ensures Follows(m0.ticks, m.ticks)
    ensures Ends(c, a, m0.s.taken, m.log)
    ensures !a.Pending? ==> Settled(m0, m)
    ensures a.Answered? ==>
              && Entered(m0.s.taken, m.s, keys)
              && a.result == Check(Typed(keys, !useStdin && hidden), utf8)
    ensures a.Refused? ==> Fails(m0.ticks, a.error)
    ensures a.Pending? ==> m.ticks == []
  {
    var installed;
    installed, m := SignalReceiver.Install(PROMPT_SIGNALS, m0);
    if installed.Err? {
      return Refused(installed.error), [], m;
    }
    a, keys, m := Attend(c, installed.value, msg, useStdin, hidden, utf8, m0, m);
  }

  /** `launch_prompt` once the signals are blocked. */
  method Attend(ghost c: Context, r: SignalReceiver.Receiver, msg: seq<Byte>, useStdin: bool, hidden: bool,
                utf8: seq<Byte> -> bool, ghost m0: Machine, m1: Machine)
    returns (a: Attempt, keys: seq<Byte>, m: Machine)
    requires InRange(m1.s) && Selects(r) && r.prevMask == m0.s.k.mask
    requires Kept(m0.s, m1.s) && Follows(m0.ticks, m1.ticks) && Unset(m0, m1) && m1.log == m0.log
    requires Restored(c, m0.s) && Follows(c.ticks, m0.ticks) && At(c, m0.log, Reading(m0.s.taken))
    ensures InRange(m.s)
    ensures Follows(m0.ticks, m.ticks)
    ensures Ends(c, a, m0.s.taken, m.log)
    ensures !a.Pending? ==> Settled(m0, m)
    ensures a.Answered? ==>
              && Entered(m0.s.taken, m.s, keys)
              && a.result == Check(Typed(keys, !useStdin && hidden), utf8)
    ensures a.Refused? ==> Fails(m0.ticks, a.error)
    ensures a.Pending? ==> m.ticks == []
  {
    var p := new Prompt(r);
    var reason, line;
    reason, line, keys, m := Converse(c, p, msg, useStdin, hidden, m1);
    a := Conclusion(reason, line, utf8);
    UnderwaySince(m0, m1, m, p.termios);
    if reason.Unfinished? {
      return;
    }
    ghost var read := m;
    m := CloseDown(p, m0, m);
    Goes(c, read.log, StageAfter(reason, m0.s.taken), MaskRestored(m.s));
    if reason.Complete? {
      EnteredStays(m0.s.taken, read.s, m.s, keys);
    }
  }

  lemma UnderwaySince(m0: Machine, m1: Machine, m: Machine, termios: Option<Attrs>)
    ensures Kept(m0.s, m1.s) && Follows(m0.ticks, m1.ticks) && Unset(m0, m1) && Underway(m1, m, termios)
      ==> Underway(m0, m, termios)
  {}

  lemma EnteredStays(start: nat, b: Station, c: Station, keys: seq<Byte>)
    ensures
      && Entered(start, b, keys) && c.taken == b.taken && b.sent <= c.sent && b.typed <= c.typed
      && (!Held(b) ==> !Held(c) && c.sent == b.sent)
      ==> Entered(start, c, keys)
  {}

  // ----- ask_password -----

  datatype Final = Password(result: Result<seq<Byte>, Refusal>) | Error(error: Errno) | Prompting

  /** `ask_password` without a helper: prompts again after every interruption
      that the raised signal survives. The log tells where in the stream the last
      attempt began. */
  method AskPassword(msg: seq<Byte>, useStdin: bool, hidden: bool, utf8: seq<Byte> -> bool, m0: Machine)
    returns (r: Final, keys: seq<Byte>, m: Machine)
    requires InRange(m0.s)
    ensures var stage := Run(Context(m0.s, |m0.log|, m0.ticks), m.log);
            && |m0.log| <= |m.log| && stage.Some? && (stage.value.Reading? || stage.value.Done?)
            && (r.Password? ==>
                  && stage.value.Done? && m0.s.taken <= stage.value.start && Entered(stage.value.start, m.s, keys)
                  && Spells(stage.value.start, m.s, keys, !useStdin && hidden, utf8, r.result)
                  && r.result == Check(Typed(keys, !useStdin && hidden), utf8))
    ensures r.Error? ==> Fails(m0.ticks, r.error)
    ensures r.Prompting? ==> m.ticks == []
    ensures !r.Prompting? ==> Settled(m0, m)
  {
    m := m0;
    ghost var c := Context(m0.s, |m0.log|, m0.ticks);
    while true
      invariant InRange(m.s) && Settled(m0, m) && At(c, m.log, Reading(m.s.taken))
      decreases |m.ticks|
    {
      var a, before := *, m;
      a, keys, m := LaunchPrompt(c, msg, useStdin, hidden, utf8, m);
      if !a.Pending? {
        SettledLater(m0, before, m);
      }
      match a
      case Answered(result) =>
        LineSpells(before.s.taken, m.s, keys, !useStdin && hidden, utf8);
        return Password(result), keys, m;
      case Refused(e) => return Error(e), keys, m;
      case Pending => return Prompting, keys, m;
      case Halted(sig) =>
        var halted := m;
        m := RaiseAgain(c, sig, m);
        SettledLater(m0, halted, m);
        if halted.ticks == [] {
          return Prompting, keys, m;
        }
    }
  }

  /** The signal is raised again, and survived. */
  method RaiseAgain(ghost c: Context, sig: int, m0: Machine) returns (m: Machine)
    requires InRange(m0.s) && Restored(c, m0.s) && Follows(c.ticks, m0.ticks) && At(c, m0.log, MustRaise(sig))
    ensures InRange(m.s)
    ensures Settled(m0, m)
    ensures At(c, m.log, Reading(m.s.taken))
    ensures m0.ticks != [] ==> |m.ticks| < |m0.ticks|
  {
    Goes(c, m0.log, MustRaise(sig), Raised(sig, m0.s));
    m := Log(m0, Raised(sig, m0.s));
    m := m.(s := m.s.(k := Raise(m.s.k, sig)));
    AdvanceIsOutside(m);
    m := Advance(m);
  }
}
