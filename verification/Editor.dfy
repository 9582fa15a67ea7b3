/** The line editor of src/modules/passwd.rs. */
module Editor {
  // A buffer of at most 1024 bytes and a counter for what did not fit, compared with
  // an editor whose text is unbounded.

  import opened Common
  import opened Host
  import opened Prompt
  import SignalReceiver

  /** The largest usize of the machine, about which nothing is assumed. */
  const USIZE_MAX: nat

  predicate IsEnter(b: Byte) {
    b == 13 || b == 10
  }

  predicate IsErase(b: Byte) {
    b == 127 || b == 8
  }

  // ----- The capped line of the source -----

  datatype Line = Line(buffer: seq<Byte>, overflow: nat)

  function Press(l: Line, key: Byte, hidden: bool): Line {
    if hidden && IsErase(key) then
      if l.overflow != 0 then l.(overflow := l.overflow - 1)
      else if l.buffer != [] then l.(buffer := l.buffer[..|l.buffer| - 1]) else l
    else if |l.buffer| < MAX_INPUT_LEN then l.(buffer := l.buffer + [key])
    else if l.overflow < USIZE_MAX then l.(overflow := l.overflow + 1) else l
  }

  function Typed(keys: seq<Byte>, hidden: bool): Line {
    if keys == [] then Line([], 0)
    else Press(Typed(keys[..|keys| - 1], hidden), keys[|keys| - 1], hidden)
  }

  // ----- The unbounded editor -----

  function Edit(keys: seq<Byte>, hidden: bool): seq<Byte> {
    if keys == [] then []
    else
      var text, key := Edit(keys[..|keys| - 1], hidden), keys[|keys| - 1];
      if hidden && IsErase(key) then (if text == [] then [] else text[..|text| - 1])
      else text + [key]
  }

  lemma OneMoreKey(keys: seq<Byte>, key: Byte)
    ensures key != 8 && key != 127 ==> Edit(keys + [key], true) == Edit(keys, true) + [key]
    ensures key == 8 || key == 127 ==>
              Edit(keys + [key], true) == if Edit(keys, true) == [] then [] else Edit(keys, true)[..|Edit(keys, true)| - 1]
  {
    assert (keys + [key])[..|keys|] == keys;
  }

  /** What the keys do to the unbounded text. Backspace and Delete take back the byte
      before them, and only in hidden input. */
  lemma KeysInNumbers(keys: seq<Byte>, c: Byte, erase: Byte)
    requires erase == 8 || erase == 127
    ensures Edit([], true) == [] && Edit(keys, false) == keys
    ensures c != 8 && c != 127 ==> Edit(keys + [c], true) == Edit(keys, true) + [c]
    ensures c != 8 && c != 127 ==> Edit(keys + [c, erase], true) == Edit(keys, true)
    ensures Edit(keys, true) == [] ==> Edit(keys + [erase], true) == []
  {
    VisibleIsTyped(keys);
    OneMoreKey(keys, c);
    OneMoreKey(keys, erase);
    OneMoreKey(keys + [c], erase);
    assert keys + [c] + [erase] == keys + [c, erase];
  }

  lemma {:induction false} VisibleIsTyped(keys: seq<Byte>)
    ensures Edit(keys, false) == keys
  {
    if keys != [] {
      VisibleIsTyped(keys[..|keys| - 1]);
    }
  }

  /** Hidden input never holds the bytes of those two keys. */
  lemma {:induction false} HiddenHasNoErasers(keys: seq<Byte>)
    ensures 8 !in Edit(keys, true) && 127 !in Edit(keys, true)
    ensures 8 !in Typed(keys, true).buffer && 127 !in Typed(keys, true).buffer
  {
    if keys != [] {
      HiddenHasNoErasers(keys[..|keys| - 1]);
    }
  }

  /** The line holds the text's first 1024 bytes and counts the others. */
  predicate Faithful(l: Line, text: seq<Byte>) {
    var n := Min(|text|, MAX_INPUT_LEN);
    l.buffer == text[..n] && l.overflow == |text| - n
  }

  /** The text never outgrows what the counter can count. */
  predicate WithinCounter(keys: seq<Byte>, hidden: bool) {
    && |Edit(keys, hidden)| <= MAX_INPUT_LEN + USIZE_MAX
    && (keys == [] || WithinCounter(keys[..|keys| - 1], hidden))
  }

  predicate AlwaysFaithful(keys: seq<Byte>, hidden: bool) {
    && Faithful(Typed(keys, hidden), Edit(keys, hidden))
    && (keys == [] || AlwaysFaithful(keys[..|keys| - 1], hidden))
  }

  lemma {:induction false} LineIsBounded(keys: seq<Byte>, hidden: bool)
    ensures var l := Typed(keys, hidden);
            |l.buffer| <= MAX_INPUT_LEN && l.overflow <= USIZE_MAX
  {
    if keys != [] {
      LineIsBounded(keys[..|keys| - 1], hidden);
    }
  }

  lemma PressIsFaithful(l: Line, text: seq<Byte>, key: Byte)
    requires Faithful(l, text)
    ensures text != [] ==> Faithful(Press(l, 8, true), text[..|text| - 1])
    ensures text == [] ==> Faithful(Press(l, 8, true), [])
    ensures |text| < MAX_INPUT_LEN + USIZE_MAX ==> Faithful(Press(l, key, false), text + [key])
  {
    if |text| < MAX_INPUT_LEN {
      assert text[..|text|] == text;
      assert (text + [key])[..|text| + 1] == text + [key];
    }
  }

  /** The capped line represents the unbounded text after every key exactly when
      the text stays within the counter's range. */
  lemma {:induction false} EditorRefines(keys: seq<Byte>, hidden: bool)
    ensures AlwaysFaithful(keys, hidden) <==> WithinCounter(keys, hidden)
  {
    LineIsBounded(keys, hidden);
    if keys != [] {
      var init, key := keys[..|keys| - 1], keys[|keys| - 1];
      EditorRefines(init, hidden);
      if WithinCounter(keys, hidden) {
        PressIsFaithful(Typed(init, hidden), Edit(init, hidden), key);
      }
    }
  }

  /** So the length check of the source is the length check of the text. */
  lemma LengthCheck(keys: seq<Byte>, hidden: bool)
    requires WithinCounter(keys, hidden)
    ensures var l, text := Typed(keys, hidden), Edit(keys, hidden);
            && (l.overflow == 0 <==> |text| <= MAX_INPUT_LEN)
            && (l.overflow == 0 ==> l.buffer == text)
  {
    EditorRefines(keys, hidden);
  }

  // ----- What the terminal shows -----

  const STAR: Byte := 42
  const BLANK: Byte := 32
  const BACK: Byte := 8
  const RUBOUT: seq<Byte> := [BACK, BLANK, BACK]

  /** What a key writes to the terminal. */
  function KeyEcho(l: Line, key: Byte): seq<Byte> {
    if IsErase(key) then (if l.overflow != 0 || l.buffer != [] then RUBOUT else []) else [STAR]
  }

  function Echo(keys: seq<Byte>): seq<Byte> {
    if keys == [] then []
    else Echo(keys[..|keys| - 1]) + KeyEcho(Typed(keys[..|keys| - 1], true), keys[|keys| - 1])
  }

  /** The cells written since the prompt, and the cursor among them. */
  datatype Screen = Screen(row: seq<Byte>, cursor: nat)

  function Put(s: Screen, b: Byte): Screen {
    if b == BACK then s.(cursor := if s.cursor == 0 then 0 else s.cursor - 1)
    else if s.cursor < |s.row| then Screen(s.row[s.cursor := b], s.cursor + 1)
    else Screen(s.row + [b], |s.row| + 1)
  }

  function Show(bytes: seq<Byte>): Screen {
    if bytes == [] then Screen([], 0) else Put(Show(bytes[..|bytes| - 1]), bytes[|bytes| - 1])
  }

  /** `n` stars, then blanks, with the cursor behind the stars. */
  predicate Stars(s: Screen, n: nat) {
    && s.cursor == n <= |s.row|
    && (forall i | 0 <= i < n :: s.row[i] == STAR)
    && (forall i | n <= i < |s.row| :: s.row[i] == BLANK)
  }

  lemma ShowMore(bytes: seq<Byte>, b: Byte)
    ensures Show(bytes + [b]) == Put(Show(bytes), b)
  {
    assert (bytes + [b])[..|bytes|] == bytes;
  }

  lemma ShowRubout(bytes: seq<Byte>, n: nat)
    requires Stars(Show(bytes), n) && n > 0
    ensures Stars(Show(bytes + RUBOUT), n - 1)
  {
    ShowMore(bytes, BACK);
    ShowMore(bytes + [BACK], BLANK);
    ShowMore(bytes + [BACK] + [BLANK], BACK);
    assert bytes + RUBOUT == bytes + [BACK] + [BLANK] + [BACK];
  }

  /** A key's echo is about the unbounded text: a star, or a step back, a blank and a
      step back. */
  lemma EchoOfTheText(keys: seq<Byte>, key: Byte)
    requires WithinCounter(keys, true)
    ensures KeyEcho(Typed(keys, true), key)
         == if key != 8 && key != 127 then [42] else if Edit(keys, true) != [] then [8, 32, 8] else []
    ensures KeyEcho(Typed(keys, true), key)
         == if !IsErase(key) then [STAR] else if Edit(keys, true) != [] then RUBOUT else []
  {
    EditorRefines(keys, true);
  }

  lemma ShowEcho(bytes: seq<Byte>, n: nat, echo: seq<Byte>)
    requires Stars(Show(bytes), n)
    ensures echo == [STAR] ==> Stars(Show(bytes + echo), n + 1)
    ensures echo == RUBOUT && n > 0 ==> Stars(Show(bytes + echo), n - 1)
    ensures echo == [] ==> Stars(Show(bytes + echo), n)
  {
    if echo == [STAR] {
      ShowMore(bytes, STAR);
    } else if echo == RUBOUT && n > 0 {
      ShowRubout(bytes, n);
    } else if echo == [] {
      assert bytes + echo == bytes;
    }
  }

  /** The terminal shows one star for each byte of the unbounded text. */
  lemma {:induction false} StarsCountTheText(keys: seq<Byte>)
    requires WithinCounter(keys, true)
    ensures Stars(Show(Echo(keys)), |Edit(keys, true)|)
  {
    if keys != [] {
      var init, key := keys[..|keys| - 1], keys[|keys| - 1];
      StarsCountTheText(init);
      EchoOfTheText(init, key);
      ShowEcho(Echo(init), |Edit(init, true)|, KeyEcho(Typed(init, true), key));
    }
  }
}
