/** The environment file of src/modules/env.rs. */
module EnvFile {
  // The line parser, its inverse, and the loader that lets the first applicable line
  // win.

  import opened Common
  import opened Placeholders

  // ----- Text helpers with the meaning of Rust's `str` methods -----

  /** The Unicode White_Space property, which `char::is_whitespace` tests. */
  predicate IsWhitespace(c: char) {
    var n := c as int;
    || 0x09 <= n <= 0x0D || n == 0x20 || n == 0x85 || n == 0xA0 || n == 0x1680
    || 0x2000 <= n <= 0x200A || n == 0x2028 || n == 0x2029 || n == 0x202F
    || n == 0x205F || n == 0x3000
  }

  function TrimStart(s: string): string {
    if s != "" && IsWhitespace(s[0]) then TrimStart(s[1..]) else s
  }

  function TrimEnd(s: string): string {
    if s != "" && IsWhitespace(s[|s| - 1]) then TrimEnd(s[..|s| - 1]) else s
  }

  function Trim(s: string): string {
    TrimEnd(TrimStart(s))
  }

  /** Position of the first whitespace character, or the length. */
  function FirstSpace(s: string): nat {
    if s == "" || IsWhitespace(s[0]) then 0 else 1 + FirstSpace(s[1..])
  }

  /** Position of the first `=`, or the length. */
  function FirstEquals(s: string): nat {
    if s == "" || s[0] == '=' then 0 else 1 + FirstEquals(s[1..])
  }

  lemma FirstSpaceBound(s: string)
    ensures FirstSpace(s) <= |s|
    ensures FirstSpace(s) < |s| ==> IsWhitespace(s[FirstSpace(s)])
    ensures forall i | 0 <= i < FirstSpace(s) :: !IsWhitespace(s[i])
  {}

  lemma FirstEqualsBound(s: string)
    ensures FirstEquals(s) <= |s|
    ensures FirstEquals(s) < |s| ==> s[FirstEquals(s)] == '='
    ensures forall i | 0 <= i < FirstEquals(s) :: s[i] != '='
  {}

  predicate IsNameChar(c: char, first: bool) {
    'A' <= c <= 'Z' || 'a' <= c <= 'z' || c == '_' || (!first && '0' <= c <= '9')
  }

  /** A letter or underscore, then letters, digits and underscores. */
  predicate IsName(s: string) {
    s != "" && forall i | 0 <= i < |s| :: IsNameChar(s[i], i == 0)
  }

  // ----- One line -----

  /** `TARGET NAME=VALUE`, or `TARGET NAME` with no value. */
  datatype Entry = Entry(target: string, name: string, value: Option<string>)

  /** The target word and what follows it, of a line that is neither blank nor
      a comment and has something after its first word. */
  function SplitTarget(raw: string): Option<(string, string)> {
    var line := Trim(raw);
    if line == "" || line[0] == '#' then None
    else
      FirstSpaceBound(line);
      var n := FirstSpace(line);
      if n == |line| then None else Some((line[..n], TrimStart(line[n + 1..])))
  }

  function SplitAssignment(text: string): (string, Option<string>) {
    FirstEqualsBound(text);
    var n := FirstEquals(text);
    if n == |text| then (Trim(text), None)
    else (Trim(text[..n]), Some(Trim(text[n + 1..])))
  }

  function ParseLine(raw: string): Option<Entry> {
    match SplitTarget(raw)
    case None => None
    case Some((target, text)) =>
      var (name, value) := SplitAssignment(text);
      if IsName(name) then Some(Entry(target, name, value)) else None
  }

  // ----- Which entries the format can carry, and how they are written -----

  predicate NoSpace(s: string) {
    forall i | 0 <= i < |s| :: !IsWhitespace(s[i])
  }

  predicate AllSpace(s: string) {
    forall i | 0 <= i < |s| :: IsWhitespace(s[i])
  }

  predicate Renderable(e: Entry) {
    && e.target != "" && NoSpace(e.target) && e.target[0] != '#'
    && IsName(e.name)
    && (e.value.Some? ==> Trim(e.value.value) == e.value.value)
  }

  /** Whitespace the format ignores: around the line, between target and name,
      and on both sides of the `=`. */
  datatype Layout = Layout(before: string, gap: string, beforeEquals: string, afterEquals: string, after: string)

  predicate IsLayout(l: Layout) {
    && AllSpace(l.before) && AllSpace(l.gap) && l.gap != ""
    && AllSpace(l.beforeEquals) && AllSpace(l.afterEquals) && AllSpace(l.after)
  }

  function RenderText(e: Entry, l: Layout): string {
    match e.value
    case None => e.name
    case Some(v) => e.name + (l.beforeEquals + ("=" + (l.afterEquals + v)))
  }

  function Render(e: Entry, l: Layout): string {
    l.before + (e.target + (l.gap + (RenderText(e, l) + l.after)))
  }

  // ----- Round trip -----

  lemma {:induction false} TrimStartSkips(pad: string, s: string)
    requires AllSpace(pad)
    ensures TrimStart(pad + s) == TrimStart(s)
  {
    if pad == "" {
      assert pad + s == s;
    } else {
      assert (pad + s)[1..] == pad[1..] + s;
      TrimStartSkips(pad[1..], s);
    }
  }

  lemma {:induction false} TrimEndSkips(s: string, pad: string)
    requires AllSpace(pad)
    ensures TrimEnd(s + pad) == TrimEnd(s)
  {
    if pad == "" {
      assert s + pad == s;
    } else {
      assert (s + pad)[..|s + pad| - 1] == s + pad[..|pad| - 1];
      TrimEndSkips(s, pad[..|pad| - 1]);
    }
  }

  predicate Trimmed(s: string) {
    s == "" || (!IsWhitespace(s[0]) && !IsWhitespace(s[|s| - 1]))
  }

  lemma TrimResult(s: string)
    ensures Trimmed(Trim(s))
    ensures Trimmed(s) <==> Trim(s) == s
  {
    TrimStartResult(s);
    TrimEndResult(TrimStart(s));
  }

  lemma TrimStartResult(s: string)
    ensures var t := TrimStart(s);
            |t| <= |s| && t == s[|s| - |t|..] && (t != "" ==> !IsWhitespace(t[0]))
  {}

  lemma TrimEndResult(s: string)
    ensures var t := TrimEnd(s);
            t <= s && (t != "" ==> !IsWhitespace(t[|t| - 1]))
  {}

  /** Trimming takes the padding off a trimmed text, and nothing else. */
  lemma TrimPadded(before: string, s: string, after: string)
    requires AllSpace(before) && AllSpace(after) && Trimmed(s)
    ensures Trim(before + (s + after)) == s
  {
    TrimStartSkips(before, s + after);
    if s == "" {
      assert s + after == after + "";
      TrimStartSkips(after, "");
    } else {
      assert TrimStart(s + after) == s + after;
    }
    TrimEndSkips(s, after);
  }

  lemma {:induction false} FirstSpaceSkips(s: string, rest: string)
    requires NoSpace(s) && rest != "" && IsWhitespace(rest[0])
    ensures FirstSpace(s + rest) == |s|
  {
    if s == "" {
      assert s + rest == rest;
    } else {
      assert (s + rest)[1..] == s[1..] + rest;
      FirstSpaceSkips(s[1..], rest);
    }
  }

  lemma {:induction false} FirstEqualsSkips(s: string, rest: string)
    requires forall i | 0 <= i < |s| :: s[i] != '='
    requires rest == "" || rest[0] == '='
    ensures FirstEquals(s + rest) == |s|
  {
    if s == "" {
      assert s + rest == rest;
    } else {
      assert (s + rest)[1..] == s[1..] + rest;
      FirstEqualsSkips(s[1..], rest);
    }
  }

  lemma NameText(name: string)
    requires IsName(name)
    ensures NoSpace(name) && Trimmed(name) && forall i | 0 <= i < |name| :: name[i] != '='
  {
    forall i | 0 <= i < |name| ensures !IsWhitespace(name[i]) && name[i] != '=' {
      assert IsNameChar(name[i], i == 0);
    }
  }

  lemma SplitAtEquals(left: string, right: string)
    requires forall i | 0 <= i < |left| :: left[i] != '='
    ensures SplitAssignment(left + ("=" + right)) == (Trim(left), Some(Trim(right)))
  {
    var text := left + ("=" + right);
    FirstEqualsSkips(left, "=" + right);
    assert text[..|left|] == left && text[|left| + 1..] == right;
  }

  lemma TrimOneSide(pad: string, s: string)
    requires AllSpace(pad) && Trimmed(s)
    ensures Trim(pad + s) == s && Trim(s + pad) == s
  {
    TrimPadded(pad, s, "");
    TrimPadded("", s, pad);
    assert pad + (s + "") == pad + s && "" + (s + pad) == s + pad;
  }

  lemma AssignmentRoundTrip(e: Entry, l: Layout)
    requires Renderable(e) && IsLayout(l)
    ensures SplitAssignment(RenderText(e, l)) == (e.name, e.value)
  {
    NameText(e.name);
    match e.value
    case None =>
      assert e.name == e.name + "";
      FirstEqualsSkips(e.name, "");
      TrimResult(e.name);
    case Some(v) =>
      var left, right := e.name + l.beforeEquals, l.afterEquals + v;
      assert RenderText(e, l) == left + ("=" + right);
      SplitAtEquals(left, right);
      TrimResult(v);
      TrimOneSide(l.beforeEquals, e.name);
      TrimOneSide(l.afterEquals, v);
  }

  lemma TargetRoundTrip(before: string, target: string, gap: string, text: string, after: string)
    requires AllSpace(before) && AllSpace(gap) && AllSpace(after) && gap != ""
    requires target != "" && NoSpace(target) && target[0] != '#'
    requires text != "" && Trimmed(text)
    ensures SplitTarget(before + ((target + (gap + text)) + after)) == Some((target, text))
  {
    var tail := gap + text;
    var line := target + tail;
    assert Trimmed(line);
    TrimPadded(before, line, after);
    FirstSpaceSkips(target, tail);
    assert line[..|target|] == target;
    assert line[|target| + 1..] == gap[1..] + text;
    TrimStartSkips(gap[1..], text);
  }

  lemma RenderedText(e: Entry, l: Layout)
    requires Renderable(e) && IsLayout(l)
    requires e.value == Some("") ==> l.afterEquals == ""
    ensures RenderText(e, l) != "" && Trimmed(RenderText(e, l))
  {
    NameText(e.name);
    assert RenderText(e, l)[0] == e.name[0];
    if e.value.Some? {
      TrimResult(e.value.value);
    }
  }

  lemma LineRoundTrip(e: Entry, l: Layout)
    requires Renderable(e) && IsLayout(l)
    requires e.value == Some("") ==> l.afterEquals == ""
    ensures ParseLine(Render(e, l)) == Some(e)
  {
    var text := RenderText(e, l);
    RenderedText(e, l);
    TargetRoundTrip(l.before, e.target, l.gap, text, l.after);
    assert Render(e, l) == l.before + ((e.target + (l.gap + text)) + l.after);
    AssignmentRoundTrip(e, l);
  }

  /** Writing any entry the format can carry, in any layout, and parsing the
      line gives the entry back. */
  lemma RoundTrip(e: Entry, l: Layout)
    requires Renderable(e) && IsLayout(l)
    ensures ParseLine(Render(e, l)) == Some(e)
  {
    if e.value == Some("") {
      var m := l.(afterEquals := "", after := l.afterEquals + l.after);
      LineRoundTrip(e, m);
      assert RenderText(e, l) == RenderText(e, m) + l.afterEquals;
      assert Render(e, l) == Render(e, m);
    } else {
      LineRoundTrip(e, l);
    }
  }

  /** The parser produces exactly the renderable entries. */
  lemma ParserImage(e: Entry)
    ensures Renderable(e) <==> exists raw :: ParseLine(raw) == Some(e)
  {
    if Renderable(e) {
      RoundTrip(e, Layout("", " ", "", "", ""));
    }
    forall raw | ParseLine(raw) == Some(e) ensures Renderable(e) {
      ParsedIsRenderable(raw);
    }
  }

  lemma ParsedIsRenderable(raw: string)
    requires ParseLine(raw).Some?
    ensures Renderable(ParseLine(raw).value)
  {
    var line := Trim(raw);
    TrimResult(raw);
    FirstSpaceBound(line);
    assert line[..FirstSpace(line)] != "" by { assert !IsWhitespace(line[0]); }
    var (_, text) := SplitTarget(raw).value;
    var n := FirstEquals(text);
    FirstEqualsBound(text);
    if n < |text| {
      TrimResult(text[n + 1..]);
      TrimResult(Trim(text[n + 1..]));
    }
  }

  // ----- Loading -----

  /** What one load is run with: the target's name, the placeholders and the
      environment of the invoking process. */
  datatype Request = Request(user: string, placeholders: seq<Placeholder>, caller: map<string, string>)

  /** The value the line gives to `key`, if it applies, names `key` and has a
      value to give. */
  function Offer(raw: string, key: string, q: Request): Option<string> {
    match ParseLine(raw)
    case Some(Entry(target, name, value)) =>
      if (target == "*" || target == q.user) && name == key then
        match value {
          case Some(v) => Some(Sequential(v, q.placeholders))
          case None => if key in q.caller then Some(q.caller[key]) else None
        }
      else None
    case None => None
  }

  /** What each line offers. */
  function Each(lines: seq<string>, offer: string -> Option<string>): (offers: seq<Option<string>>)
    ensures |offers| == |lines| && forall i | 0 <= i < |lines| :: offers[i] == offer(lines[i])
  {
    seq(|lines|, i requires 0 <= i < |lines| => offer(lines[i]))
  }

  lemma EachOfBoth(a: seq<string>, b: seq<string>, offer: string -> Option<string>)
    ensures Each(a + b, offer) == Each(a, offer) + Each(b, offer)
  {}

  function FirstSome(offers: seq<Option<string>>): Option<string> {
    if offers == [] then None
    else
      var before := FirstSome(offers[..|offers| - 1]);
      if before.Some? then before else offers[|offers| - 1]
  }

  lemma {:induction false} FirstSomeIsFirst(offers: seq<Option<string>>)
    ensures match FirstSome(offers)
            case None => forall i | 0 <= i < |offers| :: offers[i] == None
            case Some(v) => exists i | 0 <= i < |offers| ::
              offers[i] == Some(v) && forall j | 0 <= j < i :: offers[j] == None
  {
    if offers != [] {
      FirstSomeIsFirst(offers[..|offers| - 1]);
      assert FirstSome(offers).Some? && FirstSome(offers[..|offers| - 1]) == None ==>
          offers[|offers| - 1] == FirstSome(offers);
    }
  }

  lemma {:induction false} FirstSomeOfBoth(a: seq<Option<string>>, b: seq<Option<string>>)
    ensures FirstSome(a + b) == if FirstSome(a).Some? then FirstSome(a) else FirstSome(b)
  {
    if b == [] {
      assert a + b == a;
    } else {
      FirstSomeOfBoth(a, b[..|b| - 1]);
      assert (a + b)[..|a + b| - 1] == a + b[..|b| - 1];
    }
  }

  /** The offer of the first line that makes one. */
  function FirstOffer(lines: seq<string>, key: string, q: Request): Option<string> {
    FirstSome(Each(lines, raw => Offer(raw, key, q)))
  }

  lemma FirstOfferIsFirst(lines: seq<string>, key: string, q: Request)
    ensures match FirstOffer(lines, key, q)
            case None => forall i | 0 <= i < |lines| :: Offer(lines[i], key, q) == None
            case Some(v) => exists i | 0 <= i < |lines| ::
              && Offer(lines[i], key, q) == Some(v)
              && forall j | 0 <= j < i :: Offer(lines[j], key, q) == None
  {
    var offers := Each(lines, raw => Offer(raw, key, q));
    FirstSomeIsFirst(offers);
    match FirstSome(offers)
    case None =>
      forall i | 0 <= i < |lines| ensures Offer(lines[i], key, q) == None {
        assert offers[i] == None;
      }
    case Some(v) =>
      var i :| 0 <= i < |offers| && offers[i] == Some(v) && forall j | 0 <= j < i :: offers[j] == None;
      assert Offer(lines[i], key, q) == Some(v);
      forall j | 0 <= j < i ensures Offer(lines[j], key, q) == None {
        assert offers[j] == None;
      }
  }

  /** Lines added at the end of the file never change a key already offered. */
  lemma AppendingKeepsOffers(lines: seq<string>, more: seq<string>, key: string, q: Request)
    ensures FirstOffer(lines + more, key, q)
         == if FirstOffer(lines, key, q).Some? then FirstOffer(lines, key, q) else FirstOffer(more, key, q)
  {
    var offer := raw => Offer(raw, key, q);
    EachOfBoth(lines, more, offer);
    FirstSomeOfBoth(Each(lines, offer), Each(more, offer));
  }

  lemma OneMoreLine(lines: seq<string>, raw: string, key: string, q: Request)
    ensures FirstOffer(lines + [raw], key, q)
         == if FirstOffer(lines, key, q).Some? then FirstOffer(lines, key, q) else Offer(raw, key, q)
  {
    AppendingKeepsOffers(lines, [raw], key, q);
    assert FirstSome(Each([raw], text => Offer(text, key, q))[..0]) == None;
  }

  lemma OfferedKeysAreNames(raw: string, key: string, q: Request)
    requires Offer(raw, key, q).Some?
    ensures IsName(key)
  {}

  function Get(env: map<string, string>, key: string): Option<string> {
    if key in env then Some(env[key]) else None
  }

  /** `env` is `before` with every missing key filled from the first offer. */
  ghost predicate Filled(env: map<string, string>, before: map<string, string>, lines: seq<string>, q: Request) {
    forall key :: Get(env, key) == if key in before then Some(before[key]) else FirstOffer(lines, key, q)
  }

  /** The lines read before the first one that could not be read. */
  function Readable(lines: seq<Option<string>>): seq<string> {
    if lines == [] || lines[0] == None then [] else [lines[0].value] + Readable(lines[1..])
  }

  lemma {:induction false} ReadablePrefix(lines: seq<Option<string>>, k: nat, done: seq<string>)
    requires k <= |lines|
    requires |done| == k && forall i | 0 <= i < k :: lines[i] == Some(done[i])
    ensures Readable(lines) == done + Readable(lines[k..])
  {
    if k > 0 {
      assert lines[1..][k - 1..] == lines[k..];
      ReadablePrefix(lines[1..], k - 1, done[1..]);
      assert done == [done[0]] + done[1..];
    } else {
      assert lines[0..] == lines;
    }
  }

  /** The body of the source's line loop. */
  method LoadLine(raw: string, q: Request, before: map<string, string>) returns (env: map<string, string>)
    ensures forall key :: Get(env, key) == if key in before then Some(before[key]) else Offer(raw, key, q)
  {
    env := before;
    var split := SplitTarget(raw);
    if split == None {
      return;
    }
    var (target, text) := split.value;
    if target != "*" && target != q.user {
      return;
    }
    var (key, value) := SplitAssignment(text);
    if !IsName(key) || key in env {
      return;
    }
    match value {
      case Some(v) =>
        var rewritten := Rewrite(v, q.placeholders);
        env := env[key := rewritten];
      case None =>
        if key in q.caller {
          env := env[key := q.caller[key]];
        }
    }
  }

  /** Fills `before` from the file. A line that cannot be read ends the load
      with an error and keeps what earlier lines added. */
  method LoadOverwriteVars(lines: seq<Option<string>>, q: Request, before: map<string, string>)
    returns (env: map<string, string>, ok: bool)
    ensures ok <==> None !in lines
    ensures Filled(env, before, Readable(lines), q)
  {
    env := before;
    var done: seq<string> := [];
    for k := 0 to |lines|
      invariant |done| == k && forall i | 0 <= i < k :: lines[i] == Some(done[i])
      invariant Filled(env, before, done, q)
    {
      ReadablePrefix(lines, k, done);
      if lines[k] == None {
        assert done + [] == done;
        return env, false;
      }
      ghost var earlier := env;
      env := LoadLine(lines[k].value, q, env);
      assert (done + [lines[k].value])[..k] == done;
      forall key
        ensures Get(env, key) == if key in before then Some(before[key])
                                 else FirstOffer(done + [lines[k].value], key, q)
      {
        assert Get(earlier, key) == if key in before then Some(before[key]) else FirstOffer(done, key, q);
        OneMoreLine(done, lines[k].value, key, q);
      }
      done := done + [lines[k].value];
    }
    ReadablePrefix(lines, |lines|, done);
    assert done + [] == done;
    return env, true;
  }

  // ----- What a load does to a file of known entries -----

  /** Names in character codes: letters and the underscore, and digits but not at the
      start. Of ASCII, five control characters and the blank are whitespace. */
  lemma CharactersInNumbers(s: string, c: char)
    ensures IsName(s) <==>
            && s != "" && !(48 <= s[0] as int <= 57)
            && forall i | 0 <= i < |s| ::
                 var n := s[i] as int; 65 <= n <= 90 || 97 <= n <= 122 || n == 95 || 48 <= n <= 57
    ensures c as int < 128 ==> (IsWhitespace(c) <==> 9 <= c as int <= 13 || c as int == 32)
  {
    if IsName(s) {
      assert IsNameChar(s[0], true);
      forall i | 0 <= i < |s|
        ensures var n := s[i] as int; 65 <= n <= 90 || 97 <= n <= 122 || n == 95 || 48 <= n <= 57
      {
        assert IsNameChar(s[i], i == 0);
      }
    }
  }

  /** Blank lines, comments and lines of one word give nothing. */
  lemma SilentLines(pad: string, rest: string, word: string, after: string)
    requires AllSpace(pad) && AllSpace(after) && NoSpace(word)
    ensures ParseLine(pad) == None
    ensures ParseLine(pad + ("#" + rest)) == None
    ensures ParseLine(pad + (word + after)) == None
  {
    TrimPadded(pad, "", "");
    assert pad + ("" + "") == pad;
    TrimPadded(pad, word, after);
    FirstSpaceBound(word);
    assert FirstSpace(word) == |word|;
    var comment := "#" + rest;
    TrimStartSkips(pad, comment);
    TrimEndResult(comment);
    assert TrimStart(comment) == comment && TrimEnd(comment)[0] == '#' by {
      assert !IsWhitespace('#');
      TrimEndKeepsHead(comment);
    }
  }

  lemma {:induction false} TrimEndKeepsHead(s: string)
    requires s != "" && !IsWhitespace(s[0])
    ensures TrimEnd(s) != "" && TrimEnd(s)[0] == s[0]
    decreases |s|
  {
    if IsWhitespace(s[|s| - 1]) {
      TrimEndKeepsHead(s[..|s| - 1]);
    }
  }

  lemma OfferOfEntry(e: Entry, l: Layout, key: string, q: Request)
    requires Renderable(e) && IsLayout(l)
    ensures Offer(Render(e, l), key, q)
         == if (e.target == "*" || e.target == q.user) && e.name == key then
              (if e.value.Some? then Some(Sequential(e.value.value, q.placeholders)) else Get(q.caller, key))
            else None
  {
    RoundTrip(e, l);
  }

  /** The entry is for this target, or for all, names the key, and has a value, in the
      file or with the caller. */
  predicate Gives(e: Entry, key: string, q: Request) {
    (e.target == "*" || e.target == q.user) && e.name == key && (e.value.Some? || key in q.caller)
  }

  function Rendered(es: seq<Entry>, l: Layout): (lines: seq<Option<string>>)
    ensures |lines| == |es| && forall i | 0 <= i < |es| :: lines[i] == Some(Render(es[i], l))
  {
    seq(|es|, i requires 0 <= i < |es| => Some(Render(es[i], l)))
  }

  lemma {:induction false} AllReadable(lines: seq<Option<string>>)
    requires forall i | 0 <= i < |lines| :: lines[i].Some?
    ensures |Readable(lines)| == |lines| && forall i | 0 <= i < |lines| :: lines[i] == Some(Readable(lines)[i])
  {
    if lines != [] {
      AllReadable(lines[1..]);
      assert forall i | 1 <= i < |lines| :: lines[i] == lines[1..][i - 1];
    }
  }

  /** A file of entries, in any layout. A key that was there keeps its value. Any
      other is there afterwards exactly if some entry gives it, and has the value of
      the first that does, rewritten, or the caller's. */
  method LoadEntries(es: seq<Entry>, l: Layout, q: Request, before: map<string, string>) returns (env: map<string, string>)
    requires IsLayout(l) && forall e | e in es :: Renderable(e)
    ensures forall key | key in before :: key in env && env[key] == before[key]
    ensures forall key | key !in before :: key in env <==> exists i | 0 <= i < |es| :: Gives(es[i], key, q)
    ensures forall key, i | key !in before && 0 <= i < |es| && Gives(es[i], key, q)
                            && (forall j | 0 <= j < i :: !Gives(es[j], key, q)) ::
              key in env && env[key] == if es[i].value.Some? then Sequential(es[i].value.value, q.placeholders)
                                        else q.caller[key]
  {
    var ok;
    env, ok := LoadOverwriteVars(Rendered(es, l), q, before);
    forall key
      ensures Get(env, key) == if key in before then Some(before[key]) else FirstOffer(Readable(Rendered(es, l)), key, q)
    {}
    forall key | key !in before
      ensures key in env <==> exists i | 0 <= i < |es| :: Gives(es[i], key, q)
      ensures forall i | 0 <= i < |es| && Gives(es[i], key, q) && (forall j | 0 <= j < i :: !Gives(es[j], key, q)) ::
                key in env && env[key] == if es[i].value.Some? then Sequential(es[i].value.value, q.placeholders)
                                          else q.caller[key]
    {
      FirstGiven(es, l, key, q);
    }
  }

  lemma LinesGive(es: seq<Entry>, l: Layout, key: string, q: Request)
    requires IsLayout(l) && forall e | e in es :: Renderable(e)
    ensures var lines := Readable(Rendered(es, l));
            && |lines| == |es|
            && forall i | 0 <= i < |es| ::
                 (Offer(lines[i], key, q).Some? <==> Gives(es[i], key, q)) && lines[i] == Render(es[i], l)
  {
    var lines := Readable(Rendered(es, l));
    AllReadable(Rendered(es, l));
    forall i | 0 <= i < |es|
      ensures (Offer(lines[i], key, q).Some? <==> Gives(es[i], key, q)) && lines[i] == Render(es[i], l)
    {
      OfferOfEntry(es[i], l, key, q);
    }
  }

  lemma FirstGivenAt(es: seq<Entry>, l: Layout, key: string, q: Request, i: nat)
    requires IsLayout(l) && forall e | e in es :: Renderable(e)
    requires i < |es| && Gives(es[i], key, q) && forall j | 0 <= j < i :: !Gives(es[j], key, q)
    ensures FirstOffer(Readable(Rendered(es, l)), key, q)
         == Some(if es[i].value.Some? then Sequential(es[i].value.value, q.placeholders) else q.caller[key])
  {
    var lines := Readable(Rendered(es, l));
    LinesGive(es, l, key, q);
    FirstOfferIsFirst(lines, key, q);
    OfferOfEntry(es[i], l, key, q);
    assert Offer(lines[i], key, q).Some?;
    var k :| 0 <= k < |lines| && Offer(lines[k], key, q) == FirstOffer(lines, key, q)
             && forall j | 0 <= j < k :: Offer(lines[j], key, q) == None;
    assert k == i;
  }

  lemma FirstGiven(es: seq<Entry>, l: Layout, key: string, q: Request)
    requires IsLayout(l) && forall e | e in es :: Renderable(e)
    ensures var offer := FirstOffer(Readable(Rendered(es, l)), key, q);
            && (offer.Some? <==> exists i | 0 <= i < |es| :: Gives(es[i], key, q))
            && forall i | 0 <= i < |es| && Gives(es[i], key, q) && (forall j | 0 <= j < i :: !Gives(es[j], key, q)) ::
                 offer == Some(if es[i].value.Some? then Sequential(es[i].value.value, q.placeholders) else q.caller[key])
  {
    LinesGive(es, l, key, q);
    FirstOfferIsFirst(Readable(Rendered(es, l)), key, q);
    forall i | 0 <= i < |es| && Gives(es[i], key, q) && (forall j | 0 <= j < i :: !Gives(es[j], key, q))
      ensures FirstOffer(Readable(Rendered(es, l)), key, q)
           == Some(if es[i].value.Some? then Sequential(es[i].value.value, q.placeholders) else q.caller[key])
    {
      FirstGivenAt(es, l, key, q, i);
    }
  }

  /** A file of one line: an entry for somebody else changes nothing, one for this
      target or for all sets its missing key, to a value without `$` as it stands, or
      to the caller's. */
  method LoadOne(e: Entry, l: Layout, q: Request, before: map<string, string>) returns (env: map<string, string>)
    requires Renderable(e) && IsLayout(l)
    ensures (e.target != "*" && e.target != q.user) || e.name in before ==> env == before
    ensures (e.target == "*" || e.target == q.user) && e.name !in before ==>
              match e.value
              case Some(v) => '$' !in v ==> env == before[e.name := v]
              case None => env == if e.name in q.caller then before[e.name := q.caller[e.name]] else before
  {
    env := LoadEntries([e], l, q, before);
    assert [e][0] == e;
    assert forall key | key !in before :: key in env <==> Gives(e, key, q) by {
      forall key | key !in before ensures key in env <==> Gives(e, key, q) {
        if Gives(e, key, q) {
          assert Gives([e][0], key, q);
        }
      }
    }
    if Gives(e, e.name, q) && e.name !in before {
      assert Gives([e][0], e.name, q);
      if e.value.Some? && '$' !in e.value.value {
        PlainIsKept(e.value.value, q.placeholders);
      }
    }
  }
}
