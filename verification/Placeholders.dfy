/** Placeholder rewriting of src/modules/env.rs. */
module Placeholders {
  // Every `${NAME}` pattern is replaced in turn, each pass reading the output of the
  // pass before it. The reference is one left-to-right pass that replaces all
  // patterns at once and never looks at replacement text again. The main result says
  // for which placeholder lists the two agree on every value.

  import opened Common

  datatype Placeholder = Placeholder(name: string, replacement: string)

  function Pattern(name: string): string {
    "${" + name + "}"
  }

  predicate Contains(s: string, p: string) {
    exists i | 0 <= i <= |s| :: p <= s[i..]
  }

  /** Leftmost, non-overlapping replacement, as `str::replace` does it. */
  function Replace(s: string, p: string, r: string): string
    requires p != ""
  {
    if s == "" then ""
    else if p <= s then r + Replace(s[|p|..], p, r)
    else [s[0]] + Replace(s[1..], p, r)
  }

  function Pass(s: string, h: Placeholder): string {
    Replace(s, Pattern(h.name), h.replacement)
  }

  /** One pass per placeholder, in list order. */
  function Sequential(s: string, ph: seq<Placeholder>): string {
    if ph == [] then s else Pass(Sequential(s, ph[..|ph| - 1]), ph[|ph| - 1])
  }

  /** The first placeholder whose pattern starts `s`. */
  function Match(s: string, ph: seq<Placeholder>): Option<Placeholder> {
    if ph == [] then None
    else
      var h := ph[|ph| - 1];
      var m := Match(s, ph[..|ph| - 1]);
      if m == None && Pattern(h.name) <= s then Some(h) else m
  }

  lemma MatchFits(s: string, ph: seq<Placeholder>)
    ensures var m := Match(s, ph);
            if m.Some? then m.value in ph && Pattern(m.value.name) <= s
            else forall h :: h in ph ==> !(Pattern(h.name) <= s)
  {
    if ph != [] {
      MatchFits(s, ph[..|ph| - 1]);
      assert ph == ph[..|ph| - 1] + [ph[|ph| - 1]];
    }
  }

  /** The reference: all patterns at once, replacement text never read again. */
  function Simultaneous(s: string, ph: seq<Placeholder>): string
    decreases |s|
  {
    if s == "" then ""
    else
      match Match(s, ph)
      case None => [s[0]] + Simultaneous(s[1..], ph)
      case Some(h) =>
        MatchFits(s, ph);
        h.replacement + Simultaneous(s[|Pattern(h.name)|..], ph)
  }

  /** `p` laid over `r` with its first character at position `k` of `r` (which
      may be negative) agrees with `r` wherever the two overlap. */
  predicate Agree(r: string, p: string, k: int) {
    forall i | 0 <= i < |p| && 0 <= k + i < |r| :: p[i] == r[k + i]
  }

  /** Some text around `r` completes it to an occurrence of `p` that overlaps
      `r`, or spans the point where an empty `r` was inserted. */
  predicate Confusable(r: string, p: string) {
    exists k | -|p| < k < |r| :: Agree(r, p, k)
  }

  predicate Without(s: string, c: char) {
    forall i | 0 <= i < |s| :: s[i] != c
  }

  predicate Tidy(ph: seq<Placeholder>) {
    forall i | 0 <= i < |ph| :: Without(ph[i].name, '$') && Without(ph[i].name, '}')
  }

  predicate Distinct(ph: seq<Placeholder>) {
    forall i, j | 0 <= i < j < |ph| :: ph[i].name != ph[j].name
  }

  /** No replacement can take part in an occurrence of a pattern whose turn
      comes later. The caller can evaluate this before the call. */
  predicate Stable(ph: seq<Placeholder>) {
    forall i, j | 0 <= i < j < |ph| :: !Confusable(ph[i].replacement, Pattern(ph[j].name))
  }

  // ----- Sequential rewriting equals the reference on stable lists -----

  lemma {:induction false} ReplaceSkips(u: string, t: string, p: string, r: string)
    requires p != ""
    requires forall d | 0 <= d < |u| :: !(p <= (u + t)[d..])
    ensures Replace(u + t, p, r) == u + Replace(t, p, r)
  {
    if u == "" {
      assert u + t == t;
    } else {
      assert (u + t)[0..] == u + t;
      assert (u + t)[1..] == u[1..] + t;
      forall d | 0 <= d < |u[1..]| ensures !(p <= (u[1..] + t)[d..]) {
        assert (u[1..] + t)[d..] == (u + t)[d + 1..];
      }
      ReplaceSkips(u[1..], t, p, r);
    }
  }

  lemma {:induction false} SimultaneousSkips(u: string, t: string, ph: seq<Placeholder>)
    requires Without(u, '$')
    ensures Simultaneous(u + t, ph) == u + Simultaneous(t, ph)
  {
    if u == "" {
      assert u + t == t;
    } else {
      MatchFits(u + t, ph);
      assert (u + t)[0] == u[0];
      assert (u + t)[1..] == u[1..] + t;
      SimultaneousSkips(u[1..], t, ph);
    }
  }

  /** A proper tail of `p` that starts the rewritten text already started the
      text before rewriting. */
  lemma {:induction false} TailWasThere(w: string, ph: seq<Placeholder>, p: string, d: int)
    requires 1 <= d <= |p|
    requires forall h | h in ph :: !Confusable(h.replacement, p)
    requires p[d..] <= Simultaneous(w, ph)
    ensures p[d..] <= w
    decreases |p| - d
  {
    if d < |p| {
      MatchFits(w, ph);
      match Match(w, ph)
      case Some(h) =>
        assert Agree(h.replacement, p, -d);
        assert false;
      case None =>
        assert p[d..][1..] == p[d + 1..];
        TailWasThere(w[1..], ph, p, d + 1);
        assert p[d..] == [p[d]] + p[d + 1..];
    }
  }

  lemma PatternWasThere(s: string, ph: seq<Placeholder>, p: string)
    requires s != "" && p != ""
    requires forall h | h in ph :: !Confusable(h.replacement, p)
    requires p <= [s[0]] + Simultaneous(s[1..], ph)
    ensures p <= s
  {
    assert p[1..] <= ([s[0]] + Simultaneous(s[1..], ph))[1..] == Simultaneous(s[1..], ph);
    TailWasThere(s[1..], ph, p, 1);
    assert p == [p[0]] + p[1..];
  }

  lemma NotInside(r: string, t: string, p: string)
    requires p != "" && !Confusable(r, p)
    ensures forall d | 0 <= d < |r| :: !(p <= (r + t)[d..])
  {
    forall d | 0 <= d < |r| ensures !(p <= (r + t)[d..]) {
      assert !Agree(r, p, d);
      var i :| 0 <= i < |p| && 0 <= d + i < |r| && p[i] != r[d + i];
      assert i < |(r + t)[d..]| ==> (r + t)[d..][i] == r[d + i];
    }
  }

  /** One more pass extends the reference by one more placeholder. */
  lemma {:induction false} OneMorePass(s: string, ph: seq<Placeholder>, h: Placeholder)
    requires Without(h.name, '$')
    requires forall g | g in ph :: !Confusable(g.replacement, Pattern(h.name))
    ensures Pass(Simultaneous(s, ph), h) == Simultaneous(s, ph + [h])
    decreases |s|
  {
    var p, r := Pattern(h.name), h.replacement;
    var all := ph + [h];
    assert all[..|all| - 1] == ph;
    if s != "" {
      MatchFits(s, ph);
      match Match(s, ph)
      case Some(g) =>
        var rest := s[|Pattern(g.name)|..];
        var t := Simultaneous(rest, ph);
        NotInside(g.replacement, t, p);
        ReplaceSkips(g.replacement, t, p, r);
        OneMorePass(rest, ph, h);
      case None =>
        if p <= s {
          UnmatchedPattern(s, ph, h);
          var t := Simultaneous(s[|p|..], ph);
          assert (p + t)[|p|..] == t;
          OneMorePass(s[|p|..], ph, h);
        } else {
          var t := Simultaneous(s[1..], ph);
          if p <= [s[0]] + t {
            PatternWasThere(s, ph, p);
            assert false;
          }
          assert ([s[0]] + t)[1..] == t;
          OneMorePass(s[1..], ph, h);
        }
    }
  }

  lemma {:induction false} NothingToReplace(s: string)
    ensures Simultaneous(s, []) == s
  {
    if s != "" {
      NothingToReplace(s[1..]);
    }
  }

  lemma {:induction false} StableAgrees(s: string, ph: seq<Placeholder>)
    requires Tidy(ph) && Stable(ph)
    ensures Sequential(s, ph) == Simultaneous(s, ph)
  {
    if ph == [] {
      NothingToReplace(s);
    } else {
      var init, h := ph[..|ph| - 1], ph[|ph| - 1];
      StableAgrees(s, init);
      forall g | g in init ensures !Confusable(g.replacement, Pattern(h.name)) {
        var i :| 0 <= i < |init| && init[i] == g;
        assert ph[i] == g;
      }
      OneMorePass(s, init, h);
      assert init + [h] == ph;
    }
  }

  // ----- Unstable lists: a value on which the two differ -----

  /** All replacements but the last, which no later pass reads. */
  predicate DollarFree(ph: seq<Placeholder>) {
    forall i | 0 <= i < |ph| - 1 :: Without(ph[i].replacement, '$')
  }

  /** The placeholder is replaced by something else than itself. */
  predicate Changes(h: Placeholder) {
    h.replacement != Pattern(h.name)
  }

  lemma OneAtATime(s: string, h: Placeholder)
    ensures Pass(s, h) == Simultaneous(s, [h])
  {
    NothingToReplace(s);
    if s != "" {
      assert [h][..0] == [];
      if Pattern(h.name) <= s {
        OneAtATime(s[|Pattern(h.name)|..], h);
      } else {
        OneAtATime(s[1..], h);
      }
    }
  }

  /** In a tidy pattern `$` is only the first and `}` only the last character. */
  lemma PatternShape(h: Placeholder)
    requires Tidy([h])
    ensures var p := Pattern(h.name);
            && p[0] == '$' && p[|p| - 1] == '}'
            && (forall i | 0 < i < |p| :: p[i] != '$')
            && (forall i | 0 <= i < |p| - 1 :: p[i] != '}')
  {
    assert [h][0] == h;
  }

  lemma PrefixesAgree(p: string, q: string, s: string)
    ensures p <= s && q <= s ==> forall i | 0 <= i < |p| && i < |q| :: p[i] == q[i]
  {}

  /** Two tidy patterns that start the same text are the same pattern. */
  lemma OnePatternFits(a: Placeholder, b: Placeholder, s: string)
    requires Tidy([a]) && Tidy([b])
    requires Pattern(a.name) <= s && Pattern(b.name) <= s
    ensures a.name == b.name
  {
    var p, q := Pattern(a.name), Pattern(b.name);
    PatternShape(a);
    PatternShape(b);
    PrefixesAgree(p, q, s);
    assert |p| == |q|;
    assert p == q;
    assert p[2..|p| - 1] == a.name && q[2..|q| - 1] == b.name;
  }

  /** A proper beginning of one tidy pattern, cut off by the next `$`, starts
      no pattern. */
  lemma CutOffPattern(f: Placeholder, big: Placeholder, x: string, rest: string)
    requires Tidy([f]) && Tidy([big])
    requires x != "" && x < Pattern(big.name)
    requires rest != "" && rest[0] == '$'
    ensures !(Pattern(f.name) <= x + rest)
  {
    PatternShape(f);
    PatternShape(big);
    assert (x + rest)[|x|] == '$';
    assert forall i | 0 <= i < |x| :: (x + rest)[i] != '}';
  }

  lemma NoMatchAtCut(x: string, s: string, big: Placeholder, g: seq<Placeholder>)
    requires Tidy([big]) && Tidy(g)
    requires x != "" && x < Pattern(big.name)
    requires s != "" && s[0] == '$'
    ensures Match(x + s, g) == None
  {
    MatchFits(x + s, g);
    forall f | f in g ensures !(Pattern(f.name) <= x + s) {
      var i :| 0 <= i < |g| && g[i] == f;
      CutOffPattern(f, big, x, s);
    }
  }

  /** A cut-off pattern in front of the next `$` is copied unchanged. */
  lemma CutIsKept(x: string, s: string, big: Placeholder, g: seq<Placeholder>)
    requires Tidy([big]) && Tidy(g)
    requires x != "" && x < Pattern(big.name)
    requires s != "" && s[0] == '$'
    ensures Simultaneous(x + s, g) == x + Simultaneous(s, g)
  {
    NoMatchAtCut(x, s, big, g);
    var rest := x[1..] + s;
    assert x + s == [x[0]] + rest;
    NoMatchKeeps(x[0], rest, g);
    assert Without(x[1..], '$') by { PatternShape(big); }
    SimultaneousSkips(x[1..], s, g);
    Regroup(x, Simultaneous(s, g));
  }

  lemma NoMatchKeeps(c: char, rest: string, g: seq<Placeholder>)
    requires Match([c] + rest, g) == None
    ensures Simultaneous([c] + rest, g) == [c] + Simultaneous(rest, g)
  {
    assert ([c] + rest)[1..] == rest;
  }

  lemma Regroup(x: string, tail: string)
    ensures x != "" ==> [x[0]] + (x[1..] + tail) == x + tail
  {}

  lemma PatternThenPlain(h: Placeholder, y: string, g: seq<Placeholder>)
    requires Tidy([h]) && Tidy(g) && Distinct(g) && Without(y, '$')
    requires forall f | f in g && f.name == h.name :: f == h
    ensures Simultaneous(Pattern(h.name) + y, g)
         == (if h in g then h.replacement else Pattern(h.name)) + y
  {
    var p := Pattern(h.name);
    var s := p + y;
    PatternShape(h);
    PlainIsCopied(y, g);
    MatchFits(s, g);
    match Match(s, g)
    case Some(f) =>
      var i :| 0 <= i < |g| && g[i] == f;
      assert Tidy([f]);
      OnePatternFits(f, h, s);
      assert s[|p|..] == y;
    case None =>
      assert p <= s;
      assert s == [p[0]] + (p[1..] + y);
      NoMatchKeeps(p[0], p[1..] + y, g);
      SimultaneousSkips(p[1..], y, g);
      Regroup(p, y);
  }

  lemma PlainIsCopied(y: string, g: seq<Placeholder>)
    requires Without(y, '$')
    ensures Simultaneous(y, g) == y
  {
    assert y == y + "";
    SimultaneousSkips(y, "", g);
  }

  /** The value that exposes an unstable pair: the later pattern with the
      overlapped stretch written as the earlier placeholder. */
  function Trap(early: Placeholder, late: Placeholder, d: nat): string
    requires d < |Pattern(late.name)|
  {
    Pattern(late.name)[..d] + (Pattern(early.name) + Rest(early, late, d))
  }

  function Rest(early: Placeholder, late: Placeholder, d: nat): string
    requires d < |Pattern(late.name)|
  {
    var p := Pattern(late.name);
    if d + |early.replacement| <= |p| then p[d + |early.replacement|..] else ""
  }

  /** Rewriting the early placeholder of a trap completes the late pattern. */
  function Sprung(early: Placeholder, late: Placeholder, d: nat): string
    requires d < |Pattern(late.name)|
  {
    Pattern(late.name)[..d] + (early.replacement + Rest(early, late, d))
  }

  lemma TrapSprings(early: Placeholder, late: Placeholder, d: int)
    requires Tidy([late]) && Without(early.replacement, '$')
    requires 1 <= d < |Pattern(late.name)|
    requires Agree(early.replacement, Pattern(late.name), -d)
    ensures var t := Sprung(early, late, d);
            && Pattern(late.name) <= t
            && Without(t[|Pattern(late.name)|..], '$')
            && t[0] == '$'
            && Without(Rest(early, late, d), '$')
  {
    PatternShape(late);
    var p, t := Pattern(late.name), Sprung(early, late, d);
    assert p == t[..|p|];
  }

  lemma SpringTrap(early: Placeholder, late: Placeholder, d: int, g: seq<Placeholder>)
    requires Tidy([early]) && Tidy([late]) && Tidy(g) && Distinct(g)
    requires 1 <= d < |Pattern(late.name)|
    requires Without(Rest(early, late, d), '$')
    requires forall f | f in g && f.name == early.name :: f == early
    ensures Simultaneous(Trap(early, late, d), g)
         == if early in g then Sprung(early, late, d) else Trap(early, late, d)
  {
    var x, y := Pattern(late.name)[..d], Rest(early, late, d);
    CutIsKept(x, Pattern(early.name) + y, late, g);
    PatternThenPlain(early, y, g);
    assert Trap(early, late, d) == x + (Pattern(early.name) + y);
  }

  /** One pass over a sprung trap: nothing until the late placeholder's turn,
      which leaves no `$` in front of the rest. */
  lemma PassOnSprung(early: Placeholder, late: Placeholder, d: int, h: Placeholder)
    requires Tidy([late]) && Tidy([h]) && Without(early.replacement, '$')
    requires 1 <= d < |Pattern(late.name)|
    requires Agree(early.replacement, Pattern(late.name), -d)
    requires h.name == late.name ==> h == late
    ensures Pass(Sprung(early, late, d), h)
         == if h == late then late.replacement + Sprung(early, late, d)[|Pattern(late.name)|..]
            else Sprung(early, late, d)
  {
    TrapSprings(early, late, d);
    var p, t := Pattern(late.name), Sprung(early, late, d);
    OneAtATime(t, h);
    PatternThenPlain(late, t[|p|..], [h]);
    assert t == p + t[|p|..];
  }

  lemma PassOnTrap(early: Placeholder, late: Placeholder, d: int, h: Placeholder)
    requires Tidy([early]) && Tidy([late]) && Tidy([h])
    requires 1 <= d < |Pattern(late.name)|
    requires Without(Rest(early, late, d), '$')
    requires h.name == early.name ==> h == early
    ensures Pass(Trap(early, late, d), h)
         == if h == early then Sprung(early, late, d) else Trap(early, late, d)
  {
    OneAtATime(Trap(early, late, d), h);
    SpringTrap(early, late, d, [h]);
  }

  lemma PassOnPlain(s: string, h: Placeholder)
    requires Without(s, '$')
    ensures Pass(s, h) == s
  {
    OneAtATime(s, h);
    assert s == s + "";
    SimultaneousSkips(s, "", [h]);
  }

  /** No pass of the list changes the value. */
  predicate Unchanged(v: string, ph: seq<Placeholder>) {
    ph == [] || (Pass(v, ph[|ph| - 1]) == v && Unchanged(v, ph[..|ph| - 1]))
  }

  lemma {:induction false} PassesGoOn(s: string, v: string, a: seq<Placeholder>, b: seq<Placeholder>)
    requires Sequential(s, a) == v && Unchanged(v, b)
    ensures Sequential(s, a + b) == v
  {
    if b == [] {
      assert a + b == a;
    } else {
      var init, last := b[..|b| - 1], b[|b| - 1];
      PassesGoOn(s, v, a, init);
      OneMore(s, a + init, last);
      assert a + b == (a + init) + [last];
    }
  }

  lemma OneMore(s: string, a: seq<Placeholder>, h: Placeholder)
    ensures Sequential(s, a + [h]) == Pass(Sequential(s, a), h)
  {
    assert (a + [h])[..|a|] == a;
  }

  /** A list whose pass `e` turns `v` into `t` and whose pass `l` turns that into `u`,
      while the other passes change nothing. */
  lemma InThreeStages(a: seq<Placeholder>, e: Placeholder, b: seq<Placeholder>, l: Placeholder, c: seq<Placeholder>,
                      v: string, t: string, u: string)
    requires Unchanged(v, a) && Unchanged(t, b) && Unchanged(u, c)
    requires Pass(v, e) == t && Pass(t, l) == u
    ensures Sequential(v, a + [e] + b + [l] + c) == u
  {
    PassesGoOn(v, v, [], a);
    assert [] + a == a;
    OneMore(v, a, e);
    PassesGoOn(v, t, a + [e], b);
    OneMore(v, a + [e] + b, l);
    PassesGoOn(v, u, a + [e] + b + [l], c);
  }

  /** The list around two of its placeholders. */
  lemma Around(ph: seq<Placeholder>, i: nat, j: nat)
    requires i < j < |ph|
    ensures ph == ph[..i] + [ph[i]] + ph[i + 1..j] + [ph[j]] + ph[j + 1..]
  {}

  lemma {:induction false} PlainUnchanged(u: string, g: seq<Placeholder>)
    requires Without(u, '$')
    ensures Unchanged(u, g)
  {
    if g != [] {
      PassOnPlain(u, g[|g| - 1]);
      PlainUnchanged(u, g[..|g| - 1]);
    }
  }

  /** Text without `$` is rewritten to itself. */
  lemma PlainIsKept(u: string, ph: seq<Placeholder>)
    requires Without(u, '$')
    ensures Sequential(u, ph) == u
  {
    PlainUnchanged(u, ph);
    PassesGoOn(u, u, [], ph);
    assert [] + ph == ph;
  }

  predicate Lacks(g: seq<Placeholder>, name: string) {
    forall h | h in g :: h.name != name
  }

  lemma PartLacks(ph: seq<Placeholder>, a: nat, b: nat, k: nat)
    requires Tidy(ph) && Distinct(ph) && a <= b <= |ph| && k < |ph| && !(a <= k < b)
    ensures Tidy(ph[a..b]) && Lacks(ph[a..b], ph[k].name) && Tidy([ph[k]])
  {
    forall h | h in ph[a..b] ensures h.name != ph[k].name {
      var i :| a <= i < b && ph[i] == h;
    }
  }

  lemma {:induction false} TrapUnchanged(early: Placeholder, late: Placeholder, d: int, g: seq<Placeholder>)
    requires Tidy([early]) && Tidy([late]) && Tidy(g) && Lacks(g, early.name)
    requires 1 <= d < |Pattern(late.name)| && Without(Rest(early, late, d), '$')
    ensures Unchanged(Trap(early, late, d), g)
  {
    if g != [] {
      assert Tidy([g[|g| - 1]]);
      PassOnTrap(early, late, d, g[|g| - 1]);
      TrapUnchanged(early, late, d, g[..|g| - 1]);
    }
  }

  lemma {:induction false} SprungUnchanged(early: Placeholder, late: Placeholder, d: int, g: seq<Placeholder>)
    requires Tidy([late]) && Tidy(g) && Lacks(g, late.name) && Without(early.replacement, '$')
    requires 1 <= d < |Pattern(late.name)| && Agree(early.replacement, Pattern(late.name), -d)
    ensures Unchanged(Sprung(early, late, d), g)
  {
    if g != [] {
      assert Tidy([g[|g| - 1]]);
      PassOnSprung(early, late, d, g[|g| - 1]);
      SprungUnchanged(early, late, d, g[..|g| - 1]);
    }
  }

  /** What the passes make of a trap: nothing until the early placeholder's
      turn, then the late pattern stands until its turn, and is replaced then. */
  lemma PassesOnTrap(ph: seq<Placeholder>, i: nat, j: nat, d: int)
    requires Tidy(ph) && Distinct(ph) && DollarFree(ph) && i < j < |ph|
    requires 1 <= d < |Pattern(ph[j].name)|
    requires Agree(ph[i].replacement, Pattern(ph[j].name), -d)
    ensures var t, p := Sprung(ph[i], ph[j], d), Pattern(ph[j].name);
            Sequential(Trap(ph[i], ph[j], d), ph) == ph[j].replacement + t[|p|..]
  {
    var early, late := ph[i], ph[j];
    TrapSprings(early, late, d);
    var t, u := Sprung(early, late, d), late.replacement + Sprung(early, late, d)[|Pattern(late.name)|..];
    TrapUnchanged(early, late, d, ph[..i]);
    PassOnTrap(early, late, d, early);
    SprungUnchanged(early, late, d, ph[i + 1..j]);
    PassOnSprung(early, late, d, late);
    if j < |ph| - 1 {
      PlainUnchanged(u, ph[j + 1..]);
    }
    InThreeStages(ph[..i], early, ph[i + 1..j], late, ph[j + 1..], Trap(early, late, d), t, u);
    Around(ph, i, j);
  }

  /** Text without `$` cannot be overlapped from its inside. */
  lemma OverlapBefore(r: string, h: Placeholder) returns (d: int)
    requires Without(r, '$') && Confusable(r, Pattern(h.name))
    ensures 1 <= d < |Pattern(h.name)|
    ensures Agree(r, Pattern(h.name), -d)
  {
    var p := Pattern(h.name);
    var k :| -|p| < k < |r| && Agree(r, p, k);
    assert p[0] == '$';
    d := -k;
  }

  lemma TrapDisagrees(ph: seq<Placeholder>, i: nat, j: nat, d: int)
    requires Tidy(ph) && Distinct(ph) && DollarFree(ph)
    requires i < j < |ph| && Changes(ph[j])
    requires 1 <= d < |Pattern(ph[j].name)|
    requires Agree(ph[i].replacement, Pattern(ph[j].name), -d)
    ensures Sequential(Trap(ph[i], ph[j], d), ph) != Simultaneous(Trap(ph[i], ph[j], d), ph)
  {
    var t, p := Sprung(ph[i], ph[j], d), Pattern(ph[j].name);
    PassesOnTrap(ph, i, j, d);
    TrapSprings(ph[i], ph[j], d);
    assert Simultaneous(Trap(ph[i], ph[j], d), ph) == t by {
      SpringTrap(ph[i], ph[j], d, ph);
    }
    assert t == p + t[|p|..];
    SameTail(ph[j].replacement, p, t[|p|..]);
  }

  lemma SameTail(a: string, b: string, tail: string)
    ensures a + tail == b + tail ==> a == b
  {
    if a + tail == b + tail {
      assert a == (a + tail)[..|a|] && b == (b + tail)[..|b|];
    }
  }

  lemma UnstableDisagrees(ph: seq<Placeholder>) returns (s: string)
    requires Tidy(ph) && Distinct(ph) && DollarFree(ph) && !Stable(ph)
    requires Changes(ph[|ph| - 1])
    ensures Sequential(s, ph) != Simultaneous(s, ph)
  {
    var i, j :| 0 <= i < j < |ph| && Confusable(ph[i].replacement, Pattern(ph[j].name));
    var d := OverlapBefore(ph[i].replacement, ph[j]);
    assert Pattern(ph[j].name)[0] == '$';
    s := Trap(ph[i], ph[j], d);
    TrapDisagrees(ph, i, j, d);
  }

  // ----- Replacements that end in `$` -----

  /** A `$` is at most the last character of each replacement but the last. */
  predicate DollarAtEnd(ph: seq<Placeholder>) {
    forall i | 0 <= i < |ph| - 1 :: EndsPlain(ph[i].replacement)
  }

  predicate EndsPlain(r: string) {
    forall k | 0 <= k < |r| - 1 :: r[k] != '$'
  }

  /** The early placeholder, and the late pattern without its `$`. */
  function Bait(early: Placeholder, late: Placeholder): string {
    Pattern(early.name) + Pattern(late.name)[1..]
  }

  lemma PassOnBait(early: Placeholder, late: Placeholder, h: Placeholder)
    requires Tidy([early]) && Tidy([late]) && Tidy([h])
    requires h.name == early.name ==> h == early
    ensures Pass(Bait(early, late), h)
         == (if h == early then early.replacement else Pattern(early.name)) + Pattern(late.name)[1..]
  {
    PatternShape(late);
    OneAtATime(Bait(early, late), h);
    PatternThenPlain(early, Pattern(late.name)[1..], [h]);
  }

  /** The late pattern, behind plain text. */
  lemma PassOnBehind(q: string, late: Placeholder, h: Placeholder)
    requires Tidy([late]) && Tidy([h]) && Without(q, '$')
    requires h.name == late.name ==> h == late
    ensures Pass(q + Pattern(late.name), h)
         == q + (if h == late then late.replacement else Pattern(late.name))
  {
    var p := Pattern(late.name);
    OneAtATime(q + p, h);
    SimultaneousSkips(q, p, [h]);
    PatternThenPlain(late, "", [h]);
    assert p + "" == p && late.replacement + "" == late.replacement;
  }

  /** What the passes make of a bait. */
  lemma PassesOnBait(ph: seq<Placeholder>, i: nat, q: string)
    requires Tidy(ph) && Distinct(ph) && i < |ph| - 1
    requires ph[i].replacement == q + "$" && Without(q, '$')
    ensures var late := ph[|ph| - 1];
            Sequential(Bait(ph[i], late), ph) == q + late.replacement
  {
    var j := |ph| - 1;
    var early, late := ph[i], ph[j];
    var bait, taken := Bait(early, late), q + Pattern(late.name);
    PartLacks(ph, 0, i, i);
    PartLacks(ph, i + 1, j, j);
    BaitUnchanged(early, late, ph[..i]);
    BaitIsTaken(early, late, q);
    BehindUnchanged(q, late, ph[i + 1..j]);
    PassOnBehind(q, late, late);
    InThreeStages(ph[..i], early, ph[i + 1..j], late, ph[j + 1..], bait, taken, q + late.replacement);
    Around(ph, i, j);
  }

  lemma {:induction false} BaitUnchanged(early: Placeholder, late: Placeholder, g: seq<Placeholder>)
    requires Tidy([early]) && Tidy([late]) && Tidy(g) && Lacks(g, early.name)
    ensures Unchanged(Bait(early, late), g)
  {
    if g != [] {
      assert Tidy([g[|g| - 1]]);
      PassOnBait(early, late, g[|g| - 1]);
      BaitUnchanged(early, late, g[..|g| - 1]);
    }
  }

  lemma {:induction false} BehindUnchanged(q: string, late: Placeholder, g: seq<Placeholder>)
    requires Tidy([late]) && Tidy(g) && Lacks(g, late.name) && Without(q, '$')
    ensures Unchanged(q + Pattern(late.name), g)
  {
    if g != [] {
      assert Tidy([g[|g| - 1]]);
      PassOnBehind(q, late, g[|g| - 1]);
      BehindUnchanged(q, late, g[..|g| - 1]);
    }
  }

  lemma BaitIsTaken(early: Placeholder, late: Placeholder, q: string)
    requires Tidy([early]) && Tidy([late]) && early.replacement == q + "$"
    ensures Pass(Bait(early, late), early) == q + Pattern(late.name)
  {
    PassOnBait(early, late, early);
    CompletesPattern(q, late);
  }

  lemma CompletesPattern(q: string, late: Placeholder)
    ensures q + "$" + Pattern(late.name)[1..] == q + Pattern(late.name)
  {
    assert Pattern(late.name) == "$" + Pattern(late.name)[1..];
  }

  /** A replacement that ends in `$` is not read again by one pass, but completes the
      last pattern for the passes. */
  lemma DollarAtEndDisagrees(ph: seq<Placeholder>, i: nat) returns (s: string)
    requires Tidy(ph) && Distinct(ph) && DollarAtEnd(ph) && i < |ph| - 1
    requires !Without(ph[i].replacement, '$') && Changes(ph[|ph| - 1])
    ensures Sequential(s, ph) != Simultaneous(s, ph)
  {
    var late, r := ph[|ph| - 1], ph[i].replacement;
    var p, q := Pattern(late.name), r[..|r| - 1];
    assert r == q + "$";
    PassesOnBait(ph, i, q);
    PatternShape(late);
    PatternThenPlain(ph[i], p[1..], ph);
    CompletesPattern(q, late);
    SameHead(q, late.replacement, p);
    return Bait(ph[i], late);
  }

  lemma SameHead(head: string, a: string, b: string)
    ensures head + a == head + b ==> a == b
  {
    if head + a == head + b {
      assert a == (head + a)[|head|..] && b == (head + b)[|head|..];
    }
  }

  lemma {:induction false} ReplaceByItself(s: string, p: string)
    requires p != ""
    ensures Replace(s, p, p) == s
  {
    if s != "" {
      ReplaceByItself(if p <= s then s[|p|..] else s[1..], p);
    }
  }

  /** A placeholder that is replaced by itself does nothing at the end of the list,
      to neither rewriting. */
  lemma {:induction false} IdleLast(s: string, init: seq<Placeholder>, h: Placeholder)
    requires Without(h.name, '$') && !Changes(h)
    ensures Sequential(s, init + [h]) == Sequential(s, init)
    ensures Simultaneous(s, init + [h]) == Simultaneous(s, init)
    decreases |s|
  {
    var p, ph := Pattern(h.name), init + [h];
    assert ph[..|ph| - 1] == init;
    ReplaceByItself(Sequential(s, init), p);
    if s != "" {
      MatchFits(s, init);
      match Match(s, init)
      case Some(g) => IdleLast(s[|Pattern(g.name)|..], init, h);
      case None =>
        if p <= s {
          UnmatchedPattern(s, init, h);
          IdleLast(s[|p|..], init, h);
        } else {
          IdleLast(s[1..], init, h);
        }
    }
  }

  /** A pattern that no placeholder of the list matches is copied. */
  lemma UnmatchedPattern(s: string, ph: seq<Placeholder>, h: Placeholder)
    requires Without(h.name, '$') && Pattern(h.name) <= s && Match(s, ph) == None
    ensures Simultaneous(s, ph) == Pattern(h.name) + Simultaneous(s[|Pattern(h.name)|..], ph)
  {
    var p := Pattern(h.name);
    var tail := s[|p|..];
    assert s == [p[0]] + (p[1..] + tail);
    NoMatchKeeps(p[0], p[1..] + tail, ph);
    SimultaneousSkips(p[1..], tail, ph);
    Regroup(p, Simultaneous(tail, ph));
  }

  /** The list without a last placeholder that is replaced by itself. */
  function Effective(ph: seq<Placeholder>): seq<Placeholder> {
    if ph != [] && !Changes(ph[|ph| - 1]) then ph[..|ph| - 1] else ph
  }

  lemma EffectiveAgrees(ph: seq<Placeholder>, s: string)
    requires Tidy(ph)
    ensures Sequential(s, Effective(ph)) == Sequential(s, ph)
    ensures Simultaneous(s, Effective(ph)) == Simultaneous(s, ph)
  {
    if Effective(ph) != ph {
      var init, h := ph[..|ph| - 1], ph[|ph| - 1];
      assert init + [h] == ph;
      IdleLast(s, init, h);
    }
  }

  lemma EffectiveChanges(ph: seq<Placeholder>)
    requires Tidy(ph) && Distinct(ph) && DollarAtEnd(ph)
    ensures var e := Effective(ph);
            Tidy(e) && Distinct(e) && DollarAtEnd(e) && (e != [] ==> Changes(e[|e| - 1]))
  {
    var e := Effective(ph);
    if e != [] && e != ph {
      assert Pattern(e[|e| - 1].name)[0] == '$';
    }
  }

  /** Main result. With replacements that hold `$` at most at their end, and a last
      one that may hold it anywhere, rewriting one placeholder after the other
      equals replacing all of them at once, for every value, exactly when the
      placeholder list is stable, not counting a last placeholder that is replaced by
      itself. */
  lemma AgreementIsStability(ph: seq<Placeholder>)
    requires Tidy(ph) && Distinct(ph) && DollarAtEnd(ph)
    ensures (forall s :: Sequential(s, ph) == Simultaneous(s, ph)) <==> Stable(Effective(ph))
  {
    var e := Effective(ph);
    EffectiveChanges(ph);
    if Stable(e) {
      forall s ensures Sequential(s, ph) == Simultaneous(s, ph) {
        StableAgrees(s, e);
        EffectiveAgrees(ph, s);
      }
    } else if DollarFree(e) {
      var s := UnstableDisagrees(e);
      EffectiveAgrees(ph, s);
    } else {
      var i :| 0 <= i < |e| - 1 && !Without(e[i].replacement, '$');
      var s := DollarAtEndDisagrees(e, i);
      EffectiveAgrees(ph, s);
    }
  }

  // ----- Order of the placeholders -----

  /** No replacement can take part in an occurrence of another's pattern. */
  predicate StableInAnyOrder(ph: seq<Placeholder>) {
    forall g, h | g in ph && h in ph && g != h :: !Confusable(g.replacement, Pattern(h.name))
  }

  /** At most one of distinct placeholders matches. */
  lemma SameMatch(s: string, a: seq<Placeholder>, g: Placeholder, h: Placeholder)
    requires Tidy(a) && Distinct(a) && g in a && h in a
    requires Pattern(g.name) <= s && Pattern(h.name) <= s
    ensures g == h
  {
    var i :| 0 <= i < |a| && a[i] == g;
    var j :| 0 <= j < |a| && a[j] == h;
    assert Tidy([g]) && Tidy([h]);
    OnePatternFits(g, h, s);
  }

  lemma {:induction false} SameReference(s: string, a: seq<Placeholder>, b: seq<Placeholder>)
    requires Tidy(a) && Tidy(b) && Distinct(a)
    requires forall h :: h in a <==> h in b
    ensures Simultaneous(s, a) == Simultaneous(s, b)
    decreases |s|
  {
    if s != "" {
      MatchFits(s, a);
      MatchFits(s, b);
      match (Match(s, a), Match(s, b))
      case (Some(g), Some(h)) =>
        SameMatch(s, a, g, h);
        SameReference(s[|Pattern(g.name)|..], a, b);
      case (None, None) =>
        SameReference(s[1..], a, b);
      case _ => assert false;
    }
  }

  lemma StableInOrder(ph: seq<Placeholder>)
    ensures Distinct(ph) && StableInAnyOrder(ph) ==> Stable(ph)
  {}

  /** Any two orders of the same placeholders rewrite every value alike. */
  lemma OrderIsIrrelevant(s: string, a: seq<Placeholder>, b: seq<Placeholder>)
    requires Tidy(a) && Distinct(a) && Distinct(b) && StableInAnyOrder(a)
    requires forall h :: h in a <==> h in b
    ensures Sequential(s, a) == Sequential(s, b)
  {
    forall i | 0 <= i < |b| ensures Without(b[i].name, '$') && Without(b[i].name, '}') {
      assert b[i] in a;
    }
    StableInOrder(a);
    StableInOrder(b);
    StableAgrees(s, a);
    StableAgrees(s, b);
    SameReference(s, a, b);
  }

  // ----- A condition on the first character, and the program's own list -----

  /** Non-empty, without `$`, and not starting with a character that occurs in
      a pattern after its `$`. */
  predicate PlainStart(r: string, ph: seq<Placeholder>) {
    && r != "" && Without(r, '$') && r[0] != '{' && r[0] != '}'
    && forall h | h in ph :: Without(h.name, r[0])
  }

  lemma PlainStartIsStable(ph: seq<Placeholder>)
    requires forall h | h in ph :: PlainStart(h.replacement, ph)
    ensures StableInAnyOrder(ph)
  {
    forall g, h | g in ph && h in ph && g != h
      ensures !Confusable(g.replacement, Pattern(h.name))
    {
      var r, p := g.replacement, Pattern(h.name);
      assert Without(h.name, r[0]);
      forall k | -|p| < k < |r| ensures !Agree(r, p, k) {
        if k < 0 {
          assert p[-k] != r[k + -k];
        } else {
          assert p[0] != r[k + 0];
        }
      }
    }
  }

  /** The list main.rs passes, in its order. */
  function RunasPlaceholders(user: string, group: string, uid: string, gid: string, home: string): seq<Placeholder> {
    [Placeholder("USER", user), Placeholder("GROUP", group), Placeholder("UID", uid),
     Placeholder("GID", gid), Placeholder("HOME", home)]
  }

  predicate IsNumber(s: string) {
    s != "" && forall i | 0 <= i < |s| :: '0' <= s[i] <= '9'
  }

  /** The characters of the five patterns after their `$`. */
  const RUNAS_LETTERS := "{}USERGOPIDHM"

  lemma LettersOfRunas(name: string)
    requires name in ["USER", "GROUP", "UID", "GID", "HOME"]
    ensures forall i | 0 < i < |Pattern(name)| :: Pattern(name)[i] in RUNAS_LETTERS
  {
    forall i | 0 <= i < |name| ensures name[i] in RUNAS_LETTERS {
      if name == "USER" {
      } else if name == "GROUP" {
      } else {}
    }
    forall i | 0 < i < |Pattern(name)| ensures Pattern(name)[i] in RUNAS_LETTERS {
      var c := Pattern(name)[i];
      assert c == RUNAS_LETTERS[0] || c == RUNAS_LETTERS[1] || c in name;
    }
  }

  lemma StartsOutside(r: string, p: string, letters: string)
    requires r != "" && Without(r, '$') && r[0] !in letters
    requires p != "" && p[0] == '$' && forall i | 0 < i < |p| :: p[i] in letters
    ensures !Confusable(r, p)
  {
    forall k | -|p| < k < |r| ensures !Agree(r, p, k) {
      if k < 0 {
        assert p[-k] != r[k + -k];
      } else {
        assert p[0] != r[k + 0];
      }
    }
  }

  /** One pass over one pattern between two plain texts. */
  lemma PassOnOne(x: string, g: Placeholder, y: string, h: Placeholder)
    requires Tidy([g]) && Tidy([h]) && Without(x, '$') && Without(y, '$')
    requires h.name == g.name ==> h == g
    ensures Pass(x + (Pattern(g.name) + y), h)
         == x + ((if h == g then g.replacement else Pattern(g.name)) + y)
  {
    OneAtATime(x + (Pattern(g.name) + y), h);
    SimultaneousSkips(x, Pattern(g.name) + y, [h]);
    PatternThenPlain(g, y, [h]);
  }

  lemma {:induction false} OneUnchanged(x: string, g: Placeholder, y: string, hs: seq<Placeholder>)
    requires Tidy([g]) && Tidy(hs) && Lacks(hs, g.name) && Without(x, '$') && Without(y, '$')
    ensures Unchanged(x + (Pattern(g.name) + y), hs)
  {
    if hs != [] {
      assert Tidy([hs[|hs| - 1]]);
      PassOnOne(x, g, y, hs[|hs| - 1]);
      OneUnchanged(x, g, y, hs[..|hs| - 1]);
    }
  }

  lemma InTwoStages(a: seq<Placeholder>, e: Placeholder, c: seq<Placeholder>, v: string, u: string)
    requires Unchanged(v, a) && Pass(v, e) == u && Unchanged(u, c)
    ensures Sequential(v, a + [e] + c) == u
  {
    PassesGoOn(v, v, [], a);
    assert [] + a == a;
    OneMore(v, a, e);
    PassesGoOn(v, u, a + [e], c);
  }

  lemma PatternBecomesHere(x: string, y: string, a: seq<Placeholder>, g: Placeholder, c: seq<Placeholder>)
    requires Tidy([g]) && Tidy(a) && Lacks(a, g.name) && Without(x, '$') && Without(y, '$')
    requires c == [] || Without(g.replacement, '$')
    ensures Sequential(x + (Pattern(g.name) + y), a + [g] + c) == x + (g.replacement + y)
  {
    OneUnchanged(x, g, y, a);
    PassOnOne(x, g, y, g);
    if c != [] {
      PlainUnchanged(x + (g.replacement + y), c);
    }
    InTwoStages(a, g, c, x + (Pattern(g.name) + y), x + (g.replacement + y));
  }

  /** A value with one pattern becomes the value with its replacement. */
  lemma PatternBecomes(x: string, y: string, ph: seq<Placeholder>, i: nat)
    requires Tidy(ph) && Distinct(ph) && i < |ph| && Without(x, '$') && Without(y, '$')
    requires i == |ph| - 1 || Without(ph[i].replacement, '$')
    ensures Sequential(x + (Pattern(ph[i].name) + y), ph) == x + (ph[i].replacement + y)
  {
    PartLacks(ph, 0, i, i);
    var a, g, c := ph[..i], ph[i], ph[i + 1..];
    AroundOne(ph, i);
    assert Tidy(a) && Lacks(a, g.name) && Tidy([g]);
    PatternBecomesHere(x, y, a, g, c);
  }

  lemma AroundOne(ph: seq<Placeholder>, i: nat)
    requires i < |ph|
    ensures ph == ph[..i] + [ph[i]] + ph[i + 1..]
  {}

  lemma RunasIsTidy(user: string, group: string, uid: string, gid: string, home: string)
    ensures var ph := RunasPlaceholders(user, group, uid, gid, home);
            Tidy(ph) && Distinct(ph)
  {}

  lemma RunasDollars(user: string, group: string, uid: string, gid: string, home: string)
    requires IsNumber(uid) && IsNumber(gid) && EndsPlain(user) && EndsPlain(group)
    ensures DollarAtEnd(RunasPlaceholders(user, group, uid, gid, home))
  {
    var ph := RunasPlaceholders(user, group, uid, gid, home);
    forall i | 0 <= i < |ph| - 1 ensures EndsPlain(ph[i].replacement) {
      assert ph[i].replacement in [user, group, uid, gid];
    }
  }

  lemma RunasNames()
    ensures Pattern("USER") == "${USER}" && Pattern("GROUP") == "${GROUP}" && Pattern("UID") == "${UID}"
    ensures Pattern("GID") == "${GID}" && Pattern("HOME") == "${HOME}"
  {}

  /** What each of the program's five patterns becomes. */
  lemma RunasPatterns(x: string, y: string, user: string, group: string, uid: string, gid: string, home: string)
    requires IsNumber(uid) && IsNumber(gid) && Without(x, '$') && Without(y, '$')
    ensures var ph := RunasPlaceholders(user, group, uid, gid, home);
            && (Without(user, '$') ==> Sequential(x + ("${USER}" + y), ph) == x + (user + y))
            && (Without(group, '$') ==> Sequential(x + ("${GROUP}" + y), ph) == x + (group + y))
            && Sequential(x + ("${UID}" + y), ph) == x + (uid + y)
            && Sequential(x + ("${GID}" + y), ph) == x + (gid + y)
            && Sequential(x + ("${HOME}" + y), ph) == x + (home + y)
  {
    var ph := RunasPlaceholders(user, group, uid, gid, home);
    RunasIsTidy(user, group, uid, gid, home);
    RunasNames();
    forall i | 0 <= i < 5 && (i == 4 || Without(ph[i].replacement, '$'))
      ensures Sequential(x + (Pattern(ph[i].name) + y), ph) == x + (ph[i].replacement + y)
    {
      PatternBecomes(x, y, ph, i);
    }
    assert ph[0].name == "USER" && ph[1].name == "GROUP" && ph[2].name == "UID";
    assert ph[3].name == "GID" && ph[4].name == "HOME";
  }

  /** With decimal ids, the program's own rewriting is the one-pass rewriting
      as long as user and group names are non-empty, hold no `$` and do not
      start with a brace or a letter of the five names. The home directory,
      rewritten last, may be any text. */
  lemma RunasRewriting(s: string, user: string, group: string, uid: string, gid: string, home: string)
    requires IsNumber(uid) && IsNumber(gid)
    requires forall n | n in [user, group] ::
               n != "" && Without(n, '$') && n[0] !in RUNAS_LETTERS
    ensures var ph := RunasPlaceholders(user, group, uid, gid, home);
            Sequential(s, ph) == Simultaneous(s, ph)
  {
    var ph := RunasPlaceholders(user, group, uid, gid, home);
    forall i, j | 0 <= i < j < |ph| ensures !Confusable(ph[i].replacement, Pattern(ph[j].name)) {
      var r := ph[i].replacement;
      assert r in [user, group] || IsNumber(r);
      LettersOfRunas(ph[j].name);
      StartsOutside(r, Pattern(ph[j].name), RUNAS_LETTERS);
    }
    StableAgrees(s, ph);
  }

  /** For names that hold `$` at most at their end, as those of accounts do, that is
      so exactly when the program's list is stable. */
  lemma RunasAgreement(user: string, group: string, uid: string, gid: string, home: string)
    requires IsNumber(uid) && IsNumber(gid) && EndsPlain(user) && EndsPlain(group)
    ensures var ph := RunasPlaceholders(user, group, uid, gid, home);
            (forall s :: Sequential(s, ph) == Simultaneous(s, ph)) <==> Stable(Effective(ph))
  {
    RunasIsTidy(user, group, uid, gid, home);
    RunasDollars(user, group, uid, gid, home);
    AgreementIsStability(RunasPlaceholders(user, group, uid, gid, home));
  }

  /** A user whose name ends in `$`, as those of machine accounts do: the two
      differ, whatever the rest. */
  lemma DollarNameDisagrees(name: string, group: string, uid: string, gid: string, home: string) returns (s: string)
    requires IsNumber(uid) && IsNumber(gid) && EndsPlain(group) && Without(name, '$')
    ensures var ph := RunasPlaceholders(name + "$", group, uid, gid, home);
            Sequential(s, ph) != Simultaneous(s, ph)
  {
    var ph := RunasPlaceholders(name + "$", group, uid, gid, home);
    var e := Effective(ph);
    assert e[0] == ph[0] && (name + "$")[|name|] == '$';
    EffectiveChanges(ph);
    s := DollarAtEndDisagrees(e, 0);
    EffectiveAgrees(ph, s);
  }

  /** Outside the condition the two differ: user `HOME` and `${${USER}}`. */
  lemma UserNamedHome()
    ensures var ph := RunasPlaceholders("HOME", "users", "1000", "1000", "/root");
            Sequential("${${USER}}", ph) != Simultaneous("${${USER}}", ph)
  {
    var ph := RunasPlaceholders("HOME", "users", "1000", "1000", "/root");
    assert "${${USER}}" == Trap(ph[0], ph[4], 2);
    TrapDisagrees(ph, 0, 4, 2);
  }

  // ----- The loop of the source -----

  /** A pass changes nothing when its pattern does not occur, so the source may
      skip it. */
  lemma {:induction false} NoOccurrence(s: string, p: string, r: string)
    requires p != "" && !Contains(s, p)
    ensures Replace(s, p, r) == s
  {
    if s != "" {
      assert s[0..] == s;
      forall i | 0 <= i <= |s[1..]| ensures !(p <= s[1..][i..]) {
        assert s[1..][i..] == s[i + 1..];
      }
      NoOccurrence(s[1..], p, r);
    }
  }

  method Rewrite(original: string, ph: seq<Placeholder>) returns (value: string)
    ensures value == Sequential(original, ph)
  {
    value := original;
    for k := 0 to |ph|
      invariant value == Sequential(original, ph[..k])
    {
      var pattern := Pattern(ph[k].name);
      assert ph[..k + 1][..k] == ph[..k];
      if Contains(value, pattern) {
        value := Replace(value, pattern, ph[k].replacement);
      } else {
        NoOccurrence(value, pattern, ph[k].replacement);
      }
    }
    assert ph[..|ph|] == ph;
  }
}
