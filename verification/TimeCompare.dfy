/** `time_compare` of src/modules/passwd.rs. */
module TimeCompare {
  import opened Common

  /** Bitwise exclusive or, `^`, at any width. */
  function Xor(a: nat, b: nat): nat
  {
    if a == 0 && b == 0 then 0
    else 2 * Xor(a / 2, b / 2) + (if a % 2 == b % 2 then 0 else 1)
  }

  /** Bitwise inclusive or, `|`, at any width. */
  function Or(a: nat, b: nat): nat
  {
    if a == 0 && b == 0 then 0
    else 2 * Or(a / 2, b / 2) + (if a % 2 == 0 && b % 2 == 0 then 0 else 1)
  }

  /** `!` on a byte. */
  function Not(b: Byte): Byte
  {
    255 - b
  }

  function Power(n: nat): nat
  {
    if n == 0 then 1 else 2 * Power(n - 1)
  }

  /** The lowest `n` bits are all set. */
  predicate LowBitsSet(a: nat, n: nat)
  {
    n == 0 || (a % 2 == 1 && LowBitsSet(a / 2, n - 1))
  }

  lemma {:induction false} XorIsZero(a: nat, b: nat)
    ensures Xor(a, b) == 0 <==> a == b
  {
    if a != 0 || b != 0 {
      XorIsZero(a / 2, b / 2);
    }
  }

  lemma {:induction false} OrIsZero(a: nat, b: nat)
    ensures Or(a, b) == 0 <==> a == 0 && b == 0
  {
    if a != 0 || b != 0 {
      OrIsZero(a / 2, b / 2);
    }
  }

  /** The number has no bits beyond the lowest `n`. */
  predicate Fits(a: nat, n: nat)
  {
    if n == 0 then a == 0 else Fits(a / 2, n - 1)
  }

  /** The accumulator never leaves the width of its operands, whatever a `usize` is wide. */
  lemma {:induction false} StaysInWidth(a: nat, b: nat, width: nat)
    requires Fits(a, width) && Fits(b, width)
    ensures Fits(Xor(a, b), width) && Fits(Or(a, b), width)
  {
    if width > 0 {
      StaysInWidth(a / 2, b / 2, width - 1);
      XorParts(a, b);
      OrParts(a, b);
      assert Fits(Xor(a, b) / 2, width - 1) && Fits(Or(a, b) / 2, width - 1);
    }
  }

  lemma XorParts(a: nat, b: nat)
    ensures Xor(a, b) / 2 == Xor(a / 2, b / 2) && (Xor(a, b) % 2 == 1 <==> a % 2 != b % 2)
  {}

  lemma OrParts(a: nat, b: nat)
    ensures Or(a, b) / 2 == Or(a / 2, b / 2) && (Or(a, b) % 2 == 1 <==> a % 2 == 1 || b % 2 == 1)
  {}

  lemma ComplementParts(a: nat, p: nat)
    requires a < 2 * p
    ensures (2 * p - 1 - a) / 2 == p - 1 - a / 2 && (2 * p - 1 - a) % 2 != a % 2
  {}

  lemma {:induction false} ComplementSetsAll(a: nat, width: nat)
    requires a < Power(width)
    ensures LowBitsSet(Xor(a, Power(width) - 1 - a), width)
  {
    if width > 0 {
      var b := Power(width) - 1 - a;
      ComplementParts(a, Power(width - 1));
      ComplementSetsAll(a / 2, width - 1);
      XorParts(a, b);
      assert LowBitsSet(Xor(a, b) / 2, width - 1);
    }
  }

  /** A byte compared with its own inverse differs in every bit. */
  lemma InverseNeverMatches(b: Byte)
    ensures LowBitsSet(Xor(b as nat, Not(b) as nat), 8)
  {
    assert Power(4) == 16;
    assert Power(8) == 256;
    ComplementSetsAll(b as nat, 8);
  }

  lemma {:induction false} OrKeepsBits(a: nat, b: nat, n: nat)
    requires LowBitsSet(a, n) || LowBitsSet(b, n)
    ensures LowBitsSet(Or(a, b), n)
  {
    if n > 0 {
      OrKeepsBits(a / 2, b / 2, n - 1);
      OrParts(a, b);
      assert LowBitsSet(Or(a, b) / 2, n - 1);
    }
  }

  /**
   * `rounds` counts the turns of the comparing loop and `result` is what that loop accumulated:
   * past the end of a shorter secret the known text is compared with its inverse, never with itself.
   */
  method TimeCompare(known: seq<Byte>, secret: seq<Byte>) returns (same: bool, rounds: nat, result: nat)
    ensures same <==> known == secret
    ensures rounds == |known|
    ensures same <==> result == 0
    ensures |secret| < |known| ==> LowBitsSet(result, 8)
  {
    var n := |known|;
    result := Xor(n, |secret|);
    XorIsZero(n, |secret|);
    var inverse := new Byte[n];
    for i := 0 to n
      invariant forall j | 0 <= j < i :: inverse[j] == Not(known[j])
    {
      inverse[i] := Not(known[i]);
    }
    rounds := 0;
    for i := 0 to n
      invariant rounds == i
      invariant forall j | 0 <= j < n :: inverse[j] == Not(known[j])
      invariant result == 0 <==> n == |secret| && known[..i] == secret[..i]
      invariant |secret| < i ==> LowBitsSet(result, 8)
    {
      var other := if i >= |secret| then inverse[i] else secret[i];
      var difference := Xor(known[i] as nat, other as nat);
      XorIsZero(known[i] as nat, other as nat);
      OrIsZero(result, difference);
      if i >= |secret| {
        InverseNeverMatches(known[i]);
        OrKeepsBits(result, difference, 8);
      }
      result := Or(result, difference);
      rounds := rounds + 1;
    }
    same := result == 0;
  }
}
