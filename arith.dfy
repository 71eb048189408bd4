/**
 * Ripple-carry binary addition on little-endian bit lists: a half adder, a
 * full adder built from two of them, a loop that adds two bit lists of any
 * lengths, and the conversions between naturals and bit lists.
 */
module Arith {
  import opened Wrappers

  /** A binary digit, held in an integer as the adders and conversions hold it. */
  type Bit = b: int | 0 <= b <= 1

  /** Bits, least significant first. */
  type Bits = seq<Bit>

  /** Bitwise exclusive or, and and inclusive or, of two bits. */
  function Xor(a: Bit, b: Bit): Bit {
    ((a as bv1) ^ (b as bv1)) as int
  }

  function And(a: Bit, b: Bit): Bit {
    ((a as bv1) & (b as bv1)) as int
  }

  function Or(a: Bit, b: Bit): Bit {
    ((a as bv1) | (b as bv1)) as int
  }

  function HalfAdder(a: Bit, b: Bit): (r: (Bit, Bit))
    ensures r.0 == (a + b) % 2 && r.1 == (a + b) / 2
  {
    (Xor(a, b), And(a, b))
  }

  /** The half adder's sum is the xor and its carry the and of its inputs. */
  lemma {:induction false} HalfAdderTable()
    ensures HalfAdder(0, 0) == (0, 0) && HalfAdder(0, 1) == (1, 0)
    ensures HalfAdder(1, 0) == (1, 0) && HalfAdder(1, 1) == (0, 1)
  {
  }

  /** The sum bit plus twice the carry is the arithmetic sum of the inputs. */
  lemma {:induction false} HalfAdderAdds(a: Bit, b: Bit)
    ensures HalfAdder(a, b).0 + 2 * HalfAdder(a, b).1 == a + b
  {
    HalfAdderTable();
  }

  function FullAdder(a: Bit, b: Bit, ci: Bit): (r: (Bit, Bit))
    ensures r.0 == (a + b + ci) % 2 && r.1 == (a + b + ci) / 2
  {
    var (s, c1) := HalfAdder(a, b);
    var (sm, c2) := HalfAdder(s, ci);
    (sm, Or(c1, c2))
  }

  /** The full adder's truth table, with the carry in as the last input. */
  lemma {:induction false} FullAdderTable()
    ensures FullAdder(0, 0, 0) == (0, 0) && FullAdder(0, 0, 1) == (1, 0)
    ensures FullAdder(0, 1, 0) == (1, 0) && FullAdder(0, 1, 1) == (0, 1)
    ensures FullAdder(1, 0, 0) == (1, 0) && FullAdder(1, 0, 1) == (0, 1)
    ensures FullAdder(1, 1, 0) == (0, 1) && FullAdder(1, 1, 1) == (1, 1)
  {
  }

  /** The sum bit plus twice the carry out is the arithmetic sum of the three inputs. */
  lemma {:induction false} FullAdderAdds(a: Bit, b: Bit, ci: Bit)
    ensures FullAdder(a, b, ci).0 + 2 * FullAdder(a, b, ci).1 == a + b + ci
  {
    FullAdderTable();
  }

  function Pow2(n: nat): (p: nat)
    ensures p >= 1
  {
    if n == 0 then 1 else 2 * Pow2(n - 1)
  }

  /** The number a bit list stands for. */
  function Value(bs: Bits): nat {
    if bs == [] then 0 else bs[0] + 2 * Value(bs[1..])
  }

  /** A bit added at the top is worth its power of two. */
  lemma {:induction false} ValueSnoc(bs: Bits, b: Bit)
    ensures Value(bs + [b]) == Value(bs) + b * Pow2(|bs|)
  {
    if bs != [] {
      assert (bs + [b])[1..] == bs[1..] + [b];
      ValueSnoc(bs[1..], b);
    } else {
      assert [b][1..] == [];
    }
  }

  /** `n` bits stand for less than `2^n`. */
  lemma {:induction false} ValueBound(bs: Bits)
    ensures Value(bs) < Pow2(|bs|)
  {
    if bs != [] {
      ValueBound(bs[1..]);
    }
  }

  /** The bit at `i`, and 0 past the end. */
  function BitAt(bs: Bits, i: nat): Bit {
    if i < |bs| then bs[i] else 0
  }

  /** The first `i` bits, or all of them when there are fewer. */
  function Low(bs: Bits, i: nat): Bits {
    if i < |bs| then bs[..i] else bs
  }

  /** Taking one more position adds the bit there at its weight. */
  lemma {:induction false} LowStep(bs: Bits, i: nat)
    ensures Value(Low(bs, i + 1)) == Value(Low(bs, i)) + BitAt(bs, i) * Pow2(i)
  {
    if i < |bs| {
      assert Low(bs, i + 1) == bs[..i] + [bs[i]];
      ValueSnoc(bs[..i], bs[i]);
    }
  }

  function Max(a: nat, b: nat): nat {
    if a < b then b else a
  }

  /**
   * A bit list as the conversion from a natural writes it: at least one bit
   * and no zero at the top, except for the single bit 0.
   */
  predicate Canonical(bs: Bits) {
    |bs| >= 1 && (|bs| == 1 || bs[|bs| - 1] == 1)
  }

  /** The binary digits of `n`, least significant first, without leading zeros. */
  function Binary(n: nat): Bits {
    if n < 2 then [n] else [n % 2] + Binary(n / 2)
  }

  /** The conversion of an integer to bits; a negative integer has no binary digits to convert and fails. */
  function ToBinary(n: int): (r: Option<Bits>)
    ensures r.None? <==> n < 0
  {
    if n < 0 then None else Some(Binary(n))
  }

  /** The bits of `n` are canonical and stand for `n`. */
  lemma {:induction false} BinaryValue(n: nat)
    ensures Value(Binary(n)) == n && Canonical(Binary(n))
  {
    if n >= 2 {
      BinaryValue(n / 2);
      var b := Binary(n);
      assert b[1..] == Binary(n / 2);
      assert b[|b| - 1] == Binary(n / 2)[|Binary(n / 2)| - 1];
    }
  }

  /** A canonical list is exactly the bits of the number it stands for. */
  lemma {:induction false} CanonicalUnique(bs: Bits)
    requires Canonical(bs)
    ensures bs == Binary(Value(bs))
  {
    if |bs| > 1 {
      var rest := bs[1..];
      assert Canonical(rest) by {
        assert rest[|rest| - 1] == bs[|bs| - 1];
      }
      CanonicalUnique(rest);
      CanonicalValue(rest);
      assert Value(rest) >= 1;
    }
  }

  /** A list of at least one bit is canonical exactly when it is one bit long or its value needs all its bits. */
  lemma {:induction false} CanonicalValue(bs: Bits)
    requires |bs| >= 1
    ensures Canonical(bs) <==> (|bs| == 1 || Value(bs) >= Pow2(|bs| - 1))
  {
    var n := |bs| - 1;
    assert bs == bs[..n] + [bs[n]];
    ValueSnoc(bs[..n], bs[n]);
    ValueBound(bs[..n]);
  }

  /** Two canonical lists together need all the bits of the longer one. */
  lemma {:induction false} LongerNeedsAllBits(xs: Bits, ys: Bits)
    requires Canonical(xs) && Canonical(ys) && Max(|xs|, |ys|) > 1
    ensures Value(xs) + Value(ys) >= Pow2(Max(|xs|, |ys|) - 1)
  {
    if |xs| >= |ys| {
      CanonicalValue(xs);
    } else {
      CanonicalValue(ys);
    }
  }

  /** A sum of two canonical lists, with the length the adder gives it, is canonical, so it is the bits of the sum. */
  lemma {:induction false} SumCanonical(xs: Bits, ys: Bits, zs: Bits)
    requires Canonical(xs) && Canonical(ys)
    requires Value(zs) == Value(xs) + Value(ys)
    requires var m := Max(|xs|, |ys|);
             |zs| == (if Value(xs) + Value(ys) >= Pow2(m) then m + 1 else m)
    ensures Canonical(zs) && zs == Binary(Value(xs) + Value(ys))
  {
    var m := Max(|xs|, |ys|);
    var n := Value(xs) + Value(ys);
    CanonicalValue(zs);
    if n < Pow2(m) && m > 1 {
      LongerNeedsAllBits(xs, ys);
    }
    CanonicalUnique(zs);
  }

  /** One position of the ripple: the sum so far, with the carry at its weight, stays the sum of the operands so far. */
  lemma {:induction false} CarryStep(vz: nat, vx: nat, vy: nat, p: nat, q: nat, x: Bit, y: Bit, c: Bit, z: Bit, c2: Bit)
    requires vz + c * p == vx + vy && z + 2 * c2 == x + y + c && q == 2 * p
    ensures vz + z * p + c2 * q == (vx + x * p) + (vy + y * p)
  {
    assert z * p + c2 * q == (z + 2 * c2) * p;
  }

  /** The sum of the operands' first `i` bits, with the carry into position `i` at its weight. */
  predicate Rippled(xs: Bits, ys: Bits, zs: Bits, c: Bit, i: nat) {
    |zs| == i && Value(zs) + c * Pow2(i) == Value(Low(xs, i)) + Value(Low(ys, i))
  }

  /** Adding the bits at position `i` with the full adder extends a rippled prefix by one position. */
  lemma {:induction false} RippleStep(xs: Bits, ys: Bits, zs: Bits, c: Bit, i: nat)
    requires Rippled(xs, ys, zs, c, i)
    ensures var sum := FullAdder(BitAt(xs, i), BitAt(ys, i), c);
            Rippled(xs, ys, zs + [sum.0], sum.1, i + 1)
  {
    var x, y := BitAt(xs, i), BitAt(ys, i);
    var (z, c2) := FullAdder(x, y, c);
    FullAdderAdds(x, y, c);
    CarryStep(Value(zs), Value(Low(xs, i)), Value(Low(ys, i)), Pow2(i), Pow2(i + 1), x, y, c, z, c2);
    ValueSnoc(zs, z);
    LowStep(xs, i);
    LowStep(ys, i);
  }

  /** Once every position is added, appending the last carry when set gives the sum, one bit longer exactly when it overflows. */
  lemma {:induction false} FinalCarry(xs: Bits, ys: Bits, zs: Bits, c: Bit, out: Bits)
    requires Rippled(xs, ys, zs, c, Max(|xs|, |ys|))
    requires out == if c == 1 then zs + [1] else zs
    ensures Value(out) == Value(xs) + Value(ys)
    ensures var m := Max(|xs|, |ys|);
            |out| == (if Value(xs) + Value(ys) >= Pow2(m) then m + 1 else m)
  {
    var m := Max(|xs|, |ys|);
    assert Low(xs, m) == xs && Low(ys, m) == ys;
    ValueBound(zs);
    ValueSnoc(zs, 1);
  }

  /**
   * Adds two bit lists position by position, carrying into the next
   * position, and appends the last carry when it is set.
   */
  method AddNums(xs: Bits, ys: Bits) returns (zs: Bits)
    ensures Value(zs) == Value(xs) + Value(ys)
    ensures var m := Max(|xs|, |ys|);
            |zs| == (if Value(xs) + Value(ys) >= Pow2(m) then m + 1 else m)
    ensures Canonical(xs) && Canonical(ys) ==> zs == Binary(Value(xs) + Value(ys))
  {
    var m := Max(|xs|, |ys|);
    zs := [];
    var c: Bit := 0;
    var i := 0;
    while i < m
      invariant i <= m && Rippled(xs, ys, zs, c, i)
    {
      var x := BitAt(xs, i);
      var y := BitAt(ys, i);
      RippleStep(xs, ys, zs, c, i);
      var sum := FullAdder(x, y, c);
      zs := zs + [sum.0];
      c := sum.1;
      i := i + 1;
    }
    ghost var low := zs;
    if c == 1 {
      zs := zs + [c];
    }
    FinalCarry(xs, ys, low, c, zs);
    if Canonical(xs) && Canonical(ys) {
      SumCanonical(xs, ys, zs);
    }
  }

  /** The number a bit list stands for, read from the top bit down. */
  method ToInteger(bs: Bits) returns (r: nat)
    ensures r == Value(bs)
  {
    r := 0;
    var k := |bs|;
    while k > 0
      invariant 0 <= k <= |bs| && r == Value(bs[k..])
    {
      k := k - 1;
      assert bs[k..][1..] == bs[k + 1..];
      r := r * 2;
      r := r + bs[k];
    }
    assert bs[0..] == bs;
  }

  /** Converting a natural to bits and back gives the natural. */
  lemma {:induction false} ToIntegerOfToBinary(n: int)
    requires n >= 0
    ensures ToBinary(n).Some? && Value(ToBinary(n).value) == n
  {
    BinaryValue(n);
  }

  /** A canonical list converted to an integer and back gives the list. */
  lemma {:induction false} ToBinaryOfToInteger(bs: Bits)
    requires Canonical(bs)
    ensures ToBinary(Value(bs)) == Some(bs)
  {
    CanonicalUnique(bs);
  }

  /** Adding in binary and converting back gives the integer sum. */
  method AddInBinary(a: nat, b: nat) returns (c: nat)
    ensures c == a + b
  {
    var abin := Binary(a);
    var bbin := Binary(b);
    var cbin := AddNums(abin, bbin);
    c := ToInteger(cbin);
    BinaryValue(a);
    BinaryValue(b);
  }

  /** The bits of thirty-four, least significant first. */
  lemma {:induction false} BinaryOfThirtyFour()
    ensures Binary(34) == [0, 1, 0, 0, 0, 1]
  {
    assert Binary(2) == [0, 1];
    assert Binary(4) == [0] + Binary(2);
    assert Binary(8) == [0] + Binary(4);
    assert Binary(17) == [1] + Binary(8);
    assert Binary(34) == [0] + Binary(17);
  }

  /** Ten plus twenty-four in binary is the binary of thirty-four, which reads back as thirty-four. */
  method AddTenAndTwentyFour() returns (zs: Bits, n: nat)
    ensures zs == Binary(34) && zs == [0, 1, 0, 0, 0, 1] && n == 34
  {
    BinaryValue(10);
    BinaryValue(24);
    zs := AddNums(Binary(10), Binary(24));
    n := ToInteger(Binary(34));
    BinaryValue(34);
    BinaryOfThirtyFour();
  }
}
