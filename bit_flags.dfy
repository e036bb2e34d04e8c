/**
 * `bits(*positions)`: the OR of `1 << p` over the given bit positions, on
 * Python's unbounded non-negative integers. Bitwise OR is defined digit by
 * digit in base 2, and the lemmas read values back one bit at a time.
 */
module BitFlags {

  /** `1 << p`: positive (`Pow2Bit`: bit `p` is its only bit). */
  function Pow2(p: nat): (r: nat)
    ensures r >= 1
  {
    if p == 0 then 1 else 2 * Pow2(p - 1)
  }

  /** `(x >> k) & 1 == 1`: a number with bit `k` set is at least `1 << k`. */
  predicate Bit(x: nat, k: nat)
    ensures Bit(x, k) ==> x >= Pow2(k)
  {
    if k == 0 then x % 2 == 1 else Bit(x / 2, k - 1)
  }

  /** `a | b` (`OrBit` states it bit by bit, `OrBounds` bounds it). */
  function Or(a: nat, b: nat): nat
    decreases a + b
  {
    if a == 0 then b
    else if b == 0 then a
    else 2 * Or(a / 2, b / 2) + (if a % 2 == 1 || b % 2 == 1 then 1 else 0)
  }

  /**
   * `bits(*positions)`: zero exactly for no positions (`BitsBit` states it
   * bit by bit).
   */
  function Bits(positions: seq<nat>): (r: nat)
    ensures r == 0 <==> positions == []
  {
    if positions == [] then 0
    else
      OrBounds(Pow2(positions[0]), Bits(positions[1..]));
      Or(Pow2(positions[0]), Bits(positions[1..]))
  }

  /** No bit is set in both values. */
  ghost predicate Disjoint(a: nat, b: nat) {
    forall k: nat :: !(Bit(a, k) && Bit(b, k))
  }

  /** A bit of `a | b` is set exactly when it is set in `a` or in `b`. */
  lemma {:induction false} OrBit(a: nat, b: nat, k: nat)
    ensures Bit(Or(a, b), k) <==> Bit(a, k) || Bit(b, k)
    decreases k
  {
    if a == 0 {
      ZeroHasNoBits(k);
    } else if b == 0 {
      ZeroHasNoBits(k);
    } else if k > 0 {
      var low := if a % 2 == 1 || b % 2 == 1 then 1 else 0;
      assert Or(a, b) / 2 == Or(a / 2, b / 2) by {
        assert Or(a, b) == 2 * Or(a / 2, b / 2) + low;
      }
      OrBit(a / 2, b / 2, k - 1);
    }
  }

  /** `a | b` is at least each operand and at most their sum. */
  lemma {:induction false} OrBounds(a: nat, b: nat)
    ensures a <= Or(a, b) && b <= Or(a, b) && Or(a, b) <= a + b
    decreases a + b
  {
    if a != 0 && b != 0 {
      OrBounds(a / 2, b / 2);
    }
  }

  lemma {:induction false} ZeroHasNoBits(k: nat)
    ensures !Bit(0, k)
  {
    if k > 0 {
      ZeroHasNoBits(k - 1);
    }
  }

  /** `1 << p` has bit `p` set and no other. */
  lemma {:induction false} Pow2Bit(p: nat, k: nat)
    ensures Bit(Pow2(p), k) <==> k == p
    decreases p
  {
    if p == 0 {
      if k > 0 {
        ZeroHasNoBits(k - 1);
      }
    } else if k > 0 {
      Pow2Bit(p - 1, k - 1);
    }
  }

  /** The bits set in `bits(*positions)` are exactly the listed positions. */
  lemma {:induction false} BitsBit(positions: seq<nat>, k: nat)
    ensures Bit(Bits(positions), k) <==> k in positions
  {
    if positions == [] {
      ZeroHasNoBits(k);
    } else {
      OrBit(Pow2(positions[0]), Bits(positions[1..]), k);
      Pow2Bit(positions[0], k);
      BitsBit(positions[1..], k);
      assert positions == [positions[0]] + positions[1..];
    }
  }

  /** Two values with the same bits are equal. */
  lemma {:induction false} BitsDetermineValue(a: nat, b: nat)
    requires forall k: nat :: Bit(a, k) <==> Bit(b, k)
    ensures a == b
    decreases a + b
  {
    if a != 0 || b != 0 {
      assert Bit(a, 0) <==> Bit(b, 0);
      forall k: nat
        ensures Bit(a / 2, k) <==> Bit(b / 2, k)
      {
        assert Bit(a, k + 1) <==> Bit(b, k + 1);
      }
      BitsDetermineValue(a / 2, b / 2);
    }
  }

  /**
   * Order and repetition of the positions do not matter: lists naming the
   * same positions compose to the same value.
   */
  lemma SamePositionsSameBits(ps: seq<nat>, qs: seq<nat>)
    requires forall p :: p in ps <==> p in qs
    ensures Bits(ps) == Bits(qs)
  {
    forall k: nat
      ensures Bit(Bits(ps), k) <==> Bit(Bits(qs), k)
    {
      BitsBit(ps, k);
      BitsBit(qs, k);
    }
    BitsDetermineValue(Bits(ps), Bits(qs));
  }

  /** Compositions over position lists with no position in common share no bit. */
  lemma BitsDisjoint(ps: seq<nat>, qs: seq<nat>)
    requires forall p :: p in ps ==> p !in qs
    ensures Disjoint(Bits(ps), Bits(qs))
  {
    forall k: nat
      ensures !(Bit(Bits(ps), k) && Bit(Bits(qs), k))
    {
      BitsBit(ps, k);
      BitsBit(qs, k);
    }
  }

  /** A value sharing no bit with `a` nor with `b` shares none with `a | b`. */
  lemma OrDisjoint(a: nat, b: nat, c: nat)
    requires Disjoint(a, c) && Disjoint(b, c)
    ensures Disjoint(Or(a, b), c)
  {
    forall k: nat
      ensures !(Bit(Or(a, b), k) && Bit(c, k))
    {
      OrBit(a, b, k);
    }
  }

  /** OR of values with no common bit is their sum. */
  lemma {:induction false} OrDisjointIsSum(a: nat, b: nat)
    requires Disjoint(a, b)
    ensures Or(a, b) == a + b
    decreases a + b
  {
    if a != 0 && b != 0 {
      assert !(Bit(a, 0) && Bit(b, 0));
      forall k: nat
        ensures !(Bit(a / 2, k) && Bit(b / 2, k))
      {
        assert !(Bit(a, k + 1) && Bit(b, k + 1));
      }
      OrDisjointIsSum(a / 2, b / 2);
    }
  }

  /** The sum of `1 << p` over a list of positions. */
  function SumPow2(positions: seq<nat>): nat {
    if positions == [] then 0 else Pow2(positions[0]) + SumPow2(positions[1..])
  }

  /** For positions listed once each, `bits` is the sum of the powers of two. */
  lemma {:induction false} BitsOfDistinct(positions: seq<nat>)
    requires forall i, j :: 0 <= i < j < |positions| ==> positions[i] != positions[j]
    ensures Bits(positions) == SumPow2(positions)
  {
    if positions != [] {
      var tail := positions[1..];
      BitsOfDistinct(tail);
      forall k: nat
        ensures !(Bit(Pow2(positions[0]), k) && Bit(Bits(tail), k))
      {
        Pow2Bit(positions[0], k);
        BitsBit(tail, k);
      }
      OrDisjointIsSum(Pow2(positions[0]), Bits(tail));
    }
  }

  /** `BitsBit` for every bit position at once. */
  lemma BitsPositions(positions: seq<nat>)
    ensures forall k: nat :: Bit(Bits(positions), k) <==> k in positions
  {
    forall k: nat
      ensures Bit(Bits(positions), k) <==> k in positions
    {
      BitsBit(positions, k);
    }
  }

  /** `1 << (a + b) == (1 << a) * (1 << b)` */
  lemma {:induction false} Pow2Add(a: nat, b: nat)
    ensures Pow2(a + b) == Pow2(a) * Pow2(b)
    decreases a
  {
    if a > 0 {
      Pow2Add(a - 1, b);
    }
  }

  /** The powers of two the command table uses. */
  lemma Pow2Table()
    ensures Pow2(0) == 1 && Pow2(1) == 2 && Pow2(2) == 4 && Pow2(8) == 0x100 && Pow2(9) == 0x200
    ensures Pow2(18) == 0x4_0000 && Pow2(20) == 0x10_0000 && Pow2(22) == 0x40_0000
    ensures Pow2(24) == 0x100_0000 && Pow2(28) == 0x1000_0000
  {
    assert Pow2(4) == 0x10;
    Pow2Add(4, 4);
    Pow2Add(8, 1);
    Pow2Add(8, 8);
    Pow2Add(16, 2);
    Pow2Add(16, 4);
    Pow2Add(20, 2);
    Pow2Add(16, 8);
    Pow2Add(24, 4);
  }
}
