/**
 * The xorshift32 generator (src/rng.rs): a 32-bit state that each draw
 * rewrites with three xor-shift steps before reducing it modulo the bound.
 */
module Random {
  /** An unsigned 32-bit integer, the type of the bound and of the drawn value. */
  newtype u32 = x: int | 0 <= x < 0x1_0000_0000

  /** The first step of a draw: xor with the state shifted left by 13. */
  function ShiftLeft13(x: bv32): bv32 { x ^ (x << 13) }

  /** The second step: xor with the state shifted right by 7. */
  function ShiftRight7(x: bv32): bv32 { x ^ (x >> 7) }

  /** The third step: xor with the state shifted left by 5. */
  function ShiftLeft5(x: bv32): bv32 { x ^ (x << 5) }

  /** The state update of one draw: the three steps in order; bits shifted out are lost. */
  function XorShift(s: bv32): bv32 {
    ShiftLeft5(ShiftRight7(ShiftLeft13(s)))
  }

  /** Undoes the first step. */
  function UnshiftLeft13(y: bv32): bv32 {
    y ^ (y << 13) ^ (y << 26)
  }

  /** Undoes the second step. */
  function UnshiftRight7(y: bv32): bv32 {
    y ^ (y >> 7) ^ (y >> 14) ^ (y >> 21) ^ (y >> 28)
  }

  /** Undoes the third step. */
  function UnshiftLeft5(y: bv32): bv32 {
    y ^ (y << 5) ^ (y << 10) ^ (y << 15) ^ (y << 20) ^ (y << 25) ^ (y << 30)
  }

  /** The inverse of `XorShift`: the three steps undone in reverse order. */
  function XorShiftInverse(y: bv32): bv32 {
    UnshiftLeft13(UnshiftRight7(UnshiftLeft5(y)))
  }

  /** `UnshiftLeft13` undoes `ShiftLeft13`. */
  lemma UndoLeft13(x: bv32)
    ensures UnshiftLeft13(ShiftLeft13(x)) == x
  {
    assert ShiftLeft13(x) == x ^ (x << 13);
    assert UnshiftLeft13(x ^ (x << 13)) == x;
  }

  /** `UnshiftRight7` undoes `ShiftRight7`. */
  lemma UndoRight7(x: bv32)
    ensures UnshiftRight7(ShiftRight7(x)) == x
  {
    assert ShiftRight7(x) == x ^ (x >> 7);
    assert UnshiftRight7(x ^ (x >> 7)) == x;
  }

  /** `UnshiftLeft5` undoes `ShiftLeft5`. */
  lemma UndoLeft5(x: bv32)
    ensures UnshiftLeft5(ShiftLeft5(x)) == x
  {
    assert ShiftLeft5(x) == x ^ (x << 5);
    assert UnshiftLeft5(x ^ (x << 5)) == x;
  }

  /** Each draw's state update is invertible, so no two states lead to the same next state. */
  lemma XorShiftInvertible(s: bv32)
    ensures XorShiftInverse(XorShift(s)) == s
  {
    UndoLeft13(s);
    UndoRight7(ShiftLeft13(s));
    UndoLeft5(ShiftRight7(ShiftLeft13(s)));
  }

  /** A non-zero state stays non-zero: the only state mapped to zero is zero itself. */
  lemma XorShiftNonZero(s: bv32)
    requires s != 0
    ensures XorShift(s) != 0
  {
    XorShiftInvertible(s);
    assert UnshiftLeft5(0) == 0 && UnshiftRight7(0) == 0 && UnshiftLeft13(0) == 0;
  }

  /** The value a draw with bound `max` returns from the updated state `s`: the remainder, below `max`. */
  function Reduce(s: bv32, max: u32): (r: u32)
    requires max != 0
    ensures r < max
  {
    (s as int % max as int) as u32
  }

  /** The state after drawing once for each bound in `maxes`, starting from `s`. */
  function StateAfter(s: bv32, maxes: seq<u32>): bv32
    decreases |maxes|
  {
    if maxes == [] then s else StateAfter(XorShift(s), maxes[1..])
  }

  /** The values returned by drawing once for each bound in `maxes`, starting from state `s`. */
  function Draws(s: bv32, maxes: seq<u32>): (r: seq<u32>)
    requires forall i | 0 <= i < |maxes| :: maxes[i] != 0
    ensures |r| == |maxes|
    decreases |maxes|
  {
    if maxes == [] then [] else [Reduce(XorShift(s), maxes[0])] + Draws(XorShift(s), maxes[1..])
  }

  /** Every drawn value is below the bound it was drawn with. */
  lemma {:induction false} DrawsBelow(s: bv32, maxes: seq<u32>, i: nat)
    requires forall j | 0 <= j < |maxes| :: maxes[j] != 0
    requires i < |maxes|
    ensures Draws(s, maxes)[i] < maxes[i]
    decreases i
  {
    if i > 0 {
      DrawsBelow(XorShift(s), maxes[1..], i - 1);
    }
  }

  /**
   * Drawing is deterministic and sequential: the values for `a + b` are the
   * values for `a` followed by those for `b` drawn from the state `a` left.
   */
  lemma {:induction false} DrawsAppend(s: bv32, a: seq<u32>, b: seq<u32>)
    requires forall j | 0 <= j < |a| :: a[j] != 0
    requires forall j | 0 <= j < |b| :: b[j] != 0
    ensures Draws(s, a + b) == Draws(s, a) + Draws(StateAfter(s, a), b)
    decreases |a|
  {
    if a == [] {
      assert a + b == b;
    } else {
      assert (a + b)[1..] == a[1..] + b;
      DrawsAppend(XorShift(s), a[1..], b);
    }
  }

  /** From a non-zero seed, the state stays non-zero however many draws are made. */
  lemma {:induction false} StateAfterNonZero(s: bv32, maxes: seq<u32>)
    requires s != 0
    ensures StateAfter(s, maxes) != 0
    decreases |maxes|
  {
    if maxes != [] {
      XorShiftNonZero(s);
      StateAfterNonZero(XorShift(s), maxes[1..]);
    }
  }

  class Rng {
    var state: bv32

    /** Zero is a fixed point of xorshift, so the generator refuses it. */
    ghost predicate Valid() reads this {
      state != 0
    }

    /** `Rng::new`: panics on a zero seed, otherwise starts from it. */
    constructor (seed: bv32)
      requires seed != 0
      ensures Valid() && state == seed
    {
      state := seed;
    }

    /** `range`: updates the state in place and returns it modulo `max`, which panics when zero. */
    method Range(max: u32) returns (r: u32)
      requires Valid() && max != 0
      modifies this
      ensures Valid()
      ensures state == XorShift(old(state))
      ensures r == Reduce(state, max)
      ensures [r] == Draws(old(state), [max])
    {
      XorShiftNonZero(state);
      state := ShiftLeft13(state);
      state := ShiftRight7(state);
      state := ShiftLeft5(state);
      r := Reduce(state, max);
    }
  }
}
