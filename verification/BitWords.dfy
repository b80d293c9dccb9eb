/** include/SDL3/SDL_bits.h: the portable most-significant-bit search on 32-bit words.
    A C `int` result is kept as its 32-bit word, so -1 is all ones. */
module BitWords {

  const MINUS_ONE: bv32 := 0xFFFFFFFF

  /** Bit `k` of `x`. */
  predicate TestBit(x: bv32, k: bv32)
    requires k <= 31
  {
    (x >> k) & 1 == 1
  }

  /** `r` is the index of the highest bit of `x`. */
  predicate IsMsb(x: bv32, r: bv32) {
    r <= 31 && x >> r == 1
  }

  lemma MsbBounds(x: bv32, r: bv32)
    requires IsMsb(x, r)
    ensures 1 << r <= x
    ensures r < 31 ==> x < 1 << (r + 1)
  {
  }

  lemma AboveIsClear(x: bv32, r: bv32, k: bv32)
    requires IsMsb(x, r)
    ensures TestBit(x, r)
    ensures r < k <= 31 ==> !TestBit(x, k)
    ensures IsMsb(x, k) ==> k == r
  {
  }

  /** The index found is the only one, and it is that of the highest bit set. */
  lemma MsbIsHighestBit(x: bv32, r: bv32)
    requires r <= 31
    ensures IsMsb(x, r) <==> TestBit(x, r) && forall k :: r < k <= 31 ==> !TestBit(x, k)
    ensures IsMsb(x, r) ==> forall q :: IsMsb(x, q) ==> q == r
  {
    if IsMsb(x, r) {
      forall k ensures TestBit(x, r) && (r < k <= 31 ==> !TestBit(x, k)) && (IsMsb(x, k) ==> k == r) {
        AboveIsClear(x, r, k);
      }
    } else if TestBit(x, r) {
      SetMeansNonzero(x, r);
      var k := HigherBit(x, r);
    }
    hide IsMsb, TestBit;
  }

  lemma SetMeansNonzero(x: bv32, r: bv32)
    requires r <= 31 && TestBit(x, r)
    ensures IsMsb(x, r) || x >> r > 1
  {
  }

  lemma ShiftOnce(x: bv32, k: bv32)
    requires k <= 31
    ensures x >> k > 1 ==> k < 31 && x >> (k + 1) != 0
    ensures !TestBit(x, k) && x >> k != 0 ==> x >> k > 1
  {
  }

  /** Some bit above `r` when `x >> r` is more than 1. */
  lemma {:induction false} HigherBit(x: bv32, r: bv32) returns (k: bv32)
    requires r <= 31 && x >> r > 1
    ensures r < k <= 31 && TestBit(x, k)
    decreases 31 - r
  {
    hide TestBit;
    ShiftOnce(x, r);
    if TestBit(x, r + 1) {
      k := r + 1;
    } else {
      ShiftOnce(x, r + 1);
      k := HigherBit(x, r + 1);
    }
  }

  // ---------- the five steps of the search ----------

  /** What the search knows before looking at step `i`: `x` is the word shifted down by `msb`,
      and the steps still to come can bring it to 1. */
  predicate Searching(word: bv32, msb: bv32, x: bv32, i: int)
    requires -1 <= i <= 4
  {
    && msb <= 31 && x != 0 && word >> msb == x
    && (i == 4 ==> msb == 0)
    && (i == 3 ==> x <= 0xFFFF && msb & 15 == 0)
    && (i == 2 ==> x <= 0xFF && msb & 7 == 0)
    && (i == 1 ==> x <= 0xF && msb & 3 == 0)
    && (i == 0 ==> x <= 3 && msb & 1 == 0)
    && (i == -1 ==> x <= 1)
  }

  lemma Search16(word: bv32, msb: bv32, x: bv32)
    requires Searching(word, msb, x, 4)
    ensures if x & 0xFFFF0000 != 0
      then Searching(word, msb | 16, x >> 16, 3)
      else Searching(word, msb, x, 3)
  {
  }

  lemma Search8(word: bv32, msb: bv32, x: bv32)
    requires Searching(word, msb, x, 3)
    ensures if x & 0xFF00 != 0
      then Searching(word, msb | 8, x >> 8, 2)
      else Searching(word, msb, x, 2)
  {
  }

  lemma Search4(word: bv32, msb: bv32, x: bv32)
    requires Searching(word, msb, x, 2)
    ensures if x & 0xF0 != 0
      then Searching(word, msb | 4, x >> 4, 1)
      else Searching(word, msb, x, 1)
  {
  }

  lemma Search2(word: bv32, msb: bv32, x: bv32)
    requires Searching(word, msb, x, 1)
    ensures if x & 0xC != 0
      then Searching(word, msb | 2, x >> 2, 0)
      else Searching(word, msb, x, 0)
  {
  }

  lemma Search1(word: bv32, msb: bv32, x: bv32)
    requires Searching(word, msb, x, 0)
    ensures if x & 0x2 != 0
      then Searching(word, msb | 1, x >> 1, -1)
      else Searching(word, msb, x, -1)
  {
  }

  lemma SearchStep(word: bv32, msb: bv32, x: bv32, i: int)
    requires 0 <= i <= 4 && Searching(word, msb, x, i)
    ensures SHIFTS[i] <= 16
    ensures if x & MASKS[i] != 0
      then Searching(word, msb | SHIFTS[i], x >> SHIFTS[i], i - 1)
      else Searching(word, msb, x, i - 1)
  {
    hide Searching;
    if i == 4 {
      Search16(word, msb, x);
    } else if i == 3 {
      Search8(word, msb, x);
    } else if i == 2 {
      Search4(word, msb, x);
    } else if i == 1 {
      Search2(word, msb, x);
    } else {
      Search1(word, msb, x);
    }
  }

  const MASKS: seq<bv32> := [0x2, 0xC, 0xF0, 0xFF00, 0xFFFF0000]
  const SHIFTS: seq<bv32> := [1, 2, 4, 8, 16]

  /** SDL_MostSignificantBitIndex32. */
  method MostSignificantBitIndex32(word: bv32) returns (msb: bv32)
    ensures word == 0 ==> msb == MINUS_ONE
    ensures word != 0 ==> IsMsb(word, msb)
  {
    if word == 0 {
      return MINUS_ONE;
    }
    var x := word;
    msb := 0;
    var i := 4;
    while i >= 0
      invariant -1 <= i <= 4
      invariant Searching(word, msb, x, i)
    {
      SearchStep(word, msb, x, i);
      if x & MASKS[i] != 0 {
        x := x >> SHIFTS[i];
        msb := msb | SHIFTS[i];
      }
      i := i - 1;
    }
  }

  /** SDL_HasExactlyOneBitSet32. */
  predicate HasExactlyOneBitSet32(x: bv32) {
    x != 0 && x & (x - 1) == 0
  }

  /** The bit trick is right: exactly the powers of two pass. */
  lemma OneBitIsPowerOfTwo(x: bv32, r: bv32)
    requires IsMsb(x, r)
    ensures HasExactlyOneBitSet32(x) <==> x == 1 << r
    ensures HasExactlyOneBitSet32(x) <==> forall k :: 0 <= k <= 31 ==> (TestBit(x, k) <==> k == r)
  {
    if x == 1 << r {
      forall k | k <= 31 ensures TestBit(x, k) <==> k == r {
      }
    } else {
      var k := LowerBit(x, r);
      assert TestBit(x, k) && k != r;
    }
  }

  /** Some bit below the highest one when the word is not a power of two. */
  lemma LowerBit(x: bv32, r: bv32) returns (k: bv32)
    requires IsMsb(x, r) && x != 1 << r
    ensures k < r && TestBit(x, k)
  {
    hide TestBit;
    LowNone(x, r);
    k := 0;
    while !TestBit(x, k)
      invariant k < r <= 31 && LowClear(x, k)
      decreases r - k
    {
      LowStep(x, r, k);
      k := k + 1;
    }
  }

  predicate LowClear(x: bv32, k: bv32)
    requires k <= 31
  {
    x & ((1 << k) - 1) == 0
  }

  lemma LowNone(x: bv32, r: bv32)
    requires IsMsb(x, r) && x != 1 << r
    ensures 0 < r && LowClear(x, 0)
  {
  }

  lemma LowStep(x: bv32, r: bv32, k: bv32)
    requires IsMsb(x, r) && x != 1 << r
    requires k < r && LowClear(x, k) && !TestBit(x, k)
    ensures k + 1 < r && LowClear(x, k + 1)
  {
  }
}
