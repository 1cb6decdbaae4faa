/**
 * The word-level twist of MT19937: how one state word is recomputed from
 * itself, its successor and its partner 397 words on.
 */
module Twist {

  const MatrixA: bv32 := 0x9908_b0df
  const UpperMask: bv32 := 0x8000_0000
  const LowerMask: bv32 := 0x7fff_ffff

  /** The upper bit of a word joined with the lower 31 bits of its successor. */
  function Mix(cur: bv32, next: bv32): bv32
  {
    (cur & UpperMask) | (next & LowerMask)
  }

  /** `(x >> 1) ^ mag01[x & 1]`. */
  function Scramble(x: bv32): bv32
  {
    (x >> 1) ^ (if x & 1 == 0 then 0 else MatrixA)
  }

  /**
   * The new value of a word: its partner word xor the twist of the upper bit
   * of the word itself and the lower 31 bits of its successor.
   */
  function TwistWord(partner: bv32, cur: bv32, next: bv32): bv32
  {
    partner ^ Scramble(Mix(cur, next))
  }

  /**
   * The last word's update in `generate` as written, after its two loops:
   * `partner` and `last` are words 396 and 623, and `past` is the word that
   * follows the array in memory, which `mt[i + 1]` reads for `i == 623`.
   */
  function LastWordAsWritten(partner: bv32, last: bv32, past: bv32): bv32
  {
    TwistWord(partner, last, past)
  }

  /**
   * The update as written gives the reference last word (successor word 0,
   * as `Engine.TwistHigh` stores it) exactly when the word past the array
   * agrees with word 0 in its lower 31 bits.
   */
  lemma LastWordAsWrittenAgrees(partner: bv32, last: bv32, past: bv32, first: bv32)
    ensures LastWordAsWritten(partner, last, past) == TwistWord(partner, last, first)
            <==> past & LowerMask == first & LowerMask
  {
    TwistWordNext(partner, last, past, first);
  }

  /** Of a word's successor, exactly its lower 31 bits reach the twisted value. */
  lemma TwistWordNext(partner: bv32, cur: bv32, n1: bv32, n2: bv32)
    ensures TwistWord(partner, cur, n1) == TwistWord(partner, cur, n2) <==> n1 & LowerMask == n2 & LowerMask
  {
    MixedWords(cur, n1, n2);
    if TwistWord(partner, cur, n1) == TwistWord(partner, cur, n2) {
      TwistScrambles(partner, cur, n1, n2);
      ScrambleInjective(Mix(cur, n1), Mix(cur, n2));
    }
    if n1 & LowerMask == n2 & LowerMask {
      TwistSame(partner, cur, n1, n2);
    }
  }

  lemma TwistScrambles(partner: bv32, cur: bv32, n1: bv32, n2: bv32)
    requires TwistWord(partner, cur, n1) == TwistWord(partner, cur, n2)
    ensures Scramble(Mix(cur, n1)) == Scramble(Mix(cur, n2))
  {
    TwistUnfold(partner, cur, n1);
    TwistUnfold(partner, cur, n2);
    XorCancel(partner, Scramble(Mix(cur, n1)), Scramble(Mix(cur, n2)));
  }

  lemma TwistSame(partner: bv32, cur: bv32, n1: bv32, n2: bv32)
    requires Mix(cur, n1) == Mix(cur, n2)
    ensures TwistWord(partner, cur, n1) == TwistWord(partner, cur, n2)
  {
    TwistUnfold(partner, cur, n1);
    TwistUnfold(partner, cur, n2);
    ScrambleSame(partner, Mix(cur, n1), Mix(cur, n2));
  }

  lemma TwistUnfold(partner: bv32, cur: bv32, n: bv32)
    ensures TwistWord(partner, cur, n) == partner ^ Scramble(Mix(cur, n))
  {
  }

  lemma ScrambleSame(partner: bv32, x1: bv32, x2: bv32)
    requires x1 == x2
    ensures partner ^ Scramble(x1) == partner ^ Scramble(x2)
  {
  }

  lemma MixedLow(cur: bv32, n: bv32)
    ensures Mix(cur, n) & LowerMask == n & LowerMask
  {
  }

  lemma MixSame(cur: bv32, n1: bv32, n2: bv32)
    requires n1 & LowerMask == n2 & LowerMask
    ensures Mix(cur, n1) == Mix(cur, n2)
  {
  }

  /** Two mixed words agree exactly when the successors agree in their lower 31 bits. */
  lemma MixedWords(cur: bv32, n1: bv32, n2: bv32)
    ensures Mix(cur, n1) == Mix(cur, n2) <==> n1 & LowerMask == n2 & LowerMask
  {
    if Mix(cur, n1) == Mix(cur, n2) {
      MixedLow(cur, n1);
      MixedLow(cur, n2);
    }
    if n1 & LowerMask == n2 & LowerMask {
      MixSame(cur, n1, n2);
    }
  }

  lemma XorCancel(p: bv32, a: bv32, b: bv32)
    requires p ^ a == p ^ b
    ensures a == b
  {
  }

  /** Bit 31 of a scrambled word is the low bit of the word. */
  lemma ScrambleHighBit(x: bv32)
    ensures Scramble(x) & UpperMask == (if x & 1 == 0 then 0 else UpperMask)
  {
  }

  lemma LowBit(x: bv32)
    ensures x & 1 == 0 || x & 1 == 1
  {
  }


  /** `Scramble` loses nothing: the high bit gives the low bit back, and the rest the shifted word. */
  lemma ScrambleInjective(x1: bv32, x2: bv32)
    requires Scramble(x1) == Scramble(x2)
    ensures x1 == x2
  {
    ScrambleLowBit(x1, x2);
    ShiftedAgree(x1, x2);
    SameParts(x1, x2);
  }

  lemma ShiftedAgree(x1: bv32, x2: bv32)
    requires Scramble(x1) == Scramble(x2) && x1 & 1 == x2 & 1
    ensures x1 >> 1 == x2 >> 1
  {
  }

  /** A word is fixed by its upper 31 bits and its low bit. */
  lemma SameParts(x1: bv32, x2: bv32)
    requires x1 >> 1 == x2 >> 1 && x1 & 1 == x2 & 1
    ensures x1 == x2
  {
  }

  /** Equal scrambled words come from words with the same low bit. */
  lemma ScrambleLowBit(x1: bv32, x2: bv32)
    requires Scramble(x1) == Scramble(x2)
    ensures x1 & 1 == x2 & 1
  {
    ScrambleHighBit(x1);
    ScrambleHighBit(x2);
    LowBit(x1);
    LowBit(x2);
  }

}

/**
 * The uniform engine: a 32-bit Mersenne Twister (MT19937).
 *
 * The state is 624 words and a cursor. Seeding fills the words with the
 * multiplicative recurrence, a draw regenerates all words when the cursor
 * has reached the end ("twist") and returns the current word after the
 * tempering transform.
 *
 * The source keeps the words in `unsigned long`, which is 64 bits wide. Seeding
 * masks each word to 32 bits, the twist combines 32-bit words with xor, `&`,
 * `|` and right shifts, and the two left shifts of tempering are masked by
 * 32-bit constants, so no stored or returned value reaches bit 32 and the
 * model uses `bv32` throughout.
 */
module Engine {

  import opened Twist

  const StateSize: int := 624           // N
  const ShiftSize: int := 397           // M
  const InitMultiplier: bv32 := 1812433253
  const TemperMaskB: bv32 := 0x9d2c_5680
  const TemperMaskC: bv32 := 0xefc6_0000

  /** `(unsigned long)-1`: the seed value that asks for clock seeding. */
  const SeedFromClock: bv64 := 0xffff_ffff_ffff_ffff

  /** The low 32 bits of the seed, `seed & 0xffffffff`. */
  function LowWord(seed: bv64): bv32
  {
    (seed & 0xffff_ffff) as bv32
  }

  /** One step of the seeding recurrence: word `k` from word `k - 1`. */
  function InitStep(prev: bv32, k: int): bv32
    requires 0 <= k < StateSize
  {
    InitMultiplier * (prev ^ (prev >> 30)) + k as bv32
  }

  /** Word `k` of the state right after seeding with `seed`. */
  function InitWord(seed: bv64, k: nat): bv32
    requires k < StateSize
    decreases k
  {
    if k == 0 then LowWord(seed)
    else InitStep(InitWord(seed, k - 1), k)
  }

  /** The whole state right after seeding with `seed`. */
  function InitState(seed: bv64): (s: seq<bv32>)
    ensures |s| == StateSize
    ensures forall k :: 0 <= k < StateSize ==> s[k] == InitWord(seed, k)
  {
    seq(StateSize, k requires 0 <= k < StateSize => InitWord(seed, k))
  }

  /**
   * The reference recurrence of MT19937 over the infinite word sequence
   * x_0, x_1, ...: the first 624 words are `init`, and
   * x_{k+624} = TwistWord(x_{k+397}, x_k, x_{k+1}).
   * Regenerating the state in place must produce the next 624 words.
   */
  function Stream(init: seq<bv32>, k: nat): bv32
    requires |init| == StateSize
    decreases k
  {
    if k < StateSize then init[k]
    else TwistWord(Stream(init, k - 227), Stream(init, k - 624), Stream(init, k - 623))
  }

  /** The four steps of the tempering transform. */
  function TemperShift11(y: bv32): bv32 { y ^ (y >> 11) }
  function TemperShift7(y: bv32): bv32 { y ^ ((y << 7) & TemperMaskB) }
  function TemperShift15(y: bv32): bv32 { y ^ ((y << 15) & TemperMaskC) }
  function TemperShift18(y: bv32): bv32 { y ^ (y >> 18) }

  /** The tempering transform applied to every word before it is returned. */
  function Temper(y: bv32): bv32
  {
    TemperShift18(TemperShift15(TemperShift7(TemperShift11(y))))
  }

  /** Draw number `k` (0-based) after seeding with state `init`. */
  function Output(init: seq<bv32>, k: nat): bv32
    requires |init| == StateSize
  {
    Temper(Stream(init, StateSize + k))
  }

  /** The value of a word as an unsigned integer. */
  function WordValue(w: bv32): (r: nat)
    ensures r < 0x1_0000_0000
  {
    w as int
  }

  /** The source's real-valued draw, `raw * (1.0 / 4294967295.0)`, idealised. */
  function ToUnit(w: bv32): (u: real)
    ensures 0.0 <= u <= 1.0
    ensures u == 1.0 <==> WordValue(w) == 0xffff_ffff
  {
    WordValue(w) as real / 4294967295.0
  }

  /** `operator long`: the draw shifted right by one bit, a 31-bit value. */
  function AsLong(w: bv32): (r: nat)
    ensures r < 0x8000_0000
    ensures 2 * r <= WordValue(w) <= 2 * r + 1
  {
    WordValue(w) / 2
  }

  /** `operator int`: the draw narrowed to a 32-bit signed int (two's complement). */
  function AsSigned32(w: bv32): (r: int)
    ensures -0x8000_0000 <= r < 0x8000_0000
    ensures r == WordValue(w) || r == WordValue(w) - 0x1_0000_0000
  {
    var x := WordValue(w);
    if x < 0x8000_0000 then x else x - 0x1_0000_0000
  }

  /**
   * If a window `w` holds the words `d .. d+623` of the stream from `init`,
   * the stream from `w` is the stream from `init` shifted by `d`.
   */
  lemma {:induction false} StreamShift(init: seq<bv32>, w: seq<bv32>, d: nat, k: nat)
    requires |init| == StateSize && |w| == StateSize
    requires forall j :: 0 <= j < StateSize ==> w[j] == Stream(init, d + j)
    ensures Stream(w, k) == Stream(init, d + k)
    decreases k
  {
    if k >= StateSize {
      StreamShift(init, w, d, k - 227);
      StreamShift(init, w, d, k - 624);
      StreamShift(init, w, d, k - 623);
    }
  }

  /**
   * The index of the word the source reads as the successor of the last
   * word (line 108) after its two loops have run: one past the end of the
   * state. The loops here only count `i` as the source's loops do; their
   * word updates are `TwistLow` and `TwistHigh`.
   */
  method LastPartnerIndexAsWritten() returns (p: int)
    ensures p == StateSize
    ensures !(0 <= p < StateSize)
  {
    var i := 0;
    while i < StateSize - ShiftSize
      invariant 0 <= i <= StateSize - ShiftSize
    {
      i := i + 1;
    }
    while i < StateSize - 1
      invariant StateSize - ShiftSize <= i <= StateSize - 1
    {
      i := i + 1;
    }
    p := i + 1;
  }

  /** The seeding loop of `init`, on the state array. */
  method Seed(a: array<bv32>, seed: bv64)
    requires a.Length == StateSize
    modifies a
    ensures forall j :: 0 <= j < StateSize ==> a[j] == InitWord(seed, j)
  {
    a[0] := LowWord(seed);
    var k := 1;
    while k < StateSize
      invariant 1 <= k <= StateSize
      invariant forall j :: 0 <= j < k ==> a[j] == InitWord(seed, j)
    {
      a[k] := InitStep(a[k - 1], k);
      k := k + 1;
    }
  }

  /**
   * The first loop of `generate`: words 0 .. 226 take their partner from
   * the old words 397 .. 623.
   */
  method TwistLow(a: array<bv32>)
    requires a.Length == StateSize
    modifies a
    ensures forall j :: 0 <= j < StateSize - ShiftSize ==> a[j] == Stream(old(a[..]), StateSize + j)
    ensures forall j :: StateSize - ShiftSize <= j < StateSize ==> a[j] == old(a[j])
  {
    ghost var prev := a[..];
    var i := 0;
    while i < StateSize - ShiftSize
      invariant 0 <= i <= StateSize - ShiftSize
      invariant forall j :: 0 <= j < i ==> a[j] == Stream(prev, StateSize + j)
      invariant forall j :: i <= j < StateSize ==> a[j] == prev[j]
    {
      a[i] := TwistWord(a[i + ShiftSize], a[i], a[i + 1]);
      i := i + 1;
    }
  }

  /**
   * The second loop and the last word of `generate`: words 227 .. 622 take
   * their partner from the new words 0 .. 395, and word 623 takes its
   * partner from the new word 396 and its successor from the new word 0.
   */
  method TwistHigh(a: array<bv32>, ghost prev: seq<bv32>)
    requires a.Length == StateSize && |prev| == StateSize
    requires forall j :: 0 <= j < StateSize - ShiftSize ==> a[j] == Stream(prev, StateSize + j)
    requires forall j :: StateSize - ShiftSize <= j < StateSize ==> a[j] == prev[j]
    modifies a
    ensures forall j :: 0 <= j < StateSize ==> a[j] == Stream(prev, StateSize + j)
  {
    var i := StateSize - ShiftSize;
    while i < StateSize - 1
      invariant StateSize - ShiftSize <= i <= StateSize - 1
      invariant forall j :: 0 <= j < i ==> a[j] == Stream(prev, StateSize + j)
      invariant forall j :: i <= j < StateSize ==> a[j] == prev[j]
    {
      a[i] := TwistWord(a[i + ShiftSize - StateSize], a[i], a[i + 1]);
      i := i + 1;
    }
    a[StateSize - 1] := TwistWord(a[ShiftSize - 1], a[StateSize - 1], a[0]);
  }

  /**
   * The engine. `origin` is the state right after seeding and `generations`
   * the number of regenerations so far; `Valid` ties the array to the
   * reference stream.
   */
  class Rng {
    const mt: array<bv32>
    var index: int
    ghost var origin: seq<bv32>
    ghost var generations: nat

    ghost predicate Valid()
      reads this, mt
    {
      && mt.Length == StateSize
      && 0 <= index <= StateSize
      && |origin| == StateSize
      && (generations == 0 ==> index == StateSize)
      && forall j :: 0 <= j < StateSize ==> mt[j] == Stream(origin, StateSize * generations + j)
    }

    /** Number of draws since seeding. */
    ghost function Drawn(): nat
      reads this
      requires 0 <= index && (generations > 0 || index == StateSize)
    {
      if generations == 0 then 0 else StateSize * (generations - 1) + index
    }

    /**
     * The constructor with an explicit seed; `clockSeed` stands for the value
     * the source derives from the clock when `seed` is `(unsigned long)-1`.
     */
    constructor (seed: bv64, clockSeed: bv64)
      ensures Valid() && fresh(mt)
      ensures origin == InitState(if seed == SeedFromClock then clockSeed else seed)
      ensures index == StateSize && Drawn() == 0
    {
      mt := new bv32[624];
      new;
      Init(if seed == SeedFromClock then clockSeed else seed);
    }

    /** Seeding: word 0 is the low half of the seed, the others the recurrence. */
    method Init(seed: bv64)
      requires mt.Length == StateSize
      modifies this, mt
      ensures Valid() && origin == InitState(seed)
      ensures index == StateSize && generations == 0
    {
      Seed(mt, seed);
      index := StateSize;
      generations := 0;
      origin := mt[..];
      assert origin == InitState(seed);
      forall j | 0 <= j < StateSize
        ensures mt[j] == Stream(origin, StateSize * generations + j)
      {
        assert StateSize * generations + j == j;
      }
    }

    /**
     * Regenerates all 624 words in place. The last word takes its partner
     * from mt[0] (already rewritten), as the reference algorithm does.
     */
    method Generate()
      requires mt.Length == StateSize
      modifies mt, this`index
      ensures index == 0
      ensures forall j :: 0 <= j < StateSize ==> mt[j] == Stream(old(mt[..]), StateSize + j)
    {
      ghost var prev := mt[..];
      TwistLow(mt);
      TwistHigh(mt, prev);
      index := 0;
    }

    /** One draw: regenerate if the cursor is at the end, then temper mt[index++]. */
    method Sample() returns (r: bv32)
      requires Valid()
      modifies this, mt
      ensures Valid() && origin == old(origin)
      ensures Drawn() == old(Drawn()) + 1
      ensures r == Output(origin, old(Drawn()))
      ensures index == (if old(index) >= StateSize then 0 else old(index)) + 1
    {
      if index >= StateSize {
        ghost var prev := mt[..];
        Generate();
        forall j | 0 <= j < StateSize
          ensures mt[j] == Stream(origin, StateSize * (generations + 1) + j)
        {
          StreamShift(origin, prev, StateSize * generations, StateSize + j);
        }
        generations := generations + 1;
      }
      r := Temper(mt[index]);
      index := index + 1;
    }

    /** `operator unsigned long`: the draw unchanged. */
    method NextUnsignedLong() returns (r: nat)
      requires Valid()
      modifies this, mt
      ensures Valid() && origin == old(origin) && Drawn() == old(Drawn()) + 1
      ensures r < 0x1_0000_0000 && r == WordValue(Output(origin, old(Drawn())))
    {
      var w := Sample();
      r := WordValue(w);
    }

    /** `operator long`: the draw shifted right by one bit. */
    method NextLong() returns (r: nat)
      requires Valid()
      modifies this, mt
      ensures Valid() && origin == old(origin) && Drawn() == old(Drawn()) + 1
      ensures r < 0x8000_0000 && r == AsLong(Output(origin, old(Drawn())))
    {
      var w := Sample();
      r := AsLong(w);
    }

    /** `operator int`: the draw as a 32-bit signed value. */
    method NextInt() returns (r: int)
      requires Valid()
      modifies this, mt
      ensures Valid() && origin == old(origin) && Drawn() == old(Drawn()) + 1
      ensures r == AsSigned32(Output(origin, old(Drawn())))
    {
      var w := Sample();
      r := AsSigned32(w);
    }

    /** `operator double`: the draw divided by 2^32 - 1, over the reals. */
    method NextUniform() returns (u: real)
      requires Valid()
      modifies this, mt
      ensures Valid() && origin == old(origin) && Drawn() == old(Drawn()) + 1
      ensures u == ToUnit(Output(origin, old(Drawn())))
    {
      var w := Sample();
      u := ToUnit(w);
    }
  }

  /** Two engines built with the same explicit seed give the same draws. */
  method SameSeedSameDraws(seed: bv64, clock1: bv64, clock2: bv64) returns (a: bv32, b: bv32)
    requires seed != SeedFromClock
    ensures a == b
  {
    var e1 := new Rng(seed, clock1);
    var e2 := new Rng(seed, clock2);
    a := e1.Sample();
    b := e2.Sample();
  }
}
