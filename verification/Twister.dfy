/**
 The seeded MT19937 stream.

 The class refreshes its 624 words in place, with wrapped indices. The specification is the infinite recurrence
 of section 26.5.3.2 of ISO/IEC 14882:2011, in which nothing is overwritten.
 */
module Twister {
  import opened Outcomes

  // ---------------------------------------------------------------- the recurrence

  const TWO_TO_THE_32 := 0x1_0000_0000
  const STATE_WORDS := 624

  function SeedWord(seed: int): bv32 {
    (seed % TWO_TO_THE_32) as bv32
  }

  function NextSeedWord(previous: bv32, index: nat): bv32
    requires index < STATE_WORDS
  {
    1812433253 * (previous ^ (previous >> 30)) + index as bv32
  }

  /** The word that follows `current` by 624 places, from it, its successor and the word 397 places on. */
  function Twist(current: bv32, next: bv32, far: bv32): bv32 {
    var value := (current & 0x8000_0000) | (next & 0x7FFF_FFFF);
    far ^ (value >> 1) ^ (if value & 1 == 1 then 0x9908_B0DF else 0)
  }

  function Temper(word: bv32): bv32 {
    var a := word ^ (word >> 11);
    var b := a ^ ((a << 7) & 0x9D2C_5680);
    var c := b ^ ((b << 15) & 0xEFC6_0000);
    c ^ (c >> 18)
  }

  /** Word k of the untempered sequence. */
  ghost function Sequence(seed: int, k: nat): bv32 {
    if k == 0 then SeedWord(seed)
    else if k < STATE_WORDS then NextSeedWord(Sequence(seed, k - 1), k)
    else Twist(Sequence(seed, k - 624), Sequence(seed, k - 623), Sequence(seed, k - 227))
  }

  /** Output number k, counted from zero. */
  ghost function Output(seed: int, k: nat): bv32 {
    Temper(Sequence(seed, STATE_WORDS + k))
  }

  /** The double made of outputs k and k + 1: 27 high bits and 26 high bits, over 2^53. */
  ghost function UniformAt(seed: int, k: nat): real {
    Combine(Output(seed, k), Output(seed, k + 1))
  }

  function Combine(high: bv32, low: bv32): real {
    ((high as int / 32) * 67108864 + low as int / 64) as real / 9007199254740992.0
  }

  /** A uniform sample is a multiple of 2^-53 in [0, 1 - 2^-53]. */
  lemma CombineRange(high: bv32, low: bv32)
    ensures 0.0 <= Combine(high, low) <= 1.0 - 1.0 / 9007199254740992.0
  {
    HighBits(high, low);
    FractionRange(high as int / 32, low as int / 64);
  }

  lemma HighBits(high: bv32, low: bv32)
    ensures 0 <= high as int / 32 <= 134217727 && 0 <= low as int / 64 <= 67108863
  {
  }

  lemma FractionRange(a: int, b: int)
    requires 0 <= a <= 134217727 && 0 <= b <= 67108863
    ensures 0.0 <= (a * 67108864 + b) as real / 9007199254740992.0 <= 1.0 - 1.0 / 9007199254740992.0
  {
    var n := a * 67108864 + b;
    assert 0 <= n <= 9007199254740991;
  }

  function ScaledFloor(u: real, upper: int): int {
    (u * upper as real).Floor
  }

  /** Scaling such a sample and rounding down never reaches the bound, so the source's clamp never acts. */
  lemma ScaledFloorInRange(u: real, upper: int)
    requires 0.0 <= u < 1.0 && upper >= 1
    ensures 0 <= ScaledFloor(u, upper) < upper
  {
    var product := u * upper as real;
    assert product >= 0.0;
    assert (1.0 - u) * upper as real > 0.0;
    assert product < upper as real;
  }

  lemma SequenceRecurs(seed: int, k: nat)
    ensures Sequence(seed, k + 624) == Twist(Sequence(seed, k), Sequence(seed, k + 1), Sequence(seed, k + 397))
  {
  }

  /** A wrapped index lies before k when it wraps, and that far after k when it does not. */
  lemma WrappedIndex(k: nat, offset: nat)
    requires k < 624 && 0 < offset < 624
    ensures (k + offset) % 624 == if k + offset < 624 then k + offset else k + offset - 624
  {
  }

  // ---------------------------------------------------------------- the generator

  class ReferenceTwister {
    var state: array<bv32>
    var index: nat
    const seed: int
    ghost var base: nat

    /** The buffer holds 624 consecutive words of the recurrence, and the index says how many were handed out. */
    ghost predicate Valid()
      reads this, state
    {
      && state.Length == STATE_WORDS
      && index <= STATE_WORDS <= base + index
      && forall j :: 0 <= j < STATE_WORDS ==> state[j] == Sequence(seed, base + j)
    }

    /** How many words have been drawn. */
    ghost function Drawn(): nat
      reads this, state
      requires Valid()
    {
      base + index - STATE_WORDS
    }

    constructor (seed: int)
      ensures Valid() && fresh(state)
      ensures this.seed == seed && Drawn() == 0
    {
      this.seed := seed;
      state := new bv32[STATE_WORDS];
      index := STATE_WORDS;
      base := 0;
      new;
      hide NextSeedWord;
      state[0] := SeedWord(seed);
      for k := 1 to STATE_WORDS
        invariant state.Length == STATE_WORDS && fresh(state) && index == STATE_WORDS && base == 0
        invariant forall j :: 0 <= j < k ==> state[j] == Sequence(seed, j)
      {
        var previous := state[k - 1];
        state[k] := NextSeedWord(previous, k);
      }
    }

    /** Overwrite the 624 words by the next 624, reading old and new words from the same buffer. */
    method Refresh()
      requires Valid() && index == STATE_WORDS
      modifies this, state
      ensures Valid() && state == old(state)
      ensures index == 0 && Drawn() == old(Drawn())
    {
      hide Sequence, Twist;
      for k := 0 to STATE_WORDS
        invariant state == old(state) && state.Length == STATE_WORDS && index == STATE_WORDS && base == old(base)
        invariant forall j :: 0 <= j < k ==> state[j] == Sequence(seed, base + STATE_WORDS + j)
        invariant forall j :: k <= j < STATE_WORDS ==> state[j] == Sequence(seed, base + j)
      {
        SequenceRecurs(seed, base + k);
        WrappedIndex(k, 1);
        WrappedIndex(k, 397);
        state[k] := Twist(state[k], state[(k + 1) % 624], state[(k + 397) % 624]);
      }
      base := base + STATE_WORDS;
      index := 0;
    }

    /** The next tempered word of the stream. */
    method Word() returns (word: bv32)
      requires Valid()
      modifies this, state
      ensures Valid() && state == old(state)
      ensures word == Output(seed, old(Drawn())) && Drawn() == old(Drawn()) + 1
    {
      if index >= STATE_WORDS {
        Refresh();
      }
      hide Temper, Sequence;
      var value := state[index];
      index := index + 1;
      word := Temper(value);
    }

    /** A double in [0, 1) from the next two words. */
    method Uniform() returns (u: real)
      requires Valid()
      modifies this, state
      ensures Valid() && state == old(state)
      ensures u == UniformAt(seed, old(Drawn())) && Drawn() == old(Drawn()) + 2
      ensures 0.0 <= u <= 1.0 - 1.0 / 9007199254740992.0
    {
      hide Output;
      var high := Word();
      var low := Word();
      CombineRange(high, low);
      u := Combine(high, low);
    }

    /** A uniformly scaled index below `upper`. */
    method Randi(upper: int) returns (r: Result<nat>)
      requires Valid()
      modifies this, state
      ensures Valid() && state == old(state)
      ensures upper < 1 ==> r == Failed("VALUE_ERROR") && Drawn() == old(Drawn())
      ensures upper >= 1 ==>
        && r.Ok? && r.value < upper
        && r.value == ScaledFloor(UniformAt(seed, old(Drawn())), upper)
        && Drawn() == old(Drawn()) + 2
    {
      if upper < 1 {
        return Failed("VALUE_ERROR");
      }
      hide UniformAt, ScaledFloor;
      var u := Uniform();
      ScaledFloorInRange(u, upper);
      var floor := ScaledFloor(u, upper);
      return Ok(if floor < upper - 1 then floor else upper - 1);
    }
  }

  /** Two generators with seeds equal modulo 2^32 deliver the same stream. */
  lemma {:induction false} SequenceDependsOnLowBits(a: int, b: int, k: nat)
    requires a % TWO_TO_THE_32 == b % TWO_TO_THE_32
    ensures Sequence(a, k) == Sequence(b, k)
  {
    hide Twist, NextSeedWord;
    if k == 0 {
    } else if k < STATE_WORDS {
      SequenceDependsOnLowBits(a, b, k - 1);
    } else {
      SequenceDependsOnLowBits(a, b, k - 624);
      SequenceDependsOnLowBits(a, b, k - 623);
      SequenceDependsOnLowBits(a, b, k - 227);
    }
  }
}
