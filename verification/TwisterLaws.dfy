/** The random stream loses nothing: every word can be read back from what is made of it. */
module TwisterLaws {
  import opened Outcomes
  import opened Twister

  // ---------------------------------------------------------------- tempering

  /** Undoes the four steps of tempering, the last one first; the masked ones as many bits at a time as they shift. */
  function Untemper(output: bv32): bv32 {
    var c := output ^ (output >> 18);
    var b := c ^ ((c << 15) & 0xEFC6_0000);
    var low := b ^ ((b << 7) & 0x9D2C_5680);
    var lower := b ^ ((low << 7) & 0x9D2C_5680);
    var most := b ^ ((lower << 7) & 0x9D2C_5680);
    var a := b ^ ((most << 7) & 0x9D2C_5680);
    a ^ (a >> 11) ^ (a >> 22)
  }

  lemma StepsAreUndone(word: bv32)
    ensures var a := word ^ (word >> 11);
      var b := a ^ ((a << 7) & 0x9D2C_5680);
      var c := b ^ ((b << 15) & 0xEFC6_0000);
      Untemper(c ^ (c >> 18)) == word
  {
  }

  lemma TemperIs(word: bv32)
    ensures var a := word ^ (word >> 11);
      var b := a ^ ((a << 7) & 0x9D2C_5680);
      var c := b ^ ((b << 15) & 0xEFC6_0000);
      Temper(word) == c ^ (c >> 18)
  {
  }

  /** Tempering can be undone, so it maps words to outputs one to one. */
  lemma TemperIsUndone(word: bv32)
    ensures Untemper(Temper(word)) == word
  {
    hide *;
    StepsAreUndone(word);
    TemperIs(word);
  }

  // ---------------------------------------------------------------- the recurrence

  /** Reads the two parts of a twist back; the highest bit tells whether the constant was folded in. */
  function Untwist(word: bv32, far: bv32): bv32 {
    var folded := word ^ far;
    if folded & 0x8000_0000 == 0 then folded << 1 else ((folded ^ 0x9908_B0DF) << 1) | 1
  }

  /** The highest bit of the current word and the lower bits of the next can be read back from a refreshed word. */
  lemma TwistIsUndone(current: bv32, next: bv32, far: bv32)
    ensures Untwist(Twist(current, next, far), far) & 0x8000_0000 == current & 0x8000_0000
    ensures Untwist(Twist(current, next, far), far) & 0x7FFF_FFFF == next & 0x7FFF_FFFF
  {
  }

  /** 2520285293 is the inverse of 1812433253 modulo 2^32. */
  function Unseed(word: bv32, index: bv32): bv32 {
    var mixed := (word - index) * 2520285293;
    mixed ^ (mixed >> 30)
  }

  lemma MixIsUndone(previous: bv32, index: bv32)
    ensures Unseed(1812433253 * (previous ^ (previous >> 30)) + index, index) == previous
  {
  }

  lemma SeedingIs(previous: bv32, index: nat)
    requires index < STATE_WORDS
    ensures NextSeedWord(previous, index) == 1812433253 * (previous ^ (previous >> 30)) + index as bv32
  {
  }

  /** Each seeded word determines the one before it. */
  lemma SeedingIsUndone(previous: bv32, index: nat)
    requires index < STATE_WORDS
    ensures Unseed(NextSeedWord(previous, index), index as bv32) == previous
  {
    assert index < 624;
    hide *;
    SeedingIs(previous, index);
    MixIsUndone(previous, index as bv32);
  }

  // ---------------------------------------------------------------- the stream

  /** The sequence back from any point on: two streams that ever hold the same word of a state started the same. */
  lemma {:induction false} SeedsAreReadBack(a: int, b: int, k: nat)
    requires k < STATE_WORDS && Sequence(a, k) == Sequence(b, k)
    ensures SeedWord(a) == SeedWord(b)
  {
    hide *;
    SequenceIs(a, k);
    SequenceIs(b, k);
    if k > 0 {
      SeedingIsUndone(Sequence(a, k - 1), k);
      SeedingIsUndone(Sequence(b, k - 1), k);
      SeedsAreReadBack(a, b, k - 1);
    }
  }

  lemma SequenceIs(seed: int, k: nat)
    requires k < STATE_WORDS
    ensures Sequence(seed, k) == if k == 0 then SeedWord(seed) else NextSeedWord(Sequence(seed, k - 1), k)
  {
    hide NextSeedWord, SeedWord;
  }

  /** The words of a state can be read back from the outputs made of them. */
  lemma OutputsAreReadBack(seed: int, k: nat)
    ensures Untemper(Output(seed, k)) == Sequence(seed, STATE_WORDS + k)
  {
    hide Temper, Untemper, Sequence;
    TemperIsUndone(Sequence(seed, STATE_WORDS + k));
  }

  /** The outputs of two streams agree from k and from l on, as far as a state reaches. */
  ghost predicate Agree(a: int, b: int, k: nat, l: nat) {
    forall j: nat :: k <= j < k + STATE_WORDS ==> Output(a, j) == Output(b, l + (j - k))
  }

  /** Streams that agree on as many outputs as a state has words agree for ever after. */
  lemma {:induction false} AgreementLasts(a: int, b: int, k: nat, l: nat, n: nat)
    requires Agree(a, b, k, l)
    ensures Sequence(a, STATE_WORDS + k + n) == Sequence(b, STATE_WORDS + l + n)
    ensures Output(a, k + n) == Output(b, l + n)
    decreases n
  {
    hide Temper, Untemper, Twist, NextSeedWord, SeedWord, Sequence;
    if n >= STATE_WORDS {
      hide Agree;
      AgreementLasts(a, b, k, l, n - 624);
      AgreementLasts(a, b, k, l, n - 623);
      AgreementLasts(a, b, k, l, n - 227);
      SequenceRecurs(a, k + n);
      SequenceRecurs(b, l + n);
    } else {
      assert Output(a, k + n) == Output(b, l + n);
      OutputsAreReadBack(a, k + n);
      OutputsAreReadBack(b, l + n);
    }
  }

  /** A sample's 53 bits: the high 27 of one output, then the high 26 of the next. */
  lemma SampleHasBits(high: bv32, low: bv32)
    ensures var bits := (Combine(high, low) * 9007199254740992.0).Floor;
      && bits as real == Combine(high, low) * 9007199254740992.0
      && bits / 67108864 == high as int / 32 && bits % 67108864 == low as int / 64
  {
    var a, b := high as int / 32, low as int / 64;
    HighBits(high, low);
    assert Combine(high, low) == (a * 67108864 + b) as real / 9007199254740992.0;
    hide *;
    Scaled(a * 67108864 + b, Combine(high, low));
    Digits(a, b);
  }

  lemma Scaled(n: int, sample: real)
    requires sample == n as real / 9007199254740992.0
    ensures sample * 9007199254740992.0 == n as real && (sample * 9007199254740992.0).Floor == n
  {
  }

  lemma Digits(a: int, b: int)
    requires 0 <= b < 67108864
    ensures (a * 67108864 + b) / 67108864 == a && (a * 67108864 + b) % 67108864 == b
  {
  }

  /** The k-th sample of a stream is made of two outputs in a row, and each output of one word of the sequence. */
  lemma SamplesAreReadBack(seed: int, k: nat)
    ensures var bits := (UniformAt(seed, k) * 9007199254740992.0).Floor;
      && bits / 67108864 == Output(seed, k) as int / 32 && bits % 67108864 == Output(seed, k + 1) as int / 64
    ensures Untemper(Output(seed, k)) == Sequence(seed, STATE_WORDS + k)
  {
    OutputsAreReadBack(seed, k);
    hide Output, Combine;
    SampleHasBits(Output(seed, k), Output(seed, k + 1));
  }
}
