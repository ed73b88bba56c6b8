/** The two packed 32-bit words kept for every page: the state word and the decision-epoch word.
    A word is modelled as a number below 2^32; packing places each field at the bit offset the
    kernel masks give it. */
module PackedWords {
  const WORD_LIMIT: nat := 0x1_0000_0000

  /** bits 0-7 access EMA, 8-13 candidate count, 14-15 generation, 16-18 pending action,
      19 initialized, 20 uncertain, 21-31 sequence */
  datatype StateWord = StateWord(
    access: nat, candidates: nat, generation: nat, action: nat,
    initialized: bool, uncertain: bool, sequence: nat)
  {
    predicate Valid() {
      access < 256 && candidates < 64 && generation < 4 && action < 8 && sequence < 2048
    }
  }

  /** bits 0-11 upgrade tag, 12-23 downgrade tag, 24-31 activation number */
  datatype EpochWord = EpochWord(up: nat, down: nat, run: nat) {
    predicate Valid() {
      up < 4096 && down < 4096 && run < 256
    }
  }

  function Bit(b: bool): nat {
    if b then 1 else 0
  }

  /** Lay `low` in the `radix` lowest values and `high` above it. */
  function Join(low: nat, radix: nat, high: nat): nat {
    low + radix * high
  }

  lemma QuotientUnique(d: nat, q: int, r: nat, q': int, r': nat)
    requires r < d && r' < d
    requires d * q + r == d * q' + r'
    ensures q == q' && r == r'
  {
    if q != q' {
      var gap := if q > q' then q - q' else q' - q;
      assert d * gap == if q > q' then d * q - d * q' else d * q' - d * q;
      MultipleAtLeast(d, gap);
    }
  }

  lemma MultipleAtLeast(d: nat, n: nat)
    requires n >= 1
    ensures d * n >= d
  {
  }

  lemma SplitJoin(low: nat, radix: nat, high: nat)
    requires low < radix
    ensures Join(low, radix, high) % radix == low
    ensures Join(low, radix, high) / radix == high
  {
    var w := Join(low, radix, high);
    QuotientUnique(radix, w / radix, w % radix, high, low);
  }

  function PackState(s: StateWord): nat {
    Join(s.access, 0x100,
         Join(s.candidates, 0x40,
              Join(s.generation, 4,
                   Join(s.action, 8,
                        Join(Bit(s.initialized), 2,
                             Join(Bit(s.uncertain), 2, s.sequence))))))
  }

  function UnpackState(w: nat): StateWord {
    var fromCandidates := w / 0x100;
    var fromGeneration := fromCandidates / 0x40;
    var fromAction := fromGeneration / 4;
    var fromInitialized := fromAction / 8;
    var fromUncertain := fromInitialized / 2;
    StateWord(w % 0x100, fromCandidates % 0x40, fromGeneration % 4, fromAction % 8,
              fromInitialized % 2 == 1, fromUncertain % 2 == 1, fromUncertain / 2)
  }

  function PackEpochs(e: EpochWord): nat {
    Join(e.up, 0x1000, Join(e.down, 0x1000, e.run))
  }

  function UnpackEpochs(w: nat): EpochWord {
    EpochWord(w % 0x1000, w / 0x1000 % 0x1000, w / 0x1000 / 0x1000)
  }

  /** Packing loses nothing and every field is read back from its own bits. */
  lemma StateRoundTrip(s: StateWord)
    requires s.Valid()
    ensures PackState(s) < WORD_LIMIT
    ensures UnpackState(PackState(s)) == s
  {
    var fromUncertain := Join(Bit(s.uncertain), 2, s.sequence);
    var fromInitialized := Join(Bit(s.initialized), 2, fromUncertain);
    var fromAction := Join(s.action, 8, fromInitialized);
    var fromGeneration := Join(s.generation, 4, fromAction);
    var fromCandidates := Join(s.candidates, 0x40, fromGeneration);
    SplitJoin(Bit(s.uncertain), 2, s.sequence);
    SplitJoin(Bit(s.initialized), 2, fromUncertain);
    SplitJoin(s.action, 8, fromInitialized);
    SplitJoin(s.generation, 4, fromAction);
    SplitJoin(s.candidates, 0x40, fromGeneration);
    SplitJoin(s.access, 0x100, fromCandidates);
  }

  /** Every 32-bit word is the packing of the fields read from it, so comparing words is comparing fields. */
  lemma StateWordRoundTrip(w: nat)
    requires w < WORD_LIMIT
    ensures UnpackState(w).Valid()
    ensures PackState(UnpackState(w)) == w
  {
    assert w < 0x100 * 0x40 * 4 * 8 * 2 * 2 * 0x800;
  }

  /** Each field sits at the bit offset of its mask. */
  lemma StateBits(w: nat)
    requires w < WORD_LIMIT
    ensures
      var s := UnpackState(w);
      && s.Valid()
      && w == s.access + 0x100 * s.candidates + 0x4000 * s.generation + 0x1_0000 * s.action
              + (if s.initialized then 0x8_0000 else 0) + (if s.uncertain then 0x10_0000 else 0)
              + 0x20_0000 * s.sequence
  {
    StateWordRoundTrip(w);
  }

  lemma EpochBits(w: nat)
    requires w < WORD_LIMIT
    ensures
      var e := UnpackEpochs(w);
      e.Valid() && w == e.up + 0x1000 * e.down + 0x100_0000 * e.run
  {
    EpochWordRoundTrip(w);
  }

  lemma ZeroWords()
    ensures UnpackState(0) == StateWord(0, 0, 0, 0, false, false, 0)
    ensures UnpackEpochs(0) == EpochWord(0, 0, 0)
  {
  }

  lemma EpochRoundTrip(e: EpochWord)
    requires e.Valid()
    ensures PackEpochs(e) < WORD_LIMIT
    ensures UnpackEpochs(PackEpochs(e)) == e
  {
    SplitJoin(e.down, 0x1000, e.run);
    SplitJoin(e.up, 0x1000, Join(e.down, 0x1000, e.run));
  }

  lemma EpochWordRoundTrip(w: nat)
    requires w < WORD_LIMIT
    ensures UnpackEpochs(w).Valid()
    ensures PackEpochs(UnpackEpochs(w)) == w
  {
  }
}
