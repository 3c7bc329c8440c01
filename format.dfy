/** Stream format negotiation: makehdaformat (hda.c:934-1150) builds the
    16-bit stream format word of section 3.7.1 of the Intel High Definition
    Audio Specification rev. 1.0a from the requested parameters and reports
    the parameters actually used. */
module HdaFormat {
  import opened HdaTypes

  /** hdahwparams_t: sample rate, bits per sample and channel count. */
  datatype HwParams = HwParams(sampleRate: u32, bits: u8, channels: u8)

  // Fields of the format word: bits 0-3 channels - 1, bits 4-6 the sample
  // size, bits 8-10 divisor - 1, bits 11-13 multiplier - 1, bit 14 the base
  // rate (0: 48 kHz, 1: 44.1 kHz).
  const FMT_BITS_8: bv16 := 0 << 4
  const FMT_BITS_16: bv16 := 1 << 4
  const FMT_BITS_20: bv16 := 2 << 4
  const FMT_BITS_24: bv16 := 3 << 4
  const FMT_BITS_32: bv16 := 4 << 4
  const FMT_BASE_48KHZ: bv16 := 0 << 14
  const FMT_BASE_441KHZ: bv16 := 1 << 14

  function FmtChan(channels: int): (r: bv16)
    requires 1 <= channels <= 16
    ensures r < 16 && r as int == channels - 1
  {
    (channels - 1) as bv16
  }

  function FmtDiv(d: bv16): bv16
    requires 1 <= d <= 8
  {
    (d - 1) << 8
  }

  function FmtMult(m: bv16): bv16
    requires 1 <= m <= 8
  {
    (m - 1) << 11
  }

  // Reading a format word back.

  function FormatChannels(v: bv16): int { (v & 0xf) as int + 1 }

  function FormatBits(v: bv16): int {
    var code := (v >> 4) & 7;
    if code == 0 then 8 else if code == 1 then 16 else if code == 2 then 20
    else if code == 3 then 24 else if code == 4 then 32 else 0
  }

  function FormatBase(v: bv16): int { if (v >> 14) & 1 == 1 then 44100 else 48000 }
  function FormatMult(v: bv16): int { ((v >> 11) & 7) as int + 1 }
  function FormatDiv(v: bv16): int { ((v >> 8) & 7) as int + 1 }

  /** The sample rate a format word selects, base * mult / div, rounded to
      the nearest integer with halves rounded up. */
  function FormatRate(v: bv16): int {
    (2 * FormatBase(v) * FormatMult(v) + FormatDiv(v)) / (2 * FormatDiv(v))
  }

  /** One branch of the rate ladder: the largest request it accepts (which is
      also the rate it reports) and the base, multiplier and divisor whose
      fields it sets. */
  datatype RateStep = RateStep(rate: u32, base: bv16, mult: bv16, div: bv16)

  predicate WellFormedStep(s: RateStep) {
    (s.base == FMT_BASE_48KHZ || s.base == FMT_BASE_441KHZ) && 1 <= s.mult <= 8 && 1 <= s.div <= 8
  }

  /** The rate bits a branch ORs into the format word. A branch without a
      multiplier (or divisor) in the source has 1 here: FMT_MULT(1) and
      FMT_DIV(1) are 0. */
  function StepBits(s: RateStep): bv16
    requires WellFormedStep(s)
  {
    s.base | FmtDiv(s.div) | FmtMult(s.mult)
  }

  /** The branches of the else-if ladder at hda.c:975-1146, in source order;
      the final else is the last entry. */
  const RateLadder: seq<RateStep> := [
    RateStep(6000, FMT_BASE_48KHZ, 1, 8),
    RateStep(6300, FMT_BASE_441KHZ, 1, 7),
    RateStep(6857, FMT_BASE_48KHZ, 1, 7),
    RateStep(7350, FMT_BASE_441KHZ, 1, 6),
    RateStep(8000, FMT_BASE_48KHZ, 1, 6),
    RateStep(8820, FMT_BASE_441KHZ, 1, 5),
    RateStep(9600, FMT_BASE_48KHZ, 1, 5),
    RateStep(11025, FMT_BASE_441KHZ, 1, 4),
    RateStep(12000, FMT_BASE_48KHZ, 1, 4),
    RateStep(12600, FMT_BASE_441KHZ, 2, 7),
    RateStep(13714, FMT_BASE_48KHZ, 2, 7),
    RateStep(14700, FMT_BASE_441KHZ, 1, 3),
    RateStep(16000, FMT_BASE_48KHZ, 1, 3),
    RateStep(16538, FMT_BASE_441KHZ, 3, 8),
    RateStep(17640, FMT_BASE_441KHZ, 2, 5),
    RateStep(18000, FMT_BASE_48KHZ, 3, 8),
    RateStep(18900, FMT_BASE_441KHZ, 3, 7),
    RateStep(19200, FMT_BASE_48KHZ, 2, 5),
    RateStep(20571, FMT_BASE_48KHZ, 3, 7),
    RateStep(22050, FMT_BASE_441KHZ, 1, 2),
    RateStep(24000, FMT_BASE_48KHZ, 1, 2),
    RateStep(25200, FMT_BASE_441KHZ, 4, 7),
    RateStep(26460, FMT_BASE_441KHZ, 3, 5),
    RateStep(27429, FMT_BASE_48KHZ, 4, 7),
    RateStep(28800, FMT_BASE_48KHZ, 3, 5),
    RateStep(29400, FMT_BASE_441KHZ, 2, 3),
    RateStep(32000, FMT_BASE_48KHZ, 2, 3),
    RateStep(33075, FMT_BASE_441KHZ, 3, 4),
    RateStep(35280, FMT_BASE_441KHZ, 4, 5),
    RateStep(36000, FMT_BASE_48KHZ, 3, 4),
    RateStep(38400, FMT_BASE_48KHZ, 4, 5),
    RateStep(44100, FMT_BASE_441KHZ, 1, 1),
    RateStep(48000, FMT_BASE_48KHZ, 1, 1),
    RateStep(58800, FMT_BASE_441KHZ, 4, 3),
    RateStep(64000, FMT_BASE_48KHZ, 4, 3),
    RateStep(66150, FMT_BASE_441KHZ, 3, 2),
    RateStep(72000, FMT_BASE_48KHZ, 3, 2),
    RateStep(88200, FMT_BASE_441KHZ, 2, 1),
    RateStep(96000, FMT_BASE_48KHZ, 2, 1),
    RateStep(132300, FMT_BASE_441KHZ, 3, 1),
    RateStep(144000, FMT_BASE_48KHZ, 3, 1),
    RateStep(176400, FMT_BASE_441KHZ, 4, 1),
    RateStep(192000, FMT_BASE_48KHZ, 4, 1)
  ]

  // Facts about the ladder constant.

  lemma LadderShape()
    ensures |RateLadder| == 43
    ensures forall i | 0 <= i < |RateLadder| :: WellFormedStep(RateLadder[i])
    ensures forall i | 0 <= i < |RateLadder| - 1 :: RateLadder[i].rate < RateLadder[i + 1].rate
    ensures RateLadder[0] == RateStep(6000, FMT_BASE_48KHZ, 1, 8)
    ensures RateLadder[41].rate == 176400 && RateLadder[42].rate == 192000
  {
  }

  /** The rate a base, multiplier and divisor select, rounded to the nearest
      integer with halves rounded up. */
  function SelectedRate(base44: bool, mult: int, div: int): int
    requires 1 <= div
  {
    (2 * (if base44 then 44100 else 48000) * mult + div) / (2 * div)
  }

  /** A branch reports the rate its base, multiplier and divisor select. */
  predicate ExactStep(s: RateStep)
    requires WellFormedStep(s)
  {
    SelectedRate(s.base == FMT_BASE_441KHZ, s.mult as int, s.div as int) == s.rate
  }

  /** Each branch's bits select the rate the branch reports. */
  lemma LadderRatesExact()
    ensures forall i | 0 <= i < |RateLadder| :: WellFormedStep(RateLadder[i]) && ExactStep(RateLadder[i])
  {
    LadderShape();
    assert ExactStep(RateStep(6000, FMT_BASE_48KHZ, 1, 8));
    assert ExactStep(RateStep(6300, FMT_BASE_441KHZ, 1, 7));
    assert ExactStep(RateStep(6857, FMT_BASE_48KHZ, 1, 7));
    assert ExactStep(RateStep(7350, FMT_BASE_441KHZ, 1, 6));
    assert ExactStep(RateStep(8000, FMT_BASE_48KHZ, 1, 6));
    assert ExactStep(RateStep(8820, FMT_BASE_441KHZ, 1, 5));
    assert ExactStep(RateStep(9600, FMT_BASE_48KHZ, 1, 5));
    assert ExactStep(RateStep(11025, FMT_BASE_441KHZ, 1, 4));
    assert ExactStep(RateStep(12000, FMT_BASE_48KHZ, 1, 4));
    assert ExactStep(RateStep(12600, FMT_BASE_441KHZ, 2, 7));
    assert ExactStep(RateStep(13714, FMT_BASE_48KHZ, 2, 7));
    assert ExactStep(RateStep(14700, FMT_BASE_441KHZ, 1, 3));
    assert ExactStep(RateStep(16000, FMT_BASE_48KHZ, 1, 3));
    assert ExactStep(RateStep(16538, FMT_BASE_441KHZ, 3, 8));
    assert ExactStep(RateStep(17640, FMT_BASE_441KHZ, 2, 5));
    assert ExactStep(RateStep(18000, FMT_BASE_48KHZ, 3, 8));
    assert ExactStep(RateStep(18900, FMT_BASE_441KHZ, 3, 7));
    assert ExactStep(RateStep(19200, FMT_BASE_48KHZ, 2, 5));
    assert ExactStep(RateStep(20571, FMT_BASE_48KHZ, 3, 7));
    assert ExactStep(RateStep(22050, FMT_BASE_441KHZ, 1, 2));
    assert ExactStep(RateStep(24000, FMT_BASE_48KHZ, 1, 2));
    assert ExactStep(RateStep(25200, FMT_BASE_441KHZ, 4, 7));
    assert ExactStep(RateStep(26460, FMT_BASE_441KHZ, 3, 5));
    assert ExactStep(RateStep(27429, FMT_BASE_48KHZ, 4, 7));
    assert ExactStep(RateStep(28800, FMT_BASE_48KHZ, 3, 5));
    assert ExactStep(RateStep(29400, FMT_BASE_441KHZ, 2, 3));
    assert ExactStep(RateStep(32000, FMT_BASE_48KHZ, 2, 3));
    assert ExactStep(RateStep(33075, FMT_BASE_441KHZ, 3, 4));
    assert ExactStep(RateStep(35280, FMT_BASE_441KHZ, 4, 5));
    assert ExactStep(RateStep(36000, FMT_BASE_48KHZ, 3, 4));
    assert ExactStep(RateStep(38400, FMT_BASE_48KHZ, 4, 5));
    assert ExactStep(RateStep(44100, FMT_BASE_441KHZ, 1, 1));
    assert ExactStep(RateStep(48000, FMT_BASE_48KHZ, 1, 1));
    assert ExactStep(RateStep(58800, FMT_BASE_441KHZ, 4, 3));
    assert ExactStep(RateStep(64000, FMT_BASE_48KHZ, 4, 3));
    assert ExactStep(RateStep(66150, FMT_BASE_441KHZ, 3, 2));
    assert ExactStep(RateStep(72000, FMT_BASE_48KHZ, 3, 2));
    assert ExactStep(RateStep(88200, FMT_BASE_441KHZ, 2, 1));
    assert ExactStep(RateStep(96000, FMT_BASE_48KHZ, 2, 1));
    assert ExactStep(RateStep(132300, FMT_BASE_441KHZ, 3, 1));
    assert ExactStep(RateStep(144000, FMT_BASE_48KHZ, 3, 1));
    assert ExactStep(RateStep(176400, FMT_BASE_441KHZ, 4, 1));
    assert ExactStep(RateStep(192000, FMT_BASE_48KHZ, 4, 1));
    assert ExactStep(RateStep(6000, FMT_BASE_48KHZ, 1, 8));
  }

  /** Rates ascend strictly along a ladder. */
  predicate Ascending(ladder: seq<RateStep>) {
    forall i, j | 0 <= i < j < |ladder| :: ladder[i].rate < ladder[j].rate
  }

  lemma {:induction false} AscendingFromAdjacent(ladder: seq<RateStep>)
    requires forall i | 0 <= i < |ladder| - 1 :: ladder[i].rate < ladder[i + 1].rate
    ensures Ascending(ladder)
    decreases |ladder|
  {
    if |ladder| > 1 {
      var tail := ladder[1..];
      AscendingFromAdjacent(tail);
      forall j | 1 <= j < |ladder| ensures ladder[0].rate < ladder[j].rate {
        assert tail[0] == ladder[1] && tail[j - 1] == ladder[j];
      }
      forall i, j | 1 <= i < j < |ladder| ensures ladder[i].rate < ladder[j].rate {
        assert tail[i - 1] == ladder[i] && tail[j - 1] == ladder[j];
      }
    }
  }

  lemma LadderAscending()
    ensures Ascending(RateLadder)
  {
    LadderShape();
    AscendingFromAdjacent(RateLadder);
  }

  /** The walk down an else-if ladder: the first branch whose bound is at
      least the request, or the final else. */
  function SelectStep(ladder: seq<RateStep>, rate: int): (s: RateStep)
    requires |ladder| > 0
    ensures s in ladder
    ensures rate <= s.rate || s == ladder[|ladder| - 1]
    decreases |ladder|
  {
    if |ladder| == 1 || rate <= ladder[0].rate then ladder[0]
    else SelectStep(ladder[1..], rate)
  }

  lemma {:induction false} AscendingTail(ladder: seq<RateStep>)
    requires |ladder| > 0 && Ascending(ladder)
    ensures Ascending(ladder[1..])
  {
    var tail := ladder[1..];
    forall i, j | 0 <= i < j < |tail| ensures tail[i].rate < tail[j].rate {
      assert tail[i] == ladder[i + 1] && tail[j] == ladder[j + 1];
    }
  }

  /** On an ascending ladder the walk picks the smallest bound that is at
      least the request. */
  lemma {:induction false} SelectStepLeast(ladder: seq<RateStep>, rate: int)
    requires |ladder| > 0 && Ascending(ladder)
    ensures forall t | t in ladder && rate <= t.rate :: SelectStep(ladder, rate).rate <= t.rate
    decreases |ladder|
  {
    if |ladder| == 1 {
    } else if rate <= ladder[0].rate {
      forall t | t in ladder ensures ladder[0].rate <= t.rate {
        var k :| 0 <= k < |ladder| && ladder[k] == t;
      }
    } else {
      var tail := ladder[1..];
      AscendingTail(ladder);
      SelectStepLeast(tail, rate);
      forall t | t in ladder && rate <= t.rate ensures t in tail {
        var k :| 0 <= k < |ladder| && ladder[k] == t;
        assert k != 0;
        assert tail[k - 1] == t;
      }
    }
  }

  /** On an ascending ladder the walk reaches the final else exactly when
      every other bound is below the request. */
  lemma {:induction false} SelectStepLast(ladder: seq<RateStep>, rate: int)
    requires |ladder| > 0 && Ascending(ladder)
    ensures (forall k | 0 <= k < |ladder| - 1 :: ladder[k].rate < rate) <==>
      SelectStep(ladder, rate) == ladder[|ladder| - 1]
    decreases |ladder|
  {
    var last := ladder[|ladder| - 1];
    if |ladder| == 1 {
    } else if rate <= ladder[0].rate {
      assert ladder[0].rate < last.rate;
    } else {
      var tail := ladder[1..];
      AscendingTail(ladder);
      SelectStepLast(tail, rate);
      assert tail[|tail| - 1] == last;
      if forall k | 0 <= k < |tail| - 1 :: tail[k].rate < rate {
        forall k | 0 <= k < |ladder| - 1 ensures ladder[k].rate < rate {
          if k > 0 { assert ladder[k] == tail[k - 1]; }
        }
      }
      if forall k | 0 <= k < |ladder| - 1 :: ladder[k].rate < rate {
        forall k | 0 <= k < |tail| - 1 ensures tail[k].rate < rate {
          assert tail[k] == ladder[k + 1];
        }
      }
    }
  }

  /** A larger request never selects a smaller rate. */
  lemma {:induction false} SelectStepMonotone(ladder: seq<RateStep>, r1: int, r2: int)
    requires |ladder| > 0 && Ascending(ladder) && r1 <= r2
    ensures SelectStep(ladder, r1).rate <= SelectStep(ladder, r2).rate
  {
    var s1, s2 := SelectStep(ladder, r1), SelectStep(ladder, r2);
    SelectStepLeast(ladder, r1);
    if s2.rate < r2 {
      var k :| 0 <= k < |ladder| && ladder[k] == s1;
      if k < |ladder| - 1 {
        assert ladder[k].rate < ladder[|ladder| - 1].rate;
      }
    }
  }

  /** The fields of a format word assembled from a channel field, a sample
      size field and rate bits read back as those parts. */
  lemma FormatWordFields(chan: bv16, bitsField: bv16, rateBits: bv16)
    requires chan < 16 && bitsField & !0x70 == 0 && rateBits & !0x7f00 == 0
    ensures var v := chan | bitsField | rateBits;
      FormatChannels(v) == chan as int + 1 && FormatBits(v) == FormatBits(bitsField) && v < 0x8000 &&
      FormatRate(v) == FormatRate(rateBits)
  {
    var v := chan | bitsField | rateBits;
    assert FormatBase(v) == FormatBase(rateBits) && FormatMult(v) == FormatMult(rateBits) &&
      FormatDiv(v) == FormatDiv(rateBits);
  }

  /** A branch's rate bits read back as its base, multiplier and divisor. */
  lemma StepBitsFields(s: RateStep)
    requires WellFormedStep(s)
    ensures StepBits(s) & !0x7f00 == 0
    ensures FormatBase(StepBits(s)) == (if s.base == FMT_BASE_441KHZ then 44100 else 48000)
    ensures FormatMult(StepBits(s)) == s.mult as int && FormatDiv(StepBits(s)) == s.div as int
    ensures FormatRate(StepBits(s)) == SelectedRate(s.base == FMT_BASE_441KHZ, s.mult as int, s.div as int)
  {
  }

  lemma LadderStepWellFormed(s: RateStep)
    requires s in RateLadder
    ensures WellFormedStep(s) && ExactStep(s)
  {
    LadderRatesExact();
  }
  /** The sample sizes a format word can name. */
  const SampleSizes: set<int> := {8, 16, 20, 24, 32}

  /** What makehdaformat produces: its return value and the parameters it
      writes through `actual`. */
  datatype Negotiated = Negotiated(format: bv16, actual: HwParams)

  /** The channel count makehdaformat uses (hda.c:935-943). */
  function NegotiateChannels(requested: u8): (c: u8)
    ensures 1 <= c <= 16
    ensures 1 <= requested <= 16 ==> c == requested
    ensures requested == 0 ==> c == 2
    ensures requested > 16 ==> c == 16
  {
    if requested == 0 then 2 else if requested > 16 then 16 else requested
  }

  /** The sample size makehdaformat uses and its field (hda.c:948-967): the
      smallest expressible size at least the requested one, or 32. */
  function NegotiateSampleSize(requested: u8): (r: (u8, bv16))
    ensures r.0 in SampleSizes && r.1 & !0x70 == 0 && FormatBits(r.1) == r.0
    ensures requested <= 32 ==> requested <= r.0
    ensures forall b | b in SampleSizes && requested <= b :: r.0 <= b
    ensures requested > 32 ==> r.0 == 32
  {
    if requested <= 8 then (8, FMT_BITS_8)
    else if requested <= 16 then (16, FMT_BITS_16)
    else if requested <= 20 then (20, FMT_BITS_20)
    else if requested <= 24 then (24, FMT_BITS_24)
    else (32, FMT_BITS_32)
  }

  /** The rate makehdaformat uses and the rate bits it ORs into the word
      (hda.c:969-1146). The test for requests up to 5513 Hz is not followed
      by an else: its bits stay in the word and the ladder runs as well. */
  function NegotiateRate(rate: u32): (r: (u32, bv16))
    ensures r.1 & !0x7f00 == 0
  {
    var low := if rate <= 5513 then FMT_BASE_441KHZ | FmtDiv(8) else 0;
    var step := SelectStep(RateLadder, rate);
    LadderStepWellFormed(step);
    StepBitsFields(step);
    (step.rate, low | StepBits(step))
  }

  /** makehdaformat (hda.c:934-1150): the format word for the channel
      count, sample size and rate that NegotiateChannels,
      NegotiateSampleSize and NegotiateRate settle on. */
  function MakeHdaFormat(p: HwParams): (r: Negotiated)
    ensures r.actual.channels == NegotiateChannels(p.channels)
    ensures FormatChannels(r.format) == r.actual.channels
    ensures r.actual.bits == NegotiateSampleSize(p.bits).0 && FormatBits(r.format) == r.actual.bits
    ensures r.actual.sampleRate == NegotiateRate(p.sampleRate).0
    ensures FormatRate(r.format) == FormatRate(NegotiateRate(p.sampleRate).1)
    ensures r.format < 0x8000
  {
    var channels := NegotiateChannels(p.channels);
    var (bits, bitsField) := NegotiateSampleSize(p.bits);
    var (rate, rateBits) := NegotiateRate(p.sampleRate);
    FormatWordFields(FmtChan(channels), bitsField, rateBits);
    Negotiated(FmtChan(channels) | bitsField | rateBits, HwParams(rate, bits, channels))
  }

  /** The rate makehdaformat reports is a rung of the ladder: the smallest
      one at least the request, and 192000 Hz exactly for requests above
      176400 Hz. */
  lemma NegotiatedRate(rate: u32)
    ensures var a := NegotiateRate(rate).0;
      (exists i | 0 <= i < |RateLadder| :: RateLadder[i].rate == a) &&
      (rate <= 192000 ==> rate <= a) &&
      (forall i | 0 <= i < |RateLadder| && rate <= RateLadder[i].rate :: a <= RateLadder[i].rate) &&
      (rate > 176400 <==> a == 192000)
  {
    LadderShape();
    LadderAscending();
    var step := SelectStep(RateLadder, rate);
    SelectStepLeast(RateLadder, rate);
    SelectStepLast(RateLadder, rate);
    var i :| 0 <= i < |RateLadder| && RateLadder[i] == step;
    if rate > 176400 {
      forall k | 0 <= k < |RateLadder| - 1 ensures RateLadder[k].rate < rate {
        if k < 41 { assert RateLadder[k].rate < RateLadder[41].rate; }
      }
    } else {
      assert i != 42;
      if i < 41 { assert RateLadder[i].rate < RateLadder[41].rate; }
    }
  }

  /** The rate bits select the reported rate, except for requests up to
      5513 Hz, where they select 5513 Hz while 6000 Hz is reported. */
  lemma NegotiatedFormatRate(rate: u32)
    ensures var (a, bits) := NegotiateRate(rate);
      (rate > 5513 ==> FormatRate(bits) == a) &&
      (rate <= 5513 ==> a == 6000 && FormatRate(bits) == 5513)
  {
    var step := SelectStep(RateLadder, rate);
    LadderStepWellFormed(step);
    StepBitsFields(step);
    if rate <= 5513 {
      assert step == RateLadder[0];
      LowestRateBits();
    } else {
      assert NegotiateRate(rate).1 == StepBits(step);
    }
  }

  /** The bits of the lowest ladder step with the 44.1 kHz base and the
      divisor 8 ORed in: 44.1 kHz / 8, that is 5513 Hz. */
  lemma LowestRateBits()
    ensures RateLadder[0] == RateStep(6000, FMT_BASE_48KHZ, 1, 8) && WellFormedStep(RateLadder[0])
    ensures (FMT_BASE_441KHZ | FmtDiv(8)) | StepBits(RateLadder[0]) == 0x4700
    ensures FormatRate(0x4700) == 5513
  {
  }

  /** A larger requested rate never yields a smaller negotiated rate. */
  lemma NegotiatedRateMonotone(r1: u32, r2: u32)
    requires r1 <= r2
    ensures NegotiateRate(r1).0 <= NegotiateRate(r2).0
  {
    LadderShape();
    LadderAscending();
    SelectStepMonotone(RateLadder, r1, r2);
  }
}
