/**
 * Audio block synthesis of `mp_generate_audio`: the saturating subtract, the
 * two fixed-point high-pass stages, the fractional-rate resampler that reads
 * the jitter buffer, and the skip when the sound device is backlogged.
 * Everything here is a value-level description; the worker class runs the
 * same steps on its fields and is proved equal to these functions.
 */
module Synthesis {
  import opened Wrappers
  import opened FixedWidth
  import opened Receiver

  /** MP_SAMPLE_RATE. */
  const SAMPLE_RATE: nat := 8000
  /** Samples per synthesised block (MP_BUFFER_MS_MAX / 2). */
  const BLOCK_SAMPLES: nat := 128
  /** Size in bytes of one block of 16-bit samples. */
  const BLOCK_BYTES: nat := 256
  /** Largest magnitude `mp_subtract_safe` returns. */
  const SAMPLE_MAX: int := 0x7FFF

  /** `mp_subtract_safe`: the difference computed in 32 bits and clamped to
      [-32767, 32767], so the two's-complement value -32768 never appears. */
  function SubtractSafe(a: i16, b: i16): (r: i16)
    ensures -SAMPLE_MAX <= r <= SAMPLE_MAX
    ensures -SAMPLE_MAX <= a - b <= SAMPLE_MAX ==> r == a - b
  {
    var t := a - b;
    if t < -SAMPLE_MAX then -SAMPLE_MAX else if t > SAMPLE_MAX then SAMPLE_MAX else t
  }

  function Abs(x: int): nat { if x < 0 then -x else x }

  /** Saturation picks the representable value nearest to the true difference. */
  lemma SubtractSafeNearest(a: i16, b: i16, v: int)
    requires -SAMPLE_MAX <= v <= SAMPLE_MAX
    ensures Abs(SubtractSafe(a, b) - (a - b)) <= Abs(v - (a - b))
  {
  }

  // One high-pass stage (`mp_hp_f1`, `mp_hp_f2`): an exponential average of
  // the input scaled by 2^16 is kept in a 32-bit accumulator and subtracted
  // from the input.

  /** The accumulator after one input sample: acc += in * 2^8 - acc / 2^8. */
  function LowPass(acc: int, x: i16): int
  {
    acc + (x * 0x100 - CDiv(acc, 0x100))
  }

  /** The stage's output from its updated accumulator. The average acc / 2^16
      is passed through an `int16_t` parameter. */
  function HighPass(acc: int, x: i16): i16
  {
    SubtractSafe(x, ToI16(CDiv(acc, 0x1_0000)))
  }

  /** The accumulator update never overflows a 32-bit `int`, whatever the
      16-bit input. At the negative end the bound is met exactly. */
  lemma LowPassStaysInt32(acc: int, x: i16)
    requires IsInt32(acc)
    ensures IsInt32(LowPass(acc, x))
  {
    var q := CDiv(acc, 0x100);
    if acc >= 0 {
      assert 0 <= acc - q * 0x100 < 0x100;
      assert q <= 0x7F_FFFF;
      assert acc - q <= 255 * q + 255;
    } else {
      assert -0x100 < acc - q * 0x100 <= 0;
      assert q >= -0x80_0000;
      assert acc - q >= 255 * q - 255;
    }
  }

  /** The average handed to `mp_subtract_safe` is always an `int16_t` value,
      so that narrowing never changes it. */
  lemma AverageFitsI16(acc: int)
    requires IsInt32(acc)
    ensures -0x8000 <= CDiv(acc, 0x1_0000) < 0x8000
    ensures ToI16(CDiv(acc, 0x1_0000)) == CDiv(acc, 0x1_0000)
  {
    var q := CDiv(acc, 0x1_0000);
    if acc >= 0 {
      assert 0 <= acc - q * 0x1_0000 < 0x1_0000;
    } else {
      assert -0x1_0000 < acc - q * 0x1_0000 <= 0;
    }
  }

  /** A stage blocks a constant input: with the accumulator at the input
      times 2^16 it stays there and the output is silence. */
  lemma HighPassBlocksConstant(x: i16)
    ensures LowPass(x * 0x1_0000, x) == x * 0x1_0000
    ensures HighPass(x * 0x1_0000, x) == 0
  {
    var a := x * 0x1_0000;
    if x >= 0 {
      assert a == (x * 0x100) * 0x100 + 0;
      assert a / 0x100 == x * 0x100;
      assert a / 0x1_0000 == x;
    } else {
      var xi: int := x;
      var n := -xi;
      assert -a == (n * 0x100) * 0x100 + 0;
      assert (-a) / 0x100 == n * 0x100;
      assert (-a) / 0x1_0000 == n;
    }
  }

  /** The synthesiser fields of the worker: `rem`, `last_sample`,
      `low_pass_1` and `low_pass_2`. */
  datatype Synth = Synth(rem: int, lastSample: int, lowPass1: int, lowPass2: int)

  /** The resampler phase is below the sample rate, the held sample is a
      saturated value and both accumulators are 32-bit. */
  predicate SynthInv(s: Synth)
  {
    && 0 <= s.rem < SAMPLE_RATE
    && -SAMPLE_MAX <= s.lastSample <= SAMPLE_MAX
    && IsInt32(s.lowPass1)
    && IsInt32(s.lowPass2)
  }

  /** `mp_hp_f1(mp_hp_f2(x))`: stage 2 first, then stage 1. The filtered value
      becomes the new held sample. */
  function Filter(s: Synth, x: i16): (r: Synth)
    ensures r.rem == s.rem
    ensures -SAMPLE_MAX <= r.lastSample <= SAMPLE_MAX
  {
    var lp2 := LowPass(s.lowPass2, x);
    var o2 := HighPass(lp2, x);
    var lp1 := LowPass(s.lowPass1, o2);
    Synth(s.rem, HighPass(lp1, o2), lp1, lp2)
  }

  /** Filtering keeps the synthesiser invariant. */
  lemma FilterPreservesInv(s: Synth, x: i16)
    requires SynthInv(s)
    ensures SynthInv(Filter(s, x))
  {
    LowPassStaysInt32(s.lowPass2, x);
    LowPassStaysInt32(s.lowPass1, HighPass(LowPass(s.lowPass2, x), x));
  }

  /** How many unread jitter values the cursor leaves ahead of itself before
      it reads one: `freq / 50 + 2`. */
  function LeadTime(freq: int): int
    requires freq > 0
  {
    CDiv(freq, 50) + 2
  }

  /** Where the skip loop leaves the cursor: moved forward until at most
      LeadTime values of the depth-long buffer are unread. */
  function Skip(y: int, depth: int, freq: int): (r: int)
    requires freq > 0
    ensures r >= y && depth - r <= LeadTime(freq)
    ensures r > y ==> depth - r == LeadTime(freq)
  {
    if depth - y > LeadTime(freq) then depth - LeadTime(freq) else y
  }

  /** The amplitude-scaled jitter value. The product is narrowed to `int16_t`
      by the parameter of `mp_subtract_safe` before the clamp. */
  function Scale(v: int, amp: int): i16
  {
    SubtractSafe(ToI16(v * amp), 0)
  }

  /** The narrowing comes first: a product just above 32767 wraps to a
      negative sample instead of saturating. */
  lemma ScaleWrapsBeforeClamp()
    ensures Scale(43, 768) == -32512
  {
  }

  /** A jitter value (a difference of two `int16_t` values) times an
      amplitude in [0, 32767] fits a 32-bit `int`. */
  lemma ScaleFitsInt32(v: int, amp: int)
    requires -0xFFFF <= v <= 0xFFFF && 0 <= amp <= SAMPLE_MAX
    ensures IsInt32(v * amp)
  {
    var m := if v < 0 then -v else v;
    MulMono(m, 0xFFFF, amp);
    MulMono(0, m, amp);
    if v < 0 {
      MulNegate(v, amp);
    }
  }

  lemma MulNegate(v: int, c: int)
    ensures v * c == -((-v) * c)
  {
  }

  lemma MulMono(a: int, b: int, c: int)
    requires a <= b && 0 <= c
    ensures a * c <= b * c
  {
    assert (b - a) * c >= 0;
  }

  /** The synthesiser, the cursor `y` into the jitter buffer and the samples
      of the block produced so far. */
  datatype Gen = Gen(synth: Synth, y: int, out: seq<int>)

  /** The phase after one step of the fractional-rate counter. */
  function Advance(rem: int, freq: int): int
  {
    if rem + freq >= SAMPLE_RATE then rem + freq - SAMPLE_RATE else rem + freq
  }

  /** The phase after n steps. */
  function PhaseAfter(rem: int, freq: int, n: nat): int
  {
    if n == 0 then rem else Advance(PhaseAfter(rem, freq, n - 1), freq)
  }

  /** The resampler part of one output step: the new phase, the new cursor
      and the held sample, before filtering. */
  datatype Tick = Tick(rem: int, y: int, held: int)

  /** Advance the phase by freq; at a wrap, skip stale values and, if one is
      left, take the next as the new held sample. */
  function Resample(s: Synth, y: int, q: seq<int>, freq: int, amp: int): (t: Tick)
    requires 0 <= y <= |q| && freq > 0
    ensures y <= t.y <= |q|
  {
    var rem := s.rem + freq;
    if rem < SAMPLE_RATE then Tick(rem, y, s.lastSample)
    else
      var y1 := Skip(y, |q|, freq);
      if y1 < |q| then Tick(rem - SAMPLE_RATE, y1 + 1, Scale(q[y1], amp))
      else Tick(rem - SAMPLE_RATE, y1, s.lastSample)
  }

  /** Between wraps the held sample stays; at a wrap the cursor is left
      fewer than LeadTime values from the end of the buffer, and a value
      read is the one just before the cursor, amplitude-scaled. */
  lemma ResampleCases(s: Synth, y: int, q: seq<int>, freq: int, amp: int)
    requires 0 <= y <= |q| && freq > 0
    ensures var t := Resample(s, y, q, freq, amp);
      && (s.rem + freq < SAMPLE_RATE ==> t == Tick(s.rem + freq, y, s.lastSample))
      && (s.rem + freq >= SAMPLE_RATE ==> t.rem == s.rem + freq - SAMPLE_RATE && |q| - t.y < LeadTime(freq))
      && (t.y > y ==> t.held == Scale(q[t.y - 1], amp) && |q| - t.y < LeadTime(freq))
      && (t.y == y ==> t.held == s.lastSample)
  {
  }

  /** One output sample: resample, then filter the held sample, which is
      also what is emitted. */
  function Step(g: Gen, q: seq<int>, freq: int, amp: int): (r: Gen)
    requires 0 <= g.y <= |q| && freq > 0
    ensures g.y <= r.y <= |q|
    ensures r.out == g.out + [r.synth.lastSample]
    ensures -SAMPLE_MAX <= r.synth.lastSample <= SAMPLE_MAX
  {
    var t := Resample(g.synth, g.y, q, freq, amp);
    var s := Filter(Synth(t.rem, t.held, g.synth.lowPass1, g.synth.lowPass2), ToI16(t.held));
    Gen(s, t.y, g.out + [s.lastSample])
  }

  /** n output samples in a row. */
  function Steps(g: Gen, q: seq<int>, freq: int, amp: int, n: nat): (r: Gen)
    requires 0 <= g.y <= |q| && freq > 0
    ensures g.y <= r.y <= |q|
    ensures |r.out| == |g.out| + n && r.out[..|g.out|] == g.out
  {
    if n == 0 then g else Step(Steps(g, q, freq, amp, n - 1), q, freq, amp)
  }

  /** The samples of s from index `from` on are all saturated values. */
  predicate SaturatedFrom(s: seq<int>, from: nat)
  {
    forall k :: from <= k < |s| ==> -SAMPLE_MAX <= s[k] <= SAMPLE_MAX
  }

  lemma SaturatedSnoc(s: seq<int>, from: nat, v: int)
    requires SaturatedFrom(s, from) && -SAMPLE_MAX <= v <= SAMPLE_MAX
    ensures SaturatedFrom(s + [v], from)
  {
    forall k | from <= k < |s| + 1
      ensures -SAMPLE_MAX <= (s + [v])[k] <= SAMPLE_MAX
    {
      if k < |s| {
        assert (s + [v])[k] == s[k];
      }
    }
  }

  /** Every sample n steps append is saturated. */
  lemma {:induction false} StepsSaturated(g: Gen, q: seq<int>, freq: int, amp: int, n: nat)
    requires 0 <= g.y <= |q| && freq > 0
    ensures SaturatedFrom(Steps(g, q, freq, amp, n).out, |g.out|)
  {
    if n > 0 {
      StepsSaturated(g, q, freq, amp, n - 1);
      var p := Steps(g, q, freq, amp, n - 1);
      var r := Step(p, q, freq, amp);
      SaturatedSnoc(p.out, |g.out|, r.synth.lastSample);
      assert Steps(g, q, freq, amp, n) == r;
    }
  }

  /** The phase after n steps is PhaseAfter n. */
  lemma {:induction false} StepsPhase(g: Gen, q: seq<int>, freq: int, amp: int, n: nat)
    requires 0 <= g.y <= |q| && freq > 0
    ensures Steps(g, q, freq, amp, n).synth.rem == PhaseAfter(g.synth.rem, freq, n)
  {
    if n > 0 {
      StepsPhase(g, q, freq, amp, n - 1);
      ResampleCases(Steps(g, q, freq, amp, n - 1).synth, Steps(g, q, freq, amp, n - 1).y, q, freq, amp);
    }
  }

  /** A step keeps the synthesiser invariant for frequencies up to the
      sample rate. */
  lemma StepPreservesInv(g: Gen, q: seq<int>, freq: int, amp: int)
    requires 0 <= g.y <= |q| && 0 < freq <= SAMPLE_RATE
    requires SynthInv(g.synth)
    ensures SynthInv(Step(g, q, freq, amp).synth)
  {
    var t := Resample(g.synth, g.y, q, freq, amp);
    FilterPreservesInv(Synth(t.rem, t.held, g.synth.lowPass1, g.synth.lowPass2), ToI16(t.held));
  }

  /** n steps keep the invariant. */
  lemma {:induction false} StepsPreserveInv(g: Gen, q: seq<int>, freq: int, amp: int, n: nat)
    requires 0 <= g.y <= |q| && 0 < freq <= SAMPLE_RATE
    requires SynthInv(g.synth)
    ensures SynthInv(Steps(g, q, freq, amp, n).synth)
  {
    if n > 0 {
      var p := Steps(g, q, freq, amp, n - 1);
      StepsPreserveInv(g, q, freq, amp, n - 1);
      StepPreservesInv(p, q, freq, amp);
    }
  }

  /** Adding to a value reduced modulo the sample rate commutes with the reduction. */
  lemma ModAdd(a: int, f: int)
    ensures (a % SAMPLE_RATE + f) % SAMPLE_RATE == (a + f) % SAMPLE_RATE
  {
    var q := a / 8000;
    assert a == q * 8000 + a % 8000;
    assert a + f == (a % 8000 + f) + q * 8000;
  }

  lemma MulPred(n: int, f: int)
    ensures (n - 1) * f == n * f - f
  {
  }

  /** PhaseAfter given the unreduced sum total of the initial phase and n
      times freq. */
  lemma {:induction false} PhaseAfterSum(rem: int, freq: int, n: nat, total: int)
    requires 0 <= rem < SAMPLE_RATE && 0 < freq <= SAMPLE_RATE
    requires total == rem + n * freq
    ensures PhaseAfter(rem, freq, n) == total % SAMPLE_RATE
  {
    if n > 0 {
      MulPred(n, freq);
      PhaseAfterSum(rem, freq, n - 1, total - freq);
      var prev := PhaseAfter(rem, freq, n - 1);
      ModAdd(total - freq, freq);
      if prev + freq >= SAMPLE_RATE {
        assert prev + freq == (prev + freq - 8000) + 1 * 8000;
      }
    }
  }

  /** The counter is exact: after n steps the phase is (rem + n * freq)
      mod 8000, for a phase below the sample rate and freq up to it. */
  lemma PhaseAfterIsModular(rem: int, freq: int, n: nat)
    requires 0 <= rem < SAMPLE_RATE && 0 < freq <= SAMPLE_RATE
    ensures PhaseAfter(rem, freq, n) == (rem + n * freq) % SAMPLE_RATE
  {
    PhaseAfterSum(rem, freq, n, rem + n * freq);
  }

  /** What one call of `mp_generate_audio` computes from the synthesiser and
      the filled part of the jitter buffer: the new synthesiser, the unread
      values moved to the front, and the block handed to `write`, or
      nothing when the call returned early. */
  datatype Audio = Audio(synth: Synth, queue: seq<int>, block: Option<seq<int>>)

  /** The output-delay query succeeded and reports at least one block queued. */
  predicate Backlogged(odelay: Option<int>)
  {
    odelay.Some? && odelay.value >= BLOCK_BYTES
  }

  function Generate(s: Synth, q: seq<int>, freq: int, amp: int, odelay: Option<int>): (r: Audio)
    requires freq > 0
    ensures Backlogged(odelay) ==> r == Audio(s, q, None)
    ensures !Backlogged(odelay) ==>
      && r.block.Some? && |r.block.value| == BLOCK_SAMPLES
      && |r.queue| <= |q| && r.queue == q[|q| - |r.queue|..]
  {
    if Backlogged(odelay) then Audio(s, q, None)
    else
      var g := Steps(Gen(s, 0, []), q, freq, amp, BLOCK_SAMPLES);
      Audio(g.synth, q[g.y..], Some(g.out))
  }

  /** A generated block keeps the synthesiser invariant and holds only
      saturated samples. */
  lemma GeneratePreservesInv(s: Synth, q: seq<int>, freq: int, amp: int, odelay: Option<int>)
    requires 0 < freq <= SAMPLE_RATE
    requires SynthInv(s) && Samples(q)
    ensures var r := Generate(s, q, freq, amp, odelay);
      && SynthInv(r.synth) && Samples(r.queue)
      && (r.block.Some? ==> forall k :: 0 <= k < |r.block.value| ==> -SAMPLE_MAX <= r.block.value[k] <= SAMPLE_MAX)
  {
    if !Backlogged(odelay) {
      StepsPreserveInv(Gen(s, 0, []), q, freq, amp, BLOCK_SAMPLES);
      StepsSaturated(Gen(s, 0, []), q, freq, amp, BLOCK_SAMPLES);
    }
  }

  /** After a generated block the phase has advanced by 128 * freq modulo the sample rate. */
  lemma GeneratePhase(s: Synth, q: seq<int>, freq: int, amp: int, odelay: Option<int>)
    requires 0 < freq <= SAMPLE_RATE && 0 <= s.rem < SAMPLE_RATE
    requires !Backlogged(odelay)
    ensures Generate(s, q, freq, amp, odelay).synth.rem == (s.rem + BLOCK_SAMPLES * freq) % SAMPLE_RATE
  {
    StepsPhase(Gen(s, 0, []), q, freq, amp, BLOCK_SAMPLES);
    PhaseAfterIsModular(s.rem, freq, BLOCK_SAMPLES);
  }
}
