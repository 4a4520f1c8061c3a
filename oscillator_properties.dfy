/**
 What the oscillator promises across samples: where the position is after
 any number of draws, which samples the endless stream yields, and how the
 interpolation behaves at and between table entries.
 */
module OscillatorProperties {
  import opened RealArith
  import opened WavetableSynth

  /** The position after `n` samples have been drawn starting from `index`. */
  function PositionAfter(index: real, inc: real, len: nat, n: nat): (p: real)
    requires 0 < len && 0.0 <= index < len as real && 0.0 <= inc
    ensures 0.0 <= p < len as real
    decreases n
  {
    if n == 0 then index else PositionAfter(Advance(index, inc, len), inc, len, n - 1)
  }

  /** The first `n` samples of the stream of an oscillator at `index` stepping by `inc`. */
  function Samples(table: seq<real>, index: real, inc: real, n: nat): (s: seq<real>)
    requires 0 < |table| && 0.0 <= index < |table| as real && 0.0 <= inc
    ensures |s| == n
    decreases n
  {
    if n == 0 then []
    else [Lerp(table, index)] + Samples(table, Advance(index, inc, |table|), inc, n - 1)
  }

  /** Sample `k` of the stream is the interpolation at the position reached after `k` draws. */
  lemma {:induction false} SamplesAt(table: seq<real>, index: real, inc: real, n: nat, k: nat)
    requires 0 < |table| && 0.0 <= index < |table| as real && 0.0 <= inc
    requires k < n
    ensures Samples(table, index, inc, n)[k] == Lerp(table, PositionAfter(index, inc, |table|, k))
    decreases k
  {
    var next := Advance(index, inc, |table|);
    var s := Samples(table, index, inc, n);
    assert s == [Lerp(table, index)] + Samples(table, next, inc, n - 1);
    if k > 0 {
      SamplesAt(table, next, inc, n - 1, k - 1);
      assert s[k] == Samples(table, next, inc, n - 1)[k - 1];
      assert PositionAfter(index, inc, |table|, k) == PositionAfter(next, inc, |table|, k - 1);
    }
  }

  /** One more draw moves the position reached after `n` draws on by one step. */
  lemma {:induction false} PositionAfterStep(index: real, inc: real, len: nat, n: nat)
    requires 0 < len && 0.0 <= index < len as real && 0.0 <= inc
    ensures PositionAfter(index, inc, len, n + 1) == Advance(PositionAfter(index, inc, len, n), inc, len)
    decreases n
  {
    if n > 0 {
      PositionAfterStep(Advance(index, inc, len), inc, len, n - 1);
    }
  }

  /** One more draw appends the sample at the position reached after `n` draws. */
  lemma {:induction false} SamplesStep(table: seq<real>, index: real, inc: real, n: nat)
    requires 0 < |table| && 0.0 <= index < |table| as real && 0.0 <= inc
    ensures Samples(table, index, inc, n + 1)
      == Samples(table, index, inc, n) + [Lerp(table, PositionAfter(index, inc, |table|, n))]
    decreases n
  {
    var next := Advance(index, inc, |table|);
    if n > 0 {
      SamplesStep(table, next, inc, n - 1);
      assert PositionAfter(index, inc, |table|, n) == PositionAfter(next, inc, |table|, n - 1);
      assert Samples(table, index, inc, n + 1)
        == [Lerp(table, index)] + (Samples(table, next, inc, n - 1) + [Lerp(table, PositionAfter(next, inc, |table|, n - 1))]);
    }
  }

  /**
   Pulling `n` items from the oscillator's stream, as the audio output does,
   yields the first `n` samples of the stream and leaves the position where
   `n` draws take it.
   */
  method Draw(o: WavetableOscillator, n: nat) returns (out: seq<real>)
    requires o.Valid()
    modifies o`index
    ensures o.Valid()
    ensures out == Samples(o.waveTable, old(o.index), o.indexIncrement, n)
    ensures o.index == PositionAfter(old(o.index), o.indexIncrement, |o.waveTable|, n)
  {
    out := [];
    var i := 0;
    while i < n
      invariant 0 <= i <= n
      invariant o.Valid()
      invariant out == Samples(o.waveTable, old(o.index), o.indexIncrement, i)
      invariant o.index == PositionAfter(old(o.index), o.indexIncrement, |o.waveTable|, i)
    {
      SamplesStep(o.waveTable, old(o.index), o.indexIncrement, i);
      PositionAfterStep(old(o.index), o.indexIncrement, |o.waveTable|, i);
      var item := o.Next();
      out := out + [item.value];
      i := i + 1;
    }
  }

  /** The distance covered by `n` increments, before any wrapping. */
  function Travel(inc: real, n: nat): (d: real)
    ensures 0.0 <= inc ==> 0.0 <= d
  {
    if n == 0 then 0.0 else inc + Travel(inc, n - 1)
  }

  /** `n` increments cover `n` times the increment. */
  lemma {:induction false} TravelIsProduct(inc: real, n: nat)
    ensures Travel(inc, n) == inc * n as real
  {
    if n > 0 {
      TravelIsProduct(inc, n - 1);
      assert inc * (n - 1) as real + inc == inc * n as real;
    }
  }

  /**
   Wrapping after every step lands where wrapping once at the end would:
   after `n` draws the position is the start plus `n` increments, reduced
   modulo the table length.
   */
  lemma {:induction false} PositionAfterClosedForm(index: real, inc: real, len: nat, n: nat)
    requires 0 < len && 0.0 <= index < len as real && 0.0 <= inc
    ensures PositionAfter(index, inc, len, n) == FRem(index + Travel(inc, n), len as real)
    decreases n
  {
    if n == 0 {
      FRemSmall(index, len as real);
    } else {
      var next := Advance(index, inc, len);
      PositionAfterClosedForm(next, inc, len, n - 1);
      FRemAddAbsorbs(index + inc, Travel(inc, n - 1), len as real);
    }
  }

  /** A step that stays short of the end of the table does not wrap. */
  lemma AdvanceWithinTable(index: real, inc: real, len: nat)
    requires 0 < len && 0.0 <= index && 0.0 <= inc && index + inc < len as real
    ensures Advance(index, inc, len) == index + inc
  {
    FRemSmall(index + inc, len as real);
  }

  /** A step that passes the end of the table, by less than a whole table, wraps back by one table length. */
  lemma AdvanceWraps(index: real, inc: real, len: nat)
    requires 0 < len && 0.0 <= index && 0.0 <= inc
    requires len as real <= index + inc < 2.0 * len as real
    ensures Advance(index, inc, len) == index + inc - len as real
  {
    FRemOfDecomposition(index + inc, len as real, 1, index + inc - len as real);
  }

  /** With a zero increment the position never moves. */
  lemma FrozenPosition(index: real, len: nat, n: nat)
    requires 0 < len && 0.0 <= index < len as real
    ensures PositionAfter(index, 0.0, len, n) == index
  {
    PositionAfterClosedForm(index, 0.0, len, n);
    TravelIsProduct(0.0, n);
    FRemSmall(index, len as real);
  }

  /** With a zero increment every sample of the stream is the one at the starting position. */
  lemma FrozenStream(table: seq<real>, index: real, n: nat)
    requires 0 < |table| && 0.0 <= index < |table| as real
    ensures forall k :: 0 <= k < n ==> Samples(table, index, 0.0, n)[k] == Lerp(table, index)
  {
    forall k | 0 <= k < n
      ensures Samples(table, index, 0.0, n)[k] == Lerp(table, index)
    {
      SamplesAt(table, index, 0.0, n, k);
      FrozenPosition(index, |table|, k);
    }
  }

  /** An oscillator at position 0 with step 0, such as a fresh one, repeats the first table entry forever. */
  lemma {:induction false} SilentOscillatorStream(table: seq<real>, n: nat)
    requires 0 < |table|
    ensures Samples(table, 0.0, 0.0, n) == seq(n, _ => table[0])
  {
    FrozenStream(table, 0.0, n);
  }

  /** A step that lands exactly on the end of the table wraps to the first entry, and the next sample is that entry. */
  lemma FullCycleReturnsToFirstEntry(table: seq<real>, index: real, inc: real)
    requires 0 < |table| && 0.0 <= index && 0.0 <= inc
    requires index + inc == |table| as real
    ensures Advance(index, inc, |table|) == 0.0
    ensures Lerp(table, Advance(index, inc, |table|)) == table[0]
  {
    AdvanceWraps(index, inc, |table|);
  }

  /**
   One second of output, `sampleRate` samples, moves the position through
   the table exactly `frequency` times.
   */
  lemma OneSecondIsFrequencyCycles(index: real, frequency: real, len: nat, sampleRate: uint32)
    requires 0 < len && 0 < sampleRate && 0.0 <= index < len as real && 0.0 <= frequency
    ensures PositionAfter(index, Increment(frequency, len, sampleRate), len, sampleRate)
      == FRem(index + frequency * len as real, len as real)
  {
    var inc := Increment(frequency, len, sampleRate);
    CyclesFromIncrement(index, inc, frequency * len as real, len, sampleRate);
  }

  /** `n` draws with an increment covering `distance` in total land at the start plus `distance`, wrapped. */
  lemma CyclesFromIncrement(index: real, inc: real, distance: real, len: nat, n: nat)
    requires 0 < len && 0.0 <= index < len as real && 0.0 <= inc
    requires inc * n as real == distance
    ensures PositionAfter(index, inc, len, n) == FRem(index + distance, len as real)
  {
    PositionAfterClosedForm(index, inc, len, n);
    TravelIsProduct(inc, n);
  }

  /** A whole-numbered frequency brings the position back to where it was after each second. */
  lemma WholeFrequencyIsPeriodic(index: real, frequency: nat, len: nat, sampleRate: uint32)
    requires 0 < len && 0 < sampleRate && 0.0 <= index < len as real
    ensures PositionAfter(index, Increment(frequency as real, len, sampleRate), len, sampleRate) == index
  {
    var inc := Increment(frequency as real, len, sampleRate);
    var distance := frequency as real * len as real;
    assert inc * sampleRate as real == distance;
    CyclesFromIncrement(index, inc, distance, len, sampleRate);
    assert 0.0 <= distance by {
      ScaledNonNegative(frequency as real, len as real);
    }
    FRemOfDecomposition(index + distance, len as real, frequency, index);
  }

  /**
   The A4 oscillator (64 entries, 44100 samples per second, 440 Hz) steps
   by 1408/2205, is at position 140800/2205, between the last and the first
   entry, after 100 samples, and its next sample blends those two entries
   with weights 64/441 and 377/441.
   */
  lemma A440AfterHundredSamples(table: seq<real>, inc: real)
    requires |table| == 64 && inc == Increment(440.0, |table|, 44100)
    ensures inc == 1408.0 / 2205.0
    ensures PositionAfter(0.0, inc, |table|, 100) == 140800.0 / 2205.0
    ensures Lerp(table, PositionAfter(0.0, inc, |table|, 100)) == 64.0 / 441.0 * table[63] + 377.0 / 441.0 * table[0]
  {
    assert inc == 1408.0 / 2205.0;
    CyclesFromIncrement(0.0, inc, 140800.0 / 2205.0, |table|, 100);
    FRemSmall(140800.0 / 2205.0, 64.0);
    BlendNearEnd(table);
  }

  /** At position 140800/2205 of a 64-entry table the sample blends entries 63 and 0 with weights 64/441 and 377/441. */
  lemma BlendNearEnd(table: seq<real>)
    requires |table| == 64
    ensures Lerp(table, 140800.0 / 2205.0) == 64.0 / 441.0 * table[63] + 377.0 / 441.0 * table[0]
  {
    var p := 140800.0 / 2205.0;
    assert AsUsize(p) == 63;
    assert ReadPositions(|table|, p) == (63, 0);
    assert NextIndexWeight(p) == 377.0 / 441.0;
    assert TruncatedIndexWeight(p) == 64.0 / 441.0;
  }
}
