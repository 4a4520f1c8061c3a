/**
 A wavetable oscillator: it holds one period of a waveform as a table of
 samples, a fractional read position into that table and the amount the
 position advances per output sample. Each sample is the linear
 interpolation of the two table entries around the position; the position
 then advances and wraps around the end of the table, so the oscillator
 produces an endless stream. Floats are modelled as ideal reals.
 */
module WavetableSynth {
  import opened RealArith

  type uint16 = x: int | 0 <= x < 0x1_0000
  type uint32 = x: int | 0 <= x < 0x1_0000_0000

  datatype Option<T> = None | Some(value: T)

  /** A span of time, as whole seconds plus nanoseconds. */
  datatype Duration = Duration(secs: nat, nanos: nat)

  /**
   The two table entries that an interpolation at `index` blends: the entry
   at or below the position, and the one after it, where the entry after the
   last one is the first.
   */
  function ReadPositions(len: nat, index: real): (p: (nat, nat))
    requires 0 < len && index < len as real
    ensures p.0 < len && p.1 < len
    ensures 0.0 <= index ==> p.0 as real <= index < p.0 as real + 1.0
    ensures index < 0.0 ==> p.0 == 0
    ensures p.0 + 1 < len ==> p.1 == p.0 + 1
    ensures p.0 + 1 == len ==> p.1 == 0
  {
    var truncated := AsUsize(index);
    (truncated, (truncated + 1) % len)
  }

  /** How much of the entry after the truncated position goes into the sample. */
  function NextIndexWeight(index: real): (w: real)
    ensures 0.0 <= index ==> 0.0 <= w < 1.0
    ensures IsInteger(index - w)
  {
    var truncated := AsUsize(index);
    assert (truncated as real).Floor == truncated;
    index - truncated as real
  }

  /** How much of the entry at the truncated position goes into the sample. */
  function TruncatedIndexWeight(index: real): (w: real)
    ensures w + NextIndexWeight(index) == 1.0
    ensures 0.0 <= index ==> 0.0 < w <= 1.0
  {
    1.0 - NextIndexWeight(index)
  }

  /**
   The interpolated sample at position `index` of `table`: a blend of the
   two entries around the position, equal to the entry itself when the
   position is whole.
   */
  function Lerp(table: seq<real>, index: real): (sample: real)
    requires 0 < |table| && index < |table| as real
    ensures 0.0 <= index ==>
      Between(sample, table[ReadPositions(|table|, index).0], table[ReadPositions(|table|, index).1])
    ensures 0.0 <= index && IsInteger(index) ==> sample == table[index.Floor]
  {
    var (truncated, next) := ReadPositions(|table|, index);
    var w := NextIndexWeight(index);
    var sample := TruncatedIndexWeight(index) * table[truncated] + w * table[next];
    assert sample == (1.0 - w) * table[truncated] + w * table[next];
    assert 0.0 <= index ==> Between(sample, table[truncated], table[next]) by {
      if 0.0 <= index { ConvexBetween(table[truncated], table[next], w); }
    }
    assert 0.0 <= index && IsInteger(index) ==> truncated == index.Floor && w == 0.0;
    sample
  }

  /**
   The value of the interpolation at any position inside the table: `w` of
   the way from entry `k` to the entry after it, the sample weighs entry `k`
   by `1 - w` and the next entry (entry 0 after the last) by `w`.
   */
  lemma LerpLinear(table: seq<real>, k: nat, w: real)
    requires k < |table| && 0.0 <= w < 1.0
    ensures Lerp(table, k as real + w) == (1.0 - w) * table[k] + w * table[(k + 1) % |table|]
  {
    var p := k as real + w;
    assert p.Floor == k;
    assert ReadPositions(|table|, p) == (k, (k + 1) % |table|);
    assert NextIndexWeight(p) == w;
  }

  /**
   The increment that makes the position travel through the table
   `frequency` times per second at `sampleRate` samples per second.
   */
  function Increment(frequency: real, len: nat, sampleRate: uint32): (inc: real)
    requires 0 < sampleRate
    ensures inc * sampleRate as real == frequency * len as real
    ensures 0 < len ==> (0.0 <= inc <==> 0.0 <= frequency)
  {
    var rate := sampleRate as real;
    DivMul(frequency * len as real, rate);
    QuotientLower(frequency * len as real, rate, 0.0);
    assert 0 < len ==> (0.0 <= frequency <==> 0.0 <= frequency * len as real) by {
      if 0 < len { MulMono(0.0, frequency, len as real); }
    }
    frequency * len as real / rate
  }

  /** The position after one sample: moved on by `inc` and wrapped into the table. */
  function Advance(index: real, inc: real, len: nat): (next: real)
    requires 0 < len
    ensures 0.0 <= index + inc ==> 0.0 <= next < len as real
    ensures index + inc < 0.0 ==> -(len as real) < next <= 0.0
  {
    FRem(index + inc, len as real)
  }

  /** A wavetable oscillator whose position and increment change as it is used. */
  class WavetableOscillator {
    var sampleRate: uint32
    var waveTable: seq<real>
    var index: real
    var indexIncrement: real

    /**
     A sample can be drawn: the table is not empty and the position is below
     its end, so both entries read lie inside it.
     */
    ghost predicate Readable()
      reads this
    {
      0 < |waveTable| && index < |waveTable| as real
    }

    /**
     The invariant of an oscillator driven with non-negative frequencies: the
     position lies in [0, length of the table) and only moves forward.
     */
    ghost predicate Valid()
      reads this
    {
      Readable() && 0.0 <= index && 0.0 <= indexIncrement
    }

    /** A silent oscillator at position 0 over the given table and rate. */
    constructor (sampleRate: uint32, waveTable: seq<real>)
      ensures this.sampleRate == sampleRate && this.waveTable == waveTable
      ensures index == 0.0 && indexIncrement == 0.0
      ensures Valid() <==> 0 < |waveTable|
    {
      this.sampleRate := sampleRate;
      this.waveTable := waveTable;
      index := 0.0;
      indexIncrement := 0.0;
    }

    /** Sets the pitch; only the increment changes. */
    method SetFrequency(frequency: real)
      requires 0 < sampleRate
      modifies this`indexIncrement
      ensures indexIncrement == Increment(frequency, |waveTable|, sampleRate)
      ensures Valid() <==> Readable() && 0.0 <= index && 0.0 <= frequency
    {
      indexIncrement := frequency * |waveTable| as real / sampleRate as real;
    }

    /**
     Returns the interpolated sample at the current position, then advances
     the position; only the position changes.
     */
    method GetSample() returns (sample: real)
      requires Readable()
      modifies this`index
      ensures sample == Lerp(waveTable, old(index))
      ensures index == Advance(old(index), indexIncrement, |waveTable|)
      ensures Readable()
      ensures old(Valid()) ==> Valid()
    {
      sample := Lerp(waveTable, index);
      index := index + indexIncrement;
      index := FRem(index, |waveTable| as real);
    }

    /** The next item of the sample stream, which is never exhausted. */
    method Next() returns (item: Option<real>)
      requires Readable()
      modifies this`index
      ensures item.Some? && item.value == Lerp(waveTable, old(index))
      ensures index == Advance(old(index), indexIncrement, |waveTable|)
      ensures Readable()
      ensures old(Valid()) ==> Valid()
    {
      var sample := GetSample();
      item := Some(sample);
    }

    /** The stream is mono. */
    function Channels(): (n: uint16)
      ensures n == 1
    {
      1
    }

    /** The stream plays at the rate the oscillator was built with. */
    function SampleRate(): (rate: uint32)
      reads this
      ensures rate == sampleRate
    {
      sampleRate
    }

    /** The stream has no frame boundaries. */
    function CurrentFrameLen(): (len: Option<nat>)
      ensures len.None?
    {
      None
    }

    /** The stream has no end, so no total duration. */
    function TotalDuration(): (d: Option<Duration>)
      ensures d.None?
    {
      None
    }
  }

  /** Builds the oscillator that plays A4: a 64-entry table at 44100 samples per second, set to 440 Hz. */
  method StartA440(waveTable: seq<real>) returns (oscillator: WavetableOscillator)
    requires |waveTable| == 64
    ensures fresh(oscillator) && oscillator.Valid()
    ensures oscillator.sampleRate == 44100 && oscillator.waveTable == waveTable
    ensures oscillator.index == 0.0 && oscillator.indexIncrement == 1408.0 / 2205.0
  {
    oscillator := new WavetableOscillator(44100, waveTable);
    oscillator.SetFrequency(440.0);
  }
}
