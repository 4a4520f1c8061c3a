# Wavetable oscillator, modelled in Dafny

The program plays a 440 Hz tone. It stores one period of a sine wave in a
64-entry table and reads the table with a `WavetableOscillator`. The
oscillator holds:

- a sample rate;
- the table;
- a fractional read position `index`;
- a per-sample step `index_increment`.

`set_frequency` sets the step to `frequency * len / sample_rate`. Each call
to `get_sample` does two things. First it computes the sample by linear
interpolation (`lerp`) between the table entry at or below the position and
the entry after it. The entry after the last one is the first. Then it
advances the position by the step and wraps it with the float remainder `%`.
The `Iterator` implementation turns this into an endless stream. The
`Source` implementation reports one channel, the sample rate, and no frame
length or total duration.

The model has three modules:

- `RealArith` (`real_arith.dfy`): the cast `as usize` (`AsUsize`) and the
  float remainder `%` (`FRem`, which subtracts the divisor times the
  quotient rounded toward zero) over ideal reals. It proves that for a
  non-negative dividend `FRem` is the Euclidean remainder, and that wrapping
  after each addition equals wrapping once.
- `WavetableSynth` (`wavetable_oscillator.dfy`): the class
  `WavetableOscillator`, with the four fields of the struct and its
  operations as methods. `lerp` and its index and weight computations are
  functions of the table and the position, the only fields `lerp` reads.
  The `Source` accessors are functions.
- `OscillatorProperties` (`oscillator_properties.dfy`): the stream of
  samples as a specification function (`Samples`, `PositionAfter`), the
  method `Draw` that pulls `n` items from an oscillator and is proved to
  yield exactly that stream, plus lemmas about positions, wrapping, frozen and silent streams, and the
  A440 configuration.

A `f32` is modelled as a `real`, a `u32` or `u16` as a bounded integer, and
the table as a `seq<real>` with arbitrary contents.

The code checks none of its inputs, so the model follows the code. A
non-empty table is a precondition of drawing a sample, because `% len` on
an index panics on an empty table. A non-zero sample rate is a precondition
of `SetFrequency`, because the rate is the divisor. The position invariant
`0 <= index < len` is `Valid()`. `Valid()` holds as long as every
frequency set is non-negative. A sample can be drawn from any state in
which `index < len` (`Readable()`). This is because `as usize` saturates
negative positions to 0, so a negative step never reads outside the table.
The code raises no error for an empty or one-entry table, a zero sample
rate or a negative frequency. It has no note registry and no sequencer.
None of these is modelled.

## Model

| member | source | states |
|---|---|---|
| RealArith.AsUsize | src/main.rs:84 | the `as usize` cast drops the fraction (`n <= x < n + 1`) of a non-negative value and saturates a non-positive one to 0 |
| RealArith.Trunc | src/main.rs:79 | the quotient of the float remainder is rounded toward zero: it is the greatest integer at or below a non-negative value and the least at or above a negative one |
| RealArith.FRem | src/main.rs:79 | `index %= len` gives a result of the dividend's sign: in `[0, len)` for a non-negative dividend, in `(-len, 0]` for a negative one |
| RealArith.FRemDiffersByMultiple | src/main.rs:79 | the remainder differs from the dividend by a whole number of divisors |
| RealArith.FRemOfDecomposition | src/main.rs:79 | for a non-negative dividend the float remainder is the Euclidean remainder: `x == q*y + r` with `0 <= r < y` forces `FRem(x, y) == r` |
| RealArith.FRemSmall | src/main.rs:79 | a position already inside the table is unchanged by the wrap |
| RealArith.FRemAddAbsorbs | src/main.rs:78-79 | adding and then wrapping, repeated, equals wrapping once: `FRem(FRem(x) + d) == FRem(x + d)` |
| RealArith.ConvexBetween | src/main.rs:87-91 | a blend with weights `1 - w` and `w`, `0 <= w <= 1`, lies between the two values blended |
| WavetableSynth.ReadPositions | src/main.rs:84-85 | both entries `lerp` reads lie inside the table; the truncated index is the floor of a non-negative position; the next index is the one after it, except that after the last entry comes entry 0 |
| WavetableSynth.NextIndexWeight | src/main.rs:87 | the weight of the next entry is the fractional part of the position, in `[0, 1)` for a non-negative position |
| WavetableSynth.TruncatedIndexWeight | src/main.rs:88 | the two weights sum to 1, and the weight of the truncated entry is in `(0, 1]` for a non-negative position |
| WavetableSynth.Lerp | src/main.rs:83-92 | the sample lies between the two entries it blends, and at a whole position `k` it is exactly `table[k]` |
| WavetableSynth.LerpLinear | src/main.rs:83-92 | at every position `k + w` inside the table, `0 <= w < 1`, the sample is exactly `(1 - w) * table[k] + w * table[k + 1]`, with entry 0 after the last entry |
| WavetableSynth.Increment | src/main.rs:67-70 | the step makes the position cover `frequency` tables per second (`inc * sample_rate == frequency * len`); it is non-negative exactly when the frequency is |
| WavetableSynth.Advance | src/main.rs:78-79 | the advanced position is inside the table when position plus step is non-negative, and in `(-len, 0]` otherwise |
| WavetableSynth.WavetableOscillator.constructor | src/main.rs:47-54 | stores the rate and table unchanged; position and step are 0; the invariant holds exactly when the table is not empty |
| WavetableSynth.WavetableOscillator.SetFrequency | src/main.rs:67-70 | only the step changes, to `Increment(frequency, len, sample_rate)`; the invariant holds afterwards exactly when the position is inside the table and the frequency is non-negative |
| WavetableSynth.WavetableOscillator.GetSample | src/main.rs:76-81 | returns `lerp` of the state before the call; only the position changes, to `Advance(old position, step, len)`; a sample can still be drawn afterwards, and the invariant is preserved |
| WavetableSynth.WavetableOscillator.Next | src/main.rs:98-100 | always returns `Some` of the sample `get_sample` returns, with the same change of state, so the stream never ends |
| WavetableSynth.WavetableOscillator.Channels | src/main.rs:104-106 | the stream has one channel |
| WavetableSynth.WavetableOscillator.SampleRate | src/main.rs:108-110 | the stream's rate is the stored sample rate |
| WavetableSynth.WavetableOscillator.CurrentFrameLen | src/main.rs:112-114 | there is no frame length |
| WavetableSynth.WavetableOscillator.TotalDuration | src/main.rs:116-118 | there is no total duration |
| WavetableSynth.StartA440 | src/main.rs:23-24 | a 64-entry oscillator at 44100 Hz set to 440 Hz satisfies the invariant, is at position 0 and steps by exactly 1408/2205 |
| OscillatorProperties.PositionAfter | src/main.rs:78-79 | after any number of draws from a valid state the position is inside the table |
| OscillatorProperties.Samples | src/main.rs:95-100 | the stream yields exactly one sample per draw |
| OscillatorProperties.SamplesAt | src/main.rs:76-80 | sample `k` of the stream is `lerp` at the position reached after `k` draws |
| OscillatorProperties.PositionAfterStep | src/main.rs:78-79 | the position after `n + 1` draws is one `Advance` past the position after `n` draws |
| OscillatorProperties.SamplesStep | src/main.rs:95-100 | the first `n + 1` samples are the first `n` followed by `lerp` at the position after `n` draws |
| OscillatorProperties.Draw | src/main.rs:95-100 | pulling `n` items from an oscillator with the invariant, by `n` calls of `next` as the output stream started by `play_raw` does, returns exactly `Samples(table, start, step, n)`, leaves the position at `PositionAfter(start, step, len, n)`, changes nothing else and keeps the invariant |
| OscillatorProperties.PositionAfterClosedForm | src/main.rs:78-79 | after `n` draws the position is the start plus `n` steps, wrapped once |
| OscillatorProperties.AdvanceWithinTable | src/main.rs:78-79 | a step that stays short of the end of the table does not wrap |
| OscillatorProperties.AdvanceWraps | src/main.rs:78-79 | a step past the end of the table, by less than a table, wraps back by exactly one table length |
| OscillatorProperties.FullCycleReturnsToFirstEntry | src/main.rs:79-85 | a step that lands exactly on the end of the table wraps to position 0, whose sample is `table[0]` |
| OscillatorProperties.FrozenPosition | src/main.rs:76-80 | with step 0 the position never changes |
| OscillatorProperties.FrozenStream | src/main.rs:76-80 | with step 0 every sample equals the first |
| OscillatorProperties.SilentOscillatorStream | src/main.rs:50-52 | an oscillator at position 0 with step 0 (a fresh one, with or without `set_frequency(0)`) emits `table[0]` on every draw; `FrozenStream` covers step 0 at any other position |
| OscillatorProperties.CyclesFromIncrement | src/main.rs:78-79 | `n` draws whose steps add up to a distance land at the start plus that distance, wrapped |
| OscillatorProperties.OneSecondIsFrequencyCycles | src/main.rs:67-70 | `sample_rate` draws after `set_frequency(f)` advance the position by exactly `f` tables, wrapped |
| OscillatorProperties.WholeFrequencyIsPeriodic | src/main.rs:67-70 | for a whole-numbered frequency the position returns to its start after every second of samples |
| OscillatorProperties.BlendNearEnd | src/main.rs:83-92 | at position 140800/2205 of a 64-entry table the sample blends entries 63 and 0 with weights 64/441 and 377/441 |
| OscillatorProperties.A440AfterHundredSamples | src/main.rs:23-24 | the A440 oscillator steps by 1408/2205 and, after 100 samples, is at 140800/2205, where its sample blends entry 63 with entry 0 |

## Left out

- The sine table (src/main.rs:8-21). It depends on `sin` and `PI` in
  floating point. The model takes any table.
- Audio output (src/main.rs:26-28): opening the output stream,
  `play_raw` and `convert_samples` are device I/O in a foreign library.
- The five-second `sleep` (src/main.rs:30): wall-clock timing with no logic.
- `f32` rounding. All arithmetic is on ideal reals. Rounding in the step, in
  the sum `index + index_increment`, and in the conversions of the rate and
  the table length to `f32` is not modelled. Nor is the chance that a
  rounded remainder equals the table length. NaN and infinity are left out
  as well.
- RealArith.AsUsize: does not model saturation at the largest `usize`. Only
  positions below the table length are ever cast.
- WavetableSynth.WavetableOscillator.SetFrequency: requires a non-zero
  sample rate. With rate 0 the `f32` division in the source yields infinity
  or NaN, which reals cannot represent.
- The other methods `Iterator` provides by default (`take`, `map` and so
  on) come from the standard library, not from this code.
