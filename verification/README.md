# Gerstner ocean waves: fitting, generation, keyframe playback

This project is a Dafny model of the computational core of a small
procedural-ocean toolchain. The toolchain describes a sea surface as a sum of
Gerstner waves. It fills that description in two ways and plays time-varying
data back in Unity.

- **Fitting from ParaView output** (`paraview_fit.dfy`, with `stats.dfy`).
  - It locates the time column and the `Points:1` (height) column of a probe CSV.
  - It checks that the parsed table is two-dimensional with at least two columns.
  - It groups the rows by time value. It reduces each group to the median height
    and sorts the (time, eta) pairs by time.
  - It estimates the amplitude as half the peak-to-peak of the series, and picks the
    dominant spectral bin after zeroing the DC bin.
  - It builds the JSON payload for Unity.
- **Synthetic generation** (`wave_generation.dfy`).
  - A seeded generator draws six uniform values per wave: direction offset, amplitude,
    wavelength, steepness, speed and phase.
  - The reference height function sums A·sin(k·(d·p) + ω·t + φ) over the waves, with
    k = 2π / max(λ, 1e-9) and ω = sqrt(g·k)·speed.
  - The same payload shape is exported.
- **Keyframe interpolation** (`temporal_interpolation.dfy`).
  - A Unity component keeps a dataset only if it has at least two keyframes, and sorts
    the keyframes by time in place.
  - On every frame it loops the clock over the keyframes' span. At the looped time it
    either linearly blends the first pair of keyframes that brackets that time, or
    falls back to keyframe 0.
- **Frame animator** (`frame_animator.dfy`).
  - A Unity component accumulates frame time. On reaching one frame period it clears
    the timer, hides the current frame object, advances the index cyclically and shows
    the next frame.

`interchange.dfy` holds the JSON document both exporters write. `wrappers.dfy`
holds `Option` and `Result`.

Modelling choices:

- **Numbers.**
  - Floating-point numbers are Dafny `real`s.
  - `math.sin`, `math.cos` and `math.sqrt` are the fields of a `Trig` value passed
    in. The unit-direction claim and the height bound assume only cos² + sin² = 1
    (`Pythagorean`).
  - `math.pi` is the literal 3.141592653589793.
- **Randomness.** `random.Random(seed)` is the stream of values its `random()`
  returns. `uniform(a, b)` is a + (b − a)·u, as in CPython.
- **Unity inputs.**
  - JSON parsing, `Time.time` and `Time.deltaTime` are parameters.
  - `GameObject.SetActive` is a write to a `bool` array.
- **Exceptions** become `Err`, `None` or a `thrown` flag on the path where the source
  raises or throws.

The fitter has no check for too few time samples: `np.median(np.diff(t))` of an
empty difference is NaN without raising. The model has no such error either, and
`DominantBin` on a single bin returns bin 0.

## Model

| member | source | states |
|---|---|---|
| ParaviewFit.Strip | SourceCode/Ethan/gerstner_waves_from_paraview_csv.py:93 | `str.strip()` never lengthens the text, and its result neither starts nor ends with whitespace |
| ParaviewFit.StripStartRemovesLeadingSpace | SourceCode/Ethan/gerstner_waves_from_paraview_csv.py:93 | `str.strip` on the left removes exactly the leading whitespace: the result is a suffix, starts with a non-space, and everything dropped is whitespace |
| ParaviewFit.StripEndRemovesTrailingSpace | SourceCode/Ethan/gerstner_waves_from_paraview_csv.py:113 | on the right, the result is a prefix, ends with a non-space, and everything dropped is whitespace |
| ParaviewFit.StripIsTrim | SourceCode/Ethan/gerstner_waves_from_paraview_csv.py:93 | the stripped header is a contiguous slice of the original with only whitespace removed around it |
| ParaviewFit.Normalize | SourceCode/Ethan/gerstner_waves_from_paraview_csv.py:113 | the text both column searches compare, `h.strip().lower()`; no contract of its own, Strip and the column lemmas below state what it yields |
| ParaviewFit.HasSubstring | SourceCode/Ethan/gerstner_waves_from_paraview_csv.py:115 | `"points:1" in h` as a scan over start positions; no contract of its own, HasSubstringIffOccurs states its meaning |
| ParaviewFit.HasSubstringIffOccurs | SourceCode/Ethan/gerstner_waves_from_paraview_csv.py:115 | Python's `in` on strings holds exactly when the pattern occurs at some position |
| ParaviewFit.FirstMatch | SourceCode/Ethan/gerstner_waves_from_paraview_csv.py:92-95 | an early-exit scan finds the lowest matching index, with no match before it; it finds none iff no entry matches |
| ParaviewFit.FirstMatchAt | SourceCode/Ethan/gerstner_waves_from_paraview_csv.py:114-116 | a matching index with no match before it is the scan's answer |
| ParaviewFit.TimeColumn | SourceCode/Ethan/gerstner_waves_from_paraview_csv.py:91-97 | the first header that normalises to "time" or "t", else column 0; no contract of its own, TimeColumnIsFirstTimeHeader states it |
| ParaviewFit.YColumn | SourceCode/Ethan/gerstner_waves_from_paraview_csv.py:113-118 | the first header whose normalised text contains "points:1", or none; no contract of its own, YColumnIsFirstYHeader states it |
| ParaviewFit.TimeColumnIsFirstTimeHeader | SourceCode/Ethan/gerstner_waves_from_paraview_csv.py:91-97 | the time column is the first header that strips and lower-cases to "time" or "t", and column 0 when there is none (never an error) |
| ParaviewFit.YColumnIsFirstYHeader | SourceCode/Ethan/gerstner_waves_from_paraview_csv.py:113-118 | the y column is the first header whose normalised text contains "points:1"; there is none iff no header contains it |
| ParaviewFit.FindTimeColumn | SourceCode/Ethan/gerstner_waves_from_paraview_csv.py:91-97 | the loop returns the time column defined above |
| ParaviewFit.FindYColumn | SourceCode/Ethan/gerstner_waves_from_paraview_csv.py:107-118 | the loop returns the first y header, and the ValueError (`NoYColumn`) exactly when none exists |
| ParaviewFit.Group | SourceCode/Ethan/gerstner_waves_from_paraview_csv.py:99-104 | the list `setdefault(tt, []).append(row)` builds for the time t: the rows with that time, in input order; no contract of its own, GroupHoldsExactlyItsRows states it |
| ParaviewFit.TimeKeys | SourceCode/Ethan/gerstner_waves_from_paraview_csv.py:99-104 | the dictionary's keys in insertion order: each time value where it first occurs; no contract of its own, TimeKeysAreDistinctTimes states it |
| ParaviewFit.TimeKeysAreDistinctTimes | SourceCode/Ethan/gerstner_waves_from_paraview_csv.py:99-104 | the dictionary keys are distinct and are exactly the time values that occur in the rows |
| ParaviewFit.GroupHoldsExactlyItsRows | SourceCode/Ethan/gerstner_waves_from_paraview_csv.py:99-104 | a group holds only rows with its time, and every row with that time is in it |
| ParaviewFit.GroupOfNewKey | SourceCode/Ethan/gerstner_waves_from_paraview_csv.py:102 | a time not yet seen has no rows (`setdefault` starts an empty list) |
| ParaviewFit.GroupStep | SourceCode/Ethan/gerstner_waves_from_paraview_csv.py:100-102 | one loop iteration appends the row to its own group only and adds its time to the keys iff it is new |
| ParaviewFit.GroupingStep | SourceCode/Ethan/gerstner_waves_from_paraview_csv.py:100-102 | the `setdefault(...).append` update keeps the dictionary equal to the grouping of the rows seen so far |
| ParaviewFit.LoadCsvAndGroupByTime | SourceCode/Ethan/gerstner_waves_from_paraview_csv.py:75-104 | a table that is not 2-D with at least 2 columns is rejected; a time column past a row's end is an IndexError; otherwise the result is the grouping by time in first-seen key order, rows in input order |
| ParaviewFit.GroupsPartitionRows | SourceCode/Ethan/gerstner_waves_from_paraview_csv.py:99-104 | the group sizes over all keys add up to the number of rows: every row lands in exactly one group |
| ParaviewFit.GroupOfKeyNonEmpty | SourceCode/Ethan/gerstner_waves_from_paraview_csv.py:102 | every key's group has at least one row |
| ParaviewFit.Column | SourceCode/Ethan/gerstner_waves_from_paraview_csv.py:133 | `rows[:, y_col]` has one entry per row |
| ParaviewFit.GroupWide | SourceCode/Ethan/gerstner_waves_from_paraview_csv.py:133 | a group's rows have the y column whenever all rows do |
| ParaviewFit.WideFromGroups | SourceCode/Ethan/gerstner_waves_from_paraview_csv.py:132-133 | if every group has the y column, so does every row |
| ParaviewFit.GroupMedian | SourceCode/Ethan/gerstner_waves_from_paraview_csv.py:134 | `np.median(rows[:, y_col])` of one time's group; no contract of its own, GroupMedianWithinGroup bounds it |
| ParaviewFit.GroupMedianWithinGroup | SourceCode/Ethan/gerstner_waves_from_paraview_csv.py:134 | each eta lies between the smallest and largest height in its group |
| ParaviewFit.MedianPerGroup | SourceCode/Ethan/gerstner_waves_from_paraview_csv.py:132-136 | the loop yields one median per key in key order; it fails with IndexError exactly when some row lacks the y column |
| ParaviewFit.ReducedStep | SourceCode/Ethan/gerstner_waves_from_paraview_csv.py:132-136 | appending the next group's median keeps every eta equal to its group's median |
| ParaviewFit.AllGroupsReduced | SourceCode/Ethan/gerstner_waves_from_paraview_csv.py:132-136 | after the loop every row has the y column and every eta is its key's group median |
| ParaviewFit.SortedTimesAreRowTimes | SourceCode/Ethan/gerstner_waves_from_paraview_csv.py:135-139 | the sorted times are exactly the time values that occur in the rows |
| ParaviewFit.SortedTimesStrict | SourceCode/Ethan/gerstner_waves_from_paraview_csv.py:138-139 | `argsort` of distinct times gives strictly increasing times |
| ParaviewFit.SortedPairsComeFromGroups | SourceCode/Ethan/gerstner_waves_from_paraview_csv.py:138-140 | `argsort` keeps each eta next to its own time: every output eta is the median of the group of the time beside it |
| ParaviewFit.SortedPairsCoverKeys | SourceCode/Ethan/gerstner_waves_from_paraview_csv.py:138-139 | no key is lost by the sort |
| ParaviewFit.SortedPairsAreEtaSeries | SourceCode/Ethan/gerstner_waves_from_paraview_csv.py:138-141 | the two sorted arrays are an eta series: strictly increasing times, exactly the row times, each eta its group's median |
| ParaviewFit.ExtractEtaTimeSeries | SourceCode/Ethan/gerstner_waves_from_paraview_csv.py:121-141 | the table error, IndexError and missing-y-column errors in source order; otherwise the time-sorted series of per-time medians |
| ParaviewFit.EstimateAmplitude | SourceCode/Ethan/gerstner_waves_from_paraview_csv.py:63-66 | half the peak-to-peak of the series, non-negative; an empty series is the ValueError of `np.max` |
| ParaviewFit.PeakToPeakShift | SourceCode/Ethan/gerstner_waves_from_paraview_csv.py:65-66 | removing the mean (any offset) does not change the peak-to-peak |
| ParaviewFit.AmplitudeShiftInvariant | SourceCode/Ethan/gerstner_waves_from_paraview_csv.py:63-66 | the amplitude estimate is the same for the series shifted by any constant |
| ParaviewFit.FirstArgMax | SourceCode/Ethan/gerstner_waves_from_paraview_csv.py:59 | `np.argmax`: an index of a maximum, with every earlier entry strictly smaller (first maximum wins ties) |
| ParaviewFit.DominantBin | SourceCode/Ethan/gerstner_waves_from_paraview_csv.py:56-59 | the DC bin is overwritten with 0 in place and the first maximal bin of the result is chosen; an empty spectrum is the ValueError of `np.argmax` |
| ParaviewFit.DcChosenOnlyWithoutPositiveBin | SourceCode/Ethan/gerstner_waves_from_paraview_csv.py:57-59 | after zeroing DC, bin 0 is chosen iff no other bin has a positive magnitude |
| ParaviewFit.AsDict | SourceCode/Ethan/gerstner_waves_from_paraview_csv.py:70 | `asdict` writes exactly the nine dataclass fields, including k and omega |
| ParaviewFit.DictRoundTrip | SourceCode/Ethan/gerstner_waves_from_paraview_csv.py:70 | every field of a fitted wave can be read back from its JSON object |
| ParaviewFit.ExportUnityJson | SourceCode/Ethan/gerstner_waves_from_paraview_csv.py:69-72 | the payload has model "gerstner", the given gravity, and one object per wave in order, each reading back to that wave |
| Stats.Mean | SourceCode/Ethan/gerstner_waves_from_paraview_csv.py:65 | `np.mean` of a non-empty series lies between its smallest and its largest sample |
| Stats.SumBounds | SourceCode/Ethan/gerstner_waves_from_paraview_csv.py:65 | n samples within [lo, hi] sum to between n·lo and n·hi |
| Stats.Max | SourceCode/Ethan/gerstner_waves_from_paraview_csv.py:66 | `np.max` is an element that bounds every element from above |
| Stats.Min | SourceCode/Ethan/gerstner_waves_from_paraview_csv.py:66 | `np.min` is an element that bounds every element from below |
| Stats.MaxShift | SourceCode/Ethan/gerstner_waves_from_paraview_csv.py:65-66 | the maximum of a shifted series is the shifted maximum |
| Stats.MinShift | SourceCode/Ethan/gerstner_waves_from_paraview_csv.py:65-66 | the minimum of a shifted series is the shifted minimum |
| Stats.Shift | SourceCode/Ethan/gerstner_waves_from_paraview_csv.py:65 | `y - c` keeps the length |
| Stats.Insert | SourceCode/Ethan/gerstner_waves_from_paraview_csv.py:138 | inserting into a sorted list keeps it sorted and adds exactly one element |
| Stats.SortBy | SourceCode/Ethan/gerstner_waves_from_paraview_csv.py:138-140 | the sort by key is ordered and a permutation of its input |
| Stats.InsertStrict | SourceCode/Ethan/gerstner_waves_from_paraview_csv.py:138 | inserting a new key into a strictly sorted list keeps it strictly sorted |
| Stats.SortDistinctIsStrict | SourceCode/Ethan/gerstner_waves_from_paraview_csv.py:138-140 | with distinct keys the sorted order is strictly increasing, so `argsort`'s lack of stability cannot matter |
| Stats.Median | SourceCode/Ethan/gerstner_waves_from_paraview_csv.py:134 | `np.median` lies between the minimum and the maximum of its samples |
| WaveGeneration.Radians | SourceCode/Ethan/gerstner_wave_generation_testing.py:65-66 | `math.radians` keeps the sign of the angle and maps 180 degrees to π |
| WaveGeneration.UnitDirFromAngle | SourceCode/Ethan/gerstner_wave_generation_testing.py:44-46 | (cos θ, sin θ) is a unit vector |
| WaveGeneration.UniformValue | SourceCode/Ethan/gerstner_wave_generation_testing.py:72-80 | `uniform(a, b)` for the draw u is a + (b − a)·u; no contract of its own, UniformBetween states its range |
| WaveGeneration.UniformBetween | SourceCode/Ethan/gerstner_wave_generation_testing.py:72-80 | `uniform(a, b)` on a draw in [0, 1) lies between a and b, in either order, and the draw 0 gives a |
| WaveGeneration.Random.Uniform | SourceCode/Ethan/gerstner_wave_generation_testing.py:72-80 | each `uniform` call consumes exactly the next draw of the stream |
| WaveGeneration.Random.constructor | SourceCode/Ethan/gerstner_wave_generation_testing.py:63 | a fresh generator starts at the first draw of its stream |
| WaveGeneration.Waves | SourceCode/Ethan/gerstner_wave_generation_testing.py:70 | `range(wave_count)` yields max(wave_count, 0) waves |
| WaveGeneration.DrawnWave | SourceCode/Ethan/gerstner_wave_generation_testing.py:71-92 | the wave one iteration builds from the six draws starting at `base`, in the source's draw order; no contract of its own, DrawWave and DrawnWaveWithinRanges state its properties |
| WaveGeneration.DrawWave | SourceCode/Ethan/gerstner_wave_generation_testing.py:71-92 | one iteration consumes six draws, in the order direction, amplitude, wavelength, steepness, speed, phase, and builds the wave from them |
| WaveGeneration.GenerateWaves | SourceCode/Ethan/gerstner_wave_generation_testing.py:49-94 | wave i is built from draws 6i..6i+5 of the seeded stream, and there are max(wave_count, 0) waves |
| WaveGeneration.AppendDrawn | SourceCode/Ethan/gerstner_wave_generation_testing.py:82-92 | appending the wave built from the next six draws keeps the list equal to the drawn waves |
| WaveGeneration.WavesDependOnlyOnTheirDraws | SourceCode/Ethan/gerstner_wave_generation_testing.py:63-80 | two streams that agree on the first 6·count draws give the same waves, so a seed fixes the result |
| WaveGeneration.DrawnWaveWithinRanges | SourceCode/Ethan/gerstner_wave_generation_testing.py:72-80 | amplitude, wavelength, steepness and speed lie in their configured ranges; the phase lies in [0, 2π]; the direction is within the spread of the prevailing angle and is a unit vector |
| WaveGeneration.WaveNumber | SourceCode/Ethan/gerstner_wave_generation_testing.py:130 | k is positive for every wavelength, and k·max(λ, 1e-9) = 2π |
| WaveGeneration.Height | SourceCode/Ethan/gerstner_wave_generation_testing.py:123-133 | the sum of A·sin(θ) over the waves in list order; when cos² + sin² = 1 it never leaves [−Σ\|A\|, Σ\|A\|] |
| WaveGeneration.TermBounded | SourceCode/Ethan/gerstner_wave_generation_testing.py:133 | one wave moves the surface by at most its absolute amplitude |
| WaveGeneration.SineBounded | SourceCode/Ethan/gerstner_wave_generation_testing.py:133 | cos² + sin² = 1 keeps `math.sin` within [−1, 1] |
| WaveGeneration.HeightAt | SourceCode/Ethan/gerstner_wave_generation_testing.py:120-134 | the running sum equals the sum of A·sin(θ) over the waves; `math.sqrt` raises exactly when gravity is negative and there is a wave |
| WaveGeneration.HeightStep | SourceCode/Ethan/gerstner_wave_generation_testing.py:129-133 | one more wave adds exactly its own term |
| WaveGeneration.HeightSuperposes | SourceCode/Ethan/gerstner_wave_generation_testing.py:123 | heights superpose: the height of two wave lists together is the sum of their heights |
| WaveGeneration.AsDict | SourceCode/Ethan/gerstner_wave_generation_testing.py:113 | `asdict` writes exactly the seven dataclass fields, without k or omega |
| WaveGeneration.DictRoundTrip | SourceCode/Ethan/gerstner_wave_generation_testing.py:113 | every field of a generated wave can be read back from its JSON object |
| WaveGeneration.ExportUnityJson | SourceCode/Ethan/gerstner_wave_generation_testing.py:110-114 | the payload has model "gerstner", the given gravity, and one object per wave in order, each reading back to that wave |
| TemporalInterpolation.Max | SourceCode/Jenson/TemporalInterpolationUnity.cs:63 | `Mathf.Max` is one of its arguments and bounds both |
| TemporalInterpolation.Clamp01 | SourceCode/Jenson/TemporalInterpolationUnity.cs:102 | the clamp lies in [0, 1] and leaves values already in [0, 1] alone |
| TemporalInterpolation.Lerp | SourceCode/Jenson/TemporalInterpolationUnity.cs:102 | `Mathf.Lerp` stays between its endpoints, gives a at t <= 0 and b at t >= 1 |
| TemporalInterpolation.Repeat | SourceCode/Jenson/TemporalInterpolationUnity.cs:65 | `Mathf.Repeat` lies in [0, length] |
| TemporalInterpolation.RepeatWithinPeriod | SourceCode/Jenson/TemporalInterpolationUnity.cs:65 | a time inside the first period is returned unchanged |
| TemporalInterpolation.FirstBracketFrom | SourceCode/Jenson/TemporalInterpolationUnity.cs:77-90 | the scan finds a segment containing the query with none before it, or reports that no segment contains it |
| TemporalInterpolation.FirstBracket | SourceCode/Jenson/TemporalInterpolationUnity.cs:77-90 | the scan from segment 0 finds the first segment containing the query, with none before it; it finds none exactly when no segment contains the query |
| TemporalInterpolation.BelowQuery | SourceCode/Jenson/TemporalInterpolationUnity.cs:77-82 | if no segment brackets the query and keyframe 0 is not after it, every later keyframe time is strictly below it |
| TemporalInterpolation.BracketExists | SourceCode/Jenson/TemporalInterpolationUnity.cs:77-92 | a query between the first and last keyframe times always has a bracketing segment |
| TemporalInterpolation.Alpha | SourceCode/Jenson/TemporalInterpolationUnity.cs:84-88 | inside a segment of positive span the blend factor lies in [0, 1], 0 at its start and 1 at its end |
| TemporalInterpolation.LerpValues | SourceCode/Jenson/TemporalInterpolationUnity.cs:97 | the blend is as long as the shorter of the two arrays |
| TemporalInterpolation.LerpValuesBetween | SourceCode/Jenson/TemporalInterpolationUnity.cs:100-103 | each blended value lies between a[i] and b[i]; factor 0 gives a's values and factor 1 gives b's |
| TemporalInterpolation.Duration | SourceCode/Jenson/TemporalInterpolationUnity.cs:61-63 | the loop length is at least 0.0001 and at least tMax − tMin |
| TemporalInterpolation.QueryTime | SourceCode/Jenson/TemporalInterpolationUnity.cs:61-65 | the query time lies in [tMin, tMin + duration] |
| TemporalInterpolation.QueryTimeIsBracketed | SourceCode/Jenson/TemporalInterpolationUnity.cs:61-92 | when the keyframes span at least 0.0001, the looped query time always falls in a segment, so the fallback is not taken |
| TemporalInterpolation.SwapStep | SourceCode/Jenson/TemporalInterpolationUnity.cs:54 | one swap of the insertion sort keeps the partially sorted shape |
| TemporalInterpolation.SwapPermutes | SourceCode/Jenson/TemporalInterpolationUnity.cs:54 | a swap keeps the keyframes' multiset |
| TemporalInterpolation.InsertDone | SourceCode/Jenson/TemporalInterpolationUnity.cs:54 | a finished insertion leaves a longer sorted prefix |
| TemporalInterpolation.InsertAt | SourceCode/Jenson/TemporalInterpolationUnity.cs:54 | one insertion extends the sorted prefix by one and permutes the array |
| TemporalInterpolation.SortByTime | SourceCode/Jenson/TemporalInterpolationUnity.cs:54 | `Array.Sort` by time leaves the keyframes in non-decreasing time order and is a permutation of them |
| TemporalInterpolation.TemporalInterpolationUnity.constructor | SourceCode/Jenson/TemporalInterpolationUnity.cs:33-35 | a new component has its asset and no dataset |
| TemporalInterpolation.TemporalInterpolationUnity.Start | SourceCode/Jenson/TemporalInterpolationUnity.cs:37-55 | no asset leaves the dataset as it was; a parse result that is null, has no keyframes or has fewer than 2 leaves the dataset null; otherwise the dataset is kept with its keyframes sorted in place and permuted; both early returns leave the keyframe array untouched |
| TemporalInterpolation.Reconstructs | SourceCode/Jenson/TemporalInterpolationUnity.cs:75-93 | what InterpolateAtTime returns for a query: keyframe 0's array without a bracketing segment, the left keyframe's array for a span <= 0, otherwise the blend at (q − t0)/span; InterpolateAtTime's contract is stated with it |
| TemporalInterpolation.TemporalInterpolationUnity.InterpolateAtTime | SourceCode/Jenson/TemporalInterpolationUnity.cs:75-93 | the first bracketing segment decides: span <= 0 returns the left keyframe's own array; otherwise a new array blending the pair at (q − t0)/span; no segment returns keyframe 0's array |
| TemporalInterpolation.TemporalInterpolationUnity.InterpolateValues | SourceCode/Jenson/TemporalInterpolationUnity.cs:95-106 | a new array over min(\|a\|, \|b\|) whose element i is `Mathf.Lerp(a[i], b[i], alpha)`; a and b are only read |
| TemporalInterpolation.TemporalInterpolationUnity.Update | SourceCode/Jenson/TemporalInterpolationUnity.cs:57-73 | nothing without a dataset; otherwise the looped query time and the values reconstructed there |
| FrameAnimation.NextFrame | SourceCode/Oscar/Assets/Scripts/ObjectFrameAnimator.cs:19 | (current + 1) mod count stays in range: the next index, or 0 after the last |
| FrameAnimation.Advance | SourceCode/Oscar/Assets/Scripts/ObjectFrameAnimator.cs:18-20 | the next frame ends active, the old one inactive unless it is also the next, and every other flag is unchanged |
| FrameAnimation.AdvanceKeepsOneActive | SourceCode/Oscar/Assets/Scripts/ObjectFrameAnimator.cs:18-20 | if exactly the current frame is active before an advance, exactly the next one is active after it |
| FrameAnimation.SingleFrameEndsActive | SourceCode/Oscar/Assets/Scripts/ObjectFrameAnimator.cs:18-20 | with one frame, an advance leaves it active |
| FrameAnimation.FiresAfterOnePeriod | SourceCode/Oscar/Assets/Scripts/ObjectFrameAnimator.cs:14 | with a positive frame rate the threshold is reached exactly when timer·frameRate >= 1 |
| FrameAnimation.ObjectFrameAnimator.constructor | SourceCode/Oscar/Assets/Scripts/ObjectFrameAnimator.cs:5-9 | a new component starts at frame 0 with an empty timer |
| FrameAnimation.ObjectFrameAnimator.Update | SourceCode/Oscar/Assets/Scripts/ObjectFrameAnimator.cs:11-22 | below the threshold only the timer grows; at it, the timer is reset to 0 (the surplus is discarded) and the frames advance by exactly one, however large the step; with no frames the indexing throws after the reset; exactly-one-active is preserved |

## Left out

- The fitter's file and JSON I/O (`open`, `readline`, `np.genfromtxt`, `json.dump`):
  - the header arrives as a list of strings;
  - the parsed table arrives as a `ParsedTable`;
  - the payload is returned as a `Document`.
  `np.vstack` is not modelled; each group stays a list of rows.
- `np.fft.rfft`, `np.fft.rfftfreq`, `np.abs` and the median of `np.diff(t)` in
  `dominant_frequency_fft` are library floating-point numerics. `DominantBin` starts
  from the magnitude spectrum, and the frequency lookup `freqs[idx]` is not modelled.
- `evidence_theta` and both `__main__` driver blocks are reporting and driver code with
  placeholder parameters. They are not part of this model.
- ParaviewFit.Normalize: lower-casing covers ASCII letters only.
- ParaviewFit.LoadCsvAndGroupByTime:
  - time keys are compared as exact reals;
  - NaN cells from `genfromtxt` and float-equality subtleties are not modelled.
- WaveGeneration:
  - sine, cosine and square root are parameters;
  - Python's Mersenne Twister is the abstract stream of its draws, so the concrete
    values for seed 42 are not modelled;
  - `math.radians` is d·(π/180).
- WaveGeneration.WaveNumber: k is 2π / max(λ, 1e-9) over the reals; double rounding is not modelled.
- TemporalInterpolation:
  - JSON parsing (`JsonUtility.FromJson`, `TextAsset`), `Time.time` and `Debug.Log` are left out;
  - the parse result is a parameter of `Start`;
  - the logged values are what `Update` returns;
  - a keyframe whose values array is null is not modelled.
- TemporalInterpolation.SortByTime:
  - the sort is an insertion sort proved sorted and a permutation;
  - `Array.Sort` is unstable, so equal-time keyframes may end in a different relative order than in the model;
  - only the sorted-and-permuted promise is stated.
- FrameAnimation:
  - a frame rate of zero never fires, because IEEE division gives an infinite period; Dafny reals have no infinity;
  - a negative frame rate fires on every update whose timer is at least its negative period;
  - a frame rate of −0.0 is not modelled: IEEE division gives 1/−0 = −∞, so the source fires on every update, but Dafny reals have no signed zero and the model treats it as zero, which never fires;
  - a GameObject placed at two indices of `frames` becomes two independent flags in the model, so the aliasing between them is not modelled;
  - null entries in the frame array are not modelled;
  - the array of frame objects is fixed after construction.
- `GerstnerWaterFromJson.cs` (the Unity mesh renderer) and `temporal_Interpolation.py`
  (a fixture writer) are not part of this model.
