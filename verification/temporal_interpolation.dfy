/** TemporalInterpolationUnity: keyframes loaded once from a JSON asset,
    sorted by time, and blended linearly at a query time that loops over the
    keyframes' time span.

    JsonUtility.FromJson is the parsed dataset handed to Start; Time.time is
    the argument of Update; Debug.Log output is what Update returns. */
module TemporalInterpolation {

  import opened Wrappers
  import Stats

  /** One keyframe: its time and the field values at that time. Nothing
      writes to a keyframe after loading, so it is a value holding a
      reference to its values array. */
  datatype TemporalTimeStep = TemporalTimeStep(time: real, values: array<real>)

  /** The parsed JSON document; `timesteps` is null when the document has
      no such array. */
  datatype TemporalDataset = TemporalDataset(model: string, field: string, timesteps: array?<TemporalTimeStep>)

  // ---------------------------------------------------------------------
  // Mathf

  /** Mathf.Max. */
  function Max(a: real, b: real): (m: real)
    ensures m >= a && m >= b && (m == a || m == b)
  {
    if a > b then a else b
  }

  /** Mathf.Clamp01. */
  function Clamp01(t: real): (r: real)
    ensures 0.0 <= r <= 1.0
    ensures 0.0 <= t <= 1.0 ==> r == t
  {
    if t < 0.0 then 0.0 else if t > 1.0 then 1.0 else t
  }

  /** Mathf.Lerp: a + (b - a)·clamp01(t), always between a and b, a at
      t <= 0 and b at t >= 1. */
  function Lerp(a: real, b: real, t: real): (r: real)
    ensures Stats.Between(r, a, b)
    ensures t <= 0.0 ==> r == a
    ensures t >= 1.0 ==> r == b
  {
    var c := Clamp01(t);
    Stats.BlendBetween(a, b, c);
    a + (b - a) * c
  }

  /** Mathf.Repeat: t - floor(t / length)·length, clamped to [0, length]. */
  function Repeat(t: real, length: real): (r: real)
    requires length > 0.0
    ensures 0.0 <= r <= length
  {
    var wrapped := t - ((t / length).Floor as real) * length;
    if wrapped < 0.0 then 0.0 else if wrapped > length then length else wrapped
  }

  /** Repeat leaves a time inside the first period unchanged. */
  lemma RepeatWithinPeriod(t: real, length: real)
    requires 0.0 <= t < length
    ensures Repeat(t, length) == t
  {
    var q := t / length;
    assert q * length == t;
    if q < 0.0 {
      Stats.NonNegativeProduct(-q, length);
    }
    if q >= 1.0 {
      Stats.NonNegativeProduct(q - 1.0, length);
    }
    assert q.Floor == 0;
  }

  // ---------------------------------------------------------------------
  // Keyframe search and blending

  /** Keyframes in non-decreasing time order. */
  predicate TimeSorted(steps: seq<TemporalTimeStep>)
  {
    forall i, j :: 0 <= i < j < |steps| ==> steps[i].time <= steps[j].time
  }

  /** Segment i (keyframes i and i + 1) contains the query time. */
  predicate Brackets(steps: seq<TemporalTimeStep>, i: int, q: real)
  {
    0 <= i < |steps| - 1 && steps[i].time <= q <= steps[i + 1].time
  }

  /** The first segment at or after `lo` that contains q. */
  function FirstBracketFrom(steps: seq<TemporalTimeStep>, q: real, lo: nat): (r: Option<nat>)
    decreases |steps| - lo
    ensures r.Some? ==> lo <= r.value && Brackets(steps, r.value, q)
    ensures r.Some? ==> forall j :: lo <= j < r.value ==> !Brackets(steps, j, q)
    ensures r.None? ==> forall j :: lo <= j ==> !Brackets(steps, j, q)
  {
    if lo + 1 >= |steps| then None
    else if Brackets(steps, lo, q) then Some(lo)
    else FirstBracketFrom(steps, q, lo + 1)
  }

  /** The segment InterpolateAtTime uses: the first one containing q, and
      none exactly when no segment contains q. */
  function FirstBracket(steps: seq<TemporalTimeStep>, q: real): (r: Option<nat>)
    ensures r.Some? ==> Brackets(steps, r.value, q)
    ensures r.Some? ==> forall j :: 0 <= j < r.value ==> !Brackets(steps, j, q)
    ensures r.None? <==> forall j :: 0 <= j ==> !Brackets(steps, j, q)
  {
    FirstBracketFrom(steps, q, 0)
  }

  /** A query time between the first and the last keyframe time always has
      a segment, sorted or not. */
  lemma BracketExists(steps: seq<TemporalTimeStep>, q: real)
    requires |steps| >= 2
    requires steps[0].time <= q <= steps[|steps| - 1].time
    ensures FirstBracket(steps, q).Some?
  {
    if FirstBracket(steps, q).None? {
      BelowQuery(steps, q, |steps| - 1);
      assert false;
    }
  }

  /** Without a containing segment, the times climb from below q and stay
      strictly below it. */
  lemma {:induction false} BelowQuery(steps: seq<TemporalTimeStep>, q: real, j: nat)
    requires j < |steps| && steps[0].time <= q
    requires forall k :: 0 <= k ==> !Brackets(steps, k, q)
    ensures steps[j].time <= q
    ensures j > 0 ==> steps[j].time < q
  {
    if j > 0 {
      BelowQuery(steps, q, j - 1);
      assert !Brackets(steps, j - 1, q);
    }
  }

  /** The blend factor (q - t0) / (t1 - t0), in [0, 1] inside the segment. */
  function Alpha(t0: real, t1: real, q: real): (alpha: real)
    requires t1 - t0 > 0.0
    ensures t0 <= q <= t1 ==> 0.0 <= alpha <= 1.0
    ensures q == t0 ==> alpha == 0.0
    ensures q == t1 ==> alpha == 1.0
  {
    QuotientInUnit(q - t0, t1 - t0);
    (q - t0) / (t1 - t0)
  }

  lemma QuotientInUnit(n: real, d: real)
    requires d > 0.0
    ensures 0.0 <= n <= d ==> 0.0 <= n / d <= 1.0
  {
    var f := n / d;
    assert f * d == n;
    if 0.0 <= n <= d {
      if f < 0.0 {
        Stats.NonNegativeProduct(-f, d);
      }
      if f > 1.0 {
        Stats.NonNegativeProduct(f - 1.0, d);
      }
    }
  }

  /** The element-wise blend over the shorter of the two arrays. */
  function LerpValues(a: seq<real>, b: seq<real>, alpha: real): (r: seq<real>)
    ensures |r| == if |a| < |b| then |a| else |b|
  {
    var count := if |a| < |b| then |a| else |b|;
    seq(count, i requires 0 <= i < count => Lerp(a[i], b[i], alpha))
  }

  /** The blend starts at a, ends at b, and stays between them. */
  lemma LerpValuesBetween(a: seq<real>, b: seq<real>, alpha: real)
    ensures var r := LerpValues(a, b, alpha);
            && (forall i :: 0 <= i < |r| ==> Stats.Between(r[i], a[i], b[i]))
            && (alpha <= 0.0 ==> r == a[..|r|])
            && (alpha >= 1.0 ==> r == b[..|r|])
  {
  }

  /** Every values array the keyframes hold. */
  function ValueArrays(steps: seq<TemporalTimeStep>): set<array<real>>
  {
    set i | 0 <= i < |steps| :: steps[i].values
  }

  /** What InterpolateAtTime returns for q: the fallback keyframe 0 when no
      segment contains q; the left keyframe's own array when the segment has
      no length; otherwise the blend of the two keyframes. */
  ghost predicate Reconstructs(steps: seq<TemporalTimeStep>, q: real, r: array<real>)
    reads r, ValueArrays(steps)
  {
    match FirstBracket(steps, q)
    case None => |steps| > 0 && r == steps[0].values
    case Some(i) =>
      var t0, t1 := steps[i], steps[i + 1];
      if t1.time - t0.time <= 0.0 then r == t0.values
      else r[..] == LerpValues(t0.values[..], t1.values[..], Alpha(t0.time, t1.time, q))
  }

  /** The blend allocates a new array; the other two cases hand back a
      keyframe's own. */
  predicate Blends(steps: seq<TemporalTimeStep>, q: real)
  {
    var b := FirstBracket(steps, q);
    b.Some? && steps[b.value + 1].time - steps[b.value].time > 0.0
  }

  // ---------------------------------------------------------------------
  // The loop time of Update

  /** Mathf.Max(0.0001, tMax - tMin). */
  function Duration(steps: seq<TemporalTimeStep>): (d: real)
    requires |steps| >= 2
    ensures d >= 0.0001 && d >= steps[|steps| - 1].time - steps[0].time
  {
    Max(0.0001, steps[|steps| - 1].time - steps[0].time)
  }

  /** tMin + Mathf.Repeat(now, duration): inside [tMin, tMin + duration]. */
  function QueryTime(steps: seq<TemporalTimeStep>, now: real): (q: real)
    requires |steps| >= 2
    ensures steps[0].time <= q <= steps[0].time + Duration(steps)
  {
    steps[0].time + Repeat(now, Duration(steps))
  }

  /** When the keyframes span at least 0.0001, the looped query time always
      falls in a segment, so the fallback to keyframe 0 is never taken. */
  lemma QueryTimeIsBracketed(steps: seq<TemporalTimeStep>, now: real)
    requires |steps| >= 2
    requires steps[|steps| - 1].time - steps[0].time >= 0.0001
    ensures FirstBracket(steps, QueryTime(steps, now)).Some?
  {
    BracketExists(steps, QueryTime(steps, now));
  }

  // ---------------------------------------------------------------------
  // The component

  /** The keyframe array a parsed dataset holds, if any. */
  function TimestepArray(d: Option<TemporalDataset>): set<object>
  {
    if d.Some? && d.value.timesteps != null then {d.value.timesteps} else {}
  }

  /** The check Start makes: a document with at least two keyframes. */
  predicate Loadable(d: Option<TemporalDataset>)
  {
    d.Some? && d.value.timesteps != null && d.value.timesteps.Length >= 2
  }

  /** The first n keyframes are in time order. */
  predicate SortedPrefix(s: seq<TemporalTimeStep>, n: int)
  {
    forall k, l :: 0 <= k < l < n && l < |s| ==> s[k].time <= s[l].time
  }

  /** Halfway through inserting the keyframe now at j into s[..i + 1]:
      everything but position j is in order, and the keyframe at j is no
      later than anything to its right. */
  predicate Inserting(s: seq<TemporalTimeStep>, j: int, i: int)
  {
    && 0 <= j <= i < |s|
    && (forall k, l :: 0 <= k < l <= i && k != j && l != j ==> s[k].time <= s[l].time)
    && (forall l :: j < l <= i ==> s[j].time <= s[l].time)
  }

  /** Swapping the keyframe at j with an earlier, later-timed neighbour moves
      the insertion point one step left. */
  lemma SwapStep(s: seq<TemporalTimeStep>, j: int, i: int)
    requires Inserting(s, j, i) && 0 < j && s[j - 1].time > s[j].time
    ensures Inserting(s[j - 1 := s[j]][j := s[j - 1]], j - 1, i)
  {
  }

  lemma SwapPermutes(s: seq<TemporalTimeStep>, j: int)
    requires 0 < j < |s|
    ensures multiset(s[j - 1 := s[j]][j := s[j - 1]]) == multiset(s)
  {
  }

  /** Once the keyframe at j is no earlier than its left neighbour, the
      prefix through i is in order. */
  lemma InsertDone(s: seq<TemporalTimeStep>, j: int, i: int)
    requires Inserting(s, j, i) && (j == 0 || s[j - 1].time <= s[j].time)
    ensures SortedPrefix(s, i + 1)
  {
    forall k, l | 0 <= k < l <= i
      ensures s[k].time <= s[l].time
    {
      if l == j && k < j - 1 {
        assert s[k].time <= s[j - 1].time;
      }
    }
  }

  /** In-place sort of the keyframes by time: ordered, and a permutation of
      the input. */
  method SortByTime(a: array<TemporalTimeStep>)
    modifies a
    ensures TimeSorted(a[..])
    ensures multiset(a[..]) == multiset(old(a[..]))
  {
    var i := 0;
    while i < a.Length
      invariant 0 <= i <= a.Length
      invariant SortedPrefix(a[..], i)
      invariant multiset(a[..]) == multiset(old(a[..]))
    {
      InsertAt(a, i);
      i := i + 1;
    }
  }

  /** One insertion step: a[i] moves left past every later-timed keyframe,
      which extends the sorted prefix by one. */
  method InsertAt(a: array<TemporalTimeStep>, i: nat)
    requires i < a.Length && SortedPrefix(a[..], i)
    modifies a
    ensures SortedPrefix(a[..], i + 1)
    ensures multiset(a[..]) == multiset(old(a[..]))
  {
    var j := i;
    while j > 0 && a[j - 1].time > a[j].time
      invariant Inserting(a[..], j, i)
      invariant multiset(a[..]) == multiset(old(a[..]))
    {
      ghost var before := a[..];
      SwapStep(before, j, i);
      SwapPermutes(before, j);
      a[j - 1], a[j] := a[j], a[j - 1];
      assert a[..] == before[j - 1 := before[j]][j := before[j - 1]];
      j := j - 1;
    }
    InsertDone(a[..], j, i);
  }

  class TemporalInterpolationUnity {
    /** The text of the assigned JSON asset, if one is assigned. */
    var jsonDataset: Option<string>
    var dataset: Option<TemporalDataset>

    ghost function Footprint(): set<object>
      reads this
    {
      TimestepArray(dataset)
    }

    /** A dataset is kept only with at least two keyframes. */
    ghost predicate Ready()
      reads this
    {
      Loadable(dataset)
    }

    /** A kept dataset is sorted by time. */
    ghost predicate Valid()
      reads this, Footprint()
    {
      dataset.Some? ==> Ready() && TimeSorted(dataset.value.timesteps[..])
    }

    /** The kept keyframes. */
    ghost function Steps(): seq<TemporalTimeStep>
      reads this, Footprint()
      requires Ready()
    {
      dataset.value.timesteps[..]
    }

    /** A new component with the inspector's asset and no dataset yet. */
    constructor (jsonDataset: Option<string>)
      ensures this.jsonDataset == jsonDataset && dataset.None?
      ensures Valid()
    {
      this.jsonDataset := jsonDataset;
      dataset := None;
    }

    /** Start: `parsed` is what JsonUtility.FromJson makes of the asset's
        text. Without an asset nothing happens; a document without two
        keyframes is dropped; otherwise it is kept with its keyframes
        sorted by time in place. */
    method Start(parsed: Option<TemporalDataset>)
      requires Valid()
      modifies this, TimestepArray(parsed)
      ensures jsonDataset == old(jsonDataset)
      ensures old(jsonDataset).None? ==> dataset == old(dataset)
      ensures old(jsonDataset).Some? && !Loadable(parsed) ==> dataset.None?
      ensures old(jsonDataset).None? || !Loadable(parsed) ==> unchanged(TimestepArray(parsed))
      ensures old(jsonDataset).Some? && Loadable(parsed) ==>
                && dataset == parsed
                && TimeSorted(parsed.value.timesteps[..])
                && multiset(parsed.value.timesteps[..]) == multiset(old(parsed.value.timesteps[..]))
      ensures Valid()
    {
      if jsonDataset.None? {
        return;
      }
      dataset := parsed;
      if !Loadable(dataset) {
        dataset := None;
        return;
      }
      SortByTime(dataset.value.timesteps);
    }

    /** InterpolateAtTime: scan the segments in order; the first one that
        contains q decides; with none, keyframe 0's values. */
    method InterpolateAtTime(queryTime: real) returns (r: array<real>)
      requires Ready()
      ensures Reconstructs(Steps(), queryTime, r)
      ensures Blends(Steps(), queryTime) ==> fresh(r)
    {
      var steps := dataset.value.timesteps;
      var i := 0;
      while i < steps.Length - 1
        invariant 0 <= i <= steps.Length - 1
        invariant forall j :: 0 <= j < i ==> !Brackets(steps[..], j, queryTime)
      {
        var t0 := steps[i];
        var t1 := steps[i + 1];
        if queryTime >= t0.time && queryTime <= t1.time {
          assert Brackets(steps[..], i, queryTime);
          assert FirstBracket(steps[..], queryTime) == Some(i);
          var span := t1.time - t0.time;
          if span <= 0.0 {
            return t0.values;
          }
          var alpha := (queryTime - t0.time) / span;
          assert alpha == Alpha(t0.time, t1.time, queryTime);
          r := InterpolateValues(t0.values, t1.values, alpha);
          return;
        }
        i := i + 1;
      }
      assert FirstBracket(steps[..], queryTime).None?;
      return steps[0].values;
    }

    /** InterpolateValues: a new array over the shorter input, element i the
        Mathf.Lerp of a[i] and b[i]. The inputs are only read. */
    static method InterpolateValues(a: array<real>, b: array<real>, alpha: real) returns (result: array<real>)
      ensures fresh(result)
      ensures result[..] == LerpValues(a[..], b[..], alpha)
    {
      var count := if a.Length < b.Length then a.Length else b.Length;
      result := new real[count];
      for i := 0 to count
        invariant forall k :: 0 <= k < i ==> result[k] == Lerp(a[k], b[k], alpha)
      {
        result[i] := Lerp(a[i], b[i], alpha);
      }
    }

    /** Update at time `now`: nothing without a dataset; otherwise the
        looped query time and the values reconstructed there. */
    method Update(now: real) returns (r: Option<(real, array<real>)>)
      requires Valid()
      ensures r.None? <==> dataset.None?
      ensures r.Some? ==> r.value.0 == QueryTime(Steps(), now)
      ensures r.Some? ==> Reconstructs(Steps(), r.value.0, r.value.1)
    {
      if dataset.None? {
        return None;
      }
      var steps := dataset.value.timesteps;
      var tMin := steps[0].time;
      var tMax := steps[steps.Length - 1].time;
      var duration := Max(0.0001, tMax - tMin);
      var queryTime := tMin + Repeat(now, duration);
      var values := InterpolateAtTime(queryTime);
      return Some((queryTime, values));
    }
  }
}
