/** The empirical fitter of gerstner_waves_from_paraview_csv.py: column
    discovery on the CSV header, grouping of the parsed rows by time value,
    reduction of every time group to the median height, the amplitude and
    dominant-bin estimates, and the exported payload.

    File reading, np.genfromtxt and json.dump are not modelled: the header
    arrives as the list of its comma-separated names, the parsed table as a
    ParsedTable, and the payload as an Interchange.Document. */
module ParaviewFit {

  import opened Wrappers
  import opened Stats
  import opened Interchange

  /** The exceptions the pipeline raises. */
  datatype FitError =
    | MalformedTable    // ValueError("CSV did not parse as a valid table.")
    | NoYColumn         // ValueError("Could not find Y coordinate column ...")
    | IndexOutOfRange   // numpy IndexError: a column index beyond a row
    | EmptySeries       // numpy ValueError: reduction over an empty array

  // ---------------------------------------------------------------------
  // Header text: str.strip() and str.lower()

  /** The characters Python's str.strip() removes (str.isspace()). */
  predicate IsSpace(c: char)
  {
    var n := c as int;
    (9 <= n <= 13) || (28 <= n <= 32) || n == 0x85 || n == 0xA0 || n == 0x1680
    || (0x2000 <= n <= 0x200A) || n == 0x2028 || n == 0x2029 || n == 0x202F
    || n == 0x205F || n == 0x3000
  }

  function StripStart(s: string): string
  {
    if s == [] || !IsSpace(s[0]) then s else StripStart(s[1..])
  }

  function StripEnd(s: string): string
  {
    if s == [] || !IsSpace(s[|s| - 1]) then s else StripEnd(s[..|s| - 1])
  }

  /** str.strip(): the slice of s left after removing leading and trailing
      whitespace; it neither starts nor ends with whitespace. */
  function Strip(s: string): (r: string)
    ensures |r| <= |s|
    ensures r == [] || (!IsSpace(r[0]) && !IsSpace(r[|r| - 1]))
  {
    var m := StripStart(s);
    StripStartRemovesLeadingSpace(s);
    StripEndRemovesTrailingSpace(m);
    assert StripEnd(m) == [] || StripEnd(m)[0] == m[0];
    StripEnd(m)
  }

  /** lstrip removes exactly the leading whitespace. */
  lemma {:induction false} StripStartRemovesLeadingSpace(s: string)
    ensures var r := StripStart(s);
            && |r| <= |s| && r == s[|s| - |r|..]
            && (r == [] || !IsSpace(r[0]))
            && forall k :: 0 <= k < |s| - |r| ==> IsSpace(s[k])
  {
    if s != [] && IsSpace(s[0]) {
      StripStartRemovesLeadingSpace(s[1..]);
      var r := StripStart(s[1..]);
      forall k | 1 <= k < |s| - |r| ensures IsSpace(s[k]) {
        assert s[k] == s[1..][k - 1];
      }
    }
  }

  /** rstrip removes exactly the trailing whitespace. */
  lemma {:induction false} StripEndRemovesTrailingSpace(s: string)
    ensures var r := StripEnd(s);
            && |r| <= |s| && r == s[..|r|]
            && (r == [] || !IsSpace(r[|r| - 1]))
            && forall k :: |r| <= k < |s| ==> IsSpace(s[k])
  {
    if s != [] && IsSpace(s[|s| - 1]) {
      StripEndRemovesTrailingSpace(s[..|s| - 1]);
    }
  }

  /** strip keeps the slice s[a..a + |r|] between a run of leading and a run
      of trailing whitespace, and the slice neither starts nor ends with
      whitespace. */
  predicate TrimmedAt(s: string, r: string, a: nat)
  {
    && a + |r| <= |s| && r == s[a..a + |r|]
    && (forall k :: 0 <= k < a ==> IsSpace(s[k]))
    && (forall k :: a + |r| <= k < |s| ==> IsSpace(s[k]))
    && (r == [] || (!IsSpace(r[0]) && !IsSpace(r[|r| - 1])))
  }

  lemma StripIsTrim(s: string)
    ensures exists a: nat :: TrimmedAt(s, Strip(s), a)
  {
    var m := StripStart(s);
    var r := StripEnd(m);
    StripStartRemovesLeadingSpace(s);
    StripEndRemovesTrailingSpace(m);
    var a: nat := |s| - |m|;
    assert m == s[a..];
    assert r == m[..|r|];
    assert r == s[a..a + |r|] by {
      assert s[a..][..|r|] == s[a..a + |r|];
    }
    assert forall k :: a + |r| <= k < |s| ==> IsSpace(s[k]) by {
      forall k | a + |r| <= k < |s| ensures IsSpace(s[k]) {
        assert s[k] == m[k - a];
      }
    }
    assert r == [] || !IsSpace(r[0]) by {
      if r != [] {
        assert r[0] == m[0];
      }
    }
    assert Strip(s) == r;
    assert TrimmedAt(s, r, a);
  }

  /** str.lower() on the ASCII capitals. */
  function LowerChar(c: char): char
  {
    if 'A' <= c <= 'Z' then (c as int + 32) as char else c
  }

  function Lower(s: string): string
  {
    seq(|s|, i requires 0 <= i < |s| => LowerChar(s[i]))
  }

  /** A header name as the script compares it: stripped, then lower-cased. */
  function Normalize(h: string): string
  {
    Lower(Strip(h))
  }

  predicate OccursAt(s: string, pat: string, i: nat)
  {
    i + |pat| <= |s| && s[i..i + |pat|] == pat
  }

  /** Python's `pat in s` on strings: pat starts here or further on. */
  predicate HasSubstring(s: string, pat: string)
    decreases |s|
  {
    |pat| <= |s| && (s[..|pat|] == pat || HasSubstring(s[1..], pat))
  }

  /** `pat in s` holds exactly when pat occurs at some position of s. */
  lemma {:induction false} HasSubstringIffOccurs(s: string, pat: string)
    ensures HasSubstring(s, pat) <==> exists i: nat :: i <= |s| && OccursAt(s, pat, i)
    decreases |s|
  {
    if |pat| <= |s| && s[..|pat|] != pat && |s| > 0 {
      HasSubstringIffOccurs(s[1..], pat);
      if HasSubstring(s, pat) {
        var i: nat :| i <= |s[1..]| && OccursAt(s[1..], pat, i);
        assert s[i + 1..i + 1 + |pat|] == s[1..][i..i + |pat|];
        assert OccursAt(s, pat, i + 1);
      }
      if exists i: nat :: i <= |s| && OccursAt(s, pat, i) {
        var i: nat :| i <= |s| && OccursAt(s, pat, i);
        assert i != 0;
        assert s[1..][i - 1..i - 1 + |pat|] == s[i..i + |pat|];
        assert OccursAt(s[1..], pat, i - 1);
      }
    } else if |pat| <= |s| {
      assert OccursAt(s, pat, 0);
    }
  }

  predicate IsTimeHeader(h: string)
  {
    Normalize(h) == "time" || Normalize(h) == "t"
  }

  predicate IsYHeader(h: string)
  {
    HasSubstring(Normalize(h), "points:1")
  }

  /** The index of the first name that satisfies p, if any. */
  function FirstMatch(hs: seq<string>, p: string -> bool): (r: Option<nat>)
    ensures r.Some? ==> r.value < |hs| && p(hs[r.value])
    ensures r.Some? ==> forall j :: 0 <= j < r.value ==> !p(hs[j])
    ensures r.None? <==> forall j :: 0 <= j < |hs| ==> !p(hs[j])
  {
    if hs == [] then None
    else if p(hs[0]) then Some(0)
    else
      var r := FirstMatch(hs[1..], p);
      assert forall j :: 1 <= j < |hs| ==> hs[j] == hs[1..][j - 1];
      match r
      case None => None
      case Some(i) => Some(i + 1)
  }

  lemma FirstMatchAt(hs: seq<string>, p: string -> bool, i: nat)
    requires i < |hs| && p(hs[i])
    requires forall j :: 0 <= j < i ==> !p(hs[j])
    ensures FirstMatch(hs, p) == Some(i)
  {
    var r := FirstMatch(hs, p);
    assert r.Some?;
    assert !(r.value < i);
    assert !(i < r.value);
  }

  /** The column the script reads time from: the first header named "time"
      or "t", else column 0. */
  function TimeColumn(header: seq<string>): nat
  {
    match FirstMatch(header, IsTimeHeader)
    case Some(i) => i
    case None => 0
  }

  /** The time column is the first header named "time" or "t" (after strip
      and lower), and column 0 when no header is. */
  lemma TimeColumnIsFirstTimeHeader(header: seq<string>)
    ensures (exists i :: 0 <= i < |header| && IsTimeHeader(header[i])) ==>
              && TimeColumn(header) < |header| && IsTimeHeader(header[TimeColumn(header)])
              && forall j :: 0 <= j < TimeColumn(header) ==> !IsTimeHeader(header[j])
    ensures (forall i :: 0 <= i < |header| ==> !IsTimeHeader(header[i])) ==> TimeColumn(header) == 0
  {
    var r := FirstMatch(header, IsTimeHeader);
    if r.Some? {
      assert IsTimeHeader(header[r.value]);
    }
  }

  /** The column find_y_column picks, if any. */
  function YColumn(header: seq<string>): Option<nat>
  {
    FirstMatch(header, IsYHeader)
  }

  /** The Y column is the first header whose normalised name contains
      "points:1"; there is none exactly when no header does. */
  lemma YColumnIsFirstYHeader(header: seq<string>)
    ensures YColumn(header).Some? ==>
              && YColumn(header).value < |header| && IsYHeader(header[YColumn(header).value])
              && forall j :: 0 <= j < YColumn(header).value ==> !IsYHeader(header[j])
    ensures YColumn(header).None? <==> forall j :: 0 <= j < |header| ==> !IsYHeader(header[j])
  {
    var r := FirstMatch(header, IsYHeader);
    if r.Some? {
      assert IsYHeader(header[r.value]);
    }
  }

  /** The time-column scan of load_csv_and_group_by_time. */
  method FindTimeColumn(header: seq<string>) returns (col: nat)
    ensures col == TimeColumn(header)
  {
    var found: Option<nat> := None;
    var i := 0;
    while i < |header|
      invariant 0 <= i <= |header|
      invariant forall j :: 0 <= j < i ==> !IsTimeHeader(header[j])
    {
      if IsTimeHeader(header[i]) {
        found := Some(i);
        break;
      }
      i := i + 1;
    }
    if found.Some? {
      col := found.value;
      FirstMatchAt(header, IsTimeHeader, col);
    } else {
      col := 0;
      assert FirstMatch(header, IsTimeHeader).None?;
    }
  }

  /** find_y_column: the lowest index whose normalised name contains
      "points:1"; ValueError when there is none. */
  method FindYColumn(header: seq<string>) returns (r: Result<nat, FitError>)
    ensures r.Err? ==> r.error == NoYColumn
    ensures r.Ok? <==> YColumn(header).Some?
    ensures r.Ok? ==> r.value == YColumn(header).value
  {
    var i := 0;
    while i < |header|
      invariant 0 <= i <= |header|
      invariant forall j :: 0 <= j < i ==> !IsYHeader(header[j])
    {
      if IsYHeader(header[i]) {
        FirstMatchAt(header, IsYHeader, i);
        return Ok(i);
      }
      i := i + 1;
    }
    assert FirstMatch(header, IsYHeader).None?;
    return Err(NoYColumn);
  }

  // ---------------------------------------------------------------------
  // The parsed table and its grouping by time

  type Row = seq<real>

  /** What np.genfromtxt hands back: a 1-D array (one data row, one column,
      or no data) or a 2-D array of `width` columns. The type does not tie
      `width` to the length of each row: WellShaped tests the width the
      shape check sees, and Wide states that every row reaches the column
      being read. */
  datatype ParsedTable = Vector(values: seq<real>) | Matrix(width: nat, rows: seq<Row>)

  /** The shape test of load_csv_and_group_by_time: 2-D with at least two
      columns. */
  predicate WellShaped(t: ParsedTable)
  {
    t.Matrix? && t.width >= 2
  }

  /** Every row has an entry at column `col` (otherwise numpy raises
      IndexError). */
  predicate Wide(rows: seq<Row>, col: nat)
  {
    forall i :: 0 <= i < |rows| ==> col < |rows[i]|
  }

  /** The rows whose time value is t, in input order: the list that
      `grouped.setdefault(t, []).append(row)` builds. */
  function Group(rows: seq<Row>, col: nat, t: real): seq<Row>
    requires Wide(rows, col)
  {
    if rows == [] then []
    else
      var n := |rows| - 1;
      var g := Group(rows[..n], col, t);
      if rows[n][col] == t then g + [rows[n]] else g
  }

  predicate Distinct(ks: seq<real>)
  {
    forall i, j :: 0 <= i < j < |ks| ==> ks[i] != ks[j]
  }

  /** The distinct time values in order of first appearance: the key order
      of the Python dict `grouped`. */
  function TimeKeys(rows: seq<Row>, col: nat): seq<real>
    requires Wide(rows, col)
  {
    if rows == [] then []
    else
      var n := |rows| - 1;
      var ks := TimeKeys(rows[..n], col);
      if rows[n][col] in ks then ks else ks + [rows[n][col]]
  }

  /** The group keys are exactly the distinct time values, each once. */
  lemma {:induction false} TimeKeysAreDistinctTimes(rows: seq<Row>, col: nat)
    requires Wide(rows, col)
    ensures Distinct(TimeKeys(rows, col))
    ensures forall t :: t in TimeKeys(rows, col) <==>
                        exists i :: 0 <= i < |rows| && rows[i][col] == t
  {
    if rows != [] {
      var n := |rows| - 1;
      TimeKeysAreDistinctTimes(rows[..n], col);
      forall t ensures t in TimeKeys(rows, col) <==>
                       exists i :: 0 <= i < |rows| && rows[i][col] == t
      {
        if t in TimeKeys(rows[..n], col) {
          var i :| 0 <= i < n && rows[..n][i][col] == t;
          assert rows[i][col] == t;
        }
        if exists i :: 0 <= i < |rows| && rows[i][col] == t {
          var i :| 0 <= i < |rows| && rows[i][col] == t;
          if i < n {
            assert rows[..n][i][col] == t;
          }
        }
      }
    }
  }

  /** Every row of group t has time value t, and every row with time value
      t is in group t: rows land in exactly the group of their own time. */
  lemma {:induction false} GroupHoldsExactlyItsRows(rows: seq<Row>, col: nat, t: real)
    requires Wide(rows, col)
    ensures forall r :: r in Group(rows, col, t) ==> r in rows && col < |r| && r[col] == t
    ensures forall i :: 0 <= i < |rows| && rows[i][col] == t ==> rows[i] in Group(rows, col, t)
  {
    if rows != [] {
      var n := |rows| - 1;
      GroupHoldsExactlyItsRows(rows[..n], col, t);
      assert rows == rows[..n] + [rows[n]];
      forall i | 0 <= i < |rows| && rows[i][col] == t
        ensures rows[i] in Group(rows, col, t)
      {
        if i < n {
          assert rows[..n][i] == rows[i];
        }
      }
    }
  }

  /** A time value that does not occur has no rows. */
  lemma {:induction false} GroupOfNewKey(rows: seq<Row>, col: nat, t: real)
    requires Wide(rows, col) && t !in TimeKeys(rows, col)
    ensures Group(rows, col, t) == []
  {
    if rows != [] {
      var n := |rows| - 1;
      GroupOfNewKey(rows[..n], col, t);
    }
  }

  /** One more row extends exactly the group of its own time value, and
      adds that value to the key order when it is new. */
  lemma GroupStep(rows: seq<Row>, col: nat, i: nat)
    requires i < |rows| && Wide(rows[..i + 1], col)
    ensures Wide(rows[..i], col)
    ensures forall t :: Group(rows[..i + 1], col, t) == (
              if rows[i][col] == t then Group(rows[..i], col, t) + [rows[i]]
              else Group(rows[..i], col, t))
    ensures TimeKeys(rows[..i + 1], col) ==
      if rows[i][col] in TimeKeys(rows[..i], col) then TimeKeys(rows[..i], col)
      else TimeKeys(rows[..i], col) + [rows[i][col]]
  {
    assert rows[..i + 1][..i] == rows[..i];
  }

  /** The Python dict produced by the grouping loop: values keyed by time,
      and the keys in insertion order. */
  datatype Grouping = Grouping(groups: map<real, seq<Row>>, order: seq<real>)

  ghost predicate IsGroupingOf(g: Grouping, rows: seq<Row>, col: nat)
    requires Wide(rows, col)
  {
    && g.order == TimeKeys(rows, col)
    && (forall t :: t in g.groups <==> t in g.order)
    && (forall t :: t in g.groups ==> g.groups[t] == Group(rows, col, t))
  }

  /** `grouped.setdefault(t, []).append(row)` for the next row keeps the
      dict equal to the grouping of the rows seen so far. */
  lemma GroupingStep(g: Grouping, rows: seq<Row>, col: nat, i: nat)
    requires i < |rows| && Wide(rows[..i + 1], col)
    requires Wide(rows[..i], col) && IsGroupingOf(g, rows[..i], col)
    ensures var row := rows[i];
            var tt := row[col];
            IsGroupingOf(
              if tt in g.groups then Grouping(g.groups[tt := g.groups[tt] + [row]], g.order)
              else Grouping(g.groups[tt := [row]], g.order + [tt]),
              rows[..i + 1], col)
  {
    GroupStep(rows, col, i);
    var tt := rows[i][col];
    if tt !in g.groups {
      GroupOfNewKey(rows[..i], col, tt);
    }
  }

  /** The shape check, time-column choice and grouping loop of
      load_csv_and_group_by_time. */
  method LoadCsvAndGroupByTime(header: seq<string>, table: ParsedTable)
    returns (r: Result<Grouping, FitError>)
    ensures !WellShaped(table) ==> r == Err(MalformedTable)
    ensures WellShaped(table) && !Wide(table.rows, TimeColumn(header)) ==>
              r == Err(IndexOutOfRange)
    ensures WellShaped(table) && Wide(table.rows, TimeColumn(header)) ==>
              r.Ok? && IsGroupingOf(r.value, table.rows, TimeColumn(header))
  {
    if !WellShaped(table) {
      return Err(MalformedTable);
    }
    var rows := table.rows;
    var col := FindTimeColumn(header);
    var grouped := Grouping(map[], []);
    var i := 0;
    while i < |rows|
      invariant 0 <= i <= |rows|
      invariant Wide(rows[..i], col)
      invariant IsGroupingOf(grouped, rows[..i], col)
    {
      var row := rows[i];
      if col >= |row| {
        assert !Wide(rows, col) by { assert col >= |rows[i]|; }
        return Err(IndexOutOfRange);
      }
      var tt := row[col];
      assert rows[..i + 1] == rows[..i] + [row];
      GroupingStep(grouped, rows, col, i);
      if tt in grouped.groups {
        grouped := grouped.(groups := grouped.groups[tt := grouped.groups[tt] + [row]]);
      } else {
        grouped := Grouping(grouped.groups[tt := [row]], grouped.order + [tt]);
      }
      i := i + 1;
    }
    assert rows[..i] == rows;
    return Ok(grouped);
  }

  // ---------------------------------------------------------------------
  // The groups partition the rows

  /** The number of rows held by the groups of `keys`. */
  function GroupedCount(keys: seq<real>, rows: seq<Row>, col: nat): nat
    requires Wide(rows, col)
  {
    if keys == [] then 0
    else GroupedCount(keys[..|keys| - 1], rows, col) + |Group(rows, col, keys[|keys| - 1])|
  }

  /** Adding a row adds one to the count of exactly one group among
      pairwise distinct keys, and only if its time is among them. */
  lemma {:induction false} GroupedCountStep(keys: seq<real>, rows: seq<Row>, col: nat)
    requires rows != [] && Wide(rows, col) && Distinct(keys)
    ensures GroupedCount(keys, rows, col) ==
            GroupedCount(keys, rows[..|rows| - 1], col) + (if rows[|rows| - 1][col] in keys then 1 else 0)
  {
    if keys != [] {
      var m := |keys| - 1;
      assert keys == keys[..m] + [keys[m]];
      GroupedCountStep(keys[..m], rows, col);
    }
  }

  /** Grouping loses and duplicates no row: the group sizes add up to the
      number of rows. */
  lemma {:induction false} GroupsPartitionRows(rows: seq<Row>, col: nat)
    requires Wide(rows, col)
    ensures GroupedCount(TimeKeys(rows, col), rows, col) == |rows|
  {
    if rows != [] {
      var n := |rows| - 1;
      var p := rows[..n];
      var t := rows[n][col];
      var ks := TimeKeys(p, col);
      GroupsPartitionRows(p, col);
      TimeKeysAreDistinctTimes(p, col);
      GroupedCountStep(ks, rows, col);
      if t !in ks {
        assert (ks + [t])[..|ks|] == ks;
        GroupOfNewKey(p, col, t);
      }
    }
  }

  /** Each distinct time has at least one row. */
  lemma GroupOfKeyNonEmpty(rows: seq<Row>, col: nat, t: real)
    requires Wide(rows, col) && t in TimeKeys(rows, col)
    ensures |Group(rows, col, t)| > 0
  {
    TimeKeysAreDistinctTimes(rows, col);
    GroupHoldsExactlyItsRows(rows, col, t);
    var i :| 0 <= i < |rows| && rows[i][col] == t;
    assert rows[i] in Group(rows, col, t);
  }

  // ---------------------------------------------------------------------
  // eta(t): the median Y of every time group, sorted by time

  /** numpy's `rows[:, col]`. */
  function Column(rows: seq<Row>, col: nat): (ys: seq<real>)
    requires Wide(rows, col)
    ensures |ys| == |rows|
  {
    seq(|rows|, i requires 0 <= i < |rows| => rows[i][col])
  }

  /** A group taken from rows that all reach column yc reaches it too. */
  lemma GroupWide(rows: seq<Row>, tc: nat, yc: nat, t: real)
    requires Wide(rows, tc) && Wide(rows, yc)
    ensures Wide(Group(rows, tc, t), yc)
  {
    GroupHoldsExactlyItsRows(rows, tc, t);
    var g := Group(rows, tc, t);
    forall i | 0 <= i < |g| ensures yc < |g[i]| {
      assert g[i] in g;
      var k :| 0 <= k < |rows| && rows[k] == g[i];
    }
  }

  /** When every group reaches column yc, every row does. */
  lemma WideFromGroups(rows: seq<Row>, tc: nat, yc: nat)
    requires Wide(rows, tc)
    requires forall t :: t in TimeKeys(rows, tc) ==> Wide(Group(rows, tc, t), yc)
    ensures Wide(rows, yc)
  {
    TimeKeysAreDistinctTimes(rows, tc);
    forall i | 0 <= i < |rows| ensures yc < |rows[i]| {
      var t := rows[i][tc];
      GroupHoldsExactlyItsRows(rows, tc, t);
      var g := Group(rows, tc, t);
      assert rows[i] in g;
      var k :| 0 <= k < |g| && g[k] == rows[i];
    }
  }

  /** eta at time t: the median Y value of the rows at time t. */
  function GroupMedian(rows: seq<Row>, tc: nat, yc: nat, t: real): real
    requires Wide(rows, tc) && Wide(rows, yc) && t in TimeKeys(rows, tc)
  {
    GroupWide(rows, tc, yc, t);
    GroupOfKeyNonEmpty(rows, tc, t);
    Median(Column(Group(rows, tc, t), yc))
  }

  /** eta lies between the lowest and the highest Y value sampled at that
      time. */
  lemma GroupMedianWithinGroup(rows: seq<Row>, tc: nat, yc: nat, t: real)
    requires Wide(rows, tc) && Wide(rows, yc) && t in TimeKeys(rows, tc)
    ensures Wide(Group(rows, tc, t), yc) && |Group(rows, tc, t)| > 0
    ensures var ys := Column(Group(rows, tc, t), yc);
            Min(ys) <= GroupMedian(rows, tc, yc, t) <= Max(ys)
  {
    GroupWide(rows, tc, yc, t);
    GroupOfKeyNonEmpty(rows, tc, t);
  }

  /** The pair (time, eta) of one time group, as the two parallel lists
      `times` and `etas` hold it before sorting. */
  function TimeOf(p: (real, real)): real { p.0 }

  function Zip(xs: seq<real>, ys: seq<real>): (ps: seq<(real, real)>)
    requires |xs| == |ys|
    ensures |ps| == |xs|
  {
    seq(|xs|, i requires 0 <= i < |xs| => (xs[i], ys[i]))
  }

  function Firsts(ps: seq<(real, real)>): (xs: seq<real>)
    ensures |xs| == |ps|
  {
    seq(|ps|, i requires 0 <= i < |ps| => ps[i].0)
  }

  function Seconds(ps: seq<(real, real)>): (ys: seq<real>)
    ensures |ys| == |ps|
  {
    seq(|ps|, i requires 0 <= i < |ps| => ps[i].1)
  }

  /** What extract_eta_time_series returns, stated over the parsed rows:
      one strictly ascending entry per distinct time, each with the median
      height of that time's rows. */
  ghost predicate IsEtaSeries(rows: seq<Row>, tc: nat, yc: nat, ts: seq<real>, etas: seq<real>)
    requires Wide(rows, tc) && Wide(rows, yc)
  {
    && |ts| == |etas| == |TimeKeys(rows, tc)|
    && (forall i, j :: 0 <= i < j < |ts| ==> ts[i] < ts[j])
    && (forall t :: t in ts <==> exists k :: 0 <= k < |rows| && rows[k][tc] == t)
    && (forall i :: 0 <= i < |ts| ==>
          ts[i] in TimeKeys(rows, tc) && etas[i] == GroupMedian(rows, tc, yc, ts[i]))
  }

  /** Sorting the (time, eta) pairs by time (np.argsort) turns the per-group
      lists into the eta series. */
  lemma SortedPairsAreEtaSeries(rows: seq<Row>, tc: nat, yc: nat, etas: seq<real>)
    requires Wide(rows, tc) && Wide(rows, yc)
    requires |etas| == |TimeKeys(rows, tc)|
    requires forall j :: 0 <= j < |etas| ==> etas[j] == GroupMedian(rows, tc, yc, TimeKeys(rows, tc)[j])
    ensures var sorted := SortBy(Zip(TimeKeys(rows, tc), etas), TimeOf);
            IsEtaSeries(rows, tc, yc, Firsts(sorted), Seconds(sorted))
  {
    var order := TimeKeys(rows, tc);
    TimeKeysAreDistinctTimes(rows, tc);
    var sorted := SortBy(Zip(order, etas), TimeOf);
    var ts := Firsts(sorted);
    SortedTimesStrict(order, etas);
    SortedPairsComeFromGroups(rows, tc, yc, etas);
    SortedTimesAreRowTimes(rows, tc, etas);
  }

  /** The sorted times are exactly the time values that occur in the rows. */
  lemma SortedTimesAreRowTimes(rows: seq<Row>, tc: nat, etas: seq<real>)
    requires Wide(rows, tc) && |etas| == |TimeKeys(rows, tc)|
    ensures var ts := Firsts(SortBy(Zip(TimeKeys(rows, tc), etas), TimeOf));
            forall t :: t in ts <==> exists k :: 0 <= k < |rows| && rows[k][tc] == t
  {
    var order := TimeKeys(rows, tc);
    TimeKeysAreDistinctTimes(rows, tc);
    var pairs := Zip(order, etas);
    var sorted := SortBy(pairs, TimeOf);
    SortedPairsCoverKeys(order, etas);
    forall t | t in Firsts(sorted) ensures t in order {
      var i := FirstsIndex(sorted, t);
      assert sorted[i] in multiset(pairs);
      var j :| 0 <= j < |pairs| && pairs[j] == sorted[i];
      assert order[j] == t;
    }
  }

  /** Where a time of Firsts(ps) comes from. */
  lemma FirstsIndex(ps: seq<(real, real)>, t: real) returns (i: nat)
    requires t in Firsts(ps)
    ensures i < |ps| && ps[i].0 == t
  {
    var xs := Firsts(ps);
    i :| 0 <= i < |xs| && xs[i] == t;
  }

  /** The keys of dict order are pairwise distinct, so the sorted times are
      strictly ascending. */
  lemma SortedTimesStrict(order: seq<real>, etas: seq<real>)
    requires |etas| == |order| && Distinct(order)
    ensures var ts := Firsts(SortBy(Zip(order, etas), TimeOf));
            forall i, j :: 0 <= i < j < |ts| ==> ts[i] < ts[j]
  {
    var pairs := Zip(order, etas);
    assert forall i, j :: 0 <= i < j < |pairs| ==> TimeOf(pairs[i]) != TimeOf(pairs[j]);
    SortDistinctIsStrict(pairs, TimeOf);
    var sorted := SortBy(pairs, TimeOf);
    var ts := Firsts(sorted);
    forall i, j | 0 <= i < j < |ts| ensures ts[i] < ts[j] {
      assert TimeOf(sorted[i]) < TimeOf(sorted[j]);
    }
  }

  lemma SortedPairsComeFromGroups(rows: seq<Row>, tc: nat, yc: nat, etas: seq<real>)
    requires Wide(rows, tc) && Wide(rows, yc)
    requires |etas| == |TimeKeys(rows, tc)|
    requires forall j :: 0 <= j < |etas| ==> etas[j] == GroupMedian(rows, tc, yc, TimeKeys(rows, tc)[j])
    ensures var sorted := SortBy(Zip(TimeKeys(rows, tc), etas), TimeOf);
            forall i :: 0 <= i < |sorted| ==>
              sorted[i].0 in TimeKeys(rows, tc) &&
              sorted[i].1 == GroupMedian(rows, tc, yc, sorted[i].0)
  {
    var pairs := Zip(TimeKeys(rows, tc), etas);
    var sorted := SortBy(pairs, TimeOf);
    forall i | 0 <= i < |sorted|
      ensures sorted[i].0 in TimeKeys(rows, tc)
      ensures sorted[i].1 == GroupMedian(rows, tc, yc, sorted[i].0)
    {
      assert sorted[i] in multiset(pairs);
      var j :| 0 <= j < |pairs| && pairs[j] == sorted[i];
    }
  }

  lemma SortedPairsCoverKeys(order: seq<real>, etas: seq<real>)
    requires |etas| == |order|
    ensures forall t :: t in order ==> t in Firsts(SortBy(Zip(order, etas), TimeOf))
  {
    var pairs := Zip(order, etas);
    var sorted := SortBy(pairs, TimeOf);
    forall t | t in order ensures t in Firsts(sorted) {
      var j :| 0 <= j < |order| && order[j] == t;
      assert pairs[j] in multiset(sorted);
      var i :| 0 <= i < |sorted| && sorted[i] == pairs[j];
      assert Firsts(sorted)[i] == t;
    }
  }

  /** eta is the median Y of the rows at time t (stated before it is known
      that every row reaches the Y column). */
  ghost predicate ReducedGroup(rows: seq<Row>, tc: nat, yc: nat, t: real, eta: real)
    requires Wide(rows, tc)
  {
    Wide(Group(rows, tc, t), yc) && |Group(rows, tc, t)| > 0 &&
    eta == Median(Column(Group(rows, tc, t), yc))
  }

  /** The loop of extract_eta_time_series over the groups, in dict order:
      the median Y value of each group, or IndexError once a group's rows
      do not reach the Y column. */
  method MedianPerGroup(grouped: Grouping, ghost rows: seq<Row>, ghost tc: nat, yc: nat)
    returns (r: Result<seq<real>, FitError>)
    requires Wide(rows, tc) && IsGroupingOf(grouped, rows, tc)
    ensures r.Err? <==> !Wide(rows, yc)
    ensures r.Err? ==> r.error == IndexOutOfRange
    ensures r.Ok? ==>
              && Wide(rows, yc) && |r.value| == |TimeKeys(rows, tc)|
              && (forall j :: 0 <= j < |r.value| ==>
                    r.value[j] == GroupMedian(rows, tc, yc, TimeKeys(rows, tc)[j]))
  {
    var order := grouped.order;
    var etas: seq<real> := [];
    var k := 0;
    while k < |order|
      invariant 0 <= k <= |order| && |etas| == k
      invariant forall j :: 0 <= j < k ==> ReducedGroup(rows, tc, yc, order[j], etas[j])
    {
      var tt := order[k];
      assert tt in grouped.groups;
      var rowsAt := grouped.groups[tt];
      if !Wide(rowsAt, yc) {
        assert !Wide(rows, yc) by {
          if Wide(rows, yc) {
            GroupWide(rows, tc, yc, tt);
          }
        }
        return Err(IndexOutOfRange);
      }
      GroupOfKeyNonEmpty(rows, tc, tt);
      var eta := Median(Column(rowsAt, yc));
      ReducedStep(rows, tc, yc, order, etas, eta);
      etas := etas + [eta];
      k := k + 1;
    }
    AllGroupsReduced(rows, tc, yc, etas);
    return Ok(etas);
  }

  /** Appending the median of the next group extends the reduced prefix. */
  lemma ReducedStep(rows: seq<Row>, tc: nat, yc: nat, order: seq<real>, etas: seq<real>, eta: real)
    requires Wide(rows, tc) && |etas| < |order|
    requires forall j :: 0 <= j < |etas| ==> ReducedGroup(rows, tc, yc, order[j], etas[j])
    requires var g := Group(rows, tc, order[|etas|]);
             Wide(g, yc) && |g| > 0 && eta == Median(Column(g, yc))
    ensures forall j :: 0 <= j < |etas| + 1 ==> ReducedGroup(rows, tc, yc, order[j], (etas + [eta])[j])
  {
    var e := etas + [eta];
    forall j | 0 <= j < |etas| + 1 ensures ReducedGroup(rows, tc, yc, order[j], e[j]) {
      if j < |etas| {
        assert e[j] == etas[j];
      }
    }
  }

  /** Once every group has been reduced, every row reaches the Y column and
      each reduced value is the group's median. */
  lemma AllGroupsReduced(rows: seq<Row>, tc: nat, yc: nat, etas: seq<real>)
    requires Wide(rows, tc) && |etas| == |TimeKeys(rows, tc)|
    requires forall j :: 0 <= j < |etas| ==> ReducedGroup(rows, tc, yc, TimeKeys(rows, tc)[j], etas[j])
    ensures Wide(rows, yc)
    ensures forall j :: 0 <= j < |etas| ==> etas[j] == GroupMedian(rows, tc, yc, TimeKeys(rows, tc)[j])
  {
    var order := TimeKeys(rows, tc);
    forall t | t in order ensures Wide(Group(rows, tc, t), yc) {
      var j :| 0 <= j < |order| && order[j] == t;
      assert ReducedGroup(rows, tc, yc, order[j], etas[j]);
    }
    WideFromGroups(rows, tc, yc);
    forall j | 0 <= j < |etas|
      ensures etas[j] == GroupMedian(rows, tc, yc, order[j])
    {
      assert ReducedGroup(rows, tc, yc, order[j], etas[j]);
    }
  }

  /** extract_eta_time_series: load and group, find the Y column, take the
      median Y of every group in dict order, then sort both lists by time. */
  method ExtractEtaTimeSeries(header: seq<string>, table: ParsedTable)
    returns (r: Result<(seq<real>, seq<real>), FitError>)
    ensures !WellShaped(table) ==> r == Err(MalformedTable)
    ensures WellShaped(table) && !Wide(table.rows, TimeColumn(header)) ==>
              r == Err(IndexOutOfRange)
    ensures WellShaped(table) && Wide(table.rows, TimeColumn(header)) && YColumn(header).None? ==>
              r == Err(NoYColumn)
    ensures WellShaped(table) && Wide(table.rows, TimeColumn(header)) && YColumn(header).Some? ==>
              if Wide(table.rows, YColumn(header).value)
              then r.Ok? && IsEtaSeries(table.rows, TimeColumn(header), YColumn(header).value,
                                        r.value.0, r.value.1)
              else r == Err(IndexOutOfRange)
  {
    var loaded := LoadCsvAndGroupByTime(header, table);
    if loaded.Err? {
      return Err(loaded.error);
    }
    var grouped := loaded.value;
    var y := FindYColumn(header);
    if y.Err? {
      return Err(y.error);
    }
    var yc := y.value;
    var etas := MedianPerGroup(grouped, table.rows, TimeColumn(header), yc);
    if etas.Err? {
      return Err(etas.error);
    }
    var sorted := SortBy(Zip(grouped.order, etas.value), TimeOf);
    SortedPairsAreEtaSeries(table.rows, TimeColumn(header), yc, etas.value);
    return Ok((Firsts(sorted), Seconds(sorted)));
  }

  // ---------------------------------------------------------------------
  // Amplitude estimate

  /** estimate_amplitude: half the peak-to-peak range of the samples after
      the mean is removed. numpy's max of an empty array raises ValueError. */
  function EstimateAmplitude(y: seq<real>): (r: Result<real, FitError>)
    ensures |y| == 0 ==> r == Err(EmptySeries)
    ensures |y| > 0 ==> r.Ok? && r.value == 0.5 * (Max(y) - Min(y)) && r.value >= 0.0
  {
    if |y| == 0 then Err(EmptySeries)
    else
      var c := -Mean(y);
      PeakToPeakShift(y, c);
      Ok(0.5 * (Max(Shift(y, c)) - Min(Shift(y, c))))
  }

  lemma PeakToPeakShift(y: seq<real>, c: real)
    requires |y| > 0
    ensures Max(Shift(y, c)) - Min(Shift(y, c)) == Max(y) - Min(y)
    ensures Max(y) >= Min(y)
  {
    MaxShift(y, c);
    MinShift(y, c);
  }

  /** Adding a constant to every sample leaves the amplitude unchanged. */
  lemma AmplitudeShiftInvariant(y: seq<real>, c: real)
    ensures EstimateAmplitude(Shift(y, c)) == EstimateAmplitude(y)
  {
    var a, b := EstimateAmplitude(Shift(y, c)), EstimateAmplitude(y);
    if |y| > 0 {
      PeakToPeakShift(y, c);
      assert a.Ok? && a.value == 0.5 * (Max(Shift(y, c)) - Min(Shift(y, c)));
      assert b.Ok? && b.value == 0.5 * (Max(y) - Min(y));
      assert a.value == b.value;
    } else {
      assert |Shift(y, c)| == 0;
    }
    assert a == b;
  }

  // ---------------------------------------------------------------------
  // Dominant bin of the magnitude spectrum

  /** np.argmax: the first index holding the largest value. */
  function FirstArgMax(s: seq<real>): (i: nat)
    requires |s| > 0
    ensures i < |s|
    ensures forall j :: 0 <= j < |s| ==> s[j] <= s[i]
    ensures forall j :: 0 <= j < i ==> s[j] < s[i]
  {
    if |s| == 1 then 0
    else
      var k := FirstArgMax(s[..|s| - 1]);
      if s[|s| - 1] > s[k] then |s| - 1 else k
  }

  /** The step of dominant_frequency_fft from the magnitude spectrum to the
      chosen bin: the DC bin is zeroed in place, then np.argmax picks the
      first maximal bin (it raises ValueError on an empty spectrum). */
  method DominantBin(mag: array<real>) returns (r: Result<nat, FitError>)
    modifies mag
    ensures mag.Length == 0 ==> r == Err(EmptySeries)
    ensures mag.Length > 0 ==>
              && mag[..] == old(mag[..])[0 := 0.0]
              && r.Ok? && r.value == FirstArgMax(mag[..])
  {
    if mag.Length > 0 {
      mag[0] := 0.0;
    }
    if mag.Length == 0 {
      return Err(EmptySeries);
    }
    return Ok(FirstArgMax(mag[..]));
  }

  /** With the DC bin zeroed, bin 0 is chosen exactly when no other bin has
      a positive magnitude; any other choice is a first maximal bin. */
  lemma {:induction false} DcChosenOnlyWithoutPositiveBin(mag: seq<real>)
    requires |mag| > 0
    ensures FirstArgMax(mag[0 := 0.0]) == 0 <==> forall j :: 1 <= j < |mag| ==> mag[j] <= 0.0
  {
    var s := mag[0 := 0.0];
    var i := FirstArgMax(s);
    if i == 0 {
      forall j | 1 <= j < |mag| ensures mag[j] <= 0.0 {
        assert s[j] == mag[j];
      }
    } else {
      assert s[0] < s[i];
      assert mag[i] == s[i] > 0.0;
    }
  }

  // ---------------------------------------------------------------------
  // Export payload

  /** The fitted wave record: the generator's seven fields plus the wave
      number k and the angular frequency omega. */
  datatype GerstnerWave = GerstnerWave(
    dirX: real, dirZ: real, amplitude: real, wavelength: real, phase: real,
    speed: real, steepness: real, k: real, omega: real)

  /** The JSON field names of the record, as dataclasses.asdict writes them. */
  const WaveFields: set<string> :=
    {"dir_x", "dir_z", "amplitude", "wavelength", "phase", "speed", "steepness", "k", "omega"}

  /** dataclasses.asdict of one wave. */
  function AsDict(w: GerstnerWave): (e: Entry)
    ensures e.Keys == WaveFields
  {
    map["dir_x" := w.dirX, "dir_z" := w.dirZ, "amplitude" := w.amplitude,
        "wavelength" := w.wavelength, "phase" := w.phase, "speed" := w.speed,
        "steepness" := w.steepness, "k" := w.k, "omega" := w.omega]
  }

  /** Reads a wave back from a JSON object, if it has every field. */
  function FromDict(e: Entry): Option<GerstnerWave>
  {
    if WaveFields <= e.Keys then
      Some(GerstnerWave(e["dir_x"], e["dir_z"], e["amplitude"], e["wavelength"], e["phase"],
                        e["speed"], e["steepness"], e["k"], e["omega"]))
    else None
  }

  /** Every field survives the export. */
  lemma DictRoundTrip(w: GerstnerWave)
    ensures FromDict(AsDict(w)) == Some(w)
  {
    var e := AsDict(w);
    assert WaveFields <= e.Keys;
  }

  /** The payload of export_unity_json: the model tag, the gravity, and one
      JSON object per wave in input order. */
  function ExportUnityJson(waves: seq<GerstnerWave>, gravity: real := DefaultGravity): (d: Document)
    ensures d.model == ModelName && d.gravity == gravity
    ensures |d.waves| == |waves|
    ensures forall i :: 0 <= i < |d.waves| ==>
              d.waves[i].Keys == WaveFields && FromDict(d.waves[i]) == Some(waves[i])
  {
    var entries := seq(|waves|, i requires 0 <= i < |waves| => AsDict(waves[i]));
    forall i | 0 <= i < |waves| ensures FromDict(entries[i]) == Some(waves[i]) {
      DictRoundTrip(waves[i]);
    }
    Document(ModelName, gravity, entries)
  }
}
