/** ESG records and the pure derivations the dashboard computes on every
    render: the division index, the division filter, the per-metric series
    and the latest-year record. */
module Esg {

  /** A measurement field. The dashboard only copies these values into charts
      and cards and never computes on them, so an integer stands for them. */
  type Measure = int

  /** One yearly ESG measurement tuple for a division, as delivered by the server. */
  datatype Record = Record(
    division: string,
    year: int,
    carbonEmissionsTons: Measure,
    waterUsageKL: Measure,
    employeeDiversityPercentage: Measure)

  /** The three measurements that get a chart and a summary card. */
  datatype Field = CarbonEmissions | WaterUsage | EmployeeDiversity

  function FieldValue(r: Record, f: Field): Measure
  {
    match f
    case CarbonEmissions => r.carbonEmissionsTons
    case WaterUsage => r.waterUsageKL
    case EmployeeDiversity => r.employeeDiversityPercentage
  }

  datatype Option<T> = None | Some(value: T)

  // ---------------------------------------------------------------------------
  // Mapping a callback over the records (App.js lines 65, 82-83, 112-113, 142-143)
  // ---------------------------------------------------------------------------

  /** Mapping `g` over the records: one output per record, in record order. */
  function MapRecords<T>(rs: seq<Record>, g: Record -> T): (r: seq<T>)
    ensures |r| == |rs|
    ensures forall i :: 0 <= i < |rs| ==> r[i] == g(rs[i])
  {
    if rs == [] then [] else [g(rs[0])] + MapRecords(rs[1..], g)
  }

  /** The division of every record, in record order (App.js lines 41 and 65). */
  function DivisionColumn(data: seq<Record>): (r: seq<string>)
    ensures |r| == |data|
    ensures forall i :: 0 <= i < |data| ==> r[i] == data[i].division
  {
    MapRecords(data, (item: Record) => item.division)
  }

  /** The year of every filtered record: the x-axis labels of a chart
      (App.js lines 82, 112, 142). */
  function Years(rs: seq<Record>): (r: seq<int>)
    ensures |r| == |rs|
    ensures forall i :: 0 <= i < |rs| ==> r[i] == rs[i].year
  {
    MapRecords(rs, (item: Record) => item.year)
  }

  /** One measurement of every filtered record: the data points of a chart
      (App.js lines 83, 113, 143). */
  function Values(rs: seq<Record>, f: Field): (r: seq<Measure>)
    ensures |r| == |rs|
    ensures forall i :: 0 <= i < |rs| ==> r[i] == FieldValue(rs[i], f)
  {
    MapRecords(rs, (item: Record) => FieldValue(item, f))
  }

  // ---------------------------------------------------------------------------
  // Division index (App.js lines 41 and 65): the divisions of the records,
  // passed through a JavaScript Set and spread back into an array
  // ---------------------------------------------------------------------------

  ghost predicate NoDuplicates(s: seq<string>)
  {
    forall i, j :: 0 <= i < j < |s| ==> s[i] != s[j]
  }

  /** The position of the first occurrence of `x` in `s`. */
  function FirstIndex(s: seq<string>, x: string): (k: nat)
    requires x in s
    ensures k < |s| && s[k] == x
    ensures forall j :: 0 <= j < k ==> s[j] != x
  {
    if s[0] == x then 0 else 1 + FirstIndex(s[1..], x)
  }

  /** The iteration order of a JavaScript `Set` built from `s`: each element is
      appended when it is first inserted, later insertions of it are ignored. */
  function InsertionOrder(s: seq<string>): (r: seq<string>)
    ensures NoDuplicates(r)
    ensures forall x :: x in r <==> x in s
    ensures s != [] ==> r != [] && r[0] == s[0]
  {
    if s == [] then []
    else
      var seen := InsertionOrder(s[..|s| - 1]);
      assert forall x :: x in s <==> x in s[..|s| - 1] || x == s[|s| - 1] by {
        assert s == s[..|s| - 1] + [s[|s| - 1]];
      }
      if s[|s| - 1] in seen then seen else seen + [s[|s| - 1]]
  }

  /** The distinct divisions in order of first appearance (App.js lines 41 and 65). */
  function UniqueDivisions(data: seq<Record>): (r: seq<string>)
    ensures NoDuplicates(r)
    ensures forall d :: d in r <==> exists i :: 0 <= i < |data| && data[i].division == d
    ensures data != [] ==> r != [] && r[0] == data[0].division
  {
    var column := DivisionColumn(data);
    assert forall d :: d in column <==> exists i :: 0 <= i < |data| && data[i].division == d by {
      forall d | d in column ensures exists i :: 0 <= i < |data| && data[i].division == d {
        var i :| 0 <= i < |column| && column[i] == d;
        assert data[i].division == d;
      }
    }
    InsertionOrder(column)
  }

  lemma FirstIndexOfPrefix(s: seq<string>, n: nat, x: string)
    requires n <= |s| && x in s[..n]
    ensures x in s && FirstIndex(s, x) == FirstIndex(s[..n], x)
  {
    var b := FirstIndex(s[..n], x);
    assert s[b] == x;
    var a := FirstIndex(s, x);
    assert a <= b;
    assert s[..n][a] == x;
  }

  /** Set iteration follows first occurrence: an earlier element of the
      result first occurs earlier in the input. */
  lemma {:induction false} InsertionOrderFollowsFirstOccurrence(s: seq<string>)
    ensures forall i, j :: 0 <= i < j < |InsertionOrder(s)| ==>
      FirstIndex(s, InsertionOrder(s)[i]) < FirstIndex(s, InsertionOrder(s)[j])
  {
    if s != [] {
      var p := s[..|s| - 1];
      var last := s[|s| - 1];
      var seen := InsertionOrder(p);
      var r := InsertionOrder(s);
      InsertionOrderFollowsFirstOccurrence(p);
      assert s[..|s| - 1] == p;
      forall i, j | 0 <= i < j < |r|
        ensures FirstIndex(s, r[i]) < FirstIndex(s, r[j])
      {
        assert r[i] == seen[i];
        FirstIndexOfPrefix(s, |s| - 1, r[i]);
        if j < |seen| {
          assert r[j] == seen[j];
          FirstIndexOfPrefix(s, |s| - 1, r[j]);
        } else {
          assert r[j] == last && last !in p;
        }
      }
    }
  }

  /** The division index lists divisions in the order of their first record. */
  lemma UniqueDivisionsFirstSeenOrder(data: seq<Record>)
    ensures forall i, j :: 0 <= i < j < |UniqueDivisions(data)| ==>
      FirstIndex(DivisionColumn(data), UniqueDivisions(data)[i])
        < FirstIndex(DivisionColumn(data), UniqueDivisions(data)[j])
  {
    InsertionOrderFollowsFirstOccurrence(DivisionColumn(data));
  }

  // ---------------------------------------------------------------------------
  // Division filter (App.js lines 67-69): a record is kept when its division
  // equals the selection, or always when the selection is empty
  // ---------------------------------------------------------------------------

  /** The filter callback (App.js line 68): the empty string is falsy, so it
      lets every record through. */
  predicate Passes(selected: string, item: Record)
    ensures Passes(selected, item) <==> selected == "" || item.division == selected
  {
    if selected != "" then item.division == selected else true
  }

  /** The filtered records (App.js lines 67-69). */
  function Filter(data: seq<Record>, selected: string): (r: seq<Record>)
    ensures |r| <= |data|
    ensures forall x :: x in r <==> x in data && Passes(selected, x)
  {
    if data == [] then []
    else (if Passes(selected, data[0]) then [data[0]] else []) + Filter(data[1..], selected)
  }

  /** With no division selected the filter returns the collection unchanged. */
  lemma {:induction false} FilterWithoutSelection(data: seq<Record>)
    ensures Filter(data, "") == data
  {
    if data != [] {
      FilterWithoutSelection(data[1..]);
    }
  }

  /** The filter keeps the relative order of records: filtering a
      concatenation is concatenating the filtered parts, and a single record
      is kept exactly when it passes. Together these determine the result
      for every input, as the passing records in their original order. */
  lemma {:induction false} FilterPreservesOrder(a: seq<Record>, b: seq<Record>, selected: string)
    ensures Filter(a + b, selected) == Filter(a, selected) + Filter(b, selected)
  {
    if a == [] {
      assert a + b == b;
    } else {
      assert (a + b)[0] == a[0];
      assert (a + b)[1..] == a[1..] + b;
      FilterPreservesOrder(a[1..], b, selected);
    }
  }

  lemma FilterSingle(x: Record, selected: string)
    ensures Filter([x], selected) == if Passes(selected, x) then [x] else []
  {
    assert [x][1..] == [];
  }

  // ---------------------------------------------------------------------------
  // Latest-year record (App.js lines 72-74): a left fold over the filtered
  // records that keeps the earlier record only when its year is strictly greater
  // ---------------------------------------------------------------------------

  /** The reducer (App.js line 73): strict comparison, so on equal years
      `current` wins. */
  function Pick(prev: Record, current: Record): (r: Record)
    ensures r == prev || r == current
    ensures r.year >= prev.year && r.year >= current.year
    ensures prev.year == current.year ==> r == current
  {
    if prev.year > current.year then prev else current
  }

  /** The fold with accumulator `acc` over the remaining records `rest`. */
  function FoldLatest(acc: Record, rest: seq<Record>): (r: Record)
    ensures r == acc || r in rest
    ensures acc.year <= r.year
    ensures forall j :: 0 <= j < |rest| ==> rest[j].year <= r.year
    decreases |rest|
  {
    if rest == [] then acc else FoldLatest(Pick(acc, rest[0]), rest[1..])
  }

  /** The latest-year record (App.js lines 72-74): the fold has no initial
      value, so it starts from the first record; an empty filter result gives
      null. */
  function Latest(filtered: seq<Record>): (r: Option<Record>)
    ensures r.None? <==> filtered == []
    ensures r.Some? ==> r.value in filtered
    ensures r.Some? ==> forall i :: 0 <= i < |filtered| ==> filtered[i].year <= r.value.year
  {
    if |filtered| > 0 then Some(FoldLatest(filtered[0], filtered[1..])) else None
  }

  /** Follows from the contract of FoldLatest: no remaining record can match
      a strictly greater start year. */
  lemma FoldLatestKeeps(acc: Record, rest: seq<Record>)
    requires forall j :: 0 <= j < |rest| ==> rest[j].year < acc.year
    ensures FoldLatest(acc, rest) == acc
  {
  }

  lemma {:induction false} FoldLatestLast(acc: Record, rest: seq<Record>, k: nat)
    requires k < |rest| && acc.year <= rest[k].year
    requires forall i :: 0 <= i < |rest| ==> rest[i].year <= rest[k].year
    requires forall j :: k < j < |rest| ==> rest[j].year < rest[k].year
    ensures FoldLatest(acc, rest) == rest[k]
    decreases |rest|
  {
    if k == 0 {
      FoldLatestKeeps(rest[0], rest[1..]);
    } else {
      FoldLatestLast(Pick(acc, rest[0]), rest[1..], k - 1);
    }
  }

  /** Tie rule: among records sharing the maximal year, the summary is the
      LAST of them in filtered order (the reducer's `>` is strict). */
  lemma LatestPicksLastMaximal(filtered: seq<Record>, k: nat)
    requires k < |filtered|
    requires forall i :: 0 <= i < |filtered| ==> filtered[i].year <= filtered[k].year
    requires forall j :: k < j < |filtered| ==> filtered[j].year < filtered[k].year
    ensures Latest(filtered) == Some(filtered[k])
  {
    if k == 0 {
      FoldLatestKeeps(filtered[0], filtered[1..]);
    } else {
      FoldLatestLast(filtered[0], filtered[1..], k - 1);
    }
  }

  /** Two records of the same year: the later one is the summary record. */
  lemma LatestTieFavoursLater(earlier: Record, later: Record)
    requires earlier.year == later.year
    ensures Latest([earlier, later]) == Some(later)
  {
    LatestPicksLastMaximal([earlier, later], 1);
  }

  // ---------------------------------------------------------------------------
  // Summary figures (App.js lines 76-78): a field of the latest-year record,
  // or 'N/A' when there is none
  // ---------------------------------------------------------------------------

  datatype Shown = Value(amount: Measure) | NotAvailable

  /** The latest carbon, water and diversity figures (App.js lines 76-78). */
  function LatestFigure(filtered: seq<Record>, f: Field): (r: Shown)
    ensures r.NotAvailable? <==> filtered == []
    ensures r.Value? ==> filtered != [] && r.amount == FieldValue(Latest(filtered).value, f)
    ensures r.Value? ==> exists i :: 0 <= i < |filtered| && FieldValue(filtered[i], f) == r.amount &&
                                     (forall j :: 0 <= j < |filtered| ==> filtered[j].year <= filtered[i].year)
  {
    var latest := Latest(filtered);
    if latest.Some? then
      assert exists i :: 0 <= i < |filtered| && filtered[i] == latest.value;
      Value(FieldValue(latest.value, f))
    else NotAvailable
  }
}
