/**
 * The two readers of the counter table and the order results are shown in.
 *
 * A query's rows are a list in the order the query asks for. The database's
 * collation appears as `rank`, an injective numbering of the variants.
 */
module Results {
  import opened Collections
  import opened FlagTypes
  import opened Recorder
  import opened Statistics

  datatype Row = Row(variant: string, kind: Kind, hour: int, count: nat)

  datatype Point = Point(hour: int, exposures: nat, conversions: nat)

  datatype Series = Series(variant: string, points: seq<Point>)

  /** One row of `SELECT variant, kind, SUM(count) … GROUP BY variant, kind`. */
  datatype Group = Group(variant: string, kind: Kind, total: nat)

  function Counted(v: string, k: Kind): Row -> nat {
    (r: Row) => if r.variant == v && r.kind == k then r.count else 0
  }

  /** All a list of rows counts for one variant and kind. */
  function Total(rows: seq<Row>, v: string, k: Kind): nat {
    SumOf(rows, Counted(v, k))
  }

  // ----------------------------------------------------------- hourly series --

  function Bump(p: Point, k: Kind, n: nat): Point {
    if k == Exposure then p.(exposures := p.exposures + n) else p.(conversions := p.conversions + n)
  }

  function AddPoint(points: seq<Point>, r: Row): seq<Point> {
    if points == [] || points[|points| - 1].hour != r.hour then points + [Bump(Point(r.hour, 0, 0), r.kind, r.count)]
    else points[|points| - 1 := Bump(points[|points| - 1], r.kind, r.count)]
  }

  function AddRow(series: seq<Series>, r: Row): seq<Series> {
    if series == [] || series[|series| - 1].variant != r.variant then series + [Series(r.variant, AddPoint([], r))]
    else series[|series| - 1 := series[|series| - 1].(points := AddPoint(series[|series| - 1].points, r))]
  }

  function SeriesOf(rows: seq<Row>): seq<Series> {
    if rows == [] then [] else AddRow(SeriesOf(rows[..|rows| - 1]), rows[|rows| - 1])
  }

  /** One pass over the rows, opening a series and a point when the variant and the hour change. */
  method HourlyCounts(rows: seq<Row>) returns (series: seq<Series>)
    ensures series == SeriesOf(rows)
  {
    series := [];
    for i := 0 to |rows|
      invariant series == SeriesOf(rows[..i])
    {
      var row := rows[i];
      ghost var before := series;
      assert rows[..i + 1][..i] == rows[..i] && rows[..i + 1][i] == row;
      if series == [] || series[|series| - 1].variant != row.variant {
        series := series + [Series(row.variant, [])];
      }
      var last := |series| - 1;
      var points := CountRow(series[last].points, row);
      series := series[last := series[last].(points := points)];
      assert series == AddRow(before, row);
    }
    assert rows[..|rows|] == rows;
  }

  method CountRow(held: seq<Point>, row: Row) returns (points: seq<Point>)
    ensures points == AddPoint(held, row)
  {
    points := held;
    if points == [] || points[|points| - 1].hour != row.hour {
      points := points + [Point(row.hour, 0, 0)];
    }
    var p := points[|points| - 1];
    match row.kind {
      case Exposure => p := p.(exposures := p.exposures + row.count);
      case Conversion => p := p.(conversions := p.conversions + row.count);
    }
    points := points[|points| - 1 := p];
  }

  /** As `ORDER BY variant, hour` delivers them. */
  ghost predicate InOrder(rows: seq<Row>, rank: string -> int) {
    forall i, j :: 0 <= i < j < |rows| ==>
      rank(rows[i].variant) < rank(rows[j].variant) || (rows[i].variant == rows[j].variant && rows[i].hour <= rows[j].hour)
  }

  ghost predicate Rising(points: seq<Point>) {
    forall i, j :: 0 <= i < j < |points| ==> points[i].hour < points[j].hour
  }

  /** One series per variant, each with its hours strictly increasing and not empty. */
  ghost predicate WellShaped(series: seq<Series>, rank: string -> int) {
    && (forall i :: 0 <= i < |series| ==> series[i].points != [] && Rising(series[i].points))
    && (forall i, j :: 0 <= i < j < |series| ==> rank(series[i].variant) < rank(series[j].variant))
  }

  /** The last point of the last series is that of the last row. */
  ghost predicate EndsAt(series: seq<Series>, r: Row) {
    && series != [] && series[|series| - 1].variant == r.variant
    && series[|series| - 1].points != []
    && series[|series| - 1].points[|series[|series| - 1].points| - 1].hour == r.hour
  }

  lemma AddPointRises(points: seq<Point>, r: Row)
    requires Rising(points) && (points != [] ==> points[|points| - 1].hour <= r.hour)
    ensures
      var after := AddPoint(points, r);
      after != [] && Rising(after) && after[|after| - 1].hour == r.hour
  {
  }

  lemma AddRowShape(series: seq<Series>, last: Row, r: Row, rank: string -> int)
    requires WellShaped(series, rank) && (series != [] ==> EndsAt(series, last))
    requires series != [] ==> rank(last.variant) < rank(r.variant) || (last.variant == r.variant && last.hour <= r.hour)
    ensures WellShaped(AddRow(series, r), rank) && EndsAt(AddRow(series, r), r)
  {
    if series != [] && series[|series| - 1].variant == r.variant {
      AddPointRises(series[|series| - 1].points, r);
    } else {
      AddPointRises([], r);
    }
  }

  /** For any counter table the one-pass grouping yields one series per variant with strictly increasing hours. */
  lemma {:induction false} OneSeriesPerVariant(rows: seq<Row>, rank: string -> int)
    requires InOrder(rows, rank)
    ensures WellShaped(SeriesOf(rows), rank)
    ensures rows != [] ==> EndsAt(SeriesOf(rows), rows[|rows| - 1])
    decreases |rows|
  {
    if rows != [] {
      var init := rows[..|rows| - 1];
      OneSeriesPerVariant(init, rank);
      if init != [] {
        AddRowShape(SeriesOf(init), init[|init| - 1], rows[|rows| - 1], rank);
      } else {
        AddRowShape([], rows[0], rows[0], rank);
      }
    }
  }

  function Part(p: Point, k: Kind): nat { if k == Exposure then p.exposures else p.conversions }

  function PointSum(points: seq<Point>, k: Kind): nat {
    if points == [] then 0 else PointSum(points[..|points| - 1], k) + Part(points[|points| - 1], k)
  }

  /** All a list of series counts for one variant and kind. */
  function SeriesSum(series: seq<Series>, v: string, k: Kind): nat {
    if series == [] then 0
    else SeriesSum(series[..|series| - 1], v, k)
         + (if series[|series| - 1].variant == v then PointSum(series[|series| - 1].points, k) else 0)
  }

  lemma AddPointSum(points: seq<Point>, r: Row, k: Kind)
    ensures PointSum(AddPoint(points, r), k) == PointSum(points, k) + if r.kind == k then r.count else 0
  {
    var after := AddPoint(points, r);
    if points == [] || points[|points| - 1].hour != r.hour {
      assert after[..|after| - 1] == points;
    } else {
      assert after[..|after| - 1] == points[..|points| - 1];
    }
  }

  lemma AddRowSum(series: seq<Series>, r: Row, v: string, k: Kind)
    ensures SeriesSum(AddRow(series, r), v, k) == SeriesSum(series, v, k) + if r.variant == v && r.kind == k then r.count else 0
  {
    var after := AddRow(series, r);
    if series == [] || series[|series| - 1].variant != r.variant {
      AddPointSum([], r, k);
      assert after[..|after| - 1] == series;
    } else {
      AddPointSum(series[|series| - 1].points, r, k);
      assert after[..|after| - 1] == series[..|series| - 1];
    }
  }

  /** Grouping loses no count and invents none. */
  lemma {:induction false} SeriesKeepTotals(rows: seq<Row>, v: string, k: Kind)
    ensures SeriesSum(SeriesOf(rows), v, k) == Total(rows, v, k)
    decreases |rows|
  {
    if rows != [] {
      SeriesKeepTotals(rows[..|rows| - 1], v, k);
      AddRowSum(SeriesOf(rows[..|rows| - 1]), rows[|rows| - 1], v, k);
    }
  }

  /** The same, hour by hour. */
  function TotalAt(rows: seq<Row>, v: string, h: int, k: Kind): nat {
    if rows == [] then 0 else TotalAt(rows[..|rows| - 1], v, h, k) + AtHour(rows[|rows| - 1], v, h, k)
  }

  function AtHour(r: Row, v: string, h: int, k: Kind): nat {
    if r.variant == v && r.hour == h && r.kind == k then r.count else 0
  }

  function PointAt(points: seq<Point>, h: int, k: Kind): nat {
    if points == [] then 0
    else PointAt(points[..|points| - 1], h, k) + (if points[|points| - 1].hour == h then Part(points[|points| - 1], k) else 0)
  }

  function SeriesAt(series: seq<Series>, v: string, h: int, k: Kind): nat {
    if series == [] then 0
    else SeriesAt(series[..|series| - 1], v, h, k)
         + (if series[|series| - 1].variant == v then PointAt(series[|series| - 1].points, h, k) else 0)
  }

  lemma AddPointAt(points: seq<Point>, r: Row, h: int, k: Kind)
    ensures PointAt(AddPoint(points, r), h, k) == PointAt(points, h, k) + if r.hour == h && r.kind == k then r.count else 0
  {
    var after := AddPoint(points, r);
    if points == [] || points[|points| - 1].hour != r.hour {
      assert after[..|after| - 1] == points;
    } else {
      assert after[..|after| - 1] == points[..|points| - 1];
    }
  }

  lemma AddRowAt(series: seq<Series>, r: Row, v: string, h: int, k: Kind)
    ensures SeriesAt(AddRow(series, r), v, h, k) == SeriesAt(series, v, h, k) + AtHour(r, v, h, k)
  {
    var after := AddRow(series, r);
    if series == [] || series[|series| - 1].variant != r.variant {
      AddPointAt([], r, h, k);
      assert after[..|after| - 1] == series;
    } else {
      AddPointAt(series[|series| - 1].points, r, h, k);
      assert after[..|after| - 1] == series[..|series| - 1];
    }
  }

  /** Every count is shown in its own hour. */
  lemma {:induction false} SeriesKeepHours(rows: seq<Row>, v: string, h: int, k: Kind)
    ensures SeriesAt(SeriesOf(rows), v, h, k) == TotalAt(rows, v, h, k)
    decreases |rows|
  {
    if rows != [] {
      SeriesKeepHours(rows[..|rows| - 1], v, h, k);
      AddRowAt(SeriesOf(rows[..|rows| - 1]), rows[|rows| - 1], v, h, k);
    }
  }

  // --------------------------------------------------------- overall counts --

  /** The grouped rows of a table, in any order. */
  ghost predicate GroupsOf(groups: seq<Group>, rows: seq<Row>) {
    && (forall i, j :: 0 <= i < j < |groups| ==> groups[i].variant != groups[j].variant || groups[i].kind != groups[j].kind)
    && (forall i :: 0 <= i < |groups| ==> groups[i].total == Total(rows, groups[i].variant, groups[i].kind))
    && (forall i :: 0 <= i < |groups| ==> HasRow(rows, groups[i].variant, groups[i].kind))
    && (forall v, k :: HasRow(rows, v, k) ==> exists i :: 0 <= i < |groups| && groups[i].variant == v && groups[i].kind == k)
  }

  ghost predicate HasRow(rows: seq<Row>, v: string, k: Kind) {
    exists i :: 0 <= i < |rows| && rows[i].variant == v && rows[i].kind == k
  }

  lemma {:induction false} NoRowNoTotal(rows: seq<Row>, v: string, k: Kind)
    requires !HasRow(rows, v, k)
    ensures Total(rows, v, k) == 0
    decreases |rows|
  {
    if rows != [] {
      var init := rows[..|rows| - 1];
      assert forall i :: 0 <= i < |init| ==> init[i] == rows[i];
      NoRowNoTotal(init, v, k);
    }
  }

  function CountOf(c: VariantCounts, k: Kind): nat { if k == Exposure then c.exposures else c.conversions }

  ghost predicate DistinctVariants(counts: seq<VariantCounts>) {
    forall i, j :: 0 <= i < j < |counts| ==> counts[i].variant != counts[j].variant
  }

  predicate Has(counts: seq<VariantCounts>, v: string) {
    exists i | 0 <= i < |counts| :: counts[i].variant == v
  }

  function IndexOf(counts: seq<VariantCounts>, v: string): (i: nat)
    ensures i <= |counts| && (forall j :: 0 <= j < i ==> counts[j].variant != v)
    ensures i < |counts| ==> counts[i].variant == v
  {
    if counts == [] || counts[0].variant == v then 0 else 1 + IndexOf(counts[1..], v)
  }

  function SetCount(c: VariantCounts, k: Kind, n: nat): VariantCounts {
    if k == Exposure then c.(exposures := n) else c.(conversions := n)
  }

  function PutGroup(counts: seq<VariantCounts>, g: Group): seq<VariantCounts> {
    var i := IndexOf(counts, g.variant);
    if i == |counts| then counts + [SetCount(VariantCounts(g.variant, 0, 0), g.kind, g.total)]
    else counts[i := SetCount(counts[i], g.kind, g.total)]
  }

  function CountsOf(groups: seq<Group>): seq<VariantCounts> {
    if groups == [] then [] else PutGroup(CountsOf(groups[..|groups| - 1]), groups[|groups| - 1])
  }

  method FindEntry(counts: seq<VariantCounts>, v: string) returns (index: nat)
    ensures index == IndexOf(counts, v)
  {
    index := 0;
    while index < |counts| && counts[index].variant != v
      invariant index <= |counts| && forall i :: 0 <= i < index ==> counts[i].variant != v
    {
      index := index + 1;
    }
  }

  /** One pass over the grouped rows, finding or opening each variant's entry. */
  method ExperimentCounts(groups: seq<Group>) returns (counts: seq<VariantCounts>)
    ensures counts == CountsOf(groups)
  {
    counts := [];
    for n := 0 to |groups|
      invariant counts == CountsOf(groups[..n])
    {
      var g := groups[n];
      assert groups[..n + 1][..n] == groups[..n] && groups[..n + 1][n] == g;
      ghost var before := counts;
      var index := FindEntry(counts, g.variant);
      if index == |counts| {
        counts := counts + [VariantCounts(g.variant, 0, 0)];
      }
      var entry := counts[index];
      match g.kind {
        case Exposure => entry := entry.(exposures := g.total);
        case Conversion => entry := entry.(conversions := g.total);
      }
      counts := counts[index := entry];
      assert counts == PutGroup(before, g);
    }
    assert groups[..|groups|] == groups;
  }

  /** What a list of counts says about a variant; nothing said is zero. */
  function Lookup(counts: seq<VariantCounts>, v: string, k: Kind): nat {
    var i := IndexOf(counts, v);
    if i == |counts| then 0 else CountOf(counts[i], k)
  }

  lemma PutGroupEffect(counts: seq<VariantCounts>, g: Group, v: string, k: Kind)
    requires DistinctVariants(counts)
    ensures
      var after := PutGroup(counts, g);
      && DistinctVariants(after)
      && (Has(after, v) <==> Has(counts, v) || v == g.variant)
      && Lookup(after, v, k) == if v == g.variant && k == g.kind then g.total else Lookup(counts, v, k)
  {
    var after, at := PutGroup(counts, g), IndexOf(counts, g.variant);
    assert forall i :: 0 <= i < |counts| ==> after[i].variant == counts[i].variant;
    assert after[at].variant == g.variant;
    var i, j := IndexOf(counts, v), IndexOf(after, v);
    if v == g.variant {
      assert j == at;
    } else if Has(counts, v) {
      assert i < |counts| && i == j;
    } else {
      assert i == |counts| && j == |after|;
    }
  }

  /** The value of the last group for a variant and kind. */
  function GroupValue(groups: seq<Group>, v: string, k: Kind): nat {
    if groups == [] then 0
    else
      var g := groups[|groups| - 1];
      if g.variant == v && g.kind == k then g.total else GroupValue(groups[..|groups| - 1], v, k)
  }

  ghost predicate InGroups(groups: seq<Group>, v: string, k: Kind) {
    exists i :: 0 <= i < |groups| && groups[i].variant == v && groups[i].kind == k
  }

  lemma {:induction false} CountsOfMeaning(groups: seq<Group>, v: string, k: Kind)
    ensures DistinctVariants(CountsOf(groups)) && Lookup(CountsOf(groups), v, k) == GroupValue(groups, v, k)
    ensures Has(CountsOf(groups), v) <==> InGroups(groups, v, Exposure) || InGroups(groups, v, Conversion)
    decreases |groups|
  {
    if groups != [] {
      var init, g := groups[..|groups| - 1], groups[|groups| - 1];
      CountsOfMeaning(init, v, k);
      PutGroupEffect(CountsOf(init), g, v, k);
      InGroupsGrows(groups, v, Exposure);
      InGroupsGrows(groups, v, Conversion);
    }
  }

  lemma InGroupsGrows(groups: seq<Group>, v: string, k: Kind)
    requires groups != []
    ensures InGroups(groups, v, k) <==>
      InGroups(groups[..|groups| - 1], v, k) || (groups[|groups| - 1].variant == v && groups[|groups| - 1].kind == k)
  {
    var init := groups[..|groups| - 1];
    if InGroups(init, v, k) {
      var i :| 0 <= i < |init| && init[i].variant == v && init[i].kind == k;
      assert groups[i].variant == v && groups[i].kind == k;
    }
  }

  lemma {:induction false} GroupValueIs(groups: seq<Group>, v: string, k: Kind, n: nat)
    requires forall i :: 0 <= i < |groups| && groups[i].variant == v && groups[i].kind == k ==> groups[i].total == n
    requires !InGroups(groups, v, k) ==> n == 0
    ensures GroupValue(groups, v, k) == n
    decreases |groups|
  {
    if groups != [] {
      InGroupsGrows(groups, v, k);
      var init, g := groups[..|groups| - 1], groups[|groups| - 1];
      if g.variant != v || g.kind != k {
        GroupValueIs(init, v, k, n);
      }
    }
  }

  /** Each variant of the table has one entry, and it holds the variant's totals. */
  lemma CountsAreTotals(groups: seq<Group>, rows: seq<Row>, v: string, k: Kind)
    requires GroupsOf(groups, rows)
    ensures DistinctVariants(CountsOf(groups))
    ensures Lookup(CountsOf(groups), v, k) == Total(rows, v, k)
    ensures Has(CountsOf(groups), v) <==> HasRow(rows, v, Exposure) || HasRow(rows, v, Conversion)
  {
    CountsOfMeaning(groups, v, k);
    if !HasRow(rows, v, k) {
      NoRowNoTotal(rows, v, k);
    }
    assert forall l :: InGroups(groups, v, l) <==> HasRow(rows, v, l);
    GroupValueIs(groups, v, k, Total(rows, v, k));
  }

  // ---------------------------------------------------------- the two agree --

  /**
   * The series of the window and the rows before it add up to the overall
   * counts, for every variant and kind of any table.
   */
  lemma TablesAgree(table: seq<Row>, window: seq<Row>, before: seq<Row>, groups: seq<Group>, v: string, k: Kind)
    requires multiset(table) == multiset(window) + multiset(before) && GroupsOf(groups, table)
    ensures SeriesSum(SeriesOf(window), v, k) + Total(before, v, k) == Lookup(CountsOf(groups), v, k)
  {
    CountsAreTotals(groups, table, v, k);
    SeriesKeepTotals(window, v, k);
    SumPermuted(table, window + before, Counted(v, k));
    SumSplit(window, before, Counted(v, k));
  }
}
