/**
 * Ordering results by the flag's variant list: the arms of the flag first, in
 * flag order, and whatever else has counters after them, sorted.
 *
 * Counts and series are ordered by the same loop; `fill` says what stands in
 * for an arm that has nothing, if anything does.
 */
module FlagOrder {
  import opened FlagTypes
  import opened Statistics
  import opened Results

  // -------------------------------------------------------------- sorting --

  /** The order of strings: code point by code point. */
  predicate Leq(a: string, b: string) {
    a == "" || (b != "" && (a[0] < b[0] || (a[0] == b[0] && Leq(a[1..], b[1..]))))
  }

  /** One string is not after another when it is its beginning, or smaller at the first place where they differ. */
  lemma {:induction false} LeqMeaning(a: string, b: string)
    ensures Leq(a, b) <==> exists n: nat :: DecidedAt(a, b, n)
    decreases |a|
  {
    if a == "" {
      assert DecidedAt(a, b, 0);
    } else if b != "" {
      LeqMeaning(a[1..], b[1..]);
      if a[0] < b[0] {
        assert DecidedAt(a, b, 0);
      } else if Leq(a, b) {
        var n: nat :| DecidedAt(a[1..], b[1..], n);
        assert a[..n + 1] == [a[0]] + a[1..][..n] && b[..n + 1] == [b[0]] + b[1..][..n];
        assert DecidedAt(a, b, n + 1);
      }
      if n: nat :| DecidedAt(a, b, n) {
        if n > 0 {
          assert a[..n][0] == a[0] && b[..n][0] == b[0];
          assert a[1..][..n - 1] == a[..n][1..] && b[1..][..n - 1] == b[..n][1..];
          assert DecidedAt(a[1..], b[1..], n - 1);
        }
      }
    }
  }

  /** The first n characters are the same, and then the first string ends or has the smaller character. */
  ghost predicate DecidedAt(a: string, b: string, n: nat) {
    n <= |a| && n <= |b| && a[..n] == b[..n] && (n == |a| || (n < |b| && a[n] < b[n]))
  }

  lemma {:induction false} LeqTotal(a: string, b: string)
    ensures Leq(a, b) || Leq(b, a)
    decreases |a|
  {
    if a != "" && b != "" && a[0] == b[0] {
      LeqTotal(a[1..], b[1..]);
    }
  }

  lemma {:induction false} LeqTransitive(a: string, b: string, c: string)
    requires Leq(a, b) && Leq(b, c)
    ensures Leq(a, c)
    decreases |a|
  {
    if a != "" && a[0] == b[0] == c[0] {
      LeqTransitive(a[1..], b[1..], c[1..]);
    }
  }

  ghost predicate Sorted<T>(xs: seq<T>, name: T -> string) {
    forall i, j :: 0 <= i < j < |xs| ==> Leq(name(xs[i]), name(xs[j]))
  }

  /** After every element that is not greater. */
  function InsertSorted<T>(x: T, xs: seq<T>, name: T -> string): seq<T> {
    if xs == [] || !Leq(name(xs[0]), name(x)) then [x] + xs else [xs[0]] + InsertSorted(x, xs[1..], name)
  }

  function Sort<T>(xs: seq<T>, name: T -> string): seq<T> {
    if xs == [] then [] else InsertSorted(xs[|xs| - 1], Sort(xs[..|xs| - 1], name), name)
  }

  lemma {:induction false} InsertSortedBag<T>(x: T, xs: seq<T>, name: T -> string)
    ensures multiset(InsertSorted(x, xs, name)) == multiset(xs) + multiset{x}
    decreases |xs|
  {
    if xs != [] && Leq(name(xs[0]), name(x)) {
      InsertSortedBag(x, xs[1..], name);
      assert xs == [xs[0]] + xs[1..];
    }
  }

  lemma {:induction false} InsertSortedMembers<T>(x: T, xs: seq<T>, name: T -> string)
    ensures forall y :: y in InsertSorted(x, xs, name) ==> y == x || y in xs
    decreases |xs|
  {
    if xs != [] && Leq(name(xs[0]), name(x)) {
      InsertSortedMembers(x, xs[1..], name);
    }
  }

  lemma {:induction false} InsertSortedSorts<T>(x: T, xs: seq<T>, name: T -> string)
    requires Sorted(xs, name)
    ensures Sorted(InsertSorted(x, xs, name), name)
    decreases |xs|
  {
    if xs == [] {
    } else if !Leq(name(xs[0]), name(x)) {
      LeqTotal(name(xs[0]), name(x));
      forall j | 0 <= j < |xs|
        ensures Leq(name(x), name(xs[j]))
      {
        if j > 0 {
          LeqTransitive(name(x), name(xs[0]), name(xs[j]));
        }
      }
    } else {
      var rest := InsertSorted(x, xs[1..], name);
      InsertSortedSorts(x, xs[1..], name);
      InsertSortedMembers(x, xs[1..], name);
      forall j | 0 <= j < |rest|
        ensures Leq(name(xs[0]), name(rest[j]))
      {
        assert rest[j] in rest;
      }
    }
  }

  lemma {:induction false} SortCorrect<T>(xs: seq<T>, name: T -> string)
    ensures Sorted(Sort(xs, name), name) && multiset(Sort(xs, name)) == multiset(xs)
    decreases |xs|
  {
    if xs != [] {
      var init := xs[..|xs| - 1];
      SortCorrect(init, name);
      InsertSortedSorts(xs[|xs| - 1], Sort(init, name), name);
      InsertSortedBag(xs[|xs| - 1], Sort(init, name), name);
      assert xs == init + [xs[|xs| - 1]];
    }
  }

  // ------------------------------------------------------------- arranging --

  ghost predicate Distinct<T>(xs: seq<T>, name: T -> string) {
    forall i, j :: 0 <= i < j < |xs| ==> name(xs[i]) != name(xs[j])
  }

  function Names<T>(xs: seq<T>, name: T -> string): set<string> {
    set i | 0 <= i < |xs| :: name(xs[i])
  }

  /** The element is replaced by the last one, which is dropped from the end. */
  function SwapRemove<T>(xs: seq<T>, i: nat): seq<T>
    requires i < |xs|
  {
    xs[i := xs[|xs| - 1]][..|xs| - 1]
  }

  lemma Exchanged<T>(a: seq<T>, x: seq<T>, b: seq<T>, y: seq<T>)
    ensures multiset(a + y + b) == multiset(a + x + b + y) - multiset(x)
  {
    var m, n, p, q := multiset(a), multiset(x), multiset(b), multiset(y);
    assert multiset(a + y + b) == m + q + p;
    assert multiset(a + x + b + y) == m + n + p + q;
  }

  lemma SwapRemoveBag<T>(xs: seq<T>, i: nat)
    requires i < |xs|
    ensures multiset(SwapRemove(xs, i)) == multiset(xs) - multiset{xs[i]}
  {
    var n := |xs| - 1;
    if i == n {
      assert xs == xs[..n] + [xs[n]] && SwapRemove(xs, i) == xs[..n];
    } else {
      var a, b := xs[..i], xs[i + 1..n];
      assert xs == a + [xs[i]] + b + [xs[n]];
      assert SwapRemove(xs, i) == a + [xs[n]] + b;
      Exchanged(a, [xs[i]], b, [xs[n]]);
    }
  }

  lemma SwapRemoveNames<T>(xs: seq<T>, i: nat, name: T -> string)
    requires i < |xs| && Distinct(xs, name)
    ensures Distinct(SwapRemove(xs, i), name)
    ensures Names(SwapRemove(xs, i), name) == Names(xs, name) - {name(xs[i])}
  {
    var ys, n := SwapRemove(xs, i), |xs| - 1;
    forall s | s in Names(xs, name) && s != name(xs[i])
      ensures s in Names(ys, name)
    {
      var j :| 0 <= j < |xs| && name(xs[j]) == s;
      if j == n {
        assert name(ys[i]) == s;
      } else {
        assert name(ys[j]) == s;
      }
    }
    forall s | s in Names(ys, name)
      ensures s in Names(xs, name) && s != name(xs[i])
    {
      var j :| 0 <= j < |ys| && name(ys[j]) == s;
      assert ys[j] == if j == i then xs[n] else xs[j];
    }
  }

  function Position<T>(xs: seq<T>, name: T -> string, v: string): (i: nat)
    ensures i <= |xs| && (i < |xs| ==> name(xs[i]) == v)
    ensures i < |xs| <==> v in Names(xs, name)
  {
    if xs == [] then 0
    else if name(xs[0]) == v then assert name(xs[0]) == v; 0
    else
      var i := Position(xs[1..], name, v);
      PositionTail(xs, name, v);
      1 + i
  }

  lemma PositionTail<T>(xs: seq<T>, name: T -> string, v: string)
    requires xs != [] && name(xs[0]) != v
    ensures v in Names(xs, name) <==> v in Names(xs[1..], name)
  {
    if v in Names(xs, name) {
      var i :| 0 <= i < |xs| && name(xs[i]) == v;
      assert name(xs[1..][i - 1]) == v;
    }
    if v in Names(xs[1..], name) {
      var i :| 0 <= i < |xs[1..]| && name(xs[1..][i]) == v;
      assert name(xs[i + 1]) == v;
    }
  }

  /** What stands at an arm: the item of that name on its first mention, else the stand-in. */
  ghost predicate Arm<T(!new)>(variants: seq<string>, i: nat, items: seq<T>, name: T -> string, fill: string -> Option<T>, shown: seq<T>) {
    && i < |variants|
    && (variants[i] in Names(items, name) && variants[i] !in variants[..i] ==>
          exists x :: x in items && name(x) == variants[i] && shown == [x])
    && (variants[i] !in Names(items, name) || variants[i] in variants[..i] ==>
          shown == if fill(variants[i]).Some? then [fill(variants[i]).value] else [])
  }

  function Flat<T>(parts: seq<seq<T>>): seq<T> {
    if parts == [] then [] else Flat(parts[..|parts| - 1]) + parts[|parts| - 1]
  }

  ghost predicate ArmsShown<T(!new)>(variants: seq<string>, items: seq<T>, name: T -> string, fill: string -> Option<T>, arms: seq<seq<T>>) {
    forall i :: 0 <= i < |arms| ==> Arm(variants, i, items, name, fill, arms[i])
  }

  lemma OneMoreArm<T(!new)>(variants: seq<string>, items: seq<T>, name: T -> string, fill: string -> Option<T>, arms: seq<seq<T>>, shown: seq<T>)
    requires ArmsShown(variants, items, name, fill, arms) && Arm(variants, |arms|, items, name, fill, shown)
    ensures ArmsShown(variants, items, name, fill, arms + [shown])
  {
  }

  /** Everything made up stands in for one of the first `n` variants. */
  ghost predicate Fillers<T(!new)>(fills: seq<T>, variants: seq<string>, n: nat, fill: string -> Option<T>) {
    n <= |variants| && forall f :: f in fills ==> exists i :: 0 <= i < n && fill(variants[i]) == Some(f)
  }

  lemma OneMoreFiller<T(!new)>(fills: seq<T>, filled: seq<T>, variants: seq<string>, n: nat, fill: string -> Option<T>)
    requires Fillers(fills, variants, n, fill) && n < |variants|
    requires filled == [] || (fill(variants[n]).Some? && filled == [fill(variants[n]).value])
    ensures Fillers(fills + filled, variants, n + 1, fill)
  {
    forall f | f in fills + filled
      ensures exists i :: 0 <= i < n + 1 && fill(variants[i]) == Some(f)
    {
      if f in fills {
        var i :| 0 <= i < n && fill(variants[i]) == Some(f);
        assert fill(variants[i]) == Some(f);
      } else {
        assert fill(variants[n]) == Some(f);
      }
    }
  }

  lemma Rebalance<T>(ordered: seq<T>, left: seq<T>, items: seq<T>, fills: seq<T>, shown: seq<T>, after: seq<T>, filled: seq<T>)
    requires multiset(ordered) + multiset(left) == multiset(items) + multiset(fills)
    requires multiset(shown) + multiset(after) == multiset(left) + multiset(filled)
    ensures multiset(ordered + shown) + multiset(after) == multiset(items) + multiset(fills + filled)
  {
    var o, l, i, f := multiset(ordered), multiset(left), multiset(items), multiset(fills);
    var s, a, g := multiset(shown), multiset(after), multiset(filled);
    assert multiset(ordered + shown) == o + s && multiset(fills + filled) == f + g;
    assert (o + s) + a == o + (s + a);
    assert o + (l + g) == (o + l) + g;
    assert (i + f) + g == i + (f + g);
  }

  /** Arm by arm, then the rest. */
  ghost predicate Arranged<T(!new)>(variants: seq<string>, items: seq<T>, name: T -> string, fill: string -> Option<T>,
                                    arms: seq<seq<T>>, rest: seq<T>) {
    && |arms| == |variants|
    && ArmsShown(variants, items, name, fill, arms)
    && Sorted(rest, name)
    && (forall x :: x in rest <==> x in items && name(x) !in variants)
  }

  /**
   * The loop both orderings run: look each flag variant up, take it out with
   * `swap_remove`, then append what is left over, sorted.
   */
  method Arrange<T(==, !new)>(variants: seq<string>, items: seq<T>, name: T -> string, fill: string -> Option<T>)
    returns (ordered: seq<T>, ghost arms: seq<seq<T>>, ghost rest: seq<T>, ghost fills: seq<T>)
    requires Distinct(items, name)
    ensures ordered == Flat(arms) + rest && Arranged(variants, items, name, fill, arms, rest)
    ensures multiset(ordered) == multiset(items) + multiset(fills)
    ensures Fillers(fills, variants, |variants|, fill)
  {
    ordered, arms, fills := [], [], [];
    var left := items;
    for i := 0 to |variants|
      invariant |arms| == i && ordered == Flat(arms)
      invariant ArmsShown(variants, items, name, fill, arms)
      invariant Left(variants[..i], items, left, name)
      invariant multiset(ordered) + multiset(left) == multiset(items) + multiset(fills)
      invariant Fillers(fills, variants, i, fill)
    {
      var shown, after, filled := TakeArm(variants, i, items, left, name, fill, variants[i]);
      assert (arms + [shown])[..i] == arms;
      OneMoreArm(variants, items, name, fill, arms, shown);
      OneMoreFiller(fills, filled, variants, i, fill);
      Rebalance(ordered, left, items, fills, shown, after, filled);
      arms := arms + [shown];
      ordered := ordered + shown;
      left := after;
      fills := fills + filled;
    }
    assert variants[..|variants|] == variants;
    SortCorrect(left, name);
    var sorted := Sort(left, name);
    rest := sorted;
    LeftIsRest(variants, items, left, rest, name);
    ordered := ordered + sorted;
  }

  /** One turn of the loop: what is shown for a variant, and what is left for later ones. */
  method TakeArm<T(==, !new)>(ghost variants: seq<string>, ghost i: nat, ghost items: seq<T>, left: seq<T>, name: T -> string,
                              fill: string -> Option<T>, v: string)
    returns (shown: seq<T>, after: seq<T>, ghost filled: seq<T>)
    requires i < |variants| && v == variants[i] && Left(variants[..i], items, left, name)
    ensures Arm(variants, i, items, name, fill, shown) && Left(variants[..i + 1], items, after, name)
    ensures multiset(shown) + multiset(after) == multiset(left) + multiset(filled)
    ensures filled == [] || (fill(v).Some? && filled == [fill(v).value])
  {
    LeftHas(variants, i, items, left, name);
    var index := Position(left, name, v);
    if index < |left| {
      LeftStep(variants, i, items, left, name, index);
      SwapRemoveBag(left, index);
      return [left[index]], SwapRemove(left, index), [];
    }
    LeftSame(variants, i, items, left, name);
    if fill(v).Some? {
      return [fill(v).value], left, [fill(v).value];
    }
    return [], left, [];
  }

  /** The items no variant so far has claimed. */
  ghost predicate Left<T(!new)>(variants: seq<string>, items: seq<T>, left: seq<T>, name: T -> string) {
    && Distinct(left, name)
    && (forall x :: x in left <==> x in items && name(x) !in variants)
  }

  lemma LeftHas<T(!new)>(variants: seq<string>, i: nat, items: seq<T>, left: seq<T>, name: T -> string)
    requires i < |variants| && Left(variants[..i], items, left, name)
    ensures variants[i] in Names(left, name) <==> variants[i] in Names(items, name) && variants[i] !in variants[..i]
  {
    var v := variants[i];
    if v in Names(left, name) {
      var j :| 0 <= j < |left| && name(left[j]) == v;
      assert left[j] in left;
      var m :| 0 <= m < |items| && items[m] == left[j];
      assert name(items[m]) == v;
    }
    if v in Names(items, name) && v !in variants[..i] {
      var j :| 0 <= j < |items| && name(items[j]) == v;
      assert items[j] in items;
      var m :| 0 <= m < |left| && left[m] == items[j];
      assert name(left[m]) == v;
    }
  }

  lemma LeftStep<T(!new)>(variants: seq<string>, i: nat, items: seq<T>, left: seq<T>, name: T -> string, index: nat)
    requires i < |variants| && Left(variants[..i], items, left, name) && index < |left| && name(left[index]) == variants[i]
    ensures Left(variants[..i + 1], items, SwapRemove(left, index), name)
    ensures left[index] in items
  {
    var after := SwapRemove(left, index);
    SwapRemoveNames(left, index, name);
    SwapRemoveBag(left, index);
    assert variants[..i + 1] == variants[..i] + [variants[i]];
    assert left[index] in left;
    forall x
      ensures x in after <==> x in items && name(x) !in variants[..i + 1]
    {
      assert x in after <==> x in multiset(after);
      assert x in left <==> x in multiset(left);
      if x in after {
        var j :| 0 <= j < |after| && after[j] == x;
        assert name(x) in Names(after, name);
      }
    }
  }

  lemma LeftSame<T(!new)>(variants: seq<string>, i: nat, items: seq<T>, left: seq<T>, name: T -> string)
    requires i < |variants| && Left(variants[..i], items, left, name) && variants[i] !in Names(left, name)
    ensures Left(variants[..i + 1], items, left, name)
  {
    assert variants[..i + 1] == variants[..i] + [variants[i]];
    forall x | x in left
      ensures name(x) != variants[i]
    {
      var j :| 0 <= j < |left| && left[j] == x;
      assert name(left[j]) in Names(left, name);
    }
  }

  lemma LeftIsRest<T(!new)>(variants: seq<string>, items: seq<T>, left: seq<T>, rest: seq<T>, name: T -> string)
    requires Left(variants, items, left, name) && multiset(rest) == multiset(left)
    ensures forall x :: x in rest <==> x in items && name(x) !in variants
  {
    forall x
      ensures x in rest <==> x in left
    {
      assert x in rest <==> x in multiset(rest);
      assert x in left <==> x in multiset(left);
    }
  }

  // ---------------------------------------------------------- the two uses --

  function CountsName(c: VariantCounts): string { c.variant }

  function SeriesName(s: Series): string { s.variant }

  function ZeroFill(v: string): Option<VariantCounts> { Some(VariantCounts(v, 0, 0)) }

  function NoFill(v: string): Option<Series> { None }

  lemma {:induction false} FlatSingles<T>(arms: seq<seq<T>>)
    requires forall i :: 0 <= i < |arms| ==> |arms[i]| == 1
    ensures |Flat(arms)| == |arms| && forall i :: 0 <= i < |arms| ==> Flat(arms)[i] == arms[i][0]
    decreases |arms|
  {
    if arms != [] {
      FlatSingles(arms[..|arms| - 1]);
    }
  }

  /** Where a flag variant has counts of its own, on its first mention in the list. */
  ghost predicate OwnCounts(variants: seq<string>, counts: seq<VariantCounts>, i: nat)
    requires i < |variants|
  {
    Has(counts, variants[i]) && variants[i] !in variants[..i]
  }

  /**
   * Each variant of the flag once per mention, in flag order, zero where it has
   * no counts; then the counts of variants the flag does not have, sorted. All
   * counts are there, and all else is zero.
   */
  method InFlagOrder(variants: seq<string>, counts: seq<VariantCounts>) returns (ordered: seq<VariantCounts>, ghost fills: seq<VariantCounts>)
    requires DistinctVariants(counts)
    ensures |variants| <= |ordered| && forall i :: 0 <= i < |variants| ==> ordered[i].variant == variants[i]
    ensures forall i :: 0 <= i < |variants| && OwnCounts(variants, counts, i) ==> ordered[i] in counts
    ensures forall i :: 0 <= i < |variants| && !OwnCounts(variants, counts, i) ==> ordered[i] == VariantCounts(variants[i], 0, 0)
    ensures Sorted(ordered[|variants|..], CountsName)
    ensures forall c :: c in ordered[|variants|..] <==> c in counts && c.variant !in variants
    ensures multiset(ordered) == multiset(counts) + multiset(fills)
    ensures forall f :: f in fills ==> f.exposures == 0 && f.conversions == 0
  {
    ghost var arms: seq<seq<VariantCounts>>, rest: seq<VariantCounts>;
    ordered, arms, rest, fills := Arrange(variants, counts, CountsName, ZeroFill);
    forall i | 0 <= i < |variants|
      ensures |arms[i]| == 1 && arms[i][0].variant == variants[i]
      ensures OwnCounts(variants, counts, i) ==> arms[i][0] in counts
      ensures !OwnCounts(variants, counts, i) ==> arms[i][0] == VariantCounts(variants[i], 0, 0)
    {
      CountsArm(variants, counts, i, arms[i]);
    }
    FlatSingles(arms);
    assert ordered[|variants|..] == rest;
    forall f | f in fills
      ensures f.exposures == 0 && f.conversions == 0
    {
      var i :| 0 <= i < |variants| && ZeroFill(variants[i]) == Some(f);
    }
  }

  lemma CountsArm(variants: seq<string>, counts: seq<VariantCounts>, i: nat, shown: seq<VariantCounts>)
    requires i < |variants| && Arm(variants, i, counts, CountsName, ZeroFill, shown)
    ensures |shown| == 1 && shown[0].variant == variants[i]
    ensures OwnCounts(variants, counts, i) ==> shown[0] in counts
    ensures !OwnCounts(variants, counts, i) ==> shown[0] == VariantCounts(variants[i], 0, 0)
  {
    assert Has(counts, variants[i]) <==> variants[i] in Names(counts, CountsName);
  }

  /** The variants that have a series, each on its first mention. */
  function Present(variants: seq<string>, has: set<string>): seq<string> {
    if variants == [] then []
    else
      var init, v := variants[..|variants| - 1], variants[|variants| - 1];
      Present(init, has) + if v in has && v !in init then [v] else []
  }

  function SeriesNames(series: seq<Series>): seq<string> {
    seq(|series|, i requires 0 <= i < |series| => series[i].variant)
  }

  lemma {:induction false} FlatPresent(variants: seq<string>, series: seq<Series>, arms: seq<seq<Series>>, n: nat)
    requires n <= |arms| == |variants| && ArmsShown(variants, series, SeriesName, NoFill, arms)
    ensures SeriesNames(Flat(arms[..n])) == Present(variants[..n], Names(series, SeriesName))
    decreases n
  {
    if n > 0 {
      FlatPresent(variants, series, arms, n - 1);
      assert arms[..n][..n - 1] == arms[..n - 1] && variants[..n][..n - 1] == variants[..n - 1];
      assert Arm(variants, n - 1, series, SeriesName, NoFill, arms[n - 1]);
      var shown := arms[n - 1];
      assert SeriesNames(Flat(arms[..n - 1]) + shown) == SeriesNames(Flat(arms[..n - 1])) + SeriesNames(shown);
    }
  }

  /** What the hourly reader yields can be put in flag order. */
  lemma SeriesAreDistinct(rows: seq<Row>, rank: string -> int)
    requires InOrder(rows, rank)
    ensures Distinct(SeriesOf(rows), SeriesName)
  {
    OneSeriesPerVariant(rows, rank);
  }

  lemma NoFillers(fills: seq<Series>, variants: seq<string>)
    requires Fillers(fills, variants, |variants|, NoFill)
    ensures fills == []
  {
    FirstMember(fills);
  }

  lemma FirstMember<T>(xs: seq<T>)
    ensures xs != [] ==> exists x :: x in xs
  {
    if xs != [] {
      assert xs[0] in xs;
    }
  }

  /**
   * The series of the flag's variants in flag order, those without one left
   * out; then the other series, sorted. None is lost, none is made up.
   */
  method SeriesInFlagOrder(variants: seq<string>, series: seq<Series>) returns (ordered: seq<Series>, ghost n: nat)
    requires Distinct(series, SeriesName)
    ensures multiset(ordered) == multiset(series)
    ensures n <= |ordered| && SeriesNames(ordered[..n]) == Present(variants, Names(series, SeriesName))
    ensures Sorted(ordered[n..], SeriesName)
    ensures forall s :: s in ordered[n..] <==> s in series && s.variant !in variants
  {
    ghost var arms: seq<seq<Series>>, rest: seq<Series>, fills: seq<Series>;
    ordered, arms, rest, fills := Arrange(variants, series, SeriesName, NoFill);
    NoFillers(fills, variants);
    n := |Flat(arms)|;
    assert ordered[..n] == Flat(arms) && ordered[n..] == rest;
    assert arms[..|arms|] == arms && variants[..|variants|] == variants;
    FlatPresent(variants, series, arms, |arms|);
  }
}
