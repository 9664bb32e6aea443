/**
 * Recording and flushing interleaved in any way: several flushes may be under
 * way at once, each posts its chunks one at a time, any post may fail, and
 * events keep being recorded in between.
 */
module Flushing {
  import opened Collections
  import opened FlagTypes
  import opened Recorder

  /**
   * The recorder, the unacknowledged counters of each flush, and the books:
   * increments recorded, counters acknowledged (as held, before saturation),
   * increments refused by the cap, and refusals already reported.
   */
  datatype World = World(tally: Tally, flights: seq<seq<Entry>>,
                         recorded: seq<Entry>, acknowledged: seq<Entry>, lost: seq<Entry>, reported: nat)

  datatype Event =
    | Record(cell: Cell)
    | Drain(order: seq<Entry>)
    | Ack(flight: nat)
    | Fail(flight: nat, order: seq<Entry>)

  const START: World := World(Tally(map[], 0), [], [], [], [], 0)

  /** Drains and restores go through the map in an order of its own. */
  ghost predicate Possible(w: World, e: Event) {
    match e
    case Record(_) => true
    case Drain(order) => Lists(order, w.tally.counts)
    case Ack(f) => f < |w.flights| && w.flights[f] != []
    case Fail(f, order) => f < |w.flights| && w.flights[f] != [] && SameCounters(order, w.flights[f])
  }

  /** The entries the cap refuses while they are merged one after the other. */
  function Refused(s: Tally, entries: seq<Entry>): seq<Entry>
    decreases |entries|
  {
    if entries == [] then []
    else (if Refuses(s, entries[0].cell) then [entries[0]] else []) + Refused(Add(s, entries[0]), entries[1..])
  }

  ghost function Next(w: World, e: Event): World
    requires Possible(w, e)
  {
    match e
    case Record(c) => Merged(w, [Entry(c, 1)]).(recorded := w.recorded + [Entry(c, 1)])
    case Drain(order) => w.(tally := Tally(map[], 0), flights := w.flights + [order], reported := w.reported + w.tally.dropped)
    case Ack(f) =>
      var n := ChunkSize(w.flights[f]);
      w.(flights := w.flights[f := w.flights[f][n..]], acknowledged := w.acknowledged + w.flights[f][..n])
    case Fail(f, order) => Merged(w, order).(flights := w.flights[f := []])
  }

  function Merged(w: World, entries: seq<Entry>): World {
    w.(tally := AddAll(w.tally, entries), lost := w.lost + Refused(w.tally, entries))
  }

  ghost predicate PossibleRun(w: World, events: seq<Event>)
    decreases |events|
  {
    events == [] || (Possible(w, events[0]) && PossibleRun(Next(w, events[0]), events[1..]))
  }

  ghost function Run(w: World, events: seq<Event>): World
    requires PossibleRun(w, events)
    decreases |events|
  {
    if events == [] then w else Run(Next(w, events[0]), events[1..])
  }

  // ------------------------------------------------------------------ books --

  function InFlight(flights: seq<seq<Entry>>, c: Cell): nat {
    if flights == [] then 0 else Amount(flights[0], c) + InFlight(flights[1..], c)
  }

  function CountIn(e: Entry): nat { e.count }

  function Total(entries: seq<Entry>): nat {
    SumOf(entries, CountIn)
  }

  /** Every increment of a cell is somewhere: held, in flight, acknowledged or lost to the cap. */
  ghost predicate Balanced(w: World, c: Cell) {
    Amount(w.recorded, c)
    == Count(w.tally.counts, c) + InFlight(w.flights, c) + Amount(w.acknowledged, c) + Amount(w.lost, c)
  }

  ghost predicate Inv(w: World) {
    && (forall c :: Balanced(w, c))
    && w.tally.dropped + w.reported == Total(w.lost)
    && |w.tally.counts| <= MAX_CELLS
  }

  lemma {:induction false} InFlightAppend(flights: seq<seq<Entry>>, last: seq<Entry>, c: Cell)
    ensures InFlight(flights + [last], c) == InFlight(flights, c) + Amount(last, c)
  {
    if flights == [] {
      assert flights + [last] == [last] && [last][1..] == [];
    } else {
      assert (flights + [last])[1..] == flights[1..] + [last];
      InFlightAppend(flights[1..], last, c);
    }
  }

  lemma {:induction false} InFlightUpdate(flights: seq<seq<Entry>>, f: nat, now: seq<Entry>, c: Cell)
    requires f < |flights|
    ensures InFlight(flights[f := now], c) + Amount(flights[f], c) == InFlight(flights, c) + Amount(now, c)
  {
    if f == 0 {
      assert flights[f := now][1..] == flights[1..];
    } else {
      assert flights[f := now][1..] == flights[1..][f - 1 := now];
      InFlightUpdate(flights[1..], f - 1, now, c);
    }
  }

  lemma AddKeeps(s: Tally, e: Entry, c: Cell)
    ensures
      var s' := Add(s, e);
      var refused := if Refuses(s, e.cell) then [e] else [];
      && s'.dropped == s.dropped + Total(refused)
      && Count(s'.counts, c) + Amount(refused, c) == Count(s.counts, c) + (if e.cell == c then e.count else 0)
  {
    assert [e][1..] == [];
    SumOne(e, CountIn);
  }

  lemma AddStaysSmall(s: Tally, e: Entry)
    requires |s.counts| <= MAX_CELLS
    ensures |Add(s, e).counts| <= MAX_CELLS
  {
    var s' := Add(s, e);
    assert |s'.counts| == |s'.counts.Keys| && |s.counts| == |s.counts.Keys|;
    if e.cell in s.counts {
      assert s'.counts.Keys == s.counts.Keys;
    } else if |s.counts| < MAX_CELLS {
      assert s'.counts.Keys == s.counts.Keys + {e.cell};
    }
  }

  /** Merging entries one by one keeps or counts as refused every increment of them. */
  lemma {:induction false} AddAllAdds(s: Tally, entries: seq<Entry>, c: Cell)
    ensures
      var s' := AddAll(s, entries);
      var refused := Refused(s, entries);
      && s'.dropped == s.dropped + Total(refused)
      && Count(s'.counts, c) + Amount(refused, c) == Count(s.counts, c) + Amount(entries, c)
    decreases |entries|
  {
    if entries != [] {
      var e := entries[0];
      var first := if Refuses(s, e.cell) then [e] else [];
      AddKeeps(s, e, c);
      AddAllAdds(Add(s, e), entries[1..], c);
      AmountSplit(first, Refused(Add(s, e), entries[1..]), c);
      SumSplit(first, Refused(Add(s, e), entries[1..]), CountIn);
    }
  }

  lemma {:induction false} AddAllStaysSmall(s: Tally, entries: seq<Entry>)
    requires |s.counts| <= MAX_CELLS
    ensures |AddAll(s, entries).counts| <= MAX_CELLS
    decreases |entries|
  {
    if entries != [] {
      AddStaysSmall(s, entries[0]);
      AddAllStaysSmall(Add(s, entries[0]), entries[1..]);
    }
  }

  lemma AddAllKeeps(s: Tally, entries: seq<Entry>, c: Cell)
    requires |s.counts| <= MAX_CELLS
    ensures
      var s' := AddAll(s, entries);
      var refused := Refused(s, entries);
      && |s'.counts| <= MAX_CELLS && s'.dropped == s.dropped + Total(refused)
      && Count(s'.counts, c) + Amount(refused, c) == Count(s.counts, c) + Amount(entries, c)
  {
    AddAllAdds(s, entries, c);
    AddAllStaysSmall(s, entries);
  }

  /** No cell is counted more often than all cells together. */
  lemma {:induction false} AmountWithinTotal(entries: seq<Entry>, c: Cell)
    ensures Amount(entries, c) <= Total(entries)
    decreases |entries|
  {
    if entries != [] {
      AmountWithinTotal(entries[1..], c);
      SumSplit([entries[0]], entries[1..], CountIn);
      SumOne(entries[0], CountIn);
      assert [entries[0]] + entries[1..] == entries;
    }
  }

  lemma MergedKeeps(w: World, entries: seq<Entry>, c: Cell)
    requires |w.tally.counts| <= MAX_CELLS && w.tally.dropped + w.reported == Total(w.lost)
    ensures
      var w' := Merged(w, entries);
      && |w'.tally.counts| <= MAX_CELLS && w'.tally.dropped + w'.reported == Total(w'.lost)
      && Count(w'.tally.counts, c) + Amount(w'.lost, c)
         == Count(w.tally.counts, c) + Amount(w.lost, c) + Amount(entries, c)
  {
    AddAllKeeps(w.tally, entries, c);
    AmountSplit(w.lost, Refused(w.tally, entries), c);
    SumSplit(w.lost, Refused(w.tally, entries), CountIn);
  }

  lemma NextKeeps(w: World, e: Event)
    requires Inv(w) && Possible(w, e)
    ensures Inv(Next(w, e))
  {
    var w' := Next(w, e);
    BooksAgree(w, e, Cell("", "", Exposure));
    forall c
      ensures Balanced(w', c)
    {
      assert Balanced(w, c);
      BooksAgree(w, e, c);
    }
  }

  lemma BooksAgree(w: World, e: Event, c: Cell)
    requires Balanced(w, c) && w.tally.dropped + w.reported == Total(w.lost) && |w.tally.counts| <= MAX_CELLS
    requires Possible(w, e)
    ensures
      var w' := Next(w, e);
      Balanced(w', c) && w'.tally.dropped + w'.reported == Total(w'.lost) && |w'.tally.counts| <= MAX_CELLS
  {
    match e {
      case Record(cell) =>
        MergedKeeps(w, [Entry(cell, 1)], c);
        AmountSplit(w.recorded, [Entry(cell, 1)], c);
      case Drain(order) =>
        ListsAmount(order, w.tally.counts, c);
        InFlightAppend(w.flights, order, c);
      case Ack(f) =>
        var flight, n := w.flights[f], ChunkSize(w.flights[f]);
        InFlightUpdate(w.flights, f, flight[n..], c);
        AmountSplit(flight[..n], flight[n..], c);
        assert flight[..n] + flight[n..] == flight;
        AmountSplit(w.acknowledged, flight[..n], c);
      case Fail(f, order) =>
        MergedKeeps(w, order, c);
        SameAmount(order, w.flights[f], c);
        InFlightUpdate(w.flights, f, [], c);
    }
  }

  lemma {:induction false} RunKeeps(w: World, events: seq<Event>)
    requires Inv(w) && PossibleRun(w, events)
    ensures Inv(Run(w, events))
    decreases |events|
  {
    if events != [] {
      NextKeeps(w, events[0]);
      RunKeeps(Next(w, events[0]), events[1..]);
    }
  }

  // --------------------------------------------------------------- theorems --

  /**
   * Conservation over every interleaving: nothing recorded is ever unaccounted
   * for, refusals are counted one for one, and the map never outgrows its cap.
   */
  lemma NothingVanishes(events: seq<Event>, c: Cell)
    requires PossibleRun(START, events)
    ensures
      var w := Run(START, events);
      && Amount(w.recorded, c)
         == Count(w.tally.counts, c) + InFlight(w.flights, c) + Amount(w.acknowledged, c) + Amount(w.lost, c)
      && w.tally.dropped + w.reported == Total(w.lost)
      && |w.tally.counts| <= MAX_CELLS
  {
    assert forall c :: Balanced(START, c);
    RunKeeps(START, events);
    assert Balanced(Run(START, events), c);
  }

  lemma {:induction false} PostedShort(entries: seq<Entry>, c: Cell)
    ensures Amount(PostedAll(entries), c) <= Amount(entries, c)
    ensures (forall i :: 0 <= i < |entries| && entries[i].cell == c ==> entries[i].count <= U32_MAX) <==>
              Amount(PostedAll(entries), c) == Amount(entries, c)
  {
    if entries != [] {
      var rest := entries[1..];
      PostedShort(rest, c);
      assert PostedAll(entries)[1..] == PostedAll(rest);
      assert forall i :: 0 <= i < |rest| ==> rest[i] == entries[i + 1];
      if forall i :: 0 <= i < |rest| && rest[i].cell == c ==> rest[i].count <= U32_MAX {
        assert forall i :: 0 < i < |entries| && entries[i].cell == c ==> entries[i] == rest[i - 1];
      }
    }
  }

  /**
   * What the server was told adds up with the rest to everything recorded, for
   * a cell, exactly when no counter of that cell was above the 32-bit maximum
   * when it was posted.
   */
  lemma NothingVanishesOnTheWire(events: seq<Event>, c: Cell)
    requires PossibleRun(START, events)
    ensures
      var w := Run(START, events);
      (forall i :: 0 <= i < |w.acknowledged| && w.acknowledged[i].cell == c ==> w.acknowledged[i].count <= U32_MAX) <==>
        Amount(w.recorded, c)
        == Count(w.tally.counts, c) + InFlight(w.flights, c) + Amount(PostedAll(w.acknowledged), c) + Amount(w.lost, c)
  {
    NothingVanishes(events, c);
    PostedShort(Run(START, events).acknowledged, c);
  }

  lemma {:induction false} RoomForAll(s: Tally, entries: seq<Entry>)
    requires |s.counts| + |entries| <= MAX_CELLS
    ensures Refused(s, entries) == []
    decreases |entries|
  {
    if entries != [] {
      var s' := Add(s, entries[0]);
      assert s'.counts.Keys <= s.counts.Keys + {entries[0].cell};
      SubsetSize(s'.counts.Keys, s.counts.Keys + {entries[0].cell});
      assert |s'.counts| == |s'.counts.Keys| && |s.counts| == |s.counts.Keys|;
      RoomForAll(s', entries[1..]);
    }
  }

  /** A failed flush that nothing was recorded during puts back every unsent count and loses none. */
  lemma FailedFlushAlone(cells: seq<Entry>, taken: map<Cell, nat>, acked: nat, order: seq<Entry>, c: Cell)
    requires Lists(cells, taken) && |taken| <= MAX_CELLS && acked <= |cells| && SameCounters(order, cells[acked..])
    ensures
      var s := AddAll(Tally(map[], 0), order);
      s.dropped == 0 && Count(s.counts, c) + Amount(cells[..acked], c) == Count(taken, c)
  {
    RestFits(cells, taken, acked, order);
    RoomForAll(Tally(map[], 0), order);
    AddAllKeeps(Tally(map[], 0), order, c);
    SameAmount(order, cells[acked..], c);
    SentAndUnsent(cells, taken, acked, c);
  }

  lemma RestFits(cells: seq<Entry>, taken: map<Cell, nat>, acked: nat, order: seq<Entry>)
    requires Lists(cells, taken) && acked <= |cells| && SameCounters(order, cells[acked..])
    ensures |order| <= |taken|
  {
    ListSize(cells, taken);
    SameSize(order, cells[acked..]);
  }

  lemma SentAndUnsent(cells: seq<Entry>, taken: map<Cell, nat>, acked: nat, c: Cell)
    requires Lists(cells, taken) && acked <= |cells|
    ensures Amount(cells[acked..], c) + Amount(cells[..acked], c) == Count(taken, c)
  {
    AmountSplit(cells[..acked], cells[acked..], c);
    assert cells[..acked] + cells[acked..] == cells;
    ListsAmount(cells, taken, c);
  }
}
