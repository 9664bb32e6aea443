/**
 * The SDK's event recorder: a capped map of counters, drained, posted in
 * chunks and put back where a post fails.
 */
module Recorder {
  import opened FlagTypes

  const MAX_CELLS: nat := 4_096
  const MAX_EVENTS_PER_BATCH: nat := 1_000

  datatype Kind = Exposure | Conversion

  datatype Cell = Cell(experiment: string, variant: string, kind: Kind)

  datatype Entry = Entry(cell: Cell, count: nat)

  /** Counters held, and increments the cap refused since the last drain. */
  datatype Tally = Tally(counts: map<Cell, nat>, dropped: nat)

  /** Whether the cap refuses to open a counter for the cell. */
  predicate Refuses(s: Tally, cell: Cell) {
    cell !in s.counts && |s.counts| >= MAX_CELLS
  }

  function Add(s: Tally, e: Entry): Tally {
    if e.cell in s.counts then s.(counts := s.counts[e.cell := s.counts[e.cell] + e.count])
    else if |s.counts| >= MAX_CELLS then s.(dropped := s.dropped + e.count)
    else s.(counts := s.counts[e.cell := e.count])
  }

  function AddAll(s: Tally, entries: seq<Entry>): Tally
    decreases |entries|
  {
    if entries == [] then s else AddAll(Add(s, entries[0]), entries[1..])
  }

  /** The counters of a map in some order. */
  ghost predicate Lists(entries: seq<Entry>, counts: map<Cell, nat>) {
    && (forall i :: 0 <= i < |entries| ==> entries[i].cell in counts && counts[entries[i].cell] == entries[i].count)
    && (forall i, j :: 0 <= i < j < |entries| ==> entries[i].cell != entries[j].cell)
    && (forall c :: c in counts ==> exists i :: 0 <= i < |entries| && entries[i].cell == c)
  }

  function Count(counts: map<Cell, nat>, c: Cell): nat {
    if c in counts then counts[c] else 0
  }

  /** How often a list counts a cell. */
  function Amount(entries: seq<Entry>, c: Cell): nat {
    if entries == [] then 0
    else (if entries[0].cell == c then entries[0].count else 0) + Amount(entries[1..], c)
  }

  /** What the server is told of a counter: a 32-bit number, saturating. */
  function Saturated(n: nat): nat {
    if n <= U32_MAX then n else U32_MAX
  }

  function Posted(e: Entry): Entry { Entry(e.cell, Saturated(e.count)) }

  /** The server is told the counter's own value, or the largest it takes where that is too large. */
  predicate ToldAsIs(held: Entry, told: Entry) {
    && told.cell == held.cell && told.count <= U32_MAX
    && (told.count == held.count || (told.count == U32_MAX && held.count > U32_MAX))
  }

  predicate AllTold(held: seq<Entry>, told: seq<Entry>) {
    |told| == |held| && forall i :: 0 <= i < |held| ==> ToldAsIs(held[i], told[i])
  }

  lemma PostedIsTold(entries: seq<Entry>)
    ensures AllTold(entries, PostedAll(entries))
  {
  }

  function PostedAll(entries: seq<Entry>): seq<Entry> {
    seq(|entries|, i requires 0 <= i < |entries| => Posted(entries[i]))
  }

  function ChunkSize(entries: seq<Entry>): nat {
    if |entries| <= MAX_EVENTS_PER_BATCH then |entries| else MAX_EVENTS_PER_BATCH
  }

  // ------------------------------------------------------------ the object --

  class Recorder {
    var counts: map<Cell, nat>
    var dropped: nat

    function State(): Tally reads this { Tally(counts, dropped) }

    constructor ()
      ensures State() == Tally(map[], 0)
    {
      counts, dropped := map[], 0;
    }

    /** One increment: in its counter, or counted as dropped if that would be a counter too many. */
    method Record(experiment: string, variant: string, kind: Kind)
      modifies this
      ensures State() == Add(old(State()), Entry(Cell(experiment, variant, kind), 1))
      ensures
        var cell := Cell(experiment, variant, kind);
        var refused := cell !in old(counts) && |old(counts)| >= MAX_CELLS;
        && dropped == old(dropped) + (if refused then 1 else 0)
        && (forall c :: Count(counts, c) == Count(old(counts), c) + if c == cell && !refused then 1 else 0)
      ensures |old(counts)| <= MAX_CELLS ==> |counts| <= MAX_CELLS
    {
      var cell := Cell(experiment, variant, kind);
      if cell in counts {
        counts := counts[cell := counts[cell] + 1];
        assert counts.Keys == old(counts).Keys && |counts| == |counts.Keys| && |old(counts)| == |old(counts).Keys|;
      } else if |counts| >= MAX_CELLS {
        dropped := dropped + 1;
      } else {
        counts := counts[cell := 1];
      }
    }

    method Drain() returns (taken: map<Cell, nat>, lost: nat)
      modifies this
      ensures Tally(taken, lost) == old(State()) && State() == Tally(map[], 0)
    {
      taken, lost := counts, dropped;
      counts, dropped := map[], 0;
    }

    method Merge(cell: Cell, count: nat)
      modifies this
      ensures State() == Add(old(State()), Entry(cell, count))
    {
      if cell in counts {
        counts := counts[cell := counts[cell] + count];
      } else if |counts| >= MAX_CELLS {
        dropped := dropped + count;
      } else {
        counts := counts[cell := count];
      }
    }

    /** Merges counters back, in whatever order the map yields them. */
    method Restore(unsent: map<Cell, nat>) returns (ghost order: seq<Entry>)
      modifies this
      ensures Lists(order, unsent) && State() == AddAll(old(State()), order)
    {
      var todo := unsent.Keys;
      order := [];
      assert Only(unsent, {}) == map[];
      while todo != {}
        invariant todo <= unsent.Keys && Lists(order, Only(unsent, unsent.Keys - todo))
        invariant State() == AddAll(old(State()), order)
      {
        var cell :| cell in todo;
        ListsMore(order, unsent, unsent.Keys - todo, cell);
        AddOneMore(old(State()), order, Entry(cell, unsent[cell]));
        Merge(cell, unsent[cell]);
        order := order + [Entry(cell, unsent[cell])];
        assert unsent.Keys - (todo - {cell}) == unsent.Keys - todo + {cell};
        todo := todo - {cell};
      }
      assert Only(unsent, unsent.Keys - todo) == unsent;
    }

    method PutBack(unsent: seq<Entry>) returns (ghost order: seq<Entry>)
      requires Distinct(unsent)
      modifies this
      ensures SameCounters(order, unsent) && State() == AddAll(old(State()), order)
    {
      order := Restore(ToMap(unsent));
    }

    /**
     * Drains, posts chunk after chunk, and on the first failure restores
     * everything not acknowledged. `up` says whether the server accepts the chunk
     * that starts at a position; `posts` are the chunks it was offered, each of a
     * size it takes. The drained counters are `cells`, of which the first `acked`
     * were acknowledged, as `sent`; the rest went back as `order`.
     */
    method FlushEvents(up: nat -> bool)
      returns (ok: bool, sent: seq<Entry>, acked: nat, posts: seq<seq<Entry>>, ghost cells: seq<Entry>, ghost order: seq<Entry>)
      modifies this
      ensures TakenByServer(posts)
      ensures ok ==> sent == Joined(posts)
      ensures !ok ==> posts != [] && sent == Joined(posts[..|posts| - 1])
      ensures Lists(cells, old(counts)) && acked <= |cells| && sent == PostedAll(cells[..acked])
      ensures AllTold(cells[..acked], sent)
      ensures ok ==> acked == |cells| && State() == Tally(map[], 0)
      ensures !ok ==> acked < |cells| && acked % MAX_EVENTS_PER_BATCH == 0 && !up(acked)
      ensures !ok ==> SameCounters(order, cells[acked..]) && State() == AddAll(Tally(map[], 0), order)
    {
      var taken, _ := Drain();
      var entries := Enumerate(taken);
      cells, order, acked, sent, posts := entries, [], 0, [], [];
      while acked < |entries|
        invariant TakenByServer(posts) && sent == Joined(posts)
        invariant 0 <= acked <= |entries| && State() == Tally(map[], 0) && sent == PostedAll(entries[..acked])
        invariant AllTold(entries[..acked], sent)
        invariant acked < |entries| ==> acked % MAX_EVENTS_PER_BATCH == 0
        decreases |entries| - acked
      {
        var end := acked + ChunkSize(entries[acked..]);
        var chunk := PostedAll(entries[acked..end]);
        JoinedMore(posts, chunk);
        posts := posts + [chunk];
        if !up(acked) {
          ListsSuffix(entries, taken, acked);
          order := PutBack(entries[acked..]);
          ok := false;
          return;
        }
        sent := sent + chunk;
        PostedMore(entries, acked, end);
        PostedIsTold(entries[..end]);
        acked := end;
      }
      ok := true;
    }
  }

  /** Chunks put back together. */
  function Joined(chunks: seq<seq<Entry>>): seq<Entry> {
    if chunks == [] then [] else Joined(chunks[..|chunks| - 1]) + chunks[|chunks| - 1]
  }

  /** No chunk is empty or larger than the server accepts. */
  predicate TakenByServer(chunks: seq<seq<Entry>>) {
    forall i :: 0 <= i < |chunks| ==> 0 < |chunks[i]| <= MAX_EVENTS_PER_BATCH
  }

  lemma JoinedMore(chunks: seq<seq<Entry>>, chunk: seq<Entry>)
    ensures Joined(chunks + [chunk]) == Joined(chunks) + chunk && (chunks + [chunk])[..|chunks|] == chunks
  {
    assert (chunks + [chunk])[..|chunks|] == chunks;
  }

  lemma PostedMore(entries: seq<Entry>, i: nat, j: nat)
    requires i <= j <= |entries|
    ensures PostedAll(entries[..j]) == PostedAll(entries[..i]) + PostedAll(entries[i..j])
  {
    assert entries[..j] == entries[..i] + entries[i..j];
  }

  /** Collecting entries of distinct cells into a map. */
  function ToMap(entries: seq<Entry>): map<Cell, nat> {
    if entries == [] then map[] else ToMap(entries[1..])[entries[0].cell := entries[0].count]
  }

  /** Two lists of the same counters. */
  ghost predicate SameCounters(a: seq<Entry>, b: seq<Entry>) {
    Distinct(b) && Lists(a, ToMap(b))
  }

  ghost predicate Distinct(entries: seq<Entry>) {
    forall i, j :: 0 <= i < j < |entries| ==> entries[i].cell != entries[j].cell
  }

  function Only(counts: map<Cell, nat>, keep: set<Cell>): map<Cell, nat> {
    map c | c in counts && c in keep :: counts[c]
  }

  /** The entries of a map, in some order. */
  method Enumerate(counts: map<Cell, nat>) returns (entries: seq<Entry>)
    ensures Lists(entries, counts)
  {
    var todo := counts.Keys;
    entries := [];
    assert Only(counts, {}) == map[];
    while todo != {}
      invariant todo <= counts.Keys && Lists(entries, Only(counts, counts.Keys - todo))
    {
      var cell :| cell in todo;
      ListsMore(entries, counts, counts.Keys - todo, cell);
      entries := entries + [Entry(cell, counts[cell])];
      assert counts.Keys - (todo - {cell}) == counts.Keys - todo + {cell};
      todo := todo - {cell};
    }
    assert Only(counts, counts.Keys - todo) == counts;
  }

  lemma ListsMore(entries: seq<Entry>, counts: map<Cell, nat>, done: set<Cell>, cell: Cell)
    requires cell in counts && cell !in done && Lists(entries, Only(counts, done))
    ensures Lists(entries + [Entry(cell, counts[cell])], Only(counts, done + {cell}))
  {
    var more := entries + [Entry(cell, counts[cell])];
    forall c | c in Only(counts, done + {cell})
      ensures exists i :: 0 <= i < |more| && more[i].cell == c
    {
      if c == cell {
        assert more[|entries|].cell == c;
      } else {
        assert c in Only(counts, done);
        var i :| 0 <= i < |entries| && entries[i].cell == c;
        assert more[i].cell == c;
      }
    }
  }

  lemma {:induction false} ToMapLists(entries: seq<Entry>)
    requires Distinct(entries)
    ensures Lists(entries, ToMap(entries))
    decreases |entries|
  {
    if entries != [] {
      var rest := entries[1..];
      ToMapLists(rest);
      forall c | c in ToMap(entries)
        ensures exists i :: 0 <= i < |entries| && entries[i].cell == c
      {
        if c == entries[0].cell {
          assert entries[0].cell == c;
        } else {
          var i :| 0 <= i < |rest| && rest[i].cell == c;
          assert entries[i + 1].cell == c;
        }
      }
    }
  }

  lemma ListsSuffix(entries: seq<Entry>, counts: map<Cell, nat>, k: nat)
    requires Lists(entries, counts) && k <= |entries|
    ensures Distinct(entries[k..])
  {
    var rest := entries[k..];
    assert forall i :: 0 <= i < |rest| ==> rest[i] == entries[k + i];
  }

  lemma {:induction false} AddAllSplit(s: Tally, a: seq<Entry>, b: seq<Entry>)
    ensures AddAll(s, a + b) == AddAll(AddAll(s, a), b)
    decreases |a|
  {
    if a == [] {
      assert a + b == b;
    } else {
      assert (a + b)[0] == a[0] && (a + b)[1..] == a[1..] + b;
      AddAllSplit(Add(s, a[0]), a[1..], b);
    }
  }

  lemma AddOneMore(s: Tally, entries: seq<Entry>, e: Entry)
    ensures AddAll(s, entries + [e]) == Add(AddAll(s, entries), e)
  {
    AddAllSplit(s, entries, [e]);
    assert [e][1..] == [];
  }

  // ---------------------------------------------------------- counting lists --

  lemma {:induction false} AmountAbsent(entries: seq<Entry>, c: Cell)
    requires forall i :: 0 <= i < |entries| ==> entries[i].cell != c
    ensures Amount(entries, c) == 0
  {
    if entries != [] {
      AmountAbsent(entries[1..], c);
    }
  }

  lemma {:induction false} AmountAt(entries: seq<Entry>, k: nat)
    requires k < |entries|
    requires forall i, j :: 0 <= i < j < |entries| ==> entries[i].cell != entries[j].cell
    ensures Amount(entries, entries[k].cell) == entries[k].count
  {
    if k == 0 {
      AmountAbsent(entries[1..], entries[0].cell);
    } else {
      AmountAt(entries[1..], k - 1);
    }
  }

  /** Listing a map counts every cell exactly as the map does. */
  lemma ListsAmount(entries: seq<Entry>, counts: map<Cell, nat>, c: Cell)
    requires Lists(entries, counts)
    ensures Amount(entries, c) == Count(counts, c)
  {
    if c in counts {
      var k :| 0 <= k < |entries| && entries[k].cell == c;
      AmountAt(entries, k);
    } else {
      AmountAbsent(entries, c);
    }
  }

  lemma {:induction false} AmountSplit(a: seq<Entry>, b: seq<Entry>, c: Cell)
    ensures Amount(a + b, c) == Amount(a, c) + Amount(b, c)
  {
    if a == [] {
      assert a + b == b;
    } else {
      assert (a + b)[1..] == a[1..] + b;
      AmountSplit(a[1..], b, c);
    }
  }

  lemma SameAmount(a: seq<Entry>, b: seq<Entry>, c: Cell)
    requires SameCounters(a, b)
    ensures Amount(a, c) == Amount(b, c)
  {
    ToMapLists(b);
    ListsAmount(a, ToMap(b), c);
    ListsAmount(b, ToMap(b), c);
  }

  // ------------------------------------------------------------ list lengths --

  function CellsOf(entries: seq<Entry>): set<Cell> {
    if entries == [] then {} else {entries[0].cell} + CellsOf(entries[1..])
  }

  lemma {:induction false} CellsOfMeaning(entries: seq<Entry>, c: Cell)
    ensures c in CellsOf(entries) <==> exists i :: 0 <= i < |entries| && entries[i].cell == c
    decreases |entries|
  {
    if entries != [] {
      CellsOfMeaning(entries[1..], c);
      if c in CellsOf(entries[1..]) {
        var i :| 0 <= i < |entries[1..]| && entries[1..][i].cell == c;
        assert entries[i + 1].cell == c;
      }
      if exists i :: 0 <= i < |entries| && entries[i].cell == c {
        var i :| 0 <= i < |entries| && entries[i].cell == c;
        assert i > 0 ==> entries[1..][i - 1].cell == c;
      }
    }
  }

  lemma {:induction false} CellsOfSize(entries: seq<Entry>)
    requires Distinct(entries)
    ensures |CellsOf(entries)| == |entries|
    decreases |entries|
  {
    if entries != [] {
      CellsOfSize(entries[1..]);
      CellsOfMeaning(entries[1..], entries[0].cell);
    }
  }

  lemma ListSize(entries: seq<Entry>, counts: map<Cell, nat>)
    requires Lists(entries, counts)
    ensures |entries| == |counts|
  {
    forall c
      ensures c in CellsOf(entries) <==> c in counts.Keys
    {
      CellsOfMeaning(entries, c);
    }
    assert CellsOf(entries) == counts.Keys && |counts| == |counts.Keys|;
    CellsOfSize(entries);
  }

  lemma SameSize(a: seq<Entry>, b: seq<Entry>)
    requires SameCounters(a, b)
    ensures |a| == |b|
  {
    ToMapLists(b);
    ListSize(a, ToMap(b));
    ListSize(b, ToMap(b));
  }
}
