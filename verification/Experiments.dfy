/**
 * Experiments of one environment: their lifecycle and their hourly counters.
 *
 * Counters are keyed by the experiment's key instead of its id; deleting an
 * experiment deletes its counters, so the two name the same rows.
 */
module Experiments {
  import opened Collections
  import opened FlagTypes
  import opened Bucketing
  import opened Recorder

  const MAX_EVENTS: nat := 1_000
  const I64_MAX: int := 0x7FFF_FFFF_FFFF_FFFF
  const HOUR: int := 3_600_000_000_000 // nanoseconds

  datatype Stage = Draft | Running | Stopped

  /** `id` tells an experiment from a later one of the same key. */
  datatype Experiment = Experiment(id: nat, stage: Stage, startedAt: Option<int>, stoppedAt: Option<int>)

  /** A counter row: hours are numbered from the epoch. */
  datatype Slot = Slot(experiment: string, variant: string, kind: Kind, hour: int)

  datatype Tables = Tables(experiments: map<string, Experiment>, counters: map<Slot, nat>, nextId: nat)

  const EMPTY: Tables := Tables(map[], map[], 0)

  datatype Delta = Delta(experiment: string, variant: string, kind: Kind, at: int, count: u32)

  /** Truncating to the hour works on nanoseconds in 64 bits; other timestamps are rejected. */
  predicate Representable(at: int) { -I64_MAX - 1 <= at <= I64_MAX }

  function SlotOf(d: Delta): Slot { Slot(d.experiment, d.variant, d.kind, HourOf(d.at)) }

  function HourOf(at: int): int { at / 3_600_000_000_000 }

  /** The start of the hour a delta is counted in. */
  function HourStart(d: Delta): int { SlotOf(d).hour * HOUR }

  function Counted(s: Slot): Delta -> nat {
    d => if SlotOf(d) == s then d.count else 0
  }

  /** What a batch adds to one counter. */
  function Sum(deltas: seq<Delta>, s: Slot): nat {
    SumOf(deltas, Counted(s))
  }

  function SlotsOf(deltas: seq<Delta>): set<Slot> {
    set i | 0 <= i < |deltas| :: SlotOf(deltas[i])
  }

  /** 64-bit two's complement, which sums of a batch wrap around in. */
  function Wrap(n: int): int { (n + I64_MAX + 1) % 0x1_0000_0000_0000_0000 - I64_MAX - 1 }

  /** No counter of the batch leaves 64 bits. */
  ghost predicate Fits(deltas: seq<Delta>) {
    forall s :: Sum(deltas, s) <= I64_MAX
  }

  /** A batch folded into counters. */
  function Cells(deltas: seq<Delta>): map<Slot, nat> {
    map s | s in SlotsOf(deltas) :: Sum(deltas, s)
  }

  /** The same as the fold computes it, in 64 bits. */
  function WrappedCells(deltas: seq<Delta>): map<Slot, int> {
    Folded(SlotsOf(deltas), SumsOf(deltas), Wrap)
  }

  function SumsOf(deltas: seq<Delta>): Slot -> nat { s => Sum(deltas, s) }

  function Folded(slots: set<Slot>, sums: Slot -> nat, arithmetic: int -> int): map<Slot, int> {
    map s | s in slots :: arithmetic(sums(s))
  }

  predicate IsRunning(db: Tables, key: string) {
    key in db.experiments && db.experiments[key].stage == Running
  }

  function Stored(db: Tables, s: Slot): nat {
    if s in db.counters then db.counters[s] else 0
  }

  /** The cells whose experiment is running; the others are dropped. */
  function Accepted(db: Tables, cells: map<Slot, int>): set<Slot> {
    set s | s in cells && IsRunning(db, s.experiment)
  }

  /** The upsert statement: every accepted cell is inserted or added to its row. */
  function Upsert(db: Tables, cells: map<Slot, nat>): Tables {
    db.(counters := map s | s in db.counters.Keys + Accepted(db, cells) ::
          Stored(db, s) + if s in Accepted(db, cells) then cells[s] else 0)
  }

  datatype IngestError = InvalidTimestamp | TooManyEvents | BadVariant | RowTouchedTwice | NegativeCount

  predicate VariantOk(variant: string) { variant != "" && |Utf8(variant)| <= 128 }

  function Ingest(db: Tables, deltas: seq<Delta>): Result<Tables, IngestError> {
    if exists i | 0 <= i < |deltas| :: !Representable(deltas[i].at) then Err(InvalidTimestamp)
    else Ok(Upsert(db, Cells(deltas)))
  }

  // -------------------------------------------------------------- lifecycle --

  /** `UPDATE … SET state = to … WHERE state = from`. */
  function Transition(db: Tables, key: string, from: Stage, to: Stage, now: int): Tables {
    if key in db.experiments && db.experiments[key].stage == from then
      var x := db.experiments[key];
      db.(experiments := db.experiments[key := Experiment(
            x.id, to, if to == Running then Some(now) else x.startedAt, if to == Stopped then Some(now) else x.stoppedAt)])
    else db
  }

  function Backdated(db: Tables, key: string, to: int): Tables {
    if IsRunning(db, key) then db.(experiments := db.experiments[key := db.experiments[key].(startedAt := Some(to))]) else db
  }

  /** Counters go with their experiment; a running one stays. */
  function Deleted(db: Tables, key: string): Tables {
    if key in db.experiments && db.experiments[key].stage != Running
    then db.(experiments := db.experiments - {key}, counters := map s | s in db.counters && s.experiment != key :: db.counters[s])
    else db
  }

  /** Why nothing moved. */
  datatype StageError = NoSuchExperiment | WrongStage(actual: Stage)

  // ------------------------------------------------------------ the object --

  datatype CounterRow = CounterRow(slot: Slot, count: int)

  /** Postgres refuses an upsert that names one row twice. */
  predicate Repeats(rows: seq<CounterRow>) {
    exists i, j | 0 <= i < j < |rows| :: rows[i].slot == rows[j].slot
  }

  class ExperimentStore {
    var db: Tables

    constructor ()
      ensures db == EMPTY
    {
      db := EMPTY;
    }

    /** One guarded UPDATE; reading the row afterwards tells why nothing moved. */
    method Move(key: string, from: Stage, to: Stage, now: int) returns (r: Option<StageError>)
      modifies this
      ensures db == Transition(old(db), key, from, to, now)
      ensures r == if key !in old(db).experiments then Some(NoSuchExperiment)
                   else if old(db).experiments[key].stage != from then Some(WrongStage(old(db).experiments[key].stage)) else None
    {
      if key in db.experiments && db.experiments[key].stage == from {
        var x := db.experiments[key];
        x := x.(stage := to);
        if to == Running {
          x := x.(startedAt := Some(now));
        }
        if to == Stopped {
          x := x.(stoppedAt := Some(now));
        }
        db := db.(experiments := db.experiments[key := x]);
        return None;
      }
      return if key in db.experiments then Some(WrongStage(db.experiments[key].stage)) else Some(NoSuchExperiment);
    }

    /** The experiment and its counters go unless it is running; no other experiment loses anything. */
    method DeleteExperiment(key: string) returns (r: Option<StageError>)
      modifies this
      ensures db == Deleted(old(db), key)
      ensures r.None? ==> key !in db.experiments && forall s :: s in db.counters ==> s.experiment != key
      ensures r.Some? ==> db == old(db)
      ensures forall k :: k != key ==> (k in db.experiments <==> k in old(db).experiments) && (k in db.experiments ==> db.experiments[k] == old(db).experiments[k])
      ensures forall s: Slot :: s.experiment != key ==> (s in db.counters <==> s in old(db).counters) && Stored(db, s) == Stored(old(db), s)
      ensures r == if key !in old(db).experiments then Some(NoSuchExperiment)
                   else if old(db).experiments[key].stage == Running then Some(WrongStage(Running)) else None
    {
      if key !in db.experiments {
        return Some(NoSuchExperiment);
      }
      if db.experiments[key].stage == Running {
        return Some(WrongStage(Running));
      }
      db := db.(experiments := db.experiments - {key}, counters := map s | s in db.counters && s.experiment != key :: db.counters[s]);
      return None;
    }

    /** Folds the batch, lists the cells as rows and upserts them in one statement. */
    method IngestCounters(deltas: seq<Delta>) returns (r: Result<nat, IngestError>)
      modifies this
      ensures Fits(deltas) ==>
        match Ingest(old(db), deltas)
        case Ok(after) => db == after && r == Ok(|Accepted(old(db), Cells(deltas))|)
        case Err(e) => r == Err(e)
      ensures Ingest(old(db), deltas).Err? ==> r == Err(InvalidTimestamp)
      ensures r.Err? ==> db == old(db)
    {
      var folded := Collapse(deltas);
      if folded.None? {
        return Err(InvalidTimestamp);
      }
      var rows := RowsOf(folded.value);
      var outcome := Statement(db, rows);
      if Fits(deltas) {
        FittingCells(deltas, folded.value);
        StatementIsUpsert(db, rows, Cells(deltas));
      }
      if outcome.Err? {
        return Err(outcome.error);
      }
      r := Ok(|Accepted(db, folded.value)|);
      db := outcome.value;
    }

    /** The route: the batch limit and the variant check come first. */
    method IngestEvents(deltas: seq<Delta>) returns (r: Result<nat, IngestError>)
      modifies this
      ensures |deltas| > MAX_EVENTS ==> r == Err(TooManyEvents)
      ensures |deltas| <= MAX_EVENTS && (exists i :: 0 <= i < |deltas| && !VariantOk(deltas[i].variant)) ==> r == Err(BadVariant)
      ensures |deltas| <= MAX_EVENTS && (forall i :: 0 <= i < |deltas| ==> VariantOk(deltas[i].variant)) ==>
        match Ingest(old(db), deltas)
        case Ok(after) => db == after && r == Ok(|Accepted(old(db), Cells(deltas))|)
        case Err(e) => r == Err(e)
      ensures r.Err? ==> db == old(db)
    {
      if |deltas| > MAX_EVENTS {
        return Err(TooManyEvents);
      }
      for i := 0 to |deltas|
        invariant db == old(db) && forall j :: 0 <= j < i ==> VariantOk(deltas[j].variant)
      {
        if !VariantOk(deltas[i].variant) {
          return Err(BadVariant);
        }
      }
      NoOverflow(deltas);
      r := IngestCounters(deltas);
    }
  }

  /** `*cells.entry(cell).or_default() += count`, in some arithmetic. */
  function AddTo(cells: map<Slot, int>, s: Slot, n: nat, arithmetic: int -> int): map<Slot, int> {
    cells[s := arithmetic((if s in cells then cells[s] else 0) + n)]
  }

  predicate AllRepresentable(deltas: seq<Delta>) {
    forall i | 0 <= i < |deltas| :: Representable(deltas[i].at)
  }

  function AddDelta(cells: map<Slot, int>, d: Delta): map<Slot, int> {
    AddTo(cells, SlotOf(d), d.count, Wrap)
  }

  /** Folds a batch into cells in 64-bit arithmetic, stopping at a timestamp it cannot truncate. */
  method Collapse(deltas: seq<Delta>) returns (r: Option<map<Slot, int>>)
    ensures r.Some? <==> AllRepresentable(deltas)
    ensures r.Some? ==> r.value == WrappedCells(deltas)
  {
    var cells: map<Slot, int> := map[];
    for i := 0 to |deltas|
      invariant cells == WrappedCells(deltas[..i])
      invariant AllRepresentable(deltas[..i])
    {
      if !Representable(deltas[i].at) {
        return None;
      }
      WrappedCellsGrow(deltas, i);
      cells := AddDelta(cells, deltas[i]);
    }
    assert deltas[..|deltas|] == deltas;
    return Some(cells);
  }

  /** The statement over its parallel columns, zipped back together; a counter must not be inserted negative. */
  function Statement(db: Tables, rows: seq<CounterRow>): Result<Tables, IngestError> {
    if Repeats(rows) then Err(RowTouchedTwice)
    else if exists i | 0 <= i < |rows| :: IsRunning(db, rows[i].slot.experiment) && rows[i].count < 0 then Err(NegativeCount)
    else Ok(db.(counters := db.counters
           + (map i | 0 <= i < |rows| && IsRunning(db, rows[i].slot.experiment) :: rows[i].slot := Stored(db, rows[i].slot) + rows[i].count)))
  }

  ghost predicate RowsFor(rows: seq<CounterRow>, cells: map<Slot, int>) {
    && !Repeats(rows)
    && (forall i :: 0 <= i < |rows| ==> rows[i].slot in cells && cells[rows[i].slot] == rows[i].count)
    && (forall s :: s in cells ==> exists i :: 0 <= i < |rows| && rows[i].slot == s)
  }

  method RowsOf(cells: map<Slot, int>) returns (rows: seq<CounterRow>)
    ensures RowsFor(rows, cells)
  {
    var todo := cells.Keys;
    rows := [];
    while todo != {}
      invariant todo <= cells.Keys && !Repeats(rows)
      invariant forall i :: 0 <= i < |rows| ==> rows[i].slot in cells.Keys - todo && cells[rows[i].slot] == rows[i].count
      invariant forall s :: s in cells && s !in todo ==> exists i :: 0 <= i < |rows| && rows[i].slot == s
    {
      var s :| s in todo;
      ghost var before := rows;
      rows := rows + [CounterRow(s, cells[s])];
      forall t | t in cells && t !in todo - {s}
        ensures exists i :: 0 <= i < |rows| && rows[i].slot == t
      {
        if t == s {
          assert rows[|before|].slot == t;
        } else {
          var i :| 0 <= i < |before| && before[i].slot == t;
          assert rows[i].slot == t;
        }
      }
      todo := todo - {s};
    }
  }

  lemma UpsertAt(db: Tables, cells: map<Slot, nat>, s: Slot)
    ensures
      var after, hit := Upsert(db, cells).counters, s in cells && IsRunning(db, s.experiment);
      && (s in after <==> s in db.counters || hit)
      && (s in after ==> after[s] == Stored(db, s) + if hit then cells[s] else 0)
  {
  }

  lemma StatementAt(db: Tables, rows: seq<CounterRow>, cells: map<Slot, nat>, s: Slot)
    requires RowsFor(rows, cells)
    ensures
      var after, hit := Statement(db, rows).value.counters, s in cells && IsRunning(db, s.experiment);
      && (s in after <==> s in db.counters || hit)
      && (s in after ==> after[s] == Stored(db, s) + if hit then cells[s] else 0)
  {
    if s in cells {
      var i :| 0 <= i < |rows| && rows[i].slot == s;
    }
  }

  lemma StatementIsUpsert(db: Tables, rows: seq<CounterRow>, cells: map<Slot, nat>)
    requires RowsFor(rows, cells)
    ensures Statement(db, rows) == Ok(Upsert(db, cells))
  {
    forall s
      ensures s in Statement(db, rows).value.counters <==> s in Upsert(db, cells).counters
      ensures s in Upsert(db, cells).counters ==> Statement(db, rows).value.counters[s] == Upsert(db, cells).counters[s]
    {
      StatementAt(db, rows, cells, s);
      UpsertAt(db, cells, s);
    }
    SameTables(Statement(db, rows).value, Upsert(db, cells));
  }

  lemma SameTables(a: Tables, b: Tables)
    requires a == b.(counters := a.counters)
    requires forall s :: s in a.counters <==> s in b.counters
    requires forall s :: s in b.counters ==> a.counters[s] == b.counters[s]
    ensures a == b
  {
    assert a.counters == b.counters;
  }

  // ------------------------------------------------------------ arithmetic --

  /** A delta is counted in the hour that contains its timestamp, before the epoch too. */
  lemma HourContains(d: Delta)
    ensures HourStart(d) <= d.at < HourStart(d) + HOUR
  {
  }

  /** The sums grew by n for one slot and not at all for the others. */
  ghost predicate Grew(slots: set<Slot>, sums: Slot -> nat, slots': set<Slot>, sums': Slot -> nat, s: Slot, n: nat) {
    && slots' == slots + {s} && (s !in slots ==> sums(s) == 0)
    && sums'(s) == sums(s) + n && forall t :: t != s ==> sums'(t) == sums(t)
  }

  /** What one more delta does to the sums and to the slots they are for. */
  lemma OneMoreDelta(deltas: seq<Delta>, i: nat)
    requires i < |deltas|
    ensures
      var before, now := deltas[..i], deltas[..i + 1];
      Grew(SlotsOf(before), SumsOf(before), SlotsOf(now), SumsOf(now), SlotOf(deltas[i]), deltas[i].count)
  {
    var s := SlotOf(deltas[i]);
    var before, now := deltas[..i], deltas[..i + 1];
    assert now[..i] == before && now[i] == deltas[i];
    SumAbsent(before, s);
    forall t
      ensures SumsOf(now)(t) == SumsOf(before)(t) + Counted(t)(deltas[i])
    {
    }
    forall t
      ensures t in SlotsOf(now) <==> t in SlotsOf(before) || t == s
    {
      if t in SlotsOf(before) {
        var j :| 0 <= j < i && SlotOf(before[j]) == t;
        assert SlotOf(now[j]) == t;
      }
      assert SlotOf(now[i]) == s;
    }
  }

  /** How the cells change with the sums, in any arithmetic that adds up. */
  lemma FoldedGrows(slots: set<Slot>, sums: Slot -> nat, slots': set<Slot>, sums': Slot -> nat, s: Slot, n: nat, arithmetic: int -> int)
    requires Grew(slots, sums, slots', sums', s, n)
    requires arithmetic(arithmetic(sums(s)) + n) == arithmetic(sums(s) + n)
    ensures Folded(slots', sums', arithmetic) == AddTo(Folded(slots, sums, arithmetic), s, n, arithmetic)
  {
  }

  lemma CellsGrow(deltas: seq<Delta>, i: nat)
    requires i < |deltas|
    ensures Cells(deltas[..i + 1]) == AddTo(Cells(deltas[..i]), SlotOf(deltas[i]), deltas[i].count, Exact)
  {
    OneMoreDelta(deltas, i);
    CellsAreFolded(deltas[..i]);
    CellsAreFolded(deltas[..i + 1]);
    FoldedGrows(SlotsOf(deltas[..i]), SumsOf(deltas[..i]), SlotsOf(deltas[..i + 1]), SumsOf(deltas[..i + 1]), SlotOf(deltas[i]), deltas[i].count, Exact);
  }

  function Exact(n: int): int { n }

  lemma CellsAreFolded(deltas: seq<Delta>)
    ensures Cells(deltas) == Folded(SlotsOf(deltas), SumsOf(deltas), Exact)
  {
  }

  lemma WrapAdds(m: int, n: int)
    ensures Wrap(Wrap(m) + n) == Wrap(m + n)
  {
    var q := (m + I64_MAX + 1) / 0x1_0000_0000_0000_0000;
    assert Wrap(m) == m - q * 0x1_0000_0000_0000_0000;
  }

  lemma WrappedCellsGrow(deltas: seq<Delta>, i: nat)
    requires i < |deltas|
    ensures WrappedCells(deltas[..i + 1]) == AddDelta(WrappedCells(deltas[..i]), deltas[i])
  {
    OneMoreDelta(deltas, i);
    WrapGrows(SlotsOf(deltas[..i]), SumsOf(deltas[..i]), SlotsOf(deltas[..i + 1]), SumsOf(deltas[..i + 1]), SlotOf(deltas[i]), deltas[i].count);
  }

  lemma WrapGrows(slots: set<Slot>, sums: Slot -> nat, slots': set<Slot>, sums': Slot -> nat, s: Slot, n: nat)
    requires Grew(slots, sums, slots', sums', s, n)
    ensures Folded(slots', sums', Wrap) == AddTo(Folded(slots, sums, Wrap), s, n, Wrap)
  {
    WrapAdds(sums(s), n);
    FoldedGrows(slots, sums, slots', sums', s, n, Wrap);
  }

  /** When no sum leaves 64 bits, wrapping around changes nothing. */
  lemma FittingCells(deltas: seq<Delta>, cells: map<Slot, int>)
    requires Fits(deltas) && cells == WrappedCells(deltas)
    ensures cells == Cells(deltas)
  {
  }

  lemma {:induction false} SumAbsent(deltas: seq<Delta>, s: Slot)
    ensures s !in SlotsOf(deltas) ==> Sum(deltas, s) == 0
    decreases |deltas|
  {
    if deltas != [] {
      var init, n := deltas[..|deltas| - 1], |deltas| - 1;
      SumAbsent(init, s);
      if s in SlotsOf(init) {
        var j :| 0 <= j < |init| && SlotOf(init[j]) == s;
        assert SlotOf(deltas[j]) == s;
      }
      assert SlotOf(deltas[n]) in SlotsOf(deltas);
    }
  }

  lemma {:induction false} SumBound(deltas: seq<Delta>, s: Slot)
    ensures Sum(deltas, s) <= |deltas| * U32_MAX
    decreases |deltas|
  {
    if deltas != [] {
      SumBound(deltas[..|deltas| - 1], s);
    }
  }

  /** Within the batch limit no 64-bit cell overflows. */
  lemma NoOverflow(deltas: seq<Delta>)
    requires |deltas| <= MAX_EVENTS
    ensures Fits(deltas)
  {
    forall s
      ensures Sum(deltas, s) <= I64_MAX
    {
      SumBound(deltas, s);
    }
  }

  // ------------------------------------------------------ one at a time --

  /** One delta in a batch of its own. */
  function IngestOne(db: Tables, d: Delta): Tables { Upsert(db, Cells([d])) }

  function IngestEach(db: Tables, deltas: seq<Delta>): Tables {
    if deltas == [] then db else IngestOne(IngestEach(db, deltas[..|deltas| - 1]), deltas[|deltas| - 1])
  }

  lemma OneCell(d: Delta)
    ensures Cells([d]) == map[SlotOf(d) := d.count]
  {
    SumOne(d, Counted(SlotOf(d)));
    assert SlotsOf([d]) == {SlotOf(d)} by {
      assert SlotOf([d][0]) == SlotOf(d);
    }
    assert Sum([d], SlotOf(d)) == d.count;
  }

  lemma UpsertOneMore(db: Tables, deltas: seq<Delta>, i: nat)
    requires i < |deltas|
    ensures Upsert(db, Cells(deltas[..i + 1])) == IngestOne(Upsert(db, Cells(deltas[..i])), deltas[i])
  {
    CellsGrow(deltas, i);
    OneCell(deltas[i]);
    OneMoreCell(db, Cells(deltas[..i]), Cells(deltas[..i + 1]), SlotOf(deltas[i]), deltas[i].count);
  }

  /** Adding to one cell before the upsert is upserting it afterwards. */
  lemma OneMoreCell(db: Tables, cells: map<Slot, nat>, more: map<Slot, nat>, s: Slot, n: nat)
    requires more == cells[s := (if s in cells then cells[s] else 0) + n]
    ensures Upsert(db, more) == Upsert(Upsert(db, cells), map[s := n])
  {
    var mid := Upsert(db, cells);
    forall t
      ensures t in Upsert(db, more).counters <==> t in Upsert(mid, map[s := n]).counters
      ensures t in Upsert(mid, map[s := n]).counters ==> Upsert(db, more).counters[t] == Upsert(mid, map[s := n]).counters[t]
    {
      UpsertAt(db, cells, t);
      UpsertAt(db, more, t);
      UpsertAt(mid, map[s := n], t);
    }
    SameTables(Upsert(db, more), Upsert(mid, map[s := n]));
  }

  lemma NothingToUpsert(db: Tables)
    ensures Upsert(db, Cells([])) == db
  {
    assert Accepted(db, Cells([])) == {};
    assert Upsert(db, Cells([])).counters == db.counters;
  }

  lemma {:induction false} BatchIsEach(db: Tables, deltas: seq<Delta>, n: nat)
    requires n <= |deltas|
    ensures Upsert(db, Cells(deltas[..n])) == IngestEach(db, deltas[..n])
    decreases n
  {
    if n == 0 {
      assert deltas[..0] == [];
      NothingToUpsert(db);
    } else {
      BatchIsEach(db, deltas, n - 1);
      UpsertOneMore(db, deltas, n - 1);
      EachOneMore(db, deltas, n - 1);
    }
  }

  lemma EachOneMore(db: Tables, deltas: seq<Delta>, i: nat)
    requires i < |deltas|
    ensures IngestEach(db, deltas[..i + 1]) == IngestOne(IngestEach(db, deltas[..i]), deltas[i])
  {
    assert deltas[..i + 1][..i] == deltas[..i] && deltas[..i + 1][i] == deltas[i];
  }

  lemma CellsPermuted(a: seq<Delta>, b: seq<Delta>)
    requires multiset(a) == multiset(b)
    ensures Cells(a) == Cells(b)
  {
    forall s
      ensures s in SlotsOf(a) <==> s in SlotsOf(b)
      ensures Sum(a, s) == Sum(b, s)
    {
      SumPermuted(a, b, Counted(s));
      SlotsPermuted(a, b, s);
      SlotsPermuted(b, a, s);
    }
  }

  lemma SlotsPermuted(a: seq<Delta>, b: seq<Delta>, s: Slot)
    requires multiset(a) == multiset(b)
    ensures s in SlotsOf(a) ==> s in SlotsOf(b)
  {
    if s in SlotsOf(a) {
      var i :| 0 <= i < |a| && SlotOf(a[i]) == s;
      assert a[i] in multiset(b);
      var j :| 0 <= j < |b| && b[j] == a[i];
      assert SlotOf(b[j]) == s;
    }
  }

  /**
   * Batched ingest refines one-at-a-time ingest: a batch whose timestamps are
   * all representable leaves exactly the counters that ingesting its deltas
   * singly leaves, in whatever order.
   */
  lemma BatchRefinesSingles(db: Tables, deltas: seq<Delta>, order: seq<Delta>)
    requires forall i :: 0 <= i < |deltas| ==> Representable(deltas[i].at)
    requires multiset(order) == multiset(deltas)
    ensures Ingest(db, deltas) == Ok(IngestEach(db, order))
  {
    CellsPermuted(order, deltas);
    BatchIsEach(db, order, |order|);
    assert order[..|order|] == order;
  }

  /** One delta of a running experiment adds its count to the counter of its variant, kind and hour, and to no other. */
  lemma OneDelta(db: Tables, d: Delta, hour: int, s: Slot)
    requires IsRunning(db, d.experiment) && hour * 3_600_000_000_000 <= d.at < (hour + 1) * 3_600_000_000_000
    ensures Stored(IngestOne(db, d), s)
         == Stored(db, s) + if s == Slot(d.experiment, d.variant, d.kind, hour) then d.count else 0
  {
    OneCell(d);
    UpsertAt(db, Cells([d]), s);
    assert HourOf(d.at) == hour;
  }

  /** What ingesting means for one counter: the batch's sum if its experiment runs, nothing otherwise. */
  lemma IngestAddsUp(db: Tables, deltas: seq<Delta>, s: Slot)
    ensures
      var db' := if Ingest(db, deltas).Ok? then Ingest(db, deltas).value else db;
      && db'.experiments == db.experiments
      && (Ingest(db, deltas).Ok? <==> forall i :: 0 <= i < |deltas| ==> Representable(deltas[i].at))
      && Stored(db', s) == Stored(db, s) + (if Ingest(db, deltas).Ok? && IsRunning(db, s.experiment) then Sum(deltas, s) else 0)
      && (s in db'.counters <==> s in db.counters || (Ingest(db, deltas).Ok? && IsRunning(db, s.experiment) && s in SlotsOf(deltas)))
  {
    SumAbsent(deltas, s);
  }

  // -------------------------------------------------- what the number means --

  /** The positions of the deltas whose experiment is running. */
  ghost function AcceptedDeltas(db: Tables, deltas: seq<Delta>): set<nat> {
    set i: nat | i < |deltas| && IsRunning(db, deltas[i].experiment)
  }

  /** No two accepted deltas belong to the same counter. */
  ghost predicate NoSharedCell(db: Tables, deltas: seq<Delta>) {
    forall i, j :: i in AcceptedDeltas(db, deltas) && j in AcceptedDeltas(db, deltas) && SlotOf(deltas[i]) == SlotOf(deltas[j]) ==> i == j
  }

  /** The number reported is that of the accepted increments exactly when no two of them share a counter. */
  lemma ReportsIncrementsIff(db: Tables, deltas: seq<Delta>)
    ensures |Accepted(db, Cells(deltas))| <= |AcceptedDeltas(db, deltas)|
    ensures |Accepted(db, Cells(deltas))| == |AcceptedDeltas(db, deltas)| <==> NoSharedCell(db, deltas)
  {
    var slotAt := (i: nat) => if i < |deltas| then SlotOf(deltas[i]) else Slot("", "", Exposure, 0);
    var image := Image(AcceptedDeltas(db, deltas), slotAt);
    forall s
      ensures s in Accepted(db, Cells(deltas)) <==> s in image
    {
      if s in Accepted(db, Cells(deltas)) {
        var i :| 0 <= i < |deltas| && SlotOf(deltas[i]) == s;
        assert i in AcceptedDeltas(db, deltas) && slotAt(i) == s;
      }
    }
    assert Accepted(db, Cells(deltas)) == image;
    ImageSize(AcceptedDeltas(db, deltas), slotAt);
  }

  /** Two exposures of one arm in one hour are two increments and one cell. */
  lemma TwoIncrementsOneCell(x: Experiment)
    requires x.stage == Running
    ensures
      var db := Tables(map["e" := x], map[], x.id + 1);
      var deltas := [Delta("e", "on", Exposure, 0, 1), Delta("e", "on", Exposure, 1, 1)];
      |Accepted(db, Cells(deltas))| == 1 && |AcceptedDeltas(db, deltas)| == 2
  {
    var db := Tables(map["e" := x], map[], x.id + 1);
    var deltas := [Delta("e", "on", Exposure, 0, 1), Delta("e", "on", Exposure, 1, 1)];
    var s := Slot("e", "on", Exposure, 0);
    assert SlotOf(deltas[0]) == s && SlotOf(deltas[1]) == s;
    assert Accepted(db, Cells(deltas)) == {s};
    assert AcceptedDeltas(db, deltas) == {0, 1};
  }
}
