/** The SDK client: which counters an evaluation and a tracked metric move. */
module Attribution {
  import opened Collections
  import opened FlagTypes
  import opened Engine
  import opened Snapshots
  import opened Recorder
  import opened Flushing

  /** The variant a snapshot serves; the caller's fallback has no say in it. */
  function Served(P: Platform, s: Snapshot, flagKey: string, ctx: Context): Option<string> {
    EvaluateKey(P, s, flagKey, ctx, NULL_VALUE).variant
  }

  datatype Call =
    | Evaluated(flag: string, ctx: Context)
    | Tracked(metric: string, ctx: Context)

  /** The counter of one experiment that a call moves, if any. */
  function Moves(P: Platform, s: Snapshot, x: ExperimentSpec, call: Call): seq<Entry> {
    match call
    case Evaluated(flag, ctx) =>
      var served := Served(P, s, flag, ctx);
      if served.Some? && x.flagKey == flag then [Entry(Cell(x.key, served.value, Exposure), 1)] else []
    case Tracked(metric, ctx) =>
      var served := Served(P, s, x.flagKey, ctx);
      if x.metricKey == metric && served.Some? then [Entry(Cell(x.key, served.value, Conversion), 1)] else []
  }

  function MovesAll(P: Platform, s: Snapshot, xs: seq<ExperimentSpec>, call: Call): seq<Entry> {
    if xs == [] then [] else MovesAll(P, s, xs[..|xs| - 1], call) + Moves(P, s, xs[|xs| - 1], call)
  }

  /** Everything a run of calls records. */
  function Log(P: Platform, s: Snapshot, calls: seq<Call>): seq<Entry> {
    if calls == [] then [] else Log(P, s, calls[..|calls| - 1]) + MovesAll(P, s, s.experiments, calls[|calls| - 1])
  }

  class Client {
    const platform: Platform
    var current: Option<Snapshot>
    const recorder: Recorder

    constructor (P: Platform)
      ensures current == None && platform == P && fresh(recorder) && recorder.State() == Tally(map[], 0)
    {
      platform := P;
      current := None;
      recorder := new Recorder();
    }

    /** A decision under a running experiment is an exposure. */
    method EvaluateFlag(flag: string, ctx: Context, fallback: VariantValue) returns (e: Evaluation)
      modifies recorder
      ensures current.None? ==> e == Evaluation(flag, None, fallback, FlagNotFound, 0) && recorder.State() == old(recorder.State())
      ensures current.Some? ==>
        && e == EvaluateKey(platform, current.value, flag, ctx, fallback)
        && recorder.State()
           == AddAll(old(recorder.State()), MovesAll(platform, current.value, current.value.experiments, Evaluated(flag, ctx)))
        && Exposes(platform, current.value, flag, ctx, old(recorder.State()), recorder.State())
    {
      if current.None? {
        return Evaluation(flag, None, fallback, FlagNotFound, 0);
      }
      var s := current.value;
      e := EvaluateKey(platform, s, flag, ctx, fallback);
      for i := 0 to |s.experiments|
        invariant recorder.State() == AddAll(old(recorder.State()), MovesAll(platform, s, s.experiments[..i], Evaluated(flag, ctx)))
      {
        var x := s.experiments[i];
        PrefixMoves(platform, s, s.experiments, i, Evaluated(flag, ctx), old(recorder.State()));
        if e.variant.Some? && x.flagKey == flag {
          recorder.Record(x.key, e.variant.value, Exposure);
        }
      }
      assert s.experiments[..|s.experiments|] == s.experiments;
      EvaluationExposes(platform, s, flag, ctx, old(recorder.State()));
    }

    /** Credits every running experiment that measures the metric, without counting an exposure. */
    method Track(metric: string, ctx: Context) returns (credited: nat)
      modifies recorder
      ensures current.None? ==> credited == 0 && recorder.State() == old(recorder.State())
      ensures current.Some? ==>
        var moves := MovesAll(platform, current.value, current.value.experiments, Tracked(metric, ctx));
        && recorder.State() == AddAll(old(recorder.State()), moves)
        && credited == |Where(current.value.experiments, Measures(platform, current.value, metric, ctx))|
        && Credits(platform, current.value, metric, ctx, old(recorder.State()), recorder.State())
    {
      credited := 0;
      if current.None? {
        return;
      }
      var s := current.value;
      for i := 0 to |s.experiments|
        invariant credited == |MovesAll(platform, s, s.experiments[..i], Tracked(metric, ctx))|
        invariant recorder.State() == AddAll(old(recorder.State()), MovesAll(platform, s, s.experiments[..i], Tracked(metric, ctx)))
      {
        var x := s.experiments[i];
        PrefixMoves(platform, s, s.experiments, i, Tracked(metric, ctx), old(recorder.State()));
        if x.metricKey == metric {
          var e := EvaluateKey(platform, s, x.flagKey, ctx, NULL_VALUE);
          if e.variant.Some? {
            recorder.Record(x.key, e.variant.value, Conversion);
            credited := credited + 1;
          }
        }
      }
      assert s.experiments[..|s.experiments|] == s.experiments;
      CreditedCount(platform, s, s.experiments, metric, ctx);
      TrackingCredits(platform, s, metric, ctx, old(recorder.State()));
    }
  }

  lemma PrefixMoves(P: Platform, s: Snapshot, xs: seq<ExperimentSpec>, i: nat, call: Call, from: Tally)
    requires i < |xs|
    ensures
      var before, moved := MovesAll(P, s, xs[..i], call), Moves(P, s, xs[i], call);
      && MovesAll(P, s, xs[..i + 1], call) == before + moved
      && AddAll(from, before + moved) == if moved == [] then AddAll(from, before) else Add(AddAll(from, before), moved[0])
  {
    var before, moved := MovesAll(P, s, xs[..i], call), Moves(P, s, xs[i], call);
    assert xs[..i + 1][..i] == xs[..i] && xs[..i + 1][i] == xs[i];
    if moved == [] {
      assert before + moved == before;
    } else {
      assert moved == [moved[0]];
      AddOneMore(from, before, moved[0]);
    }
  }

  // --------------------------------------------------------- what is counted --

  /** Experiments a tracked metric counts for: those that measure it and whose flag serves the context a variant. */
  function Measures(P: Platform, s: Snapshot, metric: string, ctx: Context): ExperimentSpec -> bool {
    (x: ExperimentSpec) => x.metricKey == metric && Served(P, s, x.flagKey, ctx).Some?
  }

  function CreditedTo(P: Platform, s: Snapshot, metric: string, ctx: Context, k: string, v: string): ExperimentSpec -> bool {
    (x: ExperimentSpec) => x.key == k && x.metricKey == metric && Served(P, s, x.flagKey, ctx) == Some(v)
  }

  function ExposedTo(P: Platform, s: Snapshot, flag: string, ctx: Context, k: string, v: string): ExperimentSpec -> bool {
    (x: ExperimentSpec) => x.key == k && x.flagKey == flag && Served(P, s, flag, ctx) == Some(v)
  }

  /** Unless the cap refused something: a conversion for each experiment credited, on the arm its flag serves, and no exposure. */
  ghost predicate Credits(P: Platform, s: Snapshot, metric: string, ctx: Context, before: Tally, after: Tally) {
    after.dropped == before.dropped ==>
      forall k, v ::
        && Count(after.counts, Cell(k, v, Conversion))
           == Count(before.counts, Cell(k, v, Conversion)) + |Where(s.experiments, CreditedTo(P, s, metric, ctx, k, v))|
        && Count(after.counts, Cell(k, v, Exposure)) == Count(before.counts, Cell(k, v, Exposure))
  }

  /** Unless the cap refused something: an exposure for each experiment on the flag, on the arm served, and no conversion. */
  ghost predicate Exposes(P: Platform, s: Snapshot, flag: string, ctx: Context, before: Tally, after: Tally) {
    after.dropped == before.dropped ==>
      forall k, v ::
        && Count(after.counts, Cell(k, v, Exposure))
           == Count(before.counts, Cell(k, v, Exposure)) + |Where(s.experiments, ExposedTo(P, s, flag, ctx, k, v))|
        && Count(after.counts, Cell(k, v, Conversion)) == Count(before.counts, Cell(k, v, Conversion))
  }

  lemma {:induction false} CreditedCount(P: Platform, s: Snapshot, xs: seq<ExperimentSpec>, metric: string, ctx: Context)
    ensures |MovesAll(P, s, xs, Tracked(metric, ctx))| == |Where(xs, Measures(P, s, metric, ctx))|
    decreases |xs|
  {
    if xs == [] {
      assert Where(xs, Measures(P, s, metric, ctx)) == {};
    } else {
      CreditedCount(P, s, xs[..|xs| - 1], metric, ctx);
      WhereLast(xs, Measures(P, s, metric, ctx));
    }
  }

  /** The experiments one of whose counters a call moves, counted by cell. */
  lemma {:induction false} MovesByCell(P: Platform, s: Snapshot, xs: seq<ExperimentSpec>, call: Call, cell: Cell, hit: ExperimentSpec -> bool)
    requires forall x :: Amount(Moves(P, s, x, call), cell) == if hit(x) then 1 else 0
    ensures Amount(MovesAll(P, s, xs, call), cell) == |Where(xs, hit)|
    decreases |xs|
  {
    if xs == [] {
      assert Where(xs, hit) == {};
    } else {
      var init, x := xs[..|xs| - 1], xs[|xs| - 1];
      MovesByCell(P, s, init, call, cell, hit);
      AmountSplit(MovesAll(P, s, init, call), Moves(P, s, x, call), cell);
      WhereLast(xs, hit);
    }
  }

  /** How a counter moves when the cap refuses nothing. */
  lemma CounterMoves(P: Platform, s: Snapshot, call: Call, before: Tally, cell: Cell, hit: ExperimentSpec -> bool)
    requires AddAll(before, MovesAll(P, s, s.experiments, call)).dropped == before.dropped
    requires forall x :: Amount(Moves(P, s, x, call), cell) == if hit(x) then 1 else 0
    ensures Count(AddAll(before, MovesAll(P, s, s.experiments, call)).counts, cell) == Count(before.counts, cell) + |Where(s.experiments, hit)|
  {
    var moves := MovesAll(P, s, s.experiments, call);
    AddAllAdds(before, moves, cell);
    AmountWithinTotal(Refused(before, moves), cell);
    MovesByCell(P, s, s.experiments, call, cell, hit);
  }

  lemma OneAmount(e: Entry, cell: Cell)
    ensures Amount([e], cell) == if e.cell == cell then e.count else 0
  {
    assert [e][1..] == [];
  }

  lemma TrackedAmount(P: Platform, s: Snapshot, x: ExperimentSpec, metric: string, ctx: Context, k: string, v: string)
    ensures Amount(Moves(P, s, x, Tracked(metric, ctx)), Cell(k, v, Conversion)) == if CreditedTo(P, s, metric, ctx, k, v)(x) then 1 else 0
    ensures Amount(Moves(P, s, x, Tracked(metric, ctx)), Cell(k, v, Exposure)) == 0
  {
    var moved := Moves(P, s, x, Tracked(metric, ctx));
    if moved != [] {
      OneAmount(moved[0], Cell(k, v, Conversion));
      OneAmount(moved[0], Cell(k, v, Exposure));
      assert moved == [moved[0]];
    }
  }

  lemma EvaluatedAmount(P: Platform, s: Snapshot, x: ExperimentSpec, flag: string, ctx: Context, k: string, v: string)
    ensures Amount(Moves(P, s, x, Evaluated(flag, ctx)), Cell(k, v, Exposure)) == if ExposedTo(P, s, flag, ctx, k, v)(x) then 1 else 0
    ensures Amount(Moves(P, s, x, Evaluated(flag, ctx)), Cell(k, v, Conversion)) == 0
  {
    var moved := Moves(P, s, x, Evaluated(flag, ctx));
    if moved != [] {
      OneAmount(moved[0], Cell(k, v, Conversion));
      OneAmount(moved[0], Cell(k, v, Exposure));
      assert moved == [moved[0]];
    }
  }

  lemma NowhereIsEmpty(xs: seq<ExperimentSpec>)
    ensures |Where(xs, (x: ExperimentSpec) => false)| == 0
  {
    assert Where(xs, (x: ExperimentSpec) => false) == {};
  }

  lemma TrackingCredits(P: Platform, s: Snapshot, metric: string, ctx: Context, before: Tally)
    ensures Credits(P, s, metric, ctx, before, AddAll(before, MovesAll(P, s, s.experiments, Tracked(metric, ctx))))
  {
    var call, after := Tracked(metric, ctx), AddAll(before, MovesAll(P, s, s.experiments, Tracked(metric, ctx)));
    if after.dropped == before.dropped {
      forall k, v
        ensures Count(after.counts, Cell(k, v, Conversion))
             == Count(before.counts, Cell(k, v, Conversion)) + |Where(s.experiments, CreditedTo(P, s, metric, ctx, k, v))|
        ensures Count(after.counts, Cell(k, v, Exposure)) == Count(before.counts, Cell(k, v, Exposure))
      {
        forall x
          ensures Amount(Moves(P, s, x, call), Cell(k, v, Conversion)) == if CreditedTo(P, s, metric, ctx, k, v)(x) then 1 else 0
          ensures Amount(Moves(P, s, x, call), Cell(k, v, Exposure)) == 0
        {
          TrackedAmount(P, s, x, metric, ctx, k, v);
        }
        CounterMoves(P, s, call, before, Cell(k, v, Conversion), CreditedTo(P, s, metric, ctx, k, v));
        CounterMoves(P, s, call, before, Cell(k, v, Exposure), (x: ExperimentSpec) => false);
        NowhereIsEmpty(s.experiments);
      }
    }
  }

  lemma EvaluationExposes(P: Platform, s: Snapshot, flag: string, ctx: Context, before: Tally)
    ensures Exposes(P, s, flag, ctx, before, AddAll(before, MovesAll(P, s, s.experiments, Evaluated(flag, ctx))))
  {
    var call, after := Evaluated(flag, ctx), AddAll(before, MovesAll(P, s, s.experiments, Evaluated(flag, ctx)));
    if after.dropped == before.dropped {
      forall k, v
        ensures Count(after.counts, Cell(k, v, Exposure))
             == Count(before.counts, Cell(k, v, Exposure)) + |Where(s.experiments, ExposedTo(P, s, flag, ctx, k, v))|
        ensures Count(after.counts, Cell(k, v, Conversion)) == Count(before.counts, Cell(k, v, Conversion))
      {
        forall x
          ensures Amount(Moves(P, s, x, call), Cell(k, v, Exposure)) == if ExposedTo(P, s, flag, ctx, k, v)(x) then 1 else 0
          ensures Amount(Moves(P, s, x, call), Cell(k, v, Conversion)) == 0
        {
          EvaluatedAmount(P, s, x, flag, ctx, k, v);
        }
        CounterMoves(P, s, call, before, Cell(k, v, Exposure), ExposedTo(P, s, flag, ctx, k, v));
        CounterMoves(P, s, call, before, Cell(k, v, Conversion), (x: ExperimentSpec) => false);
        NowhereIsEmpty(s.experiments);
      }
    }
  }

  // ---------------------------------------------------------------- matching --

  /** The call moves the counter of experiment `x` for this cell. */
  ghost predicate Hits(P: Platform, s: Snapshot, x: ExperimentSpec, call: Call, cell: Cell) {
    Moves(P, s, x, call) == [Entry(cell, 1)]
  }

  ghost function HitsIn(P: Platform, s: Snapshot, x: ExperimentSpec, calls: seq<Call>, cell: Cell): set<nat> {
    set t: nat | t < |calls| && Hits(P, s, x, calls[t], cell)
  }

  /**
   * To every tracked metric that credits the experiment there is an earlier
   * evaluation of the experiment's flag for the same context, a different one
   * for each.
   */
  ghost predicate Matched(P: Platform, s: Snapshot, x: ExperimentSpec, calls: seq<Call>, evaluation: Pairing) {
    && (forall t: nat :: CreditedAt(P, s, x, calls, t) ==>
          evaluation(x, t) < t && calls[evaluation(x, t)] == Evaluated(x.flagKey, calls[t].ctx))
    && (forall t: nat, u: nat :: CreditedAt(P, s, x, calls, t) && CreditedAt(P, s, x, calls, u) && t < u ==>
          evaluation(x, t) != evaluation(x, u))
  }

  type Pairing = (ExperimentSpec, nat) -> nat

  ghost predicate CreditedAt(P: Platform, s: Snapshot, x: ExperimentSpec, calls: seq<Call>, t: nat) {
    t < |calls| && calls[t].Tracked? && Moves(P, s, x, calls[t]) != []
  }

  lemma {:induction false} InjectionSize(a: set<nat>, b: set<nat>, f: nat -> nat)
    requires forall t :: t in a ==> f(t) in b
    requires forall t, u :: t in a && u in a && t != u ==> f(t) != f(u)
    ensures |a| <= |b|
    decreases a
  {
    if a != {} {
      var t :| t in a;
      InjectionSize(a - {t}, b - {f(t)}, f);
    }
  }

  lemma MatchedHits(P: Platform, s: Snapshot, x: ExperimentSpec, calls: seq<Call>, evaluation: Pairing, k: string, v: string)
    requires Matched(P, s, x, calls, evaluation)
    ensures |HitsIn(P, s, x, calls, Cell(k, v, Conversion))| <= |HitsIn(P, s, x, calls, Cell(k, v, Exposure))|
  {
    var conversions, exposures := HitsIn(P, s, x, calls, Cell(k, v, Conversion)), HitsIn(P, s, x, calls, Cell(k, v, Exposure));
    forall t | t in conversions
      ensures CreditedAt(P, s, x, calls, t) && evaluation(x, t) in exposures
    {
      assert Moves(P, s, x, calls[t])[0].cell == Cell(k, v, Conversion);
      assert CreditedAt(P, s, x, calls, t);
      assert Moves(P, s, x, calls[evaluation(x, t)])[0] == Entry(Cell(k, v, Exposure), 1);
    }
    forall t, u | t in conversions && u in conversions && t != u
      ensures evaluation(x, t) != evaluation(x, u)
    {
      assert CreditedAt(P, s, x, calls, t) && CreditedAt(P, s, x, calls, u);
      assert t < u || u < t;
    }
    InjectionSize(conversions, exposures, t => evaluation(x, t));
  }

  // ---------------------------------------------------- counting both ways --

  /** Hits of each experiment in turn, summed over the experiments. */
  ghost function HitCount(P: Platform, s: Snapshot, xs: seq<ExperimentSpec>, calls: seq<Call>, cell: Cell): nat {
    if xs == [] then 0
    else HitCount(P, s, xs[..|xs| - 1], calls, cell) + |HitsIn(P, s, xs[|xs| - 1], calls, cell)|
  }

  lemma HitsGrow(P: Platform, s: Snapshot, x: ExperimentSpec, calls: seq<Call>, call: Call, cell: Cell)
    ensures |HitsIn(P, s, x, calls + [call], cell)| == |HitsIn(P, s, x, calls, cell)| + Amount(Moves(P, s, x, call), cell)
  {
    var before, after := HitsIn(P, s, x, calls, cell), HitsIn(P, s, x, calls + [call], cell);
    var n := |calls|;
    assert forall t: nat :: t < n ==> (calls + [call])[t] == calls[t];
    assert (calls + [call])[n] == call;
    if Hits(P, s, x, call, cell) {
      assert after == before + {n};
      assert Moves(P, s, x, call)[1..] == [];
    } else {
      assert after == before;
      OneMove(P, s, x, call, cell);
    }
  }

  lemma OneMove(P: Platform, s: Snapshot, x: ExperimentSpec, call: Call, cell: Cell)
    requires !Hits(P, s, x, call, cell)
    ensures Amount(Moves(P, s, x, call), cell) == 0
  {
    var moved := Moves(P, s, x, call);
    if moved != [] {
      assert moved == [moved[0]] && moved[1..] == [];
      assert moved[0] == Entry(moved[0].cell, 1);
    }
  }

  lemma {:induction false} HitCountGrows(P: Platform, s: Snapshot, xs: seq<ExperimentSpec>, calls: seq<Call>, call: Call, cell: Cell)
    ensures HitCount(P, s, xs, calls + [call], cell) == HitCount(P, s, xs, calls, cell) + Amount(MovesAll(P, s, xs, call), cell)
    decreases |xs|
  {
    if xs != [] {
      var init, x := xs[..|xs| - 1], xs[|xs| - 1];
      HitCountGrows(P, s, init, calls, call, cell);
      HitsGrow(P, s, x, calls, call, cell);
      AmountSplit(MovesAll(P, s, init, call), Moves(P, s, x, call), cell);
    }
  }

  lemma {:induction false} NoCallsNoHits(P: Platform, s: Snapshot, xs: seq<ExperimentSpec>, cell: Cell)
    ensures HitCount(P, s, xs, [], cell) == 0
    decreases |xs|
  {
    if xs != [] {
      NoCallsNoHits(P, s, xs[..|xs| - 1], cell);
      assert HitsIn(P, s, xs[|xs| - 1], [], cell) == {};
    }
  }

  /** The log, counted by cell, is the hits of the experiments summed up. */
  lemma {:induction false} LogCounts(P: Platform, s: Snapshot, calls: seq<Call>, cell: Cell)
    ensures Amount(Log(P, s, calls), cell) == HitCount(P, s, s.experiments, calls, cell)
    decreases |calls|
  {
    if calls == [] {
      NoCallsNoHits(P, s, s.experiments, cell);
    } else {
      var init, call := calls[..|calls| - 1], calls[|calls| - 1];
      LogCounts(P, s, init, cell);
      AmountSplit(Log(P, s, init), MovesAll(P, s, s.experiments, call), cell);
      HitCountGrows(P, s, s.experiments, init, call, cell);
      assert calls == init + [call];
    }
  }

  lemma {:induction false} MatchedCounts(P: Platform, s: Snapshot, xs: seq<ExperimentSpec>, calls: seq<Call>,
                                         evaluation: Pairing, k: string, v: string)
    requires forall x :: x in xs ==> Matched(P, s, x, calls, evaluation)
    ensures HitCount(P, s, xs, calls, Cell(k, v, Conversion)) <= HitCount(P, s, xs, calls, Cell(k, v, Exposure))
    decreases |xs|
  {
    if xs != [] {
      var init, x := xs[..|xs| - 1], xs[|xs| - 1];
      MatchedCounts(P, s, init, calls, evaluation, k, v);
      assert x in xs;
      MatchedHits(P, s, x, calls, evaluation, k, v);
    }
  }

  lemma MatchedPrefix(P: Platform, s: Snapshot, x: ExperimentSpec, calls: seq<Call>, evaluation: Pairing, n: nat)
    requires Matched(P, s, x, calls, evaluation) && n <= |calls|
    ensures Matched(P, s, x, calls[..n], evaluation)
  {
    assert forall t: nat :: CreditedAt(P, s, x, calls[..n], t) ==> CreditedAt(P, s, x, calls, t);
  }

  /**
   * When every credited conversion has an earlier evaluation of its own for the
   * same context, no arm of any experiment shows more conversions than exposures
   * at any moment `n` of the run, as long as the recorder's cap refused nothing.
   */
  lemma ConversionsWithinExposures(P: Platform, s: Snapshot, calls: seq<Call>, evaluation: Pairing, n: nat, k: string, v: string)
    requires forall x :: x in s.experiments ==> Matched(P, s, x, calls, evaluation)
    requires n <= |calls| && Refused(Tally(map[], 0), Log(P, s, calls[..n])) == []
    ensures
      var tally := AddAll(Tally(map[], 0), Log(P, s, calls[..n]));
      Count(tally.counts, Cell(k, v, Conversion)) <= Count(tally.counts, Cell(k, v, Exposure))
  {
    var past := calls[..n];
    forall x | x in s.experiments
      ensures Matched(P, s, x, past, evaluation)
    {
      MatchedPrefix(P, s, x, calls, evaluation, n);
    }
    MatchedCounts(P, s, s.experiments, past, evaluation, k, v);
    LogCounts(P, s, past, Cell(k, v, Conversion));
    LogCounts(P, s, past, Cell(k, v, Exposure));
    AddAllKeeps(Tally(map[], 0), Log(P, s, past), Cell(k, v, Conversion));
    AddAllKeeps(Tally(map[], 0), Log(P, s, past), Cell(k, v, Exposure));
  }
}
