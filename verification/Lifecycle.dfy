/**
 * The life of an experiment over every run of statements: draft, running,
 * stopped, and what its counters may do meanwhile.
 */
module Lifecycle {
  import opened FlagTypes
  import opened Recorder
  import opened Experiments

  /** Each event is one SQL statement, or one transaction, of some request. */
  datatype Event =
    | Create(key: string)
    | Start(key: string, now: int)
    | Stop(key: string, now: int)
    | Backdate(key: string, to: int)
    | Delete(key: string)
    | IngestBatch(deltas: seq<Delta>)
    | DropEnvironment

  function Next(db: Tables, e: Event): Tables {
    match e
    case Create(k) =>
      if k in db.experiments then db
      else db.(experiments := db.experiments[k := Experiment(db.nextId, Draft, None, None)], nextId := db.nextId + 1)
    case Start(k, now) => Transition(db, k, Draft, Running, now)
    case Stop(k, now) => Transition(db, k, Running, Stopped, now)
    case Backdate(k, to) => Backdated(db, k, to)
    case Delete(k) => Deleted(db, k)
    case IngestBatch(deltas) => if Ingest(db, deltas).Ok? then Ingest(db, deltas).value else db
    case DropEnvironment => db.(experiments := map[], counters := map[])
  }

  function Run(db: Tables, events: seq<Event>): Tables {
    if events == [] then db else Next(Run(db, events[..|events| - 1]), events[|events| - 1])
  }

  /** The tables after the first `i` events. */
  function At(events: seq<Event>, i: nat): Tables
    requires i <= |events|
  {
    Run(EMPTY, events[..i])
  }

  lemma AtNext(events: seq<Event>, i: nat)
    requires i < |events|
    ensures At(events, i + 1) == Next(At(events, i), events[i])
  {
    assert events[..i + 1][..i] == events[..i] && events[..i + 1][i] == events[i];
  }

  // ------------------------------------------------------------- invariant --

  ghost predicate ExperimentOk(db: Tables, k: string)
    requires k in db.experiments
  {
    var x := db.experiments[k];
    && x.id < db.nextId
    && (x.startedAt.Some? <==> x.stage != Draft) && (x.stoppedAt.Some? <==> x.stage == Stopped)
  }

  ghost predicate Inv(db: Tables) {
    && (forall k :: k in db.experiments ==> ExperimentOk(db, k))
    && (forall s :: s in db.counters ==> s.experiment in db.experiments && db.experiments[s.experiment].stage != Draft)
    && (forall j, k :: j in db.experiments && k in db.experiments && db.experiments[j].id == db.experiments[k].id ==> j == k)
  }

  lemma NextKeeps(db: Tables, e: Event)
    requires Inv(db)
    ensures Inv(Next(db, e))
  {
    match e {
      case Create(k) => CreateKeeps(db, k);
      case Start(k, now) => TransitionKeeps(db, k, Draft, Running, now);
      case Stop(k, now) => TransitionKeeps(db, k, Running, Stopped, now);
      case Backdate(k, to) => BackdateKeeps(db, k, to);
      case Delete(k) => DeleteKeeps(db, k);
      case IngestBatch(deltas) => IngestKeeps(db, deltas);
      case DropEnvironment =>
    }
  }

  lemma CreateKeeps(db: Tables, k: string)
    requires Inv(db)
    ensures Inv(Next(db, Create(k)))
  {
    assert forall j :: j in db.experiments ==> ExperimentOk(db, j);
  }

  lemma TransitionKeeps(db: Tables, k: string, from: Stage, to: Stage, now: int)
    requires Inv(db) && ((from == Draft && to == Running) || (from == Running && to == Stopped))
    ensures Inv(Transition(db, k, from, to, now))
  {
    assert forall j :: j in db.experiments ==> ExperimentOk(db, j);
  }

  lemma BackdateKeeps(db: Tables, k: string, to: int)
    requires Inv(db)
    ensures Inv(Next(db, Backdate(k, to)))
  {
    assert forall j :: j in db.experiments ==> ExperimentOk(db, j);
  }

  lemma DeleteKeeps(db: Tables, k: string)
    requires Inv(db)
    ensures Inv(Next(db, Delete(k)))
  {
    assert forall j :: j in db.experiments ==> ExperimentOk(db, j);
  }

  lemma IngestKeeps(db: Tables, deltas: seq<Delta>)
    requires Inv(db)
    ensures Inv(Next(db, IngestBatch(deltas)))
  {
    var db' := Next(db, IngestBatch(deltas));
    forall k | k in db'.experiments
      ensures ExperimentOk(db', k)
    {
      assert ExperimentOk(db, k);
    }
    forall s | s in db'.counters
      ensures s.experiment in db'.experiments && db'.experiments[s.experiment].stage != Draft
    {
      IngestAddsUp(db, deltas, s);
    }
  }

  lemma {:induction false} AlwaysInv(events: seq<Event>, i: nat)
    requires i <= |events|
    ensures Inv(At(events, i))
    decreases i
  {
    if i > 0 {
      AlwaysInv(events, i - 1);
      AtNext(events, i - 1);
      NextKeeps(At(events, i - 1), events[i - 1]);
    }
  }

  // ------------------------------------------------------------- one step --

  /** The experiment of this identity is there under this key. */
  predicate Lives(db: Tables, k: string, id: nat) {
    k in db.experiments && db.experiments[k].id == id
  }

  function Rank(s: Stage): nat {
    match s case Draft => 0 case Running => 1 case Stopped => 2
  }

  /** Everything one statement can do to an experiment that survives it. */
  ghost predicate StepsForward(db: Tables, db': Tables, e: Event, k: string)
    requires k in db.experiments && k in db'.experiments
  {
    var x, y := db.experiments[k], db'.experiments[k];
    && (y.stage == x.stage
        || (x.stage == Draft && y.stage == Running && e.Start? && e.key == k)
        || (x.stage == Running && y.stage == Stopped && e.Stop? && e.key == k))
    && (forall s: Slot :: s.experiment == k ==>
          (x.stage == Running && e.IngestBatch?) || ((s in db'.counters <==> s in db.counters) && Stored(db', s) == Stored(db, s)))
  }

  lemma OneStep(db: Tables, e: Event, k: string)
    requires Inv(db) && k in db.experiments && k in Next(db, e).experiments
    ensures Next(db, e).experiments[k].id == db.experiments[k].id
    ensures StepsForward(db, Next(db, e), e, k)
  {
    if e.IngestBatch? {
      forall s: Slot | s.experiment == k
        ensures db.experiments[k].stage == Running
          || ((s in Next(db, e).counters <==> s in db.counters) && Stored(Next(db, e), s) == Stored(db, s))
      {
        IngestAddsUp(db, e.deltas, s);
      }
    }
  }

  /** Who dies, and how: a running experiment only with its whole environment. */
  lemma Death(db: Tables, e: Event, k: string)
    requires k in db.experiments && k !in Next(db, e).experiments
    ensures e == DropEnvironment || (e == Delete(k) && db.experiments[k].stage != Running)
  {
  }

  /** Identities are not reused: a dead experiment stays dead. */
  lemma {:induction false} NoReturn(events: seq<Event>, i: nat, j: nat, k: string, id: nat)
    requires i <= j <= |events|
    requires id < At(events, i).nextId && !Lives(At(events, i), k, id)
    ensures !Lives(At(events, j), k, id) && id < At(events, j).nextId
    decreases j
  {
    if i < j {
      NoReturn(events, i, j - 1, k, id);
      AtNext(events, j - 1);
      var db := At(events, j - 1);
      AlwaysInv(events, j - 1);
      if k in db.experiments && k in Next(db, events[j - 1]).experiments {
        OneStep(db, events[j - 1], k);
      }
      NextIdGrows(db, events[j - 1], k);
    }
  }

  lemma NextIdGrows(db: Tables, e: Event, k: string)
    ensures Next(db, e).nextId >= db.nextId
    ensures k !in db.experiments && k in Next(db, e).experiments ==> Next(db, e).experiments[k].id == db.nextId
  {
  }

  // --------------------------------------------------------------- theorems --

  lemma LivesBefore(events: seq<Event>, i: nat, j: nat, k: string, id: nat)
    requires i < j <= |events| && Lives(At(events, i), k, id) && Lives(At(events, j), k, id)
    ensures Lives(At(events, j - 1), k, id)
    ensures StepsForward(At(events, j - 1), At(events, j), events[j - 1], k)
  {
    LivedOn(events, i, j, k, id);
    AlwaysInv(events, j - 1);
    AtNext(events, j - 1);
    OneStep(At(events, j - 1), events[j - 1], k);
  }

  lemma LivedOn(events: seq<Event>, i: nat, j: nat, k: string, id: nat)
    requires i < j <= |events| && Lives(At(events, i), k, id) && Lives(At(events, j), k, id)
    ensures Lives(At(events, j - 1), k, id)
  {
    IdUsed(events, i, k);
    IdBelow(events, i, j - 1, k, id);
    if !Lives(At(events, j - 1), k, id) {
      NoReturn(events, j - 1, j, k, id);
      assert false;
    }
  }

  lemma IdUsed(events: seq<Event>, i: nat, k: string)
    requires i <= |events| && k in At(events, i).experiments
    ensures At(events, i).experiments[k].id < At(events, i).nextId
  {
    AlwaysInv(events, i);
    assert ExperimentOk(At(events, i), k);
  }

  /** Over any run an experiment only moves forward: draft, running, stopped. */
  lemma {:induction false} OneWay(events: seq<Event>, i: nat, j: nat, k: string, id: nat)
    requires i <= j <= |events| && Lives(At(events, i), k, id) && Lives(At(events, j), k, id)
    ensures Rank(At(events, i).experiments[k].stage) <= Rank(At(events, j).experiments[k].stage)
    decreases j
  {
    if i < j {
      LivesBefore(events, i, j, k, id);
      OneWay(events, i, j - 1, k, id);
    }
  }

  /** The counters of one experiment are the same, row by row. */
  ghost predicate SameCounters(db: Tables, db': Tables, k: string) {
    forall s: Slot :: s.experiment == k ==> (s in db'.counters <==> s in db.counters) && Stored(db', s) == Stored(db, s)
  }

  /** Once an experiment is stopped its counters are frozen for as long as it exists. */
  lemma {:induction false} StoppedIsFrozen(events: seq<Event>, i: nat, j: nat, k: string, id: nat)
    requires i <= j <= |events| && Lives(At(events, i), k, id) && Lives(At(events, j), k, id)
    requires At(events, i).experiments[k].stage == Stopped
    ensures SameCounters(At(events, i), At(events, j), k)
    decreases j
  {
    if i < j {
      LivesBefore(events, i, j, k, id);
      OneWay(events, i, j - 1, k, id);
      StoppedIsFrozen(events, i, j - 1, k, id);
    }
  }

  /** A draft has no counters. */
  lemma DraftHasNone(events: seq<Event>, i: nat, s: Slot)
    requires i <= |events| && s in At(events, i).counters
    ensures s.experiment in At(events, i).experiments && At(events, i).experiments[s.experiment].stage != Draft
  {
    AlwaysInv(events, i);
  }

  lemma {:induction false} IdBelow(events: seq<Event>, i: nat, j: nat, k: string, id: nat)
    requires i <= j <= |events| && id < At(events, i).nextId
    ensures id < At(events, j).nextId
    decreases j
  {
    if i < j {
      IdBelow(events, i, j - 1, k, id);
      AtNext(events, j - 1);
      NextIdGrows(At(events, j - 1), events[j - 1], k);
    }
  }

  /** The i-th event starts the experiment. */
  ghost predicate StartsIt(events: seq<Event>, i: nat, k: string, id: nat) {
    && i < |events| && events[i].Start? && events[i].key == k
    && Lives(At(events, i), k, id) && At(events, i).experiments[k].stage == Draft
  }

  /** Of all the starts of one experiment, at most one succeeds, however they race. */
  lemma OneStart(events: seq<Event>, i: nat, j: nat, k: string, id: nat)
    requires StartsIt(events, i, k, id) && StartsIt(events, j, k, id)
    ensures i == j
  {
    if i < j {
      StartWins(events, i, j, k, id);
    } else if j < i {
      StartWins(events, j, i, k, id);
    }
  }

  /** Once a start succeeded, no later moment finds the experiment a draft. */
  lemma StartWins(events: seq<Event>, i: nat, j: nat, k: string, id: nat)
    requires StartsIt(events, i, k, id) && i < j <= |events| && Lives(At(events, j), k, id)
    ensures At(events, j).experiments[k].stage != Draft
    ensures IsRunning(At(events, i + 1), k)
  {
    AtNext(events, i);
    OneWay(events, i + 1, j, k, id);
  }

  /** The first start attempted on a draft does succeed. */
  lemma StartSucceedsIff(db: Tables, k: string, now: int)
    ensures IsRunning(Next(db, Start(k, now)), k) && !IsRunning(db, k) <==> k in db.experiments && db.experiments[k].stage == Draft
  {
  }

  /** A new experiment is a draft, under an identity never used before. */
  lemma CreateMakesDraft(events: seq<Event>, i: nat, k: string)
    requires i < |events| && events[i] == Create(k) && k !in At(events, i).experiments
    ensures
      var x := At(events, i + 1);
      && k in x.experiments && x.experiments[k].stage == Draft && x.experiments[k].startedAt.None? && x.experiments[k].stoppedAt.None?
      && (forall j: nat, l :: j <= i ==> !Lives(At(events, j), l, x.experiments[k].id))
  {
    AtNext(events, i);
    forall j: nat, l | j <= i
      ensures !Lives(At(events, j), l, At(events, i).nextId)
    {
      if Lives(At(events, j), l, At(events, i).nextId) {
        IdUsed(events, j, l);
        IdBelow(events, j, i, l, At(events, i).nextId);
      }
    }
  }

  /** A start that finds a draft stores its moment; a stop that finds it running keeps that and stores its own; a correction moves the start. */
  lemma TransitionTimes(db: Tables, k: string, now: int)
    requires k in db.experiments
    ensures
      var x := db.experiments[k];
      && Next(db, Start(k, now)).experiments[k] == (if x.stage == Draft then x.(stage := Running, startedAt := Some(now)) else x)
      && Next(db, Stop(k, now)).experiments[k] == (if x.stage == Running then x.(stage := Stopped, stoppedAt := Some(now)) else x)
      && Next(db, Backdate(k, now)).experiments[k] == (if x.stage == Running then x.(startedAt := Some(now)) else x)
    ensures forall j :: j in db.experiments && j != k ==>
      && Next(db, Start(k, now)).experiments[j] == db.experiments[j]
      && Next(db, Stop(k, now)).experiments[j] == db.experiments[j]
      && Next(db, Backdate(k, now)).experiments[j] == db.experiments[j]
  {
  }

  /** Between two moments at none of whose statements the experiment was running, its counters did not move. */
  lemma {:induction false} CountersMoveOnlyWhileRunning(events: seq<Event>, i: nat, j: nat, k: string, id: nat)
    requires i <= j <= |events| && Lives(At(events, i), k, id) && Lives(At(events, j), k, id)
    requires NotRunningBetween(events, i, j, k)
    ensures SameCounters(At(events, i), At(events, j), k)
    decreases j
  {
    if i < j {
      LivesBefore(events, i, j, k, id);
      CountersMoveOnlyWhileRunning(events, i, j - 1, k, id);
      IdleStep(At(events, i), At(events, j - 1), At(events, j), events[j - 1], k);
    }
  }

  ghost predicate NotRunningBetween(events: seq<Event>, i: nat, j: nat, k: string)
    requires j <= |events|
  {
    forall m: nat :: i <= m < j ==> !IsRunning(At(events, m), k)
  }

  lemma IdleStep(first: Tables, db: Tables, db': Tables, e: Event, k: string)
    requires k in db.experiments && k in db'.experiments && StepsForward(db, db', e, k)
    requires !IsRunning(db, k) && SameCounters(first, db, k)
    ensures SameCounters(first, db', k)
  {
  }

  /** An experiment running at one moment and gone at the next went with its environment. */
  lemma RunningNotDeleted(events: seq<Event>, i: nat, k: string)
    requires i < |events| && IsRunning(At(events, i), k) && k !in At(events, i + 1).experiments
    ensures events[i] == DropEnvironment
  {
    AtNext(events, i);
    Death(At(events, i), events[i], k);
  }
}
