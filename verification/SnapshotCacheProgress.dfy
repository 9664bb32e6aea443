/**
 * What the cache's calls never wait for, and that each of them can come to an
 * end: a cached snapshot is read without the lock, no lock is kept by a call
 * that has left its critical section, and no state of any run is a dead end.
 */
module SnapshotCacheProgress {
  import opened FlagTypes
  import opened SnapshotCache
  import opened SnapshotCacheProof
  import opened SnapshotCacheTheorems

  // -------------------------------------------------------- lock-free reads --

  predicate Warm(st: State, e: EnvId) {
    e in st.slots && st.slots[e] in st.heap && st.heap[st.slots[e]].value.Some?
  }

  /** A get that needs no lock: it looks the slot up, finds it filled, and answers. */
  predicate AtEase(st: State, g: TaskId) {
    g in st.tasks && st.tasks[g].Get? ==>
      match st.tasks[g].pc
      case Begin => true
      case FastRead(s) => s in st.heap && st.heap[s].value.Some?
      case Done(outcome) => outcome.Found?
      case _ => false
  }

  lemma ActStaysWarm(cfg: Config, st: State, t: TaskId, fail: bool, keys: seq<EnvId>, st': State, e: EnvId)
    requires Act(cfg, st, t, fail, keys, st') && e in st.slots && e in st'.slots
    ensures st'.slots[e] == st.slots[e]
  {
  }

  lemma StaysWarm(cfg: Config, st: State, st': State, e: EnvId)
    requires Inv(cfg, st) && Next(cfg, st, st') && Warm(st, e) && e in st'.slots
    ensures Warm(st', e)
  {
    StepForward(cfg, st, st');
    if t, fail, keys :| Act(cfg, st, t, fail, keys, st') {
      ActStaysWarm(cfg, st, t, fail, keys, st', e);
    } else {
      assert Quiet(st, st');
    }
  }

  lemma OwnEase(cfg: Config, st: State, g: TaskId, fail: bool, keys: seq<EnvId>, st': State)
    requires Act(cfg, st, g, fail, keys, st') && st.tasks[g].Get? && Warm(st, st.tasks[g].env) && AtEase(st, g)
    ensures AtEase(st', g)
  {
  }

  lemma StaysAtEase(cfg: Config, st: State, st': State, g: TaskId)
    requires Inv(cfg, st) && Next(cfg, st, st') && AtEase(st, g)
    requires g in st.tasks && st.tasks[g].Get? ==> Warm(st, st.tasks[g].env)
    ensures AtEase(st', g)
  {
    if t, fail, keys :| Act(cfg, st, t, fail, keys, st') {
      if t == g && st.tasks[g].Get? {
        OwnEase(cfg, st, g, fail, keys, st');
      } else {
        OthersEase(cfg, st, t, fail, keys, st', g);
      }
    } else {
      assert Quiet(st, st');
    }
  }

  lemma OthersEase(cfg: Config, st: State, t: TaskId, fail: bool, keys: seq<EnvId>, st': State, g: TaskId)
    requires Inv(cfg, st) && Act(cfg, st, t, fail, keys, st') && AtEase(st, g) && (t == g ==> !st.tasks[g].Get?)
    ensures AtEase(st', g)
  {
    ActForward(cfg, st, t, fail, keys, st');
    ActElsewhere(cfg, st, t, fail, keys, st');
  }

  lemma RunStaysAtEase(cfg: Config, run: seq<State>, k: nat, g: TaskId, e: EnvId)
    requires Run(cfg, run) && 0 < k < |run| && Warm(run[k - 1], e) && e in run[k].slots
    requires g in run[k - 1].tasks && run[k - 1].tasks[g].Get? ==> run[k - 1].tasks[g].env == e
    ensures Warm(run[k], e) && (AtEase(run[k - 1], g) ==> AtEase(run[k], g))
  {
    RunInv(cfg, run, k - 1);
    assert StepAt(cfg, run, k);
    StaysWarm(cfg, run[k - 1], run[k], e);
    if AtEase(run[k - 1], g) {
      StaysAtEase(cfg, run[k - 1], run[k], g);
    }
  }

  lemma {:induction false} EaseSince(cfg: Config, run: seq<State>, i: nat, k: nat, g: TaskId, e: EnvId)
    requires Run(cfg, run) && i <= k < |run| && g !in run[i].tasks && Warm(run[i], e)
    requires forall n :: i <= n <= k ==> e in run[n].slots
    requires forall n :: i <= n <= k && g in run[n].tasks ==> run[n].tasks[g].Get? && run[n].tasks[g].env == e
    ensures Warm(run[k], e) && AtEase(run[k], g)
    decreases k
  {
    if i < k {
      EaseSince(cfg, run, i, k - 1, g, e);
      RunStaysAtEase(cfg, run, k, g, e);
    }
  }

  /**
   * A get called while its environment's slot is filled never takes or awaits
   * a lock, whatever loads are in flight, as long as the slot is not dropped;
   * and it finds a snapshot.
   */
  lemma ReadsAreLockFree(cfg: Config, run: seq<State>, i: nat, k: nat, g: TaskId, e: EnvId)
    requires Run(cfg, run) && i <= k < |run| && Warm(run[i], e)
    requires forall n :: i <= n <= k ==> e in run[n].slots
    requires g !in run[i].tasks && g in run[k].tasks && run[k].tasks[g].Get? && run[k].tasks[g].env == e
    ensures
      var pc := run[k].tasks[g].pc;
      pc.Begin? || pc.FastRead? || (pc.Done? && pc.outcome.Found?)
    ensures forall s :: s in run[k].heap ==> run[k].heap[s].holder != Some(g)
  {
    forall n | i <= n <= k && g in run[n].tasks
      ensures run[n].tasks[g].Get? && run[n].tasks[g].env == e
    {
      RunForward(cfg, run, n, k);
      TaskKept(run[n], run[k], g);
    }
    EaseSince(cfg, run, i, k, g, e);
    RunHeld(cfg, run, k);
  }

  // ---------------------------------------------------------- what is dropped --

  ghost predicate SawDeleted(st: State, r: TaskId, e: EnvId) {
    && r in st.tasks && st.tasks[r].Refresher?
    && exists n: nat :: st.tasks[r].began <= n < |st.history| && e !in st.history[n]
  }

  /** Some refresh or sweep was called before a moment at which the database did not hold the environment. */
  ghost predicate SeenDeleted(st: State, e: EnvId) {
    exists r :: SawDeleted(st, r, e)
  }

  predicate Keeps(st: State, st': State, e: EnvId) {
    e in st.slots ==> e in st'.slots && st'.slots[e] == st.slots[e]
  }

  lemma ActDrops(cfg: Config, st: State, t: TaskId, fail: bool, keys: seq<EnvId>, st': State, e: EnvId)
    requires Act(cfg, st, t, fail, keys, st') && !Keeps(st, st', e)
    ensures st.tasks[t].Refresher? && st.tasks[t].pc.Dropping? && HasWork(st.tasks[t]) && EnvOf(st.tasks[t]) == e
    ensures t in st'.tasks && st'.tasks[t].Refresher? && st'.tasks[t].began == st.tasks[t].began
  {
  }

  lemma StepDrops(cfg: Config, st: State, st': State, e: EnvId)
    requires Inv(cfg, st) && Next(cfg, st, st') && !Keeps(st, st', e)
    ensures SeenDeleted(st', e)
  {
    var t, fail, keys :| Act(cfg, st, t, fail, keys, st');
    ActDrops(cfg, st, t, fail, keys, st', e);
    ActElsewhere(cfg, st, t, fail, keys, st');
    assert RefresherOk(cfg, st, st.tasks[t]);
    assert e !in st'.history[st.tasks[t].pc.sawAt];
    assert SawDeleted(st', t, e);
  }

  /** An environment leaves the slot map only by a refresh or sweep since whose call it was missing from the database. */
  lemma DroppedMeansGone(cfg: Config, run: seq<State>, i: nat, e: EnvId)
    requires Run(cfg, run) && 0 < i < |run| && !Keeps(run[i - 1], run[i], e)
    ensures SeenDeleted(run[i], e)
  {
    RunInv(cfg, run, i - 1);
    assert StepAt(cfg, run, i);
    StepDrops(cfg, run[i - 1], run[i], e);
  }

  lemma SeenDeletedLater(cfg: Config, run: seq<State>, i: nat, j: nat, e: EnvId)
    requires Run(cfg, run) && i <= j < |run| && SeenDeleted(run[i], e)
    ensures SeenDeleted(run[j], e)
  {
    var r :| SawDeleted(run[i], r, e);
    RunForward(cfg, run, i, j);
    TaskKept(run[i], run[j], r);
    MissedLater(run[i].history, run[j].history, e, run[i].tasks[r].began);
    assert SawDeleted(run[j], r, e);
  }

  /** An environment that no refresh or sweep can have seen missing keeps its slot, and a snapshot in it, once there, stays. */
  lemma {:induction false} LiveStaysCached(cfg: Config, run: seq<State>, i: nat, j: nat, e: EnvId)
    requires Run(cfg, run) && i <= j < |run| && e in run[i].slots && !SeenDeleted(run[j], e)
    ensures Keeps(run[i], run[j], e) && (Warm(run[i], e) ==> Warm(run[j], e))
    decreases j
  {
    if i < j {
      if SeenDeleted(run[j - 1], e) {
        SeenDeletedLater(cfg, run, j - 1, j, e);
      }
      LiveStaysCached(cfg, run, i, j - 1, e);
      KeptOnce(cfg, run, j, e);
    }
  }

  lemma KeptOnce(cfg: Config, run: seq<State>, j: nat, e: EnvId)
    requires Run(cfg, run) && 0 < j < |run| && !SeenDeleted(run[j], e)
    ensures Keeps(run[j - 1], run[j], e) && (Warm(run[j - 1], e) ==> Warm(run[j], e))
  {
    if !Keeps(run[j - 1], run[j], e) {
      DroppedMeansGone(cfg, run, j, e);
    } else if Warm(run[j - 1], e) {
      RunInv(cfg, run, j - 1);
      assert StepAt(cfg, run, j);
      StaysWarm(cfg, run[j - 1], run[j], e);
    }
  }

  // ------------------------------------------------------------------ locks --

  predicate Holds(st: State, u: TaskId, s: SlotId) {
    u in st.tasks && Critical(st.tasks[u].pc) && st.tasks[u].pc.slot == s
  }

  /** Every lock that is taken is taken by a call still in its critical section. */
  ghost predicate Held(st: State) {
    forall s :: s in st.heap && st.heap[s].holder.Some? ==> Holds(st, st.heap[s].holder.value, s)
  }

  lemma GetKeepsHeld(cfg: Config, st: State, t: TaskId, fail: bool, keys: seq<EnvId>, st': State, s: SlotId)
    requires TaskOk(st, t) && Act(cfg, st, t, fail, keys, st') && st.tasks[t].Get?
    requires s in st'.heap && st'.heap[s].holder.Some?
    requires s in st.heap && st.heap[s].holder.Some? ==> Holds(st, st.heap[s].holder.value, s)
    ensures Holds(st', st'.heap[s].holder.value, s)
  {
  }

  lemma RefreshKeepsHeld(cfg: Config, st: State, t: TaskId, fail: bool, keys: seq<EnvId>, st': State, s: SlotId)
    requires TaskOk(st, t) && Act(cfg, st, t, fail, keys, st') && st.tasks[t].Refresher?
    requires s in st'.heap && st'.heap[s].holder.Some?
    requires s in st.heap && st.heap[s].holder.Some? ==> Holds(st, st.heap[s].holder.value, s)
    ensures Holds(st', st'.heap[s].holder.value, s)
  {
  }

  lemma NextKeepsHeld(cfg: Config, st: State, st': State)
    requires Inv(cfg, st) && Next(cfg, st, st') && Held(st)
    ensures Held(st')
  {
    if t, fail, keys :| Act(cfg, st, t, fail, keys, st') {
      assert TaskOk(st, t);
      forall s | s in st'.heap && st'.heap[s].holder.Some?
        ensures Holds(st', st'.heap[s].holder.value, s)
      {
        if st.tasks[t].Get? {
          GetKeepsHeld(cfg, st, t, fail, keys, st', s);
        } else {
          RefreshKeepsHeld(cfg, st, t, fail, keys, st', s);
        }
      }
    } else {
      assert Quiet(st, st');
    }
  }

  lemma {:induction false} RunHeld(cfg: Config, run: seq<State>, i: nat)
    requires Run(cfg, run) && i < |run|
    ensures Held(run[i])
  {
    if i > 0 {
      RunHeld(cfg, run, i - 1);
      RunInv(cfg, run, i - 1);
      assert StepAt(cfg, run, i);
      NextKeepsHeld(cfg, run[i - 1], run[i]);
    }
  }

  /** In no state of any run is a call stuck: it can move, or whoever holds the lock it awaits can. */
  lemma NeverStuck(cfg: Config, run: seq<State>, i: nat, t: TaskId)
    requires Run(cfg, run) && i < |run| && t in run[i].tasks && !run[i].tasks[t].pc.Done?
    ensures
      || Enabled(run[i], t)
      || (run[i].tasks[t].pc.Waiting? && exists u :: u != t && Holds(run[i], u, run[i].tasks[t].pc.slot) && Enabled(run[i], u))
  {
    RunInv(cfg, run, i);
    RunHeld(cfg, run, i);
    StuckOnHolder(cfg, run[i], t);
  }

  lemma StuckOnHolder(cfg: Config, st: State, t: TaskId)
    requires Inv(cfg, st) && Held(st) && t in st.tasks && !st.tasks[t].pc.Done?
    ensures
      || Enabled(st, t)
      || (st.tasks[t].pc.Waiting? && exists u :: u != t && Holds(st, u, st.tasks[t].pc.slot) && Enabled(st, u))
  {
    assert TaskOk(st, t);
    if st.tasks[t].pc.Waiting? && !Enabled(st, t) {
      var u := st.heap[st.tasks[t].pc.slot].holder.value;
      assert TaskOk(st, u);
      assert Holds(st, u, st.tasks[t].pc.slot) && Enabled(st, u);
    }
  }

  // ---------------------------------------------------------------- progress --

  /** Shards still to visit. */
  function Phase(cfg: Config, task: Task): nat {
    if !task.pc.Collect? then 0 else 1 + if task.pc.shard < cfg.shards then cfg.shards - task.pc.shard else 0
  }

  /** Environments still to refresh. */
  function Todo(task: Task): nat {
    if task.Get? then 0 else |task.queue|
  }

  /** Steps still to take for the environment at hand. */
  function Rank(pc: Pc): nat {
    match pc
    case Collect(_) => 12
    case Begin => 11
    case FastRead(_) => 10
    case Waiting(_) => 9
    case Recheck(_) => 8
    case Loading(_, p) =>
      (match p case NeedRow => 7 case NeedFlags(_) => 6 case NeedSegments(_, _) => 5 case NeedExperiments(_, _, _) => 4 case Complete(_) => 3)
    case Dropping(_, _) => 2
    case Releasing(_, _) => 1
    case Done(_) => 0
  }

  ghost predicate Nearer(cfg: Config, a: Task, b: Task) {
    || Phase(cfg, b) < Phase(cfg, a)
    || (Phase(cfg, b) == Phase(cfg, a) && Todo(b) < Todo(a))
    || (Phase(cfg, b) == Phase(cfg, a) && Todo(b) == Todo(a) && Rank(b.pc) < Rank(a.pc))
  }

  /** Every step a call takes brings it nearer its end, so no call steps forever. */
  lemma StepsRunOut(cfg: Config, st: State, t: TaskId, fail: bool, keys: seq<EnvId>, st': State)
    requires Inv(cfg, st) && Act(cfg, st, t, fail, keys, st')
    ensures Nearer(cfg, st.tasks[t], st'.tasks[t])
  {
    assert TaskOk(st, t);
    if st.tasks[t].Get? {
      GetNearer(cfg, st, t, fail);
    } else {
      RefreshNearer(cfg, st, t, fail, keys);
    }
    ActTask(cfg, st, t, fail, keys, st');
  }

  lemma GetNearer(cfg: Config, st: State, t: TaskId, fail: bool)
    requires TaskOk(st, t) && Enabled(st, t) && st.tasks[t].Get?
    ensures Nearer(cfg, st.tasks[t], DecideGet(st, t, fail).task)
  {
  }

  lemma RefreshNearer(cfg: Config, st: State, t: TaskId, fail: bool, keys: seq<EnvId>)
    requires TaskOk(st, t) && Enabled(st, t) && st.tasks[t].Refresher?
    ensures Nearer(cfg, st.tasks[t], DecideRefresh(cfg, st, t, fail, keys).task)
  {
    if st.tasks[t].pc.Loading? {
      RefreshLoadNearer(cfg, st, t, fail, keys);
    }
  }

  lemma RefreshLoadNearer(cfg: Config, st: State, t: TaskId, fail: bool, keys: seq<EnvId>)
    requires Enabled(st, t) && st.tasks[t].Refresher? && st.tasks[t].pc.Loading?
    ensures Nearer(cfg, st.tasks[t], DecideRefresh(cfg, st, t, fail, keys).task)
  {
  }

  lemma {:induction false} ListSet(s: set<EnvId>) returns (keys: seq<EnvId>)
    ensures NoRepeats(keys) && forall e :: e in keys <==> e in s
  {
    keys := [];
    if s != {} {
      var e :| e in s;
      keys := ListSet(s - {e});
      keys := keys + [e];
    }
  }

  /** An enabled call can take a step in which no query fails. */
  lemma MoveOn(cfg: Config, st: State, t: TaskId) returns (keys: seq<EnvId>, st': State)
    requires Inv(cfg, st) && Enabled(st, t)
    ensures Act(cfg, st, t, false, keys, st')
  {
    keys := [];
    if st.tasks[t].pc.Collect? {
      keys := ListSet(set e | e in st.slots && cfg.shardOf(e) == st.tasks[t].pc.shard);
    }
    assert TaskOk(st, t);
    st' := ApplyEffect(st, t, Decide(cfg, st, t, false, keys));
  }

  // ------------------------------------------------------------ continuations --

  function Last(run: seq<State>): State
    requires run != []
  {
    run[|run| - 1]
  }

  /** An action of some call in which no query fails. */
  ghost predicate Works(cfg: Config, st: State, st': State) {
    exists u, keys :: Act(cfg, st, u, false, keys, st')
  }

  ghost predicate Undisturbed(cfg: Config, run: seq<State>, i: nat)
    requires 0 < i < |run|
  {
    Works(cfg, run[i - 1], run[i])
  }

  /** A run that goes on by undisturbed steps of the calls already made: no commit, no new call, no failing query. */
  ghost predicate Continues(cfg: Config, run: seq<State>, more: seq<State>) {
    && Run(cfg, more) && 0 < |run| <= |more| && more[..|run|] == run
    && forall i :: |run| <= i < |more| ==> Undisturbed(cfg, more, i)
  }

  lemma ContinueOnce(cfg: Config, run: seq<State>, u: TaskId, keys: seq<EnvId>, st': State)
    requires Run(cfg, run) && Act(cfg, Last(run), u, false, keys, st')
    ensures Continues(cfg, run, run + [st'])
  {
    var more := run + [st'];
    forall i | 0 < i < |more|
      ensures StepAt(cfg, more, i)
    {
      if i < |run| {
        assert StepAt(cfg, run, i);
      }
    }
    assert Act(cfg, more[|run| - 1], u, false, keys, more[|run|]);
    assert Undisturbed(cfg, more, |run|);
  }

  lemma ContinuesTrans(cfg: Config, a: seq<State>, b: seq<State>, c: seq<State>)
    requires Continues(cfg, a, b) && Continues(cfg, b, c)
    ensures Continues(cfg, a, c)
  {
    forall i | |a| <= i < |c|
      ensures Undisturbed(cfg, c, i)
    {
      if i < |b| {
        assert Undisturbed(cfg, b, i);
        assert b[i - 1] == c[i - 1] && b[i] == c[i];
      }
    }
    assert c[..|a|] == b[..|a|];
  }

  /** A call holding a lock keeps it and comes nearer to giving it back, or gives it back. */
  lemma HolderStep(cfg: Config, st: State, u: TaskId, keys: seq<EnvId>, st': State, s: SlotId)
    requires TaskOk(st, u) && Holds(st, u, s) && Act(cfg, st, u, false, keys, st')
    ensures s in st'.heap
    ensures if st.tasks[u].pc.Releasing? then st'.heap[s].holder.None? else Holds(st', u, s) && Rank(st'.tasks[u].pc) < Rank(st.tasks[u].pc)
  {
  }

  /** The run can go on until the lock is free, and no other call has moved meanwhile. */
  lemma {:induction false} Vacate(cfg: Config, run: seq<State>, u: TaskId, s: SlotId) returns (more: seq<State>)
    requires Run(cfg, run) && Holds(Last(run), u, s)
    ensures Continues(cfg, run, more) && s in Last(more).heap && Last(more).heap[s].holder.None?
    ensures forall t :: t in Last(run).tasks && t != u ==> t in Last(more).tasks && Last(more).tasks[t] == Last(run).tasks[t]
    decreases Rank(Last(run).tasks[u].pc)
  {
    RunInv(cfg, run, |run| - 1);
    assert TaskOk(Last(run), u);
    var keys, st' := MoveOn(cfg, Last(run), u);
    HolderStep(cfg, Last(run), u, keys, st', s);
    ContinueOnce(cfg, run, u, keys, st');
    ActElsewhere(cfg, Last(run), u, false, keys, st');
    more := run + [st'];
    if !Last(run).tasks[u].pc.Releasing? {
      var rest := Vacate(cfg, more, u, s);
      ContinuesTrans(cfg, run, more, rest);
      more := rest;
    }
  }

  /** The run can go on until the call can move, without having moved it. */
  lemma ClearTheWay(cfg: Config, run: seq<State>, t: TaskId) returns (more: seq<State>)
    requires Run(cfg, run) && t in Last(run).tasks && !Last(run).tasks[t].pc.Done?
    ensures Continues(cfg, run, more) && Enabled(Last(more), t) && Last(more).tasks[t] == Last(run).tasks[t]
  {
    more := run;
    NeverStuck(cfg, run, |run| - 1, t);
    if !Enabled(Last(run), t) {
      var u :| u != t && Holds(Last(run), u, Last(run).tasks[t].pc.slot);
      more := Vacate(cfg, run, u, Last(run).tasks[t].pc.slot);
      RunInv(cfg, more, |more| - 1);
    }
  }

  /**
   * From every state of every run, every call can come to its end: the run can
   * be continued, without commits, new calls or failing queries, until it has.
   */
  lemma {:induction false} EveryCallCanFinish(cfg: Config, run: seq<State>, t: TaskId) returns (more: seq<State>)
    requires Run(cfg, run) && t in Last(run).tasks
    ensures Continues(cfg, run, more) && t in Last(more).tasks && Last(more).tasks[t].pc.Done?
    decreases Phase(cfg, Last(run).tasks[t]), Todo(Last(run).tasks[t]), Rank(Last(run).tasks[t].pc)
  {
    more := run;
    if !Last(run).tasks[t].pc.Done? {
      var clear := ClearTheWay(cfg, run, t);
      var next := Advance(cfg, clear, t);
      ContinuesTrans(cfg, run, clear, next);
      more := EveryCallCanFinish(cfg, next, t);
      ContinuesTrans(cfg, run, next, more);
    }
  }

  lemma Advance(cfg: Config, run: seq<State>, t: TaskId) returns (more: seq<State>)
    requires Run(cfg, run) && Enabled(Last(run), t)
    ensures Continues(cfg, run, more) && t in Last(more).tasks && Nearer(cfg, Last(run).tasks[t], Last(more).tasks[t])
  {
    RunInv(cfg, run, |run| - 1);
    var keys, st' := MoveOn(cfg, Last(run), t);
    StepsRunOut(cfg, Last(run), t, false, keys, st');
    ContinueOnce(cfg, run, t, keys, st');
    more := run + [st'];
  }

  /** A get of an environment the database holds, with no other answer in hand yet than a snapshot. */
  predicate Promising(st: State, g: TaskId) {
    && |st.history| == st.now + 1 && g in st.tasks && st.tasks[g].Get? && st.tasks[g].env in Now(st)
    && (HasOutcome(st.tasks[g].pc) ==> st.tasks[g].pc.outcome.Found?)
  }

  lemma WorkKeepsPromise(cfg: Config, st: State, st': State, g: TaskId)
    requires Inv(cfg, st) && Works(cfg, st, st') && Promising(st, g)
    ensures Promising(st', g)
  {
    var u, keys :| Act(cfg, st, u, false, keys, st');
    ActElsewhere(cfg, st, u, false, keys, st');
    if u == g {
      ActTask(cfg, st, g, false, keys, st');
      DecideOutcome(st, g, false);
    }
  }

  /** However the run goes on undisturbed, such a get ends with a snapshot. */
  lemma {:induction false} UndisturbedGetFinds(cfg: Config, run: seq<State>, more: seq<State>, i: nat, g: TaskId)
    requires Continues(cfg, run, more) && Promising(Last(run), g) && |run| - 1 <= i < |more|
    ensures Promising(more[i], g)
    ensures more[i].tasks[g].pc.Done? ==> more[i].tasks[g].pc.outcome.Found?
    decreases i
  {
    assert more[|run| - 1] == more[..|run|][|run| - 1];
    if i >= |run| {
      UndisturbedGetFinds(cfg, run, more, i - 1, g);
      assert Undisturbed(cfg, more, i);
      RunInv(cfg, more, i - 1);
      WorkKeepsPromise(cfg, more[i - 1], more[i], g);
    }
  }
}
