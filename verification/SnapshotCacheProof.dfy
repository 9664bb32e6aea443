/** Every action of the cache protocol keeps the invariant. */
module SnapshotCacheProof {
  import opened FlagTypes
  import opened Snapshots
  import opened SnapshotCache

  // ------------------------------------------------- steps in the small --

  /** What was genuine stays so as time goes on. */
  lemma GenuineLater(history: seq<Database>, history': seq<Database>, e: EnvId, p: Progress)
    requires Genuine(history, e, p) && history <= history'
    ensures Genuine(history', e, p)
  {
  }

  /** A query adds a part read now. */
  lemma ReadPartSince(db: Database, e: EnvId, now: Time, p: Progress, T: Time)
    requires !p.Complete? && (p.NeedRow? ==> e in db)
    requires ProgressSince(p, T) && T <= now
    ensures ProgressSince(ReadPart(db, e, now, p), T)
  {
  }

  lemma ReadPartGenuine(history: seq<Database>, e: EnvId, p: Progress)
    requires history != [] && !p.Complete?
    requires Genuine(history, e, p) && (p.NeedRow? ==> e in history[|history| - 1])
    ensures
      var now := |history| - 1;
      Genuine(history + [history[now]], e, ReadPart(history[now], e, now, p))
  {
  }

  /** What one action changes, apart from the task that took it. */
  ghost predicate Elsewhere(st: State, t: TaskId, st': State) {
    && st'.now == st.now + 1
    && |st.history| == st.now + 1
    && st'.history == st.history + [Now(st)]
    && t in st.tasks
    && st'.tasks.Keys == st.tasks.Keys
    && (forall u :: u in st.tasks && u != t ==> st'.tasks[u] == st.tasks[u])
    && st.heap.Keys <= st'.heap.Keys
    && (forall s :: s in st.heap ==> st'.heap[s].env == st.heap[s].env && st'.heap[s].created == st.heap[s].created)
    && (forall s :: s in st'.heap && s !in st.heap ==>
          s == st.nextSlot && st'.heap[s].created == st.now && st'.heap[s].value.None?
          && st'.heap[s].getStores == 0 && s < st'.nextSlot)
    && st.nextSlot <= st'.nextSlot
    && (forall e :: e in st'.slots ==>
          (e in st.slots && st'.slots[e] == st.slots[e])
          || (st'.slots[e] == st.nextSlot && st.nextSlot in st'.heap && st'.heap[st.nextSlot].env == e
              && st.nextSlot !in st.heap))
  }

  /** How the acting task moves; its identity and its past stay. */
  ghost predicate SameCall(a: Task, b: Task) {
    && a.Get? == b.Get? && a.began == b.began
    && (a.Get? ==> a.env == b.env)
    && (a.Refresher? ==> a.goal == b.goal)
  }

  lemma EffectElsewhere(st: State, t: TaskId, eff: Effect)
    requires |st.history| == st.now + 1 && t in st.tasks
    requires forall s :: s in st.heap ==> s < st.nextSlot
    requires eff.Acquire? || eff.Release? || eff.Store? ==> eff.slot in st.heap
    ensures Elsewhere(st, t, ApplyEffect(st, t, eff))
  {
  }

  lemma DecideSameCall(cfg: Config, st: State, t: TaskId, fail: bool, keys: seq<EnvId>)
    requires Enabled(st, t)
    ensures SameCall(st.tasks[t], Decide(cfg, st, t, fail, keys).task)
  {
  }

  /** The acting task becomes what it decided to become. */
  lemma ActTask(cfg: Config, st: State, t: TaskId, fail: bool, keys: seq<EnvId>, st': State)
    requires Act(cfg, st, t, fail, keys, st')
    ensures t in st'.tasks && st'.tasks[t] == Decide(cfg, st, t, fail, keys).task
  {
  }

  lemma ActElsewhere(cfg: Config, st: State, t: TaskId, fail: bool, keys: seq<EnvId>, st': State)
    requires Inv(cfg, st) && Act(cfg, st, t, fail, keys, st')
    ensures Elsewhere(st, t, st')
    ensures SameCall(st.tasks[t], st'.tasks[t])
  {
    forall s | s in st.heap
      ensures s < st.nextSlot
    {
      assert SlotOk(st, s);
    }
    EffectElsewhere(st, t, Decide(cfg, st, t, fail, keys));
    DecideSameCall(cfg, st, t, fail, keys);
  }

  /** A load in progress either just started or read one more part, for the environment being worked on. */
  ghost predicate LoadStep(st: State, before: Task, st': State, after: Task) {
    && |st.history| == st.now + 1 && st'.history == st.history + [Now(st)]
    && after.pc.Loading? && HasSlot(before.pc) && after.pc.slot == before.pc.slot
    && HasWork(before) && HasWork(after) && EnvOf(after) == EnvOf(before)
    && (if before.pc.Loading? then
          && !before.pc.progress.Complete?
          && (before.pc.progress.NeedRow? ==> EnvOf(before) in Now(st))
          && after.pc.progress == ReadPart(Now(st), EnvOf(before), st.now, before.pc.progress)
        else after.pc.progress.NeedRow?)
    && (forall s :: s in st.heap ==> s in st'.heap && st'.heap[s].value == st.heap[s].value)
  }

  lemma GetLoadStep(cfg: Config, st: State, t: TaskId, fail: bool, keys: seq<EnvId>, st': State)
    requires TaskOk(st, t) && Act(cfg, st, t, fail, keys, st')
    requires st.tasks[t].Get? && st'.tasks[t].pc.Loading?
    ensures LoadStep(st, st.tasks[t], st', st'.tasks[t])
  {
  }

  lemma RefreshLoadStep(cfg: Config, st: State, t: TaskId, fail: bool, keys: seq<EnvId>, st': State)
    requires TaskOk(st, t) && Act(cfg, st, t, fail, keys, st')
    requires st.tasks[t].Refresher? && st'.tasks[t].pc.Loading?
    ensures LoadStep(st, st.tasks[t], st', st'.tasks[t])
  {
  }

  lemma ActLoading(cfg: Config, st: State, t: TaskId, fail: bool, keys: seq<EnvId>, st': State, T: Time)
    requires TaskOk(st, t) && Act(cfg, st, t, fail, keys, st')
    requires T <= st.now
    requires st'.tasks[t].pc.Loading?
    ensures LoadStep(st, st.tasks[t], st', st'.tasks[t])
    ensures st.tasks[t].pc.Loading? && ProgressSince(st.tasks[t].pc.progress, T) ==>
              ProgressSince(st'.tasks[t].pc.progress, T)
    ensures Genuine(st'.history, EnvOf(st.tasks[t]), st'.tasks[t].pc.progress)
  {
    if st.tasks[t].Get? {
      GetLoadStep(cfg, st, t, fail, keys, st');
    } else {
      RefreshLoadStep(cfg, st, t, fail, keys, st');
    }
    LoadStepKeeps(st, st.tasks[t], st', st'.tasks[t], T);
  }

  lemma LoadStepKeeps(st: State, before: Task, st': State, after: Task, T: Time)
    requires |st.history| == st.now + 1 && LoadStep(st, before, st', after) && T <= st.now
    requires before.pc.Loading? ==> Genuine(st.history, EnvOf(before), before.pc.progress)
    ensures before.pc.Loading? && ProgressSince(before.pc.progress, T) ==> ProgressSince(after.pc.progress, T)
    ensures Genuine(st'.history, EnvOf(before), after.pc.progress)
  {
    if before.pc.Loading? {
      if ProgressSince(before.pc.progress, T) {
        ReadPartSince(Now(st), EnvOf(before), st.now, before.pc.progress, T);
      }
      ReadPartGenuine(st.history, EnvOf(before), before.pc.progress);
    }
  }

  /** A slot's value changes only when a task that completed a load into it stores what it loaded. */
  ghost predicate ValueStep(st: State, task: Task, st': State, s: SlotId)
    requires s in st.heap
  {
    && s in st'.heap
    && ((st'.heap[s].value == st.heap[s].value && st'.heap[s].getStores == st.heap[s].getStores)
        || (&& LoadsInto(task, s)
            && task.pc.progress.Complete?
            && st'.heap[s].value == Some(task.pc.progress.loaded)
            && st'.heap[s].getStores == st.heap[s].getStores + (if task.Get? then 1 else 0)))
  }

  lemma ActValue(cfg: Config, st: State, t: TaskId, fail: bool, keys: seq<EnvId>, st': State, s: SlotId)
    requires TaskOk(st, t) && Act(cfg, st, t, fail, keys, st')
    requires s in st.heap && s < st.nextSlot
    ensures ValueStep(st, st.tasks[t], st', s)
  {
    assert TaskOk(st, t);
  }

  // ----------------------------------------------------------- freshness --

  lemma FreshStable(cfg: Config, st: State, t: TaskId, fail: bool, keys: seq<EnvId>, st': State, s: SlotId, T: Time)
    requires Inv(cfg, st) && Act(cfg, st, t, fail, keys, st')
    requires T <= st.now && Fresh(st, s, T)
    ensures Fresh(st', s, T)
  {
    ActElsewhere(cfg, st, t, fail, keys, st');
    assert SlotOk(st, s);
    ActValue(cfg, st, t, fail, keys, st', s);
    forall u | u in st'.tasks && LoadsInto(st'.tasks[u], s)
      ensures ProgressSince(st'.tasks[u].pc.progress, T)
    {
      if u == t {
        ActLoading(cfg, st, t, fail, keys, st', T);
      }
    }
  }

  /** A slot made by this action holds nothing, and nobody is loading into it. */
  lemma NewSlotFresh(cfg: Config, st: State, t: TaskId, fail: bool, keys: seq<EnvId>, st': State, s: SlotId, T: Time)
    requires Inv(cfg, st) && Act(cfg, st, t, fail, keys, st')
    requires s in st'.heap && s !in st.heap
    ensures Fresh(st', s, T)
  {
    ActElsewhere(cfg, st, t, fail, keys, st');
    forall u | u in st'.tasks
      ensures !LoadsInto(st'.tasks[u], s)
    {
      assert TaskOk(st, u);
      if u == t && st'.tasks[u].pc.Loading? {
        ActLoading(cfg, st, t, fail, keys, st', 0);
      }
    }
  }

  /** Whatever slot the map gives an environment afterwards is fresh if the one before was. */
  lemma MapFreshStable(cfg: Config, st: State, t: TaskId, fail: bool, keys: seq<EnvId>, st': State, e: EnvId, T: Time)
    requires Inv(cfg, st) && Act(cfg, st, t, fail, keys, st')
    requires T <= st.now && (e in st.slots ==> Fresh(st, st.slots[e], T))
    ensures e in st'.slots ==> Fresh(st', st'.slots[e], T)
  {
    ActElsewhere(cfg, st, t, fail, keys, st');
    if e in st'.slots {
      if e in st.slots && st'.slots[e] == st.slots[e] {
        FreshStable(cfg, st, t, fail, keys, st', st.slots[e], T);
      } else {
        NewSlotFresh(cfg, st, t, fail, keys, st', st'.slots[e], T);
      }
    }
  }

  /** Where a `get` has its slot and its answer from. */
  ghost predicate GetStep(st: State, before: Task, st': State, after: Task)
    requires before.Get? && after.Get?
  {
    && (HasSlot(after.pc) ==>
      || (HasSlot(before.pc) && after.pc.slot == before.pc.slot)
      || (before.env in st'.slots && after.pc.slot == st'.slots[before.env]))
    && (HasOutcome(after.pc) && after.pc.outcome.Found? ==>
      || (HasOutcome(before.pc) && after.pc.outcome == before.pc.outcome)
      || (HasSlot(before.pc) && before.pc.slot in st.heap && st.heap[before.pc.slot].value == Some(after.pc.outcome.loaded))
      || (before.pc.Loading? && before.pc.progress == Complete(after.pc.outcome.loaded)))
  }

  lemma ActGetStep(cfg: Config, st: State, t: TaskId, fail: bool, keys: seq<EnvId>, st': State)
    requires Act(cfg, st, t, fail, keys, st') && st.tasks[t].Get?
    ensures t in st'.tasks && st'.tasks[t].Get? && GetStep(st, st.tasks[t], st', st'.tasks[t])
  {
  }

  lemma GetSinceFrom(st: State, g: TaskId, st': State, T: Time)
    requires g in st.tasks && st.tasks[g].Get? && g in st'.tasks && st'.tasks[g].Get?
    requires GetStep(st, st.tasks[g], st', st'.tasks[g]) && GetSince(st, st.tasks[g], T)
    requires HasSlot(st.tasks[g].pc) ==> Fresh(st', st.tasks[g].pc.slot, T)
    requires st.tasks[g].env in st'.slots ==> Fresh(st', st'.slots[st.tasks[g].env], T)
    requires st.tasks[g].pc.Loading? ==> LoadsInto(st.tasks[g], st.tasks[g].pc.slot)
    ensures GetSince(st', st'.tasks[g], T)
  {
    var before := st.tasks[g];
    if before.pc.Loading? {
      assert Fresh(st, before.pc.slot, T) && ProgressSince(before.pc.progress, T);
    }
  }

  /** A `get` that is safe to answer stays so, provided the slot it picks up is fresh. */
  lemma GetSinceStable(cfg: Config, st: State, t: TaskId, fail: bool, keys: seq<EnvId>, st': State, g: TaskId, T: Time)
    requires Inv(cfg, st) && Act(cfg, st, t, fail, keys, st')
    requires g in st.tasks && st.tasks[g].Get? && T <= st.now
    requires GetSince(st, st.tasks[g], T)
    requires st.tasks[g].env in st.slots ==> Fresh(st, st.slots[st.tasks[g].env], T)
    ensures g in st'.tasks && GetSince(st', st'.tasks[g], T)
  {
    ActElsewhere(cfg, st, t, fail, keys, st');
    MapFreshStable(cfg, st, t, fail, keys, st', st.tasks[g].env, T);
    if HasSlot(st.tasks[g].pc) {
      FreshStable(cfg, st, t, fail, keys, st', st.tasks[g].pc.slot, T);
    }
    if g == t {
      ActGetStep(cfg, st, t, fail, keys, st');
    }
    GetSinceFrom(st, g, st', T);
  }

  // ---------------------------------------------------------- invariant --

  lemma ActKeepsSlots(cfg: Config, st: State, t: TaskId, fail: bool, keys: seq<EnvId>, st': State)
    requires Inv(cfg, st) && Act(cfg, st, t, fail, keys, st')
    ensures forall s :: s in st'.heap ==> SlotOk(st', s)
    ensures forall e :: e in st'.slots ==> st'.slots[e] in st'.heap && st'.heap[st'.slots[e]].env == e
  {
    ActElsewhere(cfg, st, t, fail, keys, st');
    forall s | s in st'.heap
      ensures SlotOk(st', s)
    {
      ActKeepsSlot(cfg, st, t, fail, keys, st', s);
    }
  }

  lemma ActKeepsSlot(cfg: Config, st: State, t: TaskId, fail: bool, keys: seq<EnvId>, st': State, s: SlotId)
    requires Inv(cfg, st) && Act(cfg, st, t, fail, keys, st') && Elsewhere(st, t, st') && s in st'.heap
    ensures SlotOk(st', s)
  {
    if s in st.heap {
      assert SlotOk(st, s);
      assert TaskOk(st, t);
      FreshStable(cfg, st, t, fail, keys, st', s, st.heap[s].created);
      ActValue(cfg, st, t, fail, keys, st', s);
      OldSlotOk(st, t, st', s);
    } else {
      NewSlotFresh(cfg, st, t, fail, keys, st', s, st.now);
    }
  }

  lemma OldSlotOk(st: State, t: TaskId, st': State, s: SlotId)
    requires SlotOk(st, s) && TaskOk(st, t) && Elsewhere(st, t, st') && ValueStep(st, st.tasks[t], st', s)
    requires Fresh(st', s, st.heap[s].created)
    ensures SlotOk(st', s)
  {
    if st'.heap[s].value.Some? {
      GenuineLater(st.history, st.history + [Now(st)], st.heap[s].env, Complete(st'.heap[s].value.value));
    }
  }

  /** Two tasks never hold the same slot's mutex. */
  lemma HolderUnique(cfg: Config, st: State, t: TaskId, u: TaskId)
    requires Inv(cfg, st) && t in st.tasks && u in st.tasks
    requires Critical(st.tasks[t].pc) && Critical(st.tasks[u].pc)
    requires st.tasks[t].pc.slot == st.tasks[u].pc.slot
    ensures t == u
  {
    assert TaskOk(st, t) && TaskOk(st, u);
  }

  /** What one action does to one slot: at most the acting task's own lock and load touch it. */
  ghost predicate SlotTouch(st: State, t: TaskId, st': State, s: SlotId)
    requires t in st.tasks
  {
    && s in st.heap && s in st'.heap
    && (st'.heap[s].holder == st.heap[s].holder || st.heap[s].holder.None? || st.heap[s].holder == Some(t))
    && (st'.heap[s].value == st.heap[s].value || LoadsInto(st.tasks[t], s))
  }

  lemma ActSlotTouch(cfg: Config, st: State, t: TaskId, fail: bool, keys: seq<EnvId>, st': State, s: SlotId)
    requires TaskOk(st, t) && Act(cfg, st, t, fail, keys, st')
    requires s in st.heap && s < st.nextSlot
    ensures SlotTouch(st, t, st', s)
  {
  }

  lemma OtherTaskKept(st: State, t: TaskId, st': State, u: TaskId)
    requires Elsewhere(st, t, st') && u != t
    requires TaskOk(st, t) && TaskOk(st, u)
    requires HasSlot(st.tasks[u].pc) ==> SlotTouch(st, t, st', st.tasks[u].pc.slot)
    ensures TaskOk(st', u)
  {
    var task := st.tasks[u];
    if task.pc.Loading? {
      GenuineLater(st.history, st.history + [Now(st)], EnvOf(task), task.pc.progress);
    }
    if task.Get? && HasOutcome(task.pc) && task.pc.outcome.Found? {
      GenuineLater(st.history, st.history + [Now(st)], task.env, Complete(task.pc.outcome.loaded));
    }
  }

  lemma ActKeepsOtherTask(cfg: Config, st: State, t: TaskId, fail: bool, keys: seq<EnvId>, st': State, u: TaskId)
    requires Inv(cfg, st) && Act(cfg, st, t, fail, keys, st')
    requires u in st.tasks && u != t
    ensures TaskOk(st', u)
  {
    ActElsewhere(cfg, st, t, fail, keys, st');
    assert TaskOk(st, u) && TaskOk(st, t);
    if HasSlot(st.tasks[u].pc) {
      assert SlotOk(st, st.tasks[u].pc.slot);
      ActSlotTouch(cfg, st, t, fail, keys, st', st.tasks[u].pc.slot);
    }
    OtherTaskKept(st, t, st', u);
  }

  /** Whoever has a slot has one of the environment being worked on, and holds its mutex where that matters. */
  ghost predicate HasItsSlot(st: State, t: TaskId) {
    && t in st.tasks
    && var task := st.tasks[t];
       && (HasSlot(task.pc) ==>
             HasWork(task) && task.pc.slot in st.heap && st.heap[task.pc.slot].env == EnvOf(task))
       && (Critical(task.pc) ==> st.heap[task.pc.slot].holder == Some(t))
  }

  /** Each kind of call is only ever at places of its own. */
  predicate FitsItsKind(task: Task) {
    && (task.pc.FastRead? || task.pc.Recheck? ==> task.Get?)
    && (task.pc.Collect? || task.pc.Dropping? ==> task.Refresher?)
  }

  ghost predicate SlotsPlaced(st: State) {
    && (forall e :: e in st.slots ==> st.slots[e] in st.heap && st.heap[st.slots[e]].env == e)
    && st.nextSlot !in st.heap
  }

  lemma GetHasItsSlot(cfg: Config, st: State, t: TaskId, fail: bool, keys: seq<EnvId>, st': State)
    requires HasItsSlot(st, t) && SlotsPlaced(st) && Act(cfg, st, t, fail, keys, st') && st.tasks[t].Get?
    ensures HasItsSlot(st', t)
  {
  }

  lemma RefreshHasItsSlot(cfg: Config, st: State, t: TaskId, fail: bool, keys: seq<EnvId>, st': State)
    requires HasItsSlot(st, t) && SlotsPlaced(st) && Act(cfg, st, t, fail, keys, st') && st.tasks[t].Refresher?
    ensures HasItsSlot(st', t)
  {
  }

  lemma DecideFitsKind(cfg: Config, st: State, t: TaskId, fail: bool, keys: seq<EnvId>)
    requires Enabled(st, t) && FitsItsKind(st.tasks[t])
    ensures FitsItsKind(Decide(cfg, st, t, fail, keys).task)
  {
  }

  lemma OwnOutcome(cfg: Config, st: State, t: TaskId, fail: bool, keys: seq<EnvId>, st': State)
    requires TaskOk(st, t) && Act(cfg, st, t, fail, keys, st')
    requires HasSlot(st.tasks[t].pc) ==> SlotOk(st, st.tasks[t].pc.slot)
    requires st'.tasks[t].Get? && HasOutcome(st'.tasks[t].pc) && st'.tasks[t].pc.outcome.Found?
    ensures Genuine(st'.history, st'.tasks[t].env, Complete(st'.tasks[t].pc.outcome.loaded))
  {
    var task := st.tasks[t];
    GenuineLater(st.history, st.history + [Now(st)], task.env, Complete(st'.tasks[t].pc.outcome.loaded));
  }

  lemma OwnLoad(cfg: Config, st: State, t: TaskId, fail: bool, keys: seq<EnvId>, st': State)
    requires TaskOk(st, t) && Act(cfg, st, t, fail, keys, st')
    requires st'.tasks[t].pc.Loading?
    requires HasSlot(st.tasks[t].pc) ==> SlotOk(st, st.tasks[t].pc.slot)
    ensures
      var task := st'.tasks[t];
      && HasWork(task) && Genuine(st'.history, EnvOf(task), task.pc.progress)
      && task.pc.slot in st'.heap
      && (st'.heap[task.pc.slot].value.Some? ==>
            ProgressSince(task.pc.progress, st'.heap[task.pc.slot].value.value.experiments.at))
      && (task.Get? ==> st'.heap[task.pc.slot].value.None?)
  {
    var s := st.tasks[t].pc.slot;
    if HasSlot(st.tasks[t].pc) && st.heap[s].value.Some? {
      ActLoading(cfg, st, t, fail, keys, st', st.heap[s].value.value.experiments.at);
    } else {
      ActLoading(cfg, st, t, fail, keys, st', 0);
    }
  }

  lemma ActKeepsOwnTask(cfg: Config, st: State, t: TaskId, fail: bool, keys: seq<EnvId>, st': State)
    requires Inv(cfg, st) && Act(cfg, st, t, fail, keys, st')
    ensures TaskOk(st', t)
  {
    assert TaskOk(st, t);
    assert HasSlot(st.tasks[t].pc) ==> SlotOk(st, st.tasks[t].pc.slot);
    assert st.nextSlot in st.heap ==> SlotOk(st, st.nextSlot);
    DecideFitsKind(cfg, st, t, fail, keys);
    ActTask(cfg, st, t, fail, keys, st');
    ActElsewhere(cfg, st, t, fail, keys, st');
    if st.tasks[t].Get? {
      GetHasItsSlot(cfg, st, t, fail, keys, st');
    } else {
      RefreshHasItsSlot(cfg, st, t, fail, keys, st');
    }
    if st'.tasks[t].pc.Loading? {
      OwnLoad(cfg, st, t, fail, keys, st');
    }
    if st'.tasks[t].Get? && HasOutcome(st'.tasks[t].pc) && st'.tasks[t].pc.outcome.Found? {
      OwnOutcome(cfg, st, t, fail, keys, st');
    }
  }

  // ---------------------------------------------------------- refreshers --

  lemma ActKeepsOtherRefresher(cfg: Config, st: State, t: TaskId, fail: bool, keys: seq<EnvId>, st': State, u: TaskId)
    requires Inv(cfg, st) && Act(cfg, st, t, fail, keys, st')
    requires u in st.tasks && u != t
    ensures RefresherOk(cfg, st', st'.tasks[u])
  {
    ActElsewhere(cfg, st, t, fail, keys, st');
    assert RefresherOk(cfg, st, st.tasks[u]) && TaskOk(st, u);
  }

  lemma OwnQueue(cfg: Config, st: State, t: TaskId, fail: bool, keys: seq<EnvId>, st': State, e: EnvId)
    requires TaskOk(st, t) && Act(cfg, st, t, fail, keys, st')
    requires st.tasks[t].Refresher? && !st'.tasks[t].failed && e in st.tasks[t].queue
    requires st.tasks[t].pc.Releasing? ==> st.tasks[t].queue != [] && st.tasks[t].queue[0] in st.tasks[t].covered
    ensures st'.tasks[t].Refresher?
    ensures e in st'.tasks[t].covered || e in st'.tasks[t].queue
  {
    var q := st.tasks[t].queue;
    assert e == q[0] || e in q[1..];
  }

  /** Where a refresher stands: what it saw, what it noted, and that the map has its slot or a newer one. */
  lemma OwnWorking(cfg: Config, st: State, t: TaskId, fail: bool, keys: seq<EnvId>, st': State)
    requires TaskOk(st, t) && RefresherOk(cfg, st, st.tasks[t]) && Act(cfg, st, t, fail, keys, st')
    requires st.tasks[t].Refresher? && st'.tasks[t].Refresher?
    ensures
      var task := st'.tasks[t];
      Working(task) && HasWork(task) && EnvOf(task) in st'.slots ==>
        var s := st'.slots[EnvOf(task)];
        s == task.pc.slot || (s in st'.heap && st'.heap[s].created >= task.began)
  {
  }

  lemma OwnNotes(cfg: Config, st: State, t: TaskId, fail: bool, keys: seq<EnvId>, st': State)
    requires TaskOk(st, t) && RefresherOk(cfg, st, st.tasks[t]) && Act(cfg, st, t, fail, keys, st')
    requires st.tasks[t].Refresher? && st'.tasks[t].Refresher?
    requires |st.history| == st.now + 1 && st'.history == st.history + [Now(st)]
    ensures
      var task := st'.tasks[t];
      && (task.pc.Dropping? ==>
            task.began <= task.pc.sawAt < st'.now && HasWork(task)
            && task.pc.sawAt < |st'.history| && EnvOf(task) !in st'.history[task.pc.sawAt])
      && (task.pc.Done? ==> task.queue == [])
      && (task.pc.Releasing? && HasWork(task) && !task.failed ==> EnvOf(task) in task.covered)
  {
  }

  /** Everything a sweep has passed is covered or was created after it began. */
  lemma OwnSweep(cfg: Config, st: State, t: TaskId, fail: bool, keys: seq<EnvId>, st': State)
    requires TaskOk(st, t) && RefresherOk(cfg, st, st.tasks[t]) && Act(cfg, st, t, fail, keys, st')
    requires st.tasks[t].Refresher? && Elsewhere(st, t, st') && SameCall(st.tasks[t], st'.tasks[t])
    requires !st'.tasks[t].failed && st'.tasks[t].goal.None?
    requires forall e :: e in st.tasks[t].queue ==> e in st'.tasks[t].covered || e in st'.tasks[t].queue
    requires BoundedShards(cfg)
    ensures forall e :: e in st'.slots ==>
              || e in st'.tasks[t].covered
              || Pending(cfg, st'.tasks[t], e)
              || (st'.slots[e] in st'.heap && st'.heap[st'.slots[e]].created >= st'.tasks[t].began)
  {
    var task, task' := st.tasks[t], st'.tasks[t];
    assert !task.failed;
    assert forall e :: e in task.covered ==> e in task'.covered;
    forall e | e in st'.slots
      ensures || e in task'.covered
              || Pending(cfg, task', e)
              || (st'.slots[e] in st'.heap && st'.heap[st'.slots[e]].created >= task'.began)
    {
      if e in st.slots && st'.slots[e] == st.slots[e] {
        if e !in task.covered && Pending(cfg, task, e) && e !in task.queue {
          var k := task.pc.shard;
          if cfg.shardOf(e) == k {
            assert e in keys;
          }
        }
      }
    }
  }

  lemma ActKeepsOwnRefresher(cfg: Config, st: State, t: TaskId, fail: bool, keys: seq<EnvId>, st': State)
    requires Inv(cfg, st) && Act(cfg, st, t, fail, keys, st')
    requires st.tasks[t].Refresher?
    ensures RefresherOk(cfg, st', st'.tasks[t])
  {
    ActElsewhere(cfg, st, t, fail, keys, st');
    assert RefresherOk(cfg, st, st.tasks[t]) && TaskOk(st, t);
    var task, task' := st.tasks[t], st'.tasks[t];
    if task'.pc.Loading? {
      ActLoading(cfg, st, t, fail, keys, st', task.began);
      assert ProgressSince(task'.pc.progress, task'.began);
    }
    OwnWorking(cfg, st, t, fail, keys, st');
    OwnNotes(cfg, st, t, fail, keys, st');
    OwnGoals(cfg, st, t, fail, keys, st');
  }

  lemma OwnGoals(cfg: Config, st: State, t: TaskId, fail: bool, keys: seq<EnvId>, st': State)
    requires TaskOk(st, t) && RefresherOk(cfg, st, st.tasks[t]) && Act(cfg, st, t, fail, keys, st')
    requires st.tasks[t].Refresher? && Elsewhere(st, t, st') && SameCall(st.tasks[t], st'.tasks[t])
    requires BoundedShards(cfg)
    ensures
      var task := st'.tasks[t];
      !task.failed ==>
        && (task.goal.Some? ==> task.goal.value in task.covered || task.goal.value in task.queue)
        && (task.goal.None? ==> forall e :: e in st'.slots ==>
              || e in task.covered
              || Pending(cfg, task, e)
              || (st'.slots[e] in st'.heap && st'.heap[st'.slots[e]].created >= task.began))
  {
    var task, task' := st.tasks[t], st'.tasks[t];
    if !task'.failed {
      NeverUnfails(cfg, st, t, fail, keys, st');
      forall e | e in task.queue
        ensures e in task'.covered || e in task'.queue
      {
        OwnQueue(cfg, st, t, fail, keys, st', e);
      }
      if task'.goal.None? {
        OwnSweep(cfg, st, t, fail, keys, st');
      }
    }
  }

  lemma NeverUnfails(cfg: Config, st: State, t: TaskId, fail: bool, keys: seq<EnvId>, st': State)
    requires Act(cfg, st, t, fail, keys, st') && st.tasks[t].Refresher?
    ensures st'.tasks[t].Refresher?
    ensures st.tasks[t].failed ==> st'.tasks[t].failed
    ensures forall e :: e in st.tasks[t].covered ==> e in st'.tasks[t].covered
  {
    DecideNeverUnfails(cfg, st, t, fail, keys);
    ActTask(cfg, st, t, fail, keys, st');
  }

  lemma DecideNeverUnfails(cfg: Config, st: State, t: TaskId, fail: bool, keys: seq<EnvId>)
    requires Enabled(st, t) && st.tasks[t].Refresher?
    ensures
      var b := DecideRefresh(cfg, st, t, fail, keys).task;
      b.Refresher? && (st.tasks[t].failed ==> b.failed) && forall e :: e in st.tasks[t].covered ==> e in b.covered
  {
  }

  // -------------------------------------------------------------- covers --

  lemma FreshWeaken(st: State, s: SlotId, T: Time, T': Time)
    requires Fresh(st, s, T) && T' <= T
    ensures Fresh(st, s, T')
  {
  }

  /** A store by a refresher leaves its slot fresh since the refresher began. */
  lemma StoreFresh(cfg: Config, st: State, t: TaskId, fail: bool, keys: seq<EnvId>, st': State)
    requires Inv(cfg, st) && Act(cfg, st, t, fail, keys, st')
    requires st.tasks[t].Refresher? && st.tasks[t].pc.Loading? && st.tasks[t].pc.progress.Complete?
    ensures Fresh(st', st.tasks[t].pc.slot, st.tasks[t].began)
  {
    ActElsewhere(cfg, st, t, fail, keys, st');
    var s := st.tasks[t].pc.slot;
    assert TaskOk(st, t) && RefresherOk(cfg, st, st.tasks[t]);
    forall u | u in st'.tasks
      ensures !LoadsInto(st'.tasks[u], s)
    {
      if u != t && LoadsInto(st.tasks[u], s) {
        HolderUnique(cfg, st, t, u);
      }
    }
  }

  /** The three ways a refresher comes to note a cover: no slot, a store, or a removal. */
  lemma CoverShape(cfg: Config, st: State, t: TaskId, fail: bool, keys: seq<EnvId>, st': State, e: EnvId)
    requires TaskOk(st, t) && Act(cfg, st, t, fail, keys, st')
    requires st.tasks[t].Refresher? && st'.tasks[t].Refresher? && e in st'.tasks[t].covered
    requires e in st.tasks[t].covered ==> st.tasks[t].covered[e] != st'.tasks[t].covered[e]
    ensures
      var task, c := st.tasks[t], st'.tasks[t].covered[e];
      || (task.pc.Begin? && c == Cover(task.began, st.now + 1, false) && e !in st'.slots)
      || (task.pc.Loading? && task.pc.progress.Complete? && HasWork(task) && e == EnvOf(task)
          && c == Cover(task.began, st.now + 1, false) && st'.slots == st.slots)
      || (task.pc.Dropping? && HasWork(task) && e == EnvOf(task)
          && c == Cover(task.pc.sawAt, st.now + 1, true) && e !in st'.slots)
  {
  }

  /** A cover noted by this action: the map is fresh, and no `get` has begun since. */
  lemma NewCover(cfg: Config, st: State, t: TaskId, fail: bool, keys: seq<EnvId>, st': State, e: EnvId)
    requires Inv(cfg, st) && Act(cfg, st, t, fail, keys, st')
    requires Elsewhere(st, t, st') && SameCall(st.tasks[t], st'.tasks[t])
    requires st.tasks[t].Refresher? && e in st'.tasks[t].covered
    requires e in st.tasks[t].covered ==> st.tasks[t].covered[e] != st'.tasks[t].covered[e]
    ensures
      var c := st'.tasks[t].covered[e];
      && st'.tasks[t].began <= c.since < c.from == st'.now
      && (c.gone ==> c.since < |st'.history| && e !in st'.history[c.since])
      && (e in st'.slots ==> Fresh(st', st'.slots[e], c.since))
  {
    var task := st.tasks[t];
    assert TaskOk(st, t) && RefresherOk(cfg, st, task);
    CoverShape(cfg, st, t, fail, keys, st', e);
    if task.pc.Loading? && e in st.slots {
      MapFreshAfterStore(cfg, st, t, fail, keys, st');
    }
  }

  lemma MapFreshAfterStore(cfg: Config, st: State, t: TaskId, fail: bool, keys: seq<EnvId>, st': State)
    requires Inv(cfg, st) && Act(cfg, st, t, fail, keys, st')
    requires st.tasks[t].Refresher? && st.tasks[t].pc.Loading? && st.tasks[t].pc.progress.Complete?
    requires HasWork(st.tasks[t]) && EnvOf(st.tasks[t]) in st.slots
    ensures Fresh(st', st.slots[EnvOf(st.tasks[t])], st.tasks[t].began)
  {
    var task := st.tasks[t];
    var s := st.slots[EnvOf(task)];
    if s == task.pc.slot {
      StoreFresh(cfg, st, t, fail, keys, st');
    } else {
      assert RefresherOk(cfg, st, task) && TaskOk(st, t);
      assert SlotOk(st, s);
      FreshWeaken(st, s, st.heap[s].created, task.began);
      FreshStable(cfg, st, t, fail, keys, st', s, task.began);
    }
  }

  lemma OldCover(cfg: Config, st: State, t: TaskId, fail: bool, keys: seq<EnvId>, st': State, u: TaskId, e: EnvId)
    requires Inv(cfg, st) && Act(cfg, st, t, fail, keys, st')
    requires u in st.tasks && st.tasks[u].Refresher? && e in st.tasks[u].covered
    requires st'.tasks[u].Refresher? && e in st'.tasks[u].covered && st'.tasks[u].covered[e] == st.tasks[u].covered[e]
    requires st'.tasks[u].began == st.tasks[u].began
    ensures CoverOk(st', st'.tasks[u], e)
  {
    ActElsewhere(cfg, st, t, fail, keys, st');
    assert e in Covered(st.tasks[u]);
    assert CoverOk(st, st.tasks[u], e);
    var c := st.tasks[u].covered[e];
    MapFreshStable(cfg, st, t, fail, keys, st', e, c.since);
    forall g | g in st'.tasks && st'.tasks[g].Get? && st'.tasks[g].env == e && st'.tasks[g].began >= c.from
      ensures GetSince(st', st'.tasks[g], c.since)
    {
      GetSinceStable(cfg, st, t, fail, keys, st', g, c.since);
    }
  }

  lemma ActKeepsCovers(cfg: Config, st: State, t: TaskId, fail: bool, keys: seq<EnvId>, st': State, u: TaskId, e: EnvId)
    requires Inv(cfg, st) && Act(cfg, st, t, fail, keys, st')
    requires u in st'.tasks && e in Covered(st'.tasks[u])
    ensures CoverOk(st', st'.tasks[u], e)
  {
    ActElsewhere(cfg, st, t, fail, keys, st');
    if e in Covered(st.tasks[u]) && st.tasks[u].covered[e] == st'.tasks[u].covered[e] {
      OldCover(cfg, st, t, fail, keys, st', u, e);
    } else {
      assert u == t;
      NewCover(cfg, st, t, fail, keys, st', e);
      forall g | g in st'.tasks
        ensures st'.tasks[g].began < st'.now
      {
        assert TaskOk(st, g);
      }
    }
  }

  lemma ActKeepsInv(cfg: Config, st: State, t: TaskId, fail: bool, keys: seq<EnvId>, st': State)
    requires Inv(cfg, st) && Act(cfg, st, t, fail, keys, st')
    ensures Inv(cfg, st')
  {
    ActElsewhere(cfg, st, t, fail, keys, st');
    ActKeepsSlots(cfg, st, t, fail, keys, st');
    forall u | u in st'.tasks
      ensures TaskOk(st', u) && RefresherOk(cfg, st', st'.tasks[u])
    {
      if u == t {
        ActKeepsOwnTask(cfg, st, t, fail, keys, st');
        if st.tasks[t].Refresher? {
          ActKeepsOwnRefresher(cfg, st, t, fail, keys, st');
        }
      } else {
        ActKeepsOtherTask(cfg, st, t, fail, keys, st', u);
        ActKeepsOtherRefresher(cfg, st, t, fail, keys, st', u);
      }
    }
    forall u, e | u in st'.tasks && e in Covered(st'.tasks[u])
      ensures CoverOk(st', st'.tasks[u], e)
    {
      ActKeepsCovers(cfg, st, t, fail, keys, st', u, e);
    }
  }

  // --------------------------------------------------- commits and calls --

  /** A commit or a new call: nothing the cache shares moves. */
  ghost predicate Quiet(st: State, st': State) {
    && |st.history| == st.now + 1 && |st'.history| == st'.now + 1
    && st'.now == st.now + 1 && st.history <= st'.history
    && st'.slots == st.slots && st'.heap == st.heap && st'.nextSlot == st.nextSlot
    && st.tasks.Keys <= st'.tasks.Keys
    && (forall t :: t in st.tasks ==> st'.tasks[t] == st.tasks[t])
    && (forall t :: t in st'.tasks && t !in st.tasks ==> NewCall(st, st'.tasks[t]))
  }

  lemma QuietFresh(st: State, st': State, s: SlotId, T: Time)
    requires Quiet(st, st') && Fresh(st, s, T)
    ensures Fresh(st', s, T)
  {
  }

  lemma QuietTask(cfg: Config, st: State, st': State, t: TaskId)
    requires Inv(cfg, st) && Quiet(st, st') && t in st'.tasks
    ensures TaskOk(st', t) && RefresherOk(cfg, st', st'.tasks[t])
  {
    if t in st.tasks {
      assert TaskOk(st, t) && RefresherOk(cfg, st, st.tasks[t]);
      var task := st.tasks[t];
      if task.pc.Loading? {
        GenuineLater(st.history, st'.history, EnvOf(task), task.pc.progress);
      }
      if task.Get? && HasOutcome(task.pc) && task.pc.outcome.Found? {
        GenuineLater(st.history, st'.history, task.env, Complete(task.pc.outcome.loaded));
      }
    }
  }

  lemma QuietKeepsInv(cfg: Config, st: State, st': State)
    requires Inv(cfg, st) && Quiet(st, st')
    ensures Inv(cfg, st')
  {
    forall s | s in st'.heap
      ensures SlotOk(st', s)
    {
      assert SlotOk(st, s);
      QuietFresh(st, st', s, st.heap[s].created);
      if st.heap[s].value.Some? {
        GenuineLater(st.history, st'.history, st.heap[s].env, Complete(st.heap[s].value.value));
      }
    }
    forall t | t in st'.tasks
      ensures TaskOk(st', t) && RefresherOk(cfg, st', st'.tasks[t])
    {
      QuietTask(cfg, st, st', t);
    }
    forall t, e | t in st'.tasks && e in Covered(st'.tasks[t])
      ensures CoverOk(st', st'.tasks[t], e)
    {
      QuietCover(cfg, st, st', t, e);
    }
  }

  lemma QuietCover(cfg: Config, st: State, st': State, t: TaskId, e: EnvId)
    requires Inv(cfg, st) && Quiet(st, st')
    requires t in st'.tasks && e in Covered(st'.tasks[t])
    ensures CoverOk(st', st'.tasks[t], e)
  {
    assert t in st.tasks;
    assert CoverOk(st, st.tasks[t], e);
    var c := st.tasks[t].covered[e];
    if e in st.slots {
      QuietFresh(st, st', st.slots[e], c.since);
    }
    forall g | g in st'.tasks && st'.tasks[g].Get? && st'.tasks[g].env == e && st'.tasks[g].began >= c.from
      ensures GetSince(st', st'.tasks[g], c.since)
    {
      if g in st.tasks && HasSlot(st.tasks[g].pc) {
        QuietFresh(st, st', st.tasks[g].pc.slot, c.since);
      }
    }
  }

  lemma NextKeepsInv(cfg: Config, st: State, st': State)
    requires Inv(cfg, st) && Next(cfg, st, st')
    ensures Inv(cfg, st')
  {
    if t, fail, keys :| Act(cfg, st, t, fail, keys, st') {
      ActKeepsInv(cfg, st, t, fail, keys, st');
    } else {
      assert Quiet(st, st');
      QuietKeepsInv(cfg, st, st');
    }
  }

  /** The invariant holds in every state of every run. */
  lemma {:induction false} RunInv(cfg: Config, run: seq<State>, i: nat)
    requires Run(cfg, run) && i < |run|
    ensures Inv(cfg, run[i]) && run[i].now == i
  {
    if i > 0 {
      RunInv(cfg, run, i - 1);
      assert StepAt(cfg, run, i);
      NextKeepsInv(cfg, run[i - 1], run[i]);
    }
  }
}
