/** What the cache protocol guarantees, over every run. */
module SnapshotCacheTheorems {
  import opened FlagTypes
  import opened Snapshots
  import opened SnapshotCache
  import opened SnapshotCacheProof

  /** A filled slot stays filled, and a replacement was read entirely after what it replaced. */
  predicate Advances(before: Option<Loaded>, after: Option<Loaded>) {
    before.Some? ==>
      && after.Some?
      && (after == before || LoadedSince(after.value, before.value.experiments.at))
  }

  ghost predicate Forward(st: State, st': State) {
    && st.now <= st'.now
    && st.history <= st'.history
    && st.heap.Keys <= st'.heap.Keys
    && (forall s :: s in st.heap ==> Advances(st.heap[s].value, st'.heap[s].value))
    && st.tasks.Keys <= st'.tasks.Keys
    && (forall t :: t in st.tasks ==> Later(st.tasks[t], st'.tasks[t]))
    && (forall t :: t in st'.tasks && t !in st.tasks ==> st'.tasks[t].began >= st.now)
  }

  /** The same call at a later moment: once done it does not change, and what it noted stays noted. */
  ghost predicate Later(a: Task, b: Task) {
    && SameCall(a, b)
    && (a.pc.Done? ==> b == a)
    && (a.Refresher? ==> NotesKept(a, b) && DropNoted(a, b))
  }

  ghost predicate NotesKept(a: Task, b: Task)
    requires a.Refresher? && b.Refresher?
  {
    && a.covered.Keys <= b.covered.Keys
    && (forall e :: e in a.covered && a.covered[e].gone ==> b.covered[e] == a.covered[e])
  }

  /** A refresher that saw its environment deleted is still about to drop the slot, or has noted when it saw that. */
  ghost predicate DropNoted(a: Task, b: Task)
    requires a.Refresher? && b.Refresher?
  {
    a.pc.Dropping? && HasWork(a) && EnvOf(a) !in a.covered ==>
      || (b.pc == a.pc && b.queue == a.queue && b.covered == a.covered)
      || (EnvOf(a) in b.covered && b.covered[EnvOf(a)].gone && b.covered[EnvOf(a)].since == a.pc.sawAt)
  }

  /** The four parts were read in order, each at a moment when the database held just that. */
  ghost predicate ReadInOrder(history: seq<Database>, e: EnvId, l: Loaded) {
    && l.row.at <= l.flags.at <= l.segments.at <= l.experiments.at < |history| - 1
    && e in history[l.row.at] && l.row.value == history[l.row.at][e].row
    && l.flags.value == FlagsIn(history[l.flags.at], e)
    && l.segments.value == SegmentsIn(history[l.segments.at], e)
    && l.experiments.value == ExperimentsIn(history[l.experiments.at], e)
  }

  lemma GenuineOrdered(history: seq<Database>, e: EnvId, l: Loaded)
    requires Genuine(history, e, Complete(l))
    ensures ReadInOrder(history, e, l)
  {
  }

  lemma AdvancesTrans(history: seq<Database>, e: EnvId, a: Option<Loaded>, b: Option<Loaded>, c: Option<Loaded>)
    requires b.Some? ==> Genuine(history, e, Complete(b.value))
    requires Advances(a, b) && Advances(b, c)
    ensures Advances(a, c)
  {
    if b.Some? {
      GenuineOrdered(history, e, b.value);
    }
  }

  lemma ActLater(cfg: Config, st: State, t: TaskId, fail: bool, keys: seq<EnvId>, st': State)
    requires Act(cfg, st, t, fail, keys, st')
    ensures t in st'.tasks && Later(st.tasks[t], st'.tasks[t])
  {
    DecideSameCall(cfg, st, t, fail, keys);
    if st.tasks[t].Refresher? {
      ActNotes(cfg, st, t, fail, keys, st');
    }
  }

  lemma ActNotes(cfg: Config, st: State, t: TaskId, fail: bool, keys: seq<EnvId>, st': State)
    requires Act(cfg, st, t, fail, keys, st') && st.tasks[t].Refresher?
    ensures t in st'.tasks && st'.tasks[t].Refresher?
    ensures NotesKept(st.tasks[t], st'.tasks[t]) && DropNoted(st.tasks[t], st'.tasks[t])
  {
    DecideNotes(cfg, st, t, fail, keys);
    ActTask(cfg, st, t, fail, keys, st');
  }

  lemma DecideNotes(cfg: Config, st: State, t: TaskId, fail: bool, keys: seq<EnvId>)
    requires Enabled(st, t) && st.tasks[t].Refresher?
    ensures
      var b := DecideRefresh(cfg, st, t, fail, keys).task;
      b.Refresher? && NotesKept(st.tasks[t], b) && DropNoted(st.tasks[t], b)
  {
  }

  lemma ActAdvances(cfg: Config, st: State, t: TaskId, fail: bool, keys: seq<EnvId>, st': State, s: SlotId)
    requires TaskOk(st, t) && SlotOk(st, s) && Act(cfg, st, t, fail, keys, st')
    ensures s in st'.heap && Advances(st.heap[s].value, st'.heap[s].value)
  {
    ActValue(cfg, st, t, fail, keys, st', s);
  }

  lemma ActForward(cfg: Config, st: State, t: TaskId, fail: bool, keys: seq<EnvId>, st': State)
    requires Inv(cfg, st) && Act(cfg, st, t, fail, keys, st')
    ensures Forward(st, st')
  {
    ActElsewhere(cfg, st, t, fail, keys, st');
    ActLater(cfg, st, t, fail, keys, st');
    assert TaskOk(st, t);
    forall s | s in st.heap
      ensures s in st'.heap && Advances(st.heap[s].value, st'.heap[s].value)
    {
      assert SlotOk(st, s);
      ActAdvances(cfg, st, t, fail, keys, st', s);
    }
    ForwardFrom(st, t, st');
  }

  lemma ForwardFrom(st: State, t: TaskId, st': State)
    requires Elsewhere(st, t, st') && Later(st.tasks[t], st'.tasks[t])
    requires forall s :: s in st.heap ==> s in st'.heap && Advances(st.heap[s].value, st'.heap[s].value)
    ensures Forward(st, st')
  {
  }

  lemma StepForward(cfg: Config, st: State, st': State)
    requires Inv(cfg, st) && Next(cfg, st, st')
    ensures Forward(st, st')
  {
    if t, fail, keys :| Act(cfg, st, t, fail, keys, st') {
      ActForward(cfg, st, t, fail, keys, st');
    } else {
      assert Quiet(st, st');
    }
  }

  lemma TaskKept(st: State, st': State, t: TaskId)
    requires Forward(st, st') && t in st.tasks
    ensures t in st'.tasks && Later(st.tasks[t], st'.tasks[t])
  {
  }

  lemma {:induction false} RunForward(cfg: Config, run: seq<State>, i: nat, j: nat)
    requires Run(cfg, run) && i <= j < |run|
    ensures Forward(run[i], run[j])
    decreases j
  {
    if i < j {
      RunForward(cfg, run, i, j - 1);
      ForwardOnce(cfg, run, run[i], j);
    } else {
      ForwardSame(run[i]);
    }
  }

  lemma ForwardSame(st: State)
    ensures Forward(st, st)
  {
  }

  lemma ForwardOnce(cfg: Config, run: seq<State>, st: State, j: nat)
    requires Run(cfg, run) && 0 < j < |run| && Forward(st, run[j - 1])
    ensures Forward(st, run[j])
  {
    RunInv(cfg, run, j - 1);
    assert StepAt(cfg, run, j);
    StepForward(cfg, run[j - 1], run[j]);
    ForwardTrans(cfg, st, run[j - 1], run[j]);
  }

  lemma ForwardTrans(cfg: Config, st: State, mid: State, st': State)
    requires Inv(cfg, mid) && Forward(st, mid) && Forward(mid, st')
    ensures Forward(st, st')
  {
    forall s | s in st.heap
      ensures Advances(st.heap[s].value, st'.heap[s].value)
    {
      assert SlotOk(mid, s);
      AdvancesTrans(mid.history, mid.heap[s].env, st.heap[s].value, mid.heap[s].value, st'.heap[s].value);
    }
    forall t | t in st.tasks
      ensures Later(st.tasks[t], st'.tasks[t])
    {
      assert Later(st.tasks[t], mid.tasks[t]) && Later(mid.tasks[t], st'.tasks[t]);
    }
  }

  // ------------------------------------------------- a refresher's errands --

  /**
   * A refresher visits each environment once, and notes it only when it is done
   * with it; a single refresh that failed has noted nothing.
   */
  ghost predicate Orderly(cfg: Config, task: Task) {
    task.Refresher? ==>
      && NoRepeats(task.queue)
      && (task.pc.Collect? ==> task.covered == map[] && forall e :: e in task.queue ==> cfg.shardOf(e) < task.pc.shard)
      && (forall i :: 0 <= i < |task.queue| && task.queue[i] in task.covered ==> i == 0 && task.pc.Releasing?)
      && (task.goal.Some? ==>
        && |task.queue| <= 1 && !task.pc.Collect?
        && (task.failed || task.covered != map[] ==> task.queue == [] || task.pc.Releasing?)
        && (task.failed ==> task.covered == map[]))
  }

  lemma CollectOrderly(cfg: Config, st: State, t: TaskId, fail: bool, keys: seq<EnvId>, st': State)
    requires Act(cfg, st, t, fail, keys, st') && st.tasks[t].pc.Collect? && Orderly(cfg, st.tasks[t])
    ensures Orderly(cfg, st'.tasks[t])
  {
    var q, q' := st.tasks[t].queue, st'.tasks[t].queue;
    if st.tasks[t].pc.shard < cfg.shards {
      assert q' == q + keys;
      assert forall i :: 0 <= i < |q'| ==> if i < |q| then q'[i] in q else q'[i] in keys;
    }
  }

  lemma ActOrderly(cfg: Config, st: State, t: TaskId, fail: bool, keys: seq<EnvId>, st': State)
    requires Act(cfg, st, t, fail, keys, st') && Orderly(cfg, st.tasks[t])
    ensures t in st'.tasks && Orderly(cfg, st'.tasks[t])
  {
    if st.tasks[t].Refresher? && st.tasks[t].pc.Collect? {
      CollectOrderly(cfg, st, t, fail, keys, st');
    } else if st.tasks[t].Refresher? {
      ActErrand(cfg, st, t, fail, keys, st');
      ErrandOrderly(cfg, st.tasks[t], st'.tasks[t]);
    }
  }

  /** The ways a refresher moves once it has its queue: on, failing, done with an environment, or past it. */
  ghost predicate Errand(a: Task, b: Task)
    requires a.Refresher? && b.Refresher?
  {
    || (b == GoTo(a, b.pc) && !a.pc.Releasing? && !b.pc.Collect?)
    || (a.queue != [] && !a.pc.Releasing? && b.pc.Releasing? && b == GoTo(a.(failed := true), b.pc))
    || (a.queue != [] && !a.pc.Releasing? && b.pc.Releasing? && b == GoTo(a.(covered := b.covered), b.pc) && Notes(a, b))
    || (a.queue != [] && a.pc.Begin? && b == GoTo(a.(covered := b.covered, queue := a.queue[1..]), Begin) && Notes(a, b))
    || (a.queue != [] && a.pc.Releasing? && b == GoTo(a.(queue := a.queue[1..]), Begin))
  }

  /** It notes the environment at the head of its queue. */
  ghost predicate Notes(a: Task, b: Task)
    requires a.Refresher? && b.Refresher?
  {
    a.queue != [] && b.covered.Keys == a.covered.Keys + {a.queue[0]}
  }

  lemma ActErrand(cfg: Config, st: State, t: TaskId, fail: bool, keys: seq<EnvId>, st': State)
    requires Act(cfg, st, t, fail, keys, st') && st.tasks[t].Refresher? && !st.tasks[t].pc.Collect?
    ensures t in st'.tasks && st'.tasks[t].Refresher? && Errand(st.tasks[t], st'.tasks[t])
  {
    DecideErrand(cfg, st, t, fail, keys);
    ActTask(cfg, st, t, fail, keys, st');
  }

  lemma DecideErrand(cfg: Config, st: State, t: TaskId, fail: bool, keys: seq<EnvId>)
    requires Enabled(st, t) && st.tasks[t].Refresher? && !st.tasks[t].pc.Collect?
    ensures
      var b := DecideRefresh(cfg, st, t, fail, keys).task;
      b.Refresher? && Errand(st.tasks[t], b)
  {
  }

  lemma ErrandOrderly(cfg: Config, a: Task, b: Task)
    requires a.Refresher? && b.Refresher? && !a.pc.Collect? && Errand(a, b) && Orderly(cfg, a)
    ensures Orderly(cfg, b)
  {
    if a.queue != [] && b.queue == a.queue[1..] {
      assert forall i :: 0 <= i < |b.queue| ==> b.queue[i] == a.queue[i + 1];
    }
  }

  lemma {:induction false} RunOrderly(cfg: Config, run: seq<State>, i: nat, t: TaskId)
    requires Run(cfg, run) && i < |run| && t in run[i].tasks
    ensures Orderly(cfg, run[i].tasks[t])
    decreases i
  {
    if i > 0 {
      if t in run[i - 1].tasks {
        RunOrderly(cfg, run, i - 1, t);
      }
      RunKeepsOrder(cfg, run, i);
    }
  }

  ghost predicate KeepsOrder(cfg: Config, st: State, st': State) {
    forall t :: t in st'.tasks && (t in st.tasks ==> Orderly(cfg, st.tasks[t])) ==> Orderly(cfg, st'.tasks[t])
  }

  lemma RunKeepsOrder(cfg: Config, run: seq<State>, i: nat)
    requires Run(cfg, run) && 0 < i < |run|
    ensures KeepsOrder(cfg, run[i - 1], run[i])
  {
    RunInv(cfg, run, i - 1);
    assert StepAt(cfg, run, i);
    NextKeepsOrder(cfg, run[i - 1], run[i]);
  }

  lemma NextKeepsOrder(cfg: Config, st: State, st': State)
    requires Inv(cfg, st) && Next(cfg, st, st')
    ensures KeepsOrder(cfg, st, st')
  {
    if u, fail, keys :| Act(cfg, st, u, fail, keys, st') {
      forall t | t in st'.tasks && (t in st.tasks ==> Orderly(cfg, st.tasks[t]))
        ensures Orderly(cfg, st'.tasks[t])
      {
        AnyActOrderly(cfg, st, u, fail, keys, st', t);
      }
    } else {
      assert Quiet(st, st');
    }
  }

  lemma AnyActOrderly(cfg: Config, st: State, u: TaskId, fail: bool, keys: seq<EnvId>, st': State, t: TaskId)
    requires Inv(cfg, st) && Act(cfg, st, u, fail, keys, st') && t in st'.tasks
    requires t in st.tasks ==> Orderly(cfg, st.tasks[t])
    ensures Orderly(cfg, st'.tasks[t])
  {
    ActElsewhere(cfg, st, u, fail, keys, st');
    if u == t {
      ActOrderly(cfg, st, t, fail, keys, st');
    }
  }

  // -------------------------------------------------------------- theorems --

  /** A successful `get`, as observed. */
  predicate Returned(st: State, g: TaskId, e: EnvId, l: Loaded) {
    g in st.tasks && st.tasks[g].Get? && st.tasks[g].env == e && st.tasks[g].pc == Done(Found(l))
  }

  /** A `refresh(e)` that ran to its end without a database error. */
  predicate Refreshed(st: State, r: TaskId, e: EnvId) {
    && r in st.tasks && st.tasks[r].Refresher? && st.tasks[r].goal == Some(e)
    && st.tasks[r].pc.Done? && !st.tasks[r].failed
  }

  /** A `refresh_all()` that ran to its end without a database error. */
  predicate Swept(st: State, w: TaskId) {
    && w in st.tasks && st.tasks[w].Refresher? && st.tasks[w].goal.None?
    && st.tasks[w].pc.Done? && !st.tasks[w].failed
  }

  /**
   * Read your writes. Whatever was committed by time i, a refresh called after
   * it and finished by j, and a get called after that: the snapshot the get
   * returns was read, in all four parts, at time i or later, and each part is
   * what the database held at its moment.
   */
  lemma ReadYourWrites(cfg: Config, run: seq<State>, i: nat, j: nat, k: nat, r: TaskId, g: TaskId, e: EnvId, l: Loaded)
    requires Run(cfg, run) && i <= j <= k < |run|
    requires r !in run[i].tasks && Refreshed(run[j], r, e)
    requires g !in run[j].tasks && Returned(run[k], g, e, l)
    ensures LoadedSince(l, i)
    ensures Genuine(run[k].history, e, Complete(l)) && ReadInOrder(run[k].history, e, l)
  {
    NothingMadeUp(cfg, run, k);
    RunInv(cfg, run, i);
    RunInv(cfg, run, j);
    RunInv(cfg, run, k);
    RunForward(cfg, run, i, j);
    RunForward(cfg, run, j, k);
    var task := run[j].tasks[r];
    assert RefresherOk(cfg, run[j], task);
    assert Later(task, run[k].tasks[r]);
    assert e in Covered(run[k].tasks[r]);
    assert CoverOk(run[k], run[k].tasks[r], e);
    assert e in Covered(run[j].tasks[r]);
    assert CoverOk(run[j], run[j].tasks[r], e);
    assert TaskOk(run[k], g);
  }

  /** At every moment, whatever a slot holds and whatever a get has answered was read part by part from the database. */
  lemma NothingMadeUp(cfg: Config, run: seq<State>, i: nat)
    requires Run(cfg, run) && i < |run|
    ensures forall s :: s in run[i].heap && run[i].heap[s].value.Some? ==>
              ReadInOrder(run[i].history, run[i].heap[s].env, run[i].heap[s].value.value)
    ensures forall g, e, l :: Returned(run[i], g, e, l) ==> ReadInOrder(run[i].history, e, l)
  {
    RunInv(cfg, run, i);
    forall s | s in run[i].heap && run[i].heap[s].value.Some?
      ensures ReadInOrder(run[i].history, run[i].heap[s].env, run[i].heap[s].value.value)
    {
      assert SlotOk(run[i], s);
      GenuineOrdered(run[i].history, run[i].heap[s].env, run[i].heap[s].value.value);
    }
    forall g, e, l | Returned(run[i], g, e, l)
      ensures ReadInOrder(run[i].history, e, l)
    {
      assert TaskOk(run[i], g);
      GenuineOrdered(run[i].history, e, l);
    }
  }

  /** No id is used again after its environment is gone. */
  lemma {:induction false} NoReuse(cfg: Config, run: seq<State>, k: nat, e: EnvId, m: nat, s: nat, n: nat)
    requires Run(cfg, run) && k < |run|
    requires m <= s <= n < |run[k].history|
    requires e in run[k].history[m] && e !in run[k].history[s]
    ensures e !in run[k].history[n]
    decreases k
  {
    HistoryLength(cfg, run, k);
    if s < n {
      HistoryOnce(cfg, run, k);
      NoReuse(cfg, run, k - 1, e, m, s, n - 1);
      if n < k {
        NoReuse(cfg, run, k - 1, e, m, s, n);
      }
    }
  }

  lemma HistoryLength(cfg: Config, run: seq<State>, k: nat)
    requires Run(cfg, run) && k < |run|
    ensures |run[k].history| == k + 1
  {
    RunInv(cfg, run, k);
  }

  lemma HistoryOnce(cfg: Config, run: seq<State>, k: nat)
    requires Run(cfg, run) && 0 < k < |run|
    ensures
      var h, h' := run[k - 1].history, run[k].history;
      && |h| == k && |h'| == k + 1 && (forall x :: 0 <= x < k ==> h'[x] == h[x])
      && (forall e, x :: e in h'[k] && e !in h[k - 1] && 0 <= x < k ==> e !in h[x])
  {
    HistoryLength(cfg, run, k - 1);
    RunInv(cfg, run, k - 1);
    assert StepAt(cfg, run, k);
    HistoryStep(cfg, run[k - 1], run[k]);
  }

  lemma HistoryStep(cfg: Config, st: State, st': State)
    requires |st.history| == st.now + 1 && Next(cfg, st, st')
    ensures |st'.history| == |st.history| + 1 && st.history <= st'.history
    ensures forall e, x :: e in st'.history[st'.now] && e !in st.history[st.now] && 0 <= x < |st.history| ==> e !in st.history[x]
    ensures st'.now == st.now + 1
  {
    if t, fail, keys :| Act(cfg, st, t, fail, keys, st') {
      var eff := Decide(cfg, st, t, fail, keys);
      assert st'.history == st.history + [Now(st)];
    }
  }

  predicate Live(st: State, e: EnvId) {
    |st.history| == st.now + 1 && e in st.history[st.now]
  }

  /** What was read since the deletion of `e` cannot be a snapshot of `e`. */
  lemma GoneNotRead(cfg: Config, run: seq<State>, k: nat, e: EnvId, m: nat, s: nat, l: Loaded)
    requires Run(cfg, run) && m <= s && m <= k < |run| && s < |run[k].history|
    requires Live(run[m], e) && e !in run[k].history[s]
    ensures !(LoadedSince(l, s) && Genuine(run[k].history, e, Complete(l)))
  {
    RunInv(cfg, run, m);
    RunForward(cfg, run, m, k);
    if LoadedSince(l, s) && Genuine(run[k].history, e, Complete(l)) {
      GenuineOrdered(run[k].history, e, l);
      NoReuse(cfg, run, k, e, m, s, l.row.at);
    }
  }

  /** After a deletion and a refresh that followed it, no new get returns a snapshot. */
  lemma DeletedNotServed(cfg: Config, run: seq<State>, m: nat, i: nat, j: nat, k: nat, r: TaskId, g: TaskId, e: EnvId, l: Loaded)
    requires Run(cfg, run) && m <= i <= j <= k < |run|
    requires Live(run[m], e) && !Live(run[i], e)
    requires r !in run[i].tasks && Refreshed(run[j], r, e)
    requires g !in run[j].tasks
    ensures !Returned(run[k], g, e, l)
  {
    RunInv(cfg, run, i);
    RunForward(cfg, run, i, k);
    GoneNotRead(cfg, run, k, e, m, i, l);
    if Returned(run[k], g, e, l) {
      ReadYourWrites(cfg, run, i, j, k, r, g, e, l);
    }
  }

  /** A noted deletion at j keeps every later get from returning a snapshot. */
  lemma NotedDeletion(cfg: Config, run: seq<State>, m: nat, j: nat, k: nat, r: TaskId, g: TaskId, e: EnvId, l: Loaded)
    requires Run(cfg, run) && m <= j <= k < |run|
    requires r in run[j].tasks && e in Covered(run[j].tasks[r]) && run[j].tasks[r].covered[e].gone
    requires Live(run[m], e) && m <= run[j].tasks[r].covered[e].since
    requires g !in run[j].tasks
    ensures !Returned(run[k], g, e, l)
  {
    RunInv(cfg, run, j);
    RunInv(cfg, run, k);
    RunForward(cfg, run, j, k);
    var b, c := run[j].tasks[r], run[k].tasks[r];
    assert Later(b, c);
    assert e in Covered(b) && e in Covered(c);
    assert CoverOk(run[j], b, e) && CoverOk(run[k], c, e);
    GoneNotRead(cfg, run, k, e, m, c.covered[e].since, l);
    assert g in run[k].tasks ==> TaskOk(run[k], g);
  }

  /**
   * A refresh, single or part of a sweep, that finds an environment that once
   * was there deleted, and removes the slot: no get called after that returns a
   * snapshot, whenever the refresh or the sweep began.
   */
  lemma DeletionIsFinal(cfg: Config, run: seq<State>, m: nat, i: nat, j: nat, k: nat, r: TaskId, g: TaskId, e: EnvId, l: Loaded)
    requires Run(cfg, run) && m <= i <= j <= k < |run|
    requires r in run[i].tasks && run[i].tasks[r].Refresher? && run[i].tasks[r].pc.Dropping?
    requires HasWork(run[i].tasks[r]) && EnvOf(run[i].tasks[r]) == e
    requires Live(run[m], e) && m <= run[i].tasks[r].pc.sawAt
    requires r in run[j].tasks && run[j].tasks[r].pc != run[i].tasks[r].pc
    requires g !in run[j].tasks
    ensures !Returned(run[k], g, e, l)
  {
    RunOrderly(cfg, run, i, r);
    RunForward(cfg, run, i, j);
    assert Later(run[i].tasks[r], run[j].tasks[r]);
    NotedDeletion(cfg, run, m, j, k, r, g, e, l);
  }

  /** At any moment at most one load is in flight per slot, and at most one get ever filled it. */
  lemma SingleFlight(cfg: Config, run: seq<State>, i: nat)
    requires Run(cfg, run) && i < |run|
    ensures forall t, u, s :: t in run[i].tasks && u in run[i].tasks
                              && LoadsInto(run[i].tasks[t], s) && LoadsInto(run[i].tasks[u], s)
              ==> t == u
    ensures forall s :: s in run[i].heap ==> run[i].heap[s].getStores <= 1
  {
    RunInv(cfg, run, i);
    forall t, u, s | t in run[i].tasks && u in run[i].tasks
                     && LoadsInto(run[i].tasks[t], s) && LoadsInto(run[i].tasks[u], s)
      ensures t == u
    {
      HolderUnique(cfg, run[i], t, u);
    }
    forall s | s in run[i].heap
      ensures run[i].heap[s].getStores <= 1
    {
      assert SlotOk(run[i], s);
    }
  }

  /**
   * Slots only move forward: a filled slot never empties, and what replaces a
   * snapshot was read, part by part, no earlier.
   */
  lemma SlotsMoveForward(cfg: Config, run: seq<State>, i: nat, j: nat, s: SlotId)
    requires Run(cfg, run) && i <= j < |run|
    requires s in run[i].heap && run[i].heap[s].value.Some?
    ensures s in run[j].heap && run[j].heap[s].value.Some?
    ensures
      var a, b := run[i].heap[s].value.value, run[j].heap[s].value.value;
      a.row.at <= b.row.at && a.flags.at <= b.flags.at && a.segments.at <= b.segments.at && a.experiments.at <= b.experiments.at
  {
    RunForward(cfg, run, i, j);
    RunInv(cfg, run, i);
    assert SlotOk(run[i], s);
    GenuineOrdered(run[i].history, run[i].heap[s].env, run[i].heap[s].value.value);
    assert Advances(run[i].heap[s].value, run[j].heap[s].value);
  }

  /** Nothing the cache serves from differs: the same slots under the same keys, holding the same snapshots. */
  ghost predicate SameCache(st: State, st': State) {
    && st'.slots == st.slots && st'.heap.Keys == st.heap.Keys
    && forall s :: s in st.heap ==> st'.heap[s].value == st.heap[s].value
  }

  /** A refresher that changes the cache notes the environment it changed it for. */
  lemma ChangesAreNoted(cfg: Config, st: State, t: TaskId, fail: bool, keys: seq<EnvId>, st': State)
    requires Act(cfg, st, t, fail, keys, st') && st.tasks[t].Refresher?
    ensures SameCache(st, st') || (st'.tasks[t].Refresher? && st'.tasks[t].covered != map[])
  {
    if st.tasks[t].pc.Dropping? || (st.tasks[t].pc.Loading? && st.tasks[t].pc.progress.Complete?) {
      assert EnvOf(st.tasks[t]) in st'.tasks[t].covered;
    }
  }

  /** A refresh that comes to fail has, at none of its steps, changed the slot map or what any slot holds. */
  lemma FailedRefreshChangesNothing(cfg: Config, run: seq<State>, i: nat, j: nat, r: TaskId, fail: bool, keys: seq<EnvId>)
    requires Run(cfg, run) && i < j < |run| && Act(cfg, run[i], r, fail, keys, run[i + 1])
    requires r in run[j].tasks && run[j].tasks[r].Refresher? && run[j].tasks[r].goal.Some? && run[j].tasks[r].failed
    ensures SameCache(run[i], run[i + 1])
  {
    ActTask(cfg, run[i], r, fail, keys, run[i + 1]);
    FailedNotedNothing(cfg, run, i + 1, j, r);
    StepOfRefresher(cfg, run[i], r, fail, keys, run[i + 1]);
  }

  lemma FailedNotedNothing(cfg: Config, run: seq<State>, n: nat, j: nat, r: TaskId)
    requires Run(cfg, run) && n <= j < |run| && r in run[n].tasks
    requires r in run[j].tasks && run[j].tasks[r].Refresher? && run[j].tasks[r].goal.Some? && run[j].tasks[r].failed
    ensures run[n].tasks[r].Refresher? && run[n].tasks[r].covered == map[]
  {
    RunForward(cfg, run, n, j);
    TaskKept(run[n], run[j], r);
    RunOrderly(cfg, run, j, r);
  }

  lemma StepOfRefresher(cfg: Config, st: State, t: TaskId, fail: bool, keys: seq<EnvId>, st': State)
    requires Act(cfg, st, t, fail, keys, st') && t in st'.tasks && st'.tasks[t].Refresher? && st'.tasks[t].covered == map[]
    ensures SameCache(st, st')
  {
    DecideSameCall(cfg, st, t, fail, keys);
    ActTask(cfg, st, t, fail, keys, st');
    ChangesAreNoted(cfg, st, t, fail, keys, st');
  }

  /** What a load read since time T is what the database held throughout, if nothing was committed since T. */
  lemma QuietLoadAgrees(history: seq<Database>, e: EnvId, l: Loaded, T: Time)
    requires Genuine(history, e, Complete(l)) && LoadedSince(l, T) && T < |history|
    requires forall n :: T <= n < |history| ==> history[n] == history[T]
    ensures e in history[T]
    ensures history[T][e] == Contents(l.row.value, l.flags.value, l.segments.value, l.experiments.value)
  {
    GenuineOrdered(history, e, l);
  }

  /**
   * Sweep convergence. If nothing is committed after time i, a sweep called
   * after i and finished without error leaves every filled slot of the map,
   * including those created while it ran, equal to the database, for good.
   */
  lemma SweepConverges(cfg: Config, run: seq<State>, i: nat, j: nat, k: nat, w: TaskId, e: EnvId)
    requires Run(cfg, run) && i <= j <= k < |run|
    requires w !in run[i].tasks && Swept(run[j], w)
    requires i < |run[k].history| && forall n :: i <= n < |run[k].history| ==> run[k].history[n] == run[k].history[i]
    requires e in run[k].slots && run[k].slots[e] in run[k].heap && run[k].heap[run[k].slots[e]].value.Some?
    ensures
      var l := run[k].heap[run[k].slots[e]].value.value;
      var db := run[k].history[i];
      e in db && db[e] == Contents(l.row.value, l.flags.value, l.segments.value, l.experiments.value)
  {
    var s := run[k].slots[e];
    SweptMapIsFresh(cfg, run, i, j, k, w, e);
    RunInv(cfg, run, k);
    assert SlotOk(run[k], s);
    QuietLoadAgrees(run[k].history, e, run[k].heap[s].value.value, i);
  }

  /** After a finished sweep, whatever slot the map has for an environment holds nothing read before the sweep was called. */
  lemma SweptMapIsFresh(cfg: Config, run: seq<State>, i: nat, j: nat, k: nat, w: TaskId, e: EnvId)
    requires Run(cfg, run) && i <= j <= k < |run|
    requires w !in run[i].tasks && Swept(run[j], w) && e in run[k].slots
    ensures Fresh(run[k], run[k].slots[e], i)
  {
    RunInv(cfg, run, i);
    RunInv(cfg, run, k);
    RunForward(cfg, run, i, j);
    RunForward(cfg, run, j, k);
    var task := run[k].tasks[w];
    var s := run[k].slots[e];
    assert Later(run[j].tasks[w], task);
    assert RefresherOk(cfg, run[k], task);
    assert SlotOk(run[k], s);
    if e in task.covered {
      assert e in Covered(task);
      assert CoverOk(run[k], task, e);
      FreshWeaken(run[k], s, task.covered[e].since, i);
    } else {
      FreshWeaken(run[k], s, run[k].heap[s].created, i);
    }
  }

  /** A get called after a finished sweep never touches anything read before the sweep was called. */
  lemma {:induction false} GetAfterSweep(cfg: Config, run: seq<State>, i: nat, j: nat, k: nat, w: TaskId, g: TaskId)
    requires Run(cfg, run) && i <= j < k < |run|
    requires w !in run[i].tasks && Swept(run[j], w)
    requires g !in run[j].tasks && g in run[k].tasks && run[k].tasks[g].Get?
    ensures GetSince(run[k], run[k].tasks[g], i)
    decreases k
  {
    if g in run[k - 1].tasks && run[k - 1].tasks[g].Get? {
      GetAfterSweep(cfg, run, i, j, k - 1, w, g);
      if run[k - 1].tasks[g].env in run[k - 1].slots {
        SweptMapIsFresh(cfg, run, i, j, k - 1, w, run[k - 1].tasks[g].env);
      }
    }
    RunCarries(cfg, run, k, i);
  }

  ghost predicate SafeGet(st: State, g: TaskId, T: Time) {
    && g in st.tasks && st.tasks[g].Get? && GetSince(st, st.tasks[g], T)
    && (st.tasks[g].env in st.slots ==> Fresh(st, st.slots[st.tasks[g].env], T))
  }

  /** A get that is safe to answer stays so, and a new one is. */
  ghost predicate Carries(st: State, st': State, T: Time) {
    forall g :: g in st'.tasks && st'.tasks[g].Get? && (g in st.tasks && st.tasks[g].Get? ==> SafeGet(st, g, T)) ==>
      GetSince(st', st'.tasks[g], T)
  }

  lemma StepCarries(cfg: Config, st: State, st': State, T: Time)
    requires Inv(cfg, st) && Next(cfg, st, st') && T <= st.now
    ensures Carries(st, st', T)
  {
    StepForward(cfg, st, st');
    forall g | g in st'.tasks && st'.tasks[g].Get? && (g in st.tasks && st.tasks[g].Get? ==> SafeGet(st, g, T))
      ensures GetSince(st', st'.tasks[g], T)
    {
      if g in st.tasks {
        TaskKept(st, st', g);
        GetSinceNext(cfg, st, st', g, T);
      } else {
        NewGetSince(cfg, st, st', g, T);
      }
    }
  }

  lemma RunCarries(cfg: Config, run: seq<State>, k: nat, T: Time)
    requires Run(cfg, run) && T < k < |run|
    ensures Carries(run[k - 1], run[k], T)
  {
    RunInv(cfg, run, k - 1);
    assert StepAt(cfg, run, k);
    StepCarries(cfg, run[k - 1], run[k], T);
  }

  lemma GetSinceNext(cfg: Config, st: State, st': State, g: TaskId, T: Time)
    requires Inv(cfg, st) && Next(cfg, st, st')
    requires g in st.tasks && st.tasks[g].Get? && T <= st.now && GetSince(st, st.tasks[g], T)
    requires st.tasks[g].env in st.slots ==> Fresh(st, st.slots[st.tasks[g].env], T)
    ensures g in st'.tasks && GetSince(st', st'.tasks[g], T)
  {
    if t, fail, keys :| Act(cfg, st, t, fail, keys, st') {
      GetSinceStable(cfg, st, t, fail, keys, st', g, T);
    } else {
      assert Quiet(st, st');
      if HasSlot(st.tasks[g].pc) {
        QuietFresh(st, st', st.tasks[g].pc.slot, T);
      }
    }
  }

  /** A new call has touched nothing yet. */
  lemma NewGetSince(cfg: Config, st: State, st': State, g: TaskId, T: Time)
    requires Inv(cfg, st) && Next(cfg, st, st') && g !in st.tasks && g in st'.tasks && st'.tasks[g].Get?
    ensures GetSince(st', st'.tasks[g], T)
  {
    if t, fail, keys :| Act(cfg, st, t, fail, keys, st') {
      ActElsewhere(cfg, st, t, fail, keys, st');
      assert false;
    }
  }

  /**
   * Read your writes through a sweep, with commits going on all the while: a get
   * called after a finished `refresh_all` that was called after time i returns a
   * snapshot read, in all four parts, at time i or later.
   */
  lemma SweepReadsWrites(cfg: Config, run: seq<State>, i: nat, j: nat, k: nat, w: TaskId, g: TaskId, e: EnvId, l: Loaded)
    requires Run(cfg, run) && i <= j <= k < |run|
    requires w !in run[i].tasks && Swept(run[j], w)
    requires g !in run[j].tasks && Returned(run[k], g, e, l)
    ensures LoadedSince(l, i) && ReadInOrder(run[k].history, e, l)
  {
    assert j < k;
    GetAfterSweep(cfg, run, i, j, k, w, g);
    NothingMadeUp(cfg, run, k);
  }

  /** With no commit after i, a get that follows a finished refresh answers with the database's own contents. */
  lemma RefreshConverges(cfg: Config, run: seq<State>, i: nat, j: nat, k: nat, r: TaskId, g: TaskId, e: EnvId, l: Loaded)
    requires Run(cfg, run) && i <= j <= k < |run|
    requires r !in run[i].tasks && Refreshed(run[j], r, e)
    requires g !in run[j].tasks && Returned(run[k], g, e, l)
    requires i < |run[k].history| && forall n :: i <= n < |run[k].history| ==> run[k].history[n] == run[k].history[i]
    ensures
      var db := run[k].history[i];
      && e in db
      && Build(l.row.value, l.flags.value, l.segments.value, l.experiments.value)
         == Build(db[e].row, db[e].flags, db[e].segments, db[e].experiments)
  {
    ReadYourWrites(cfg, run, i, j, k, r, g, e, l);
    QuietLoadAgrees(run[k].history, e, l, i);
  }

  // ------------------------------------------------------ what a get answers --

  /** At some moment since the call the environment was not in the database. */
  ghost predicate Missed(history: seq<Database>, e: EnvId, since: Time) {
    exists n: nat :: since <= n < |history| && e !in history[n]
  }

  /** A get that says the environment does not exist has seen that it did not. */
  ghost predicate Excused(st: State, g: TaskId) {
    g in st.tasks && st.tasks[g].Get? && HasOutcome(st.tasks[g].pc) ==>
      !st.tasks[g].pc.outcome.Finished?
      && (st.tasks[g].pc.outcome.NotFound? ==> Missed(st.history, st.tasks[g].env, st.tasks[g].began))
  }

  lemma MissedLater(history: seq<Database>, history': seq<Database>, e: EnvId, since: Time)
    requires history <= history' && Missed(history, e, since)
    ensures Missed(history', e, since)
  {
    var n: nat :| since <= n < |history| && e !in history[n];
    assert e !in history'[n];
  }

  /** The outcome of a get, and the query error it came from. */
  lemma DecideOutcome(st: State, t: TaskId, fail: bool)
    requires Enabled(st, t) && st.tasks[t].Get?
    ensures
      var a, b := st.tasks[t], DecideGet(st, t, fail).task;
      && b.Get? && b.env == a.env && b.began == a.began
      && (HasOutcome(b.pc) && !(HasOutcome(a.pc) && b.pc.outcome == a.pc.outcome) ==>
        || b.pc.outcome.Found?
        || (b.pc.outcome == NotFound && a.env !in Now(st))
        || (b.pc.outcome == DbError && fail && a.pc.Loading?))
  {
  }

  lemma ActExcused(cfg: Config, st: State, t: TaskId, fail: bool, keys: seq<EnvId>, st': State, g: TaskId)
    requires Inv(cfg, st) && Act(cfg, st, t, fail, keys, st') && Excused(st, g)
    ensures Excused(st', g)
  {
    ActElsewhere(cfg, st, t, fail, keys, st');
    if g in st'.tasks && st'.tasks[g].Get? && HasOutcome(st'.tasks[g].pc) {
      if g == t {
        assert TaskOk(st, g);
        ActTask(cfg, st, t, fail, keys, st');
        DecideOutcome(st, t, fail);
        if st.tasks[g].env !in Now(st) {
          assert Missed(st'.history, st.tasks[g].env, st.tasks[g].began) by {
            assert st'.history[st.now] == Now(st);
          }
        }
      }
      if HasOutcome(st.tasks[g].pc) && st.tasks[g].pc.outcome.NotFound? {
        MissedLater(st.history, st'.history, st.tasks[g].env, st.tasks[g].began);
      }
    }
  }

  lemma NextExcused(cfg: Config, st: State, st': State)
    requires Inv(cfg, st) && Next(cfg, st, st')
    ensures KeepsExcuses(st, st')
  {
    if t, fail, keys :| Act(cfg, st, t, fail, keys, st') {
      ActElsewhere(cfg, st, t, fail, keys, st');
      forall g | g in st'.tasks && Excused(st, g)
        ensures Excused(st', g)
      {
        ActExcused(cfg, st, t, fail, keys, st', g);
      }
    } else {
      assert Quiet(st, st');
      forall g | g in st'.tasks && Excused(st, g)
        ensures Excused(st', g)
      {
        QuietExcused(st, st', g);
      }
    }
  }

  ghost predicate KeepsExcuses(st: State, st': State) {
    forall g :: g in st'.tasks && Excused(st, g) ==> Excused(st', g)
  }

  lemma QuietExcused(st: State, st': State, g: TaskId)
    requires Quiet(st, st') && Excused(st, g)
    ensures Excused(st', g)
  {
    if g in st.tasks && st.tasks[g].Get? && HasOutcome(st.tasks[g].pc) && st.tasks[g].pc.outcome.NotFound? {
      MissedLater(st.history, st'.history, st.tasks[g].env, st.tasks[g].began);
    }
  }

  lemma RunKeepsExcuses(cfg: Config, run: seq<State>, k: nat)
    requires Run(cfg, run) && 0 < k < |run|
    ensures KeepsExcuses(run[k - 1], run[k])
  {
    RunInv(cfg, run, k - 1);
    assert StepAt(cfg, run, k);
    NextExcused(cfg, run[k - 1], run[k]);
  }

  lemma {:induction false} RunExcused(cfg: Config, run: seq<State>, k: nat, g: TaskId)
    requires Run(cfg, run) && k < |run| && g in run[k].tasks
    ensures Excused(run[k], g)
    decreases k
  {
    if k > 0 {
      if g in run[k - 1].tasks {
        RunExcused(cfg, run, k - 1, g);
      }
      RunKeepsExcuses(cfg, run, k);
    }
  }

  /** A get that answers "not found" was called while the environment was, or before it came to be, out of the database. */
  lemma NotFoundMeansGone(cfg: Config, run: seq<State>, k: nat, g: TaskId)
    requires Run(cfg, run) && k < |run| && g in run[k].tasks && run[k].tasks[g].Get? && run[k].tasks[g].pc == Done(NotFound)
    ensures exists n: nat :: run[k].tasks[g].began <= n < |run[k].history| && run[k].tasks[g].env !in run[k].history[n]
  {
    RunExcused(cfg, run, k, g);
  }

  /** This step is a query of this get, and it fails. */
  ghost predicate FailingQuery(cfg: Config, st: State, g: TaskId, st': State) {
    g in st.tasks && st.tasks[g].pc.Loading? && exists keys :: Act(cfg, st, g, true, keys, st')
  }

  /** The step to state m of the run is one. */
  ghost predicate QueryFails(cfg: Config, run: seq<State>, m: nat, g: TaskId) {
    0 < m < |run| && FailingQuery(cfg, run[m - 1], g, run[m])
  }

  ghost predicate HasDbError(st: State, g: TaskId) {
    g in st.tasks && st.tasks[g].Get? && HasOutcome(st.tasks[g].pc) && st.tasks[g].pc.outcome == DbError
  }

  /** A step that gives a get its database error is a failing query of that get. */
  ghost predicate ErrorComesFrom(cfg: Config, st: State, st': State, g: TaskId) {
    HasDbError(st', g) ==> HasDbError(st, g) || FailingQuery(cfg, st, g, st')
  }

  lemma NextError(cfg: Config, st: State, st': State, g: TaskId)
    requires Inv(cfg, st) && Next(cfg, st, st')
    ensures ErrorComesFrom(cfg, st, st', g)
  {
    if t, fail, keys :| Act(cfg, st, t, fail, keys, st') {
      ActError(cfg, st, t, fail, keys, st', g);
    } else {
      assert Quiet(st, st');
    }
  }

  lemma ActError(cfg: Config, st: State, t: TaskId, fail: bool, keys: seq<EnvId>, st': State, g: TaskId)
    requires Inv(cfg, st) && Act(cfg, st, t, fail, keys, st')
    ensures ErrorComesFrom(cfg, st, st', g)
  {
    ActElsewhere(cfg, st, t, fail, keys, st');
    if g == t && HasDbError(st', g) {
      ActTask(cfg, st, t, fail, keys, st');
      DecideOutcome(st, t, fail);
      assert fail ==> Act(cfg, st, g, true, keys, st');
    }
  }

  lemma RunError(cfg: Config, run: seq<State>, k: nat, g: TaskId)
    requires Run(cfg, run) && k < |run| && HasDbError(run[k], g)
    ensures k > 0 && (HasDbError(run[k - 1], g) || QueryFails(cfg, run, k, g))
  {
    RunInv(cfg, run, k - 1);
    assert StepAt(cfg, run, k);
    NextError(cfg, run[k - 1], run[k], g);
  }

  /** Whenever it holds, it is caused then or held just before. */
  ghost predicate Follows(holds: nat -> bool, caused: nat -> bool) {
    forall i: nat | holds(i) :: caused(i) || (i > 0 && holds(i - 1))
  }

  /** What holds now was caused at some time. */
  lemma {:induction false} Cause(holds: nat -> bool, caused: nat -> bool, k: nat) returns (m: nat)
    requires holds(k) && Follows(holds, caused)
    ensures m <= k && caused(m)
  {
    m := k;
    if !caused(k) {
      m := Cause(holds, caused, k - 1);
    }
  }

  /** A get that answers with a database error had a query fail. */
  lemma DbErrorMeansFailure(cfg: Config, run: seq<State>, k: nat, g: TaskId) returns (m: nat)
    requires Run(cfg, run) && k < |run| && HasDbError(run[k], g)
    ensures m <= k && QueryFails(cfg, run, m, g)
  {
    var erred := (i: nat) => i < |run| && HasDbError(run[i], g);
    var fails := (i: nat) => QueryFails(cfg, run, i, g);
    forall i: nat | erred(i)
      ensures fails(i) || (i > 0 && erred(i - 1))
    {
      RunError(cfg, run, i, g);
    }
    m := Cause(erred, fails, k);
  }

  /**
   * A finished get whose environment was in the database from its call on, and
   * none of whose queries failed, has returned a snapshot.
   */
  lemma GetFinds(cfg: Config, run: seq<State>, k: nat, g: TaskId)
    requires Run(cfg, run) && k < |run| && g in run[k].tasks && run[k].tasks[g].Get? && run[k].tasks[g].pc.Done?
    requires forall n: nat :: run[k].tasks[g].began <= n < |run[k].history| ==> run[k].tasks[g].env in run[k].history[n]
    requires forall m: nat :: m <= k ==> !QueryFails(cfg, run, m, g)
    ensures run[k].tasks[g].pc.outcome.Found?
  {
    RunExcused(cfg, run, k, g);
    if HasDbError(run[k], g) {
      var m := DbErrorMeansFailure(cfg, run, k, g);
    }
  }

  // ------------------------------------------------------------ one load each --

  /** A get that has loaded everything is about to store it in its slot. */
  predicate HasLoaded(st: State, g: TaskId, s: SlotId) {
    g in st.tasks && st.tasks[g].Get? && LoadsInto(st.tasks[g], s) && st.tasks[g].pc.progress.Complete?
  }

  ghost predicate StoredOrWaiting(st: State, g: TaskId, s: SlotId) {
    HasLoaded(st, g, s) || (s in st.heap && st.heap[s].value.Some?)
  }

  lemma StepStores(cfg: Config, st: State, st': State, g: TaskId, s: SlotId)
    requires Inv(cfg, st) && Next(cfg, st, st') && StoredOrWaiting(st, g, s)
    ensures StoredOrWaiting(st', g, s)
  {
    StepForward(cfg, st, st');
    if HasLoaded(st, g, s) {
      assert TaskOk(st, g);
      if t, fail, keys :| Act(cfg, st, t, fail, keys, st') {
        ActElsewhere(cfg, st, t, fail, keys, st');
        if t == g {
          LoadedIsStored(cfg, st, g, fail, keys, st', s);
        }
      } else {
        assert Quiet(st, st');
      }
    }
  }

  lemma LoadedIsStored(cfg: Config, st: State, g: TaskId, fail: bool, keys: seq<EnvId>, st': State, s: SlotId)
    requires Act(cfg, st, g, fail, keys, st') && HasLoaded(st, g, s) && s in st.heap
    ensures s in st'.heap && st'.heap[s].value == Some(st.tasks[g].pc.progress.loaded)
  {
  }

  lemma RunStores(cfg: Config, run: seq<State>, k: nat, g: TaskId, s: SlotId)
    requires Run(cfg, run) && 0 < k < |run| && StoredOrWaiting(run[k - 1], g, s)
    ensures StoredOrWaiting(run[k], g, s)
  {
    RunInv(cfg, run, k - 1);
    assert StepAt(cfg, run, k);
    StepStores(cfg, run[k - 1], run[k], g, s);
  }

  lemma {:induction false} StaysStored(cfg: Config, run: seq<State>, i: nat, j: nat, g: TaskId, s: SlotId)
    requires Run(cfg, run) && i <= j < |run| && HasLoaded(run[i], g, s)
    ensures StoredOrWaiting(run[j], g, s)
    decreases j
  {
    if i < j {
      StaysStored(cfg, run, i, j - 1, g, s);
      RunStores(cfg, run, j, g, s);
    }
  }

  /** Of all the gets that ever use a slot, at most one loads it to the end; the others find it filled. */
  lemma OneGetLoads(cfg: Config, run: seq<State>, i: nat, j: nat, g: TaskId, h: TaskId, s: SlotId)
    requires Run(cfg, run) && i <= j < |run| && HasLoaded(run[i], g, s) && HasLoaded(run[j], h, s)
    ensures g == h
  {
    StaysStored(cfg, run, i, j, g, s);
    RunInv(cfg, run, j);
    assert TaskOk(run[j], h);
    if HasLoaded(run[j], g, s) {
      HolderUnique(cfg, run[j], g, h);
    }
  }
}
