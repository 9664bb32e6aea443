/**
 * The snapshot cache as a protocol: any number of `get`, `refresh` and
 * `refresh_all` calls interleave, one atomic action at a time, with each other
 * and with commits to the database.
 *
 * Time is the number of actions taken. Each part of a loaded snapshot carries
 * the moment it was read, and `history[t]` is the database at time t, so "was
 * read after that commit" and "agrees with the database" are statements about
 * states. Those stamps, a slot's birth and the `covered` notes of a refresher
 * record what happened; no action ever reads them.
 */
module SnapshotCache {
  import opened FlagTypes
  import opened Snapshots

  type EnvId = nat
  type SlotId = nat
  type TaskId = nat
  type Time = nat

  // ------------------------------------------------------------ database --

  datatype Contents = Contents(row: EnvRow, flags: seq<Flag>, segments: seq<Segment>,
                               experiments: seq<ExperimentSpec>)

  type Database = map<EnvId, Contents>

  function FlagsIn(db: Database, e: EnvId): seq<Flag> {
    if e in db then db[e].flags else []
  }

  function SegmentsIn(db: Database, e: EnvId): seq<Segment> {
    if e in db then db[e].segments else []
  }

  function ExperimentsIn(db: Database, e: EnvId): seq<ExperimentSpec> {
    if e in db then db[e].experiments else []
  }

  // --------------------------------------------------------------- state --

  datatype Stamped<+T> = Stamped(value: T, at: Time)

  datatype Loaded = Loaded(row: Stamped<EnvRow>, flags: Stamped<seq<Flag>>,
                           segments: Stamped<seq<Segment>>, experiments: Stamped<seq<ExperimentSpec>>)

  /** How far a load has come; the four queries run in this order. */
  datatype Progress =
    | NeedRow
    | NeedFlags(row: Stamped<EnvRow>)
    | NeedSegments(row: Stamped<EnvRow>, flags: Stamped<seq<Flag>>)
    | NeedExperiments(row: Stamped<EnvRow>, flags: Stamped<seq<Flag>>, segments: Stamped<seq<Segment>>)
    | Complete(loaded: Loaded)

  datatype Outcome = Found(loaded: Loaded) | NotFound | DbError | Finished

  datatype Pc =
    | Begin
    | Collect(shard: nat)
    | FastRead(slot: SlotId)
    | Waiting(slot: SlotId)
    | Recheck(slot: SlotId)
    | Loading(slot: SlotId, progress: Progress)
    | Dropping(slot: SlotId, sawAt: Time)
    | Releasing(slot: SlotId, outcome: Outcome)
    | Done(outcome: Outcome)

  /** From time `from` on, nothing older than `since` is reachable; `gone` if the environment was seen deleted. */
  datatype Cover = Cover(since: Time, from: Time, gone: bool)

  /**
   * `Get` is one call of `get`. A `Refresher` works through a queue: one
   * environment for `refresh`, the collected keys for `refresh_all` (no goal).
   */
  datatype Task =
    | Get(env: EnvId, began: Time, pc: Pc)
    | Refresher(goal: Option<EnvId>, began: Time, queue: seq<EnvId>, covered: map<EnvId, Cover>,
                failed: bool, pc: Pc)

  datatype Slot = Slot(env: EnvId, created: Time, value: Option<Loaded>, holder: Option<TaskId>, getStores: nat)

  datatype State = State(now: Time, history: seq<Database>, slots: map<EnvId, SlotId>,
                         heap: map<SlotId, Slot>, nextSlot: SlotId, tasks: map<TaskId, Task>)

  /** The slot map is sharded; iterating it visits one shard at a time. */
  datatype Config = Config(shards: nat, shardOf: EnvId -> nat)

  ghost predicate BoundedShards(cfg: Config) {
    forall e :: cfg.shardOf(e) < cfg.shards
  }

  ghost predicate Init(st: State) {
    && st.now == 0
    && |st.history| == 1
    && st.slots == map[] && st.heap == map[] && st.nextSlot == 0 && st.tasks == map[]
  }

  // --------------------------------------------------------------- steps --

  /** What one action of a task does to the shared state, besides moving that task on. */
  datatype Effect =
    | Local(task: Task)
    | Alloc(env: EnvId, task: Task)
    | Acquire(slot: SlotId, task: Task)
    | Release(slot: SlotId, task: Task)
    | Store(slot: SlotId, loaded: Loaded, byGet: bool, task: Task)
    | Unlink(env: EnvId, task: Task)

  function Now(st: State): Database
    requires |st.history| == st.now + 1
  {
    st.history[st.now]
  }

  predicate HasWork(t: Task) {
    t.Get? || t.queue != []
  }

  function EnvOf(t: Task): EnvId
    requires HasWork(t)
  {
    if t.Get? then t.env else t.queue[0]
  }

  function GoTo(t: Task, pc: Pc): Task {
    t.(pc := pc)
  }

  /** Records a cover; one already noted is replaced only on first seeing the environment deleted. */
  function Note(t: Task, e: EnvId, c: Cover): Task
    requires t.Refresher?
  {
    if e in t.covered && (t.covered[e].gone || !c.gone) then t else t.(covered := t.covered[e := c])
  }

  /** One of the four queries. */
  function ReadPart(db: Database, e: EnvId, now: Time, p: Progress): Progress
    requires !p.Complete? && (p.NeedRow? ==> e in db)
  {
    match p
    case NeedRow => NeedFlags(Stamped(db[e].row, now))
    case NeedFlags(row) => NeedSegments(row, Stamped(FlagsIn(db, e), now))
    case NeedSegments(row, flags) => NeedExperiments(row, flags, Stamped(SegmentsIn(db, e), now))
    case NeedExperiments(row, flags, segments) =>
      Complete(Loaded(row, flags, segments, Stamped(ExperimentsIn(db, e), now)))
  }

  ghost predicate Enabled(st: State, t: TaskId) {
    && |st.history| == st.now + 1
    && t in st.tasks
    && !st.tasks[t].pc.Done?
    && var task := st.tasks[t];
       match task.pc
       case Begin => true
       case Collect(_) => task.Refresher?
       case FastRead(s) => task.Get? && s in st.heap
       case Waiting(s) => s in st.heap && st.heap[s].holder.None?
       case Recheck(s) => task.Get? && s in st.heap
       case Loading(s, _) => s in st.heap && HasWork(task)
       case Dropping(s, _) => task.Refresher? && HasWork(task)
       case Releasing(s, _) => s in st.heap && HasWork(task)
       case Done(_) => false
  }

  /** `fail`: the query errors. `keys`: the entries found in the shard being visited. */
  function Decide(cfg: Config, st: State, t: TaskId, fail: bool, keys: seq<EnvId>): Effect
    requires Enabled(st, t)
  {
    if st.tasks[t].Get? then DecideGet(st, t, fail) else DecideRefresh(cfg, st, t, fail, keys)
  }

  /** The next action of a `get`. */
  function DecideGet(st: State, t: TaskId, fail: bool): Effect
    requires Enabled(st, t) && st.tasks[t].Get?
  {
    var task := st.tasks[t];
    match task.pc
    case Begin =>
      if task.env in st.slots then Local(GoTo(task, FastRead(st.slots[task.env])))
      else Alloc(task.env, GoTo(task, FastRead(st.nextSlot)))
    case FastRead(s) =>
      if st.heap[s].value.Some? then Local(GoTo(task, Done(Found(st.heap[s].value.value))))
      else Local(GoTo(task, Waiting(s)))
    case Waiting(s) => Acquire(s, GoTo(task, Recheck(s)))
    case Recheck(s) =>
      if st.heap[s].value.Some? then Local(GoTo(task, Releasing(s, Found(st.heap[s].value.value))))
      else Local(GoTo(task, Loading(s, NeedRow)))
    case Loading(s, p) =>
      if p.Complete? then Store(s, p.loaded, true, GoTo(task, Releasing(s, Found(p.loaded))))
      else if fail then Local(GoTo(task, Releasing(s, DbError)))
      else if p.NeedRow? && task.env !in Now(st) then Local(GoTo(task, Releasing(s, NotFound)))
      else Local(GoTo(task, Loading(s, ReadPart(Now(st), task.env, st.now, p))))
    case Releasing(s, outcome) => Release(s, GoTo(task, Done(outcome)))
    case _ => Local(task)
  }

  /** The next action of a `refresh` or a `refresh_all`. */
  function DecideRefresh(cfg: Config, st: State, t: TaskId, fail: bool, keys: seq<EnvId>): Effect
    requires Enabled(st, t) && st.tasks[t].Refresher?
  {
    var task := st.tasks[t];
    match task.pc
    case Begin =>
      if task.queue == [] then Local(GoTo(task, Done(Finished)))
      else if task.queue[0] in st.slots then Local(GoTo(task, Waiting(st.slots[task.queue[0]])))
      else Local(Note(task, task.queue[0], Cover(task.began, st.now + 1, false)).(queue := task.queue[1..]))
    case Collect(k) =>
      if k < cfg.shards then Local(GoTo(task, Collect(k + 1)).(queue := task.queue + keys))
      else Local(GoTo(task, Begin))
    case Waiting(s) => Acquire(s, GoTo(task, Loading(s, NeedRow)))
    case Loading(s, p) =>
      if p.Complete? then
        Store(s, p.loaded, false, GoTo(Note(task, task.queue[0], Cover(task.began, st.now + 1, false)), Releasing(s, Found(p.loaded))))
      else if fail then Local(GoTo(task, Releasing(s, DbError)).(failed := true))
      else if p.NeedRow? && task.queue[0] !in Now(st) then Local(GoTo(task, Dropping(s, st.now)))
      else Local(GoTo(task, Loading(s, ReadPart(Now(st), task.queue[0], st.now, p))))
    case Dropping(s, at) =>
      Unlink(task.queue[0], GoTo(Note(task, task.queue[0], Cover(at, st.now + 1, true)), Releasing(s, NotFound)))
    case Releasing(s, outcome) => Release(s, GoTo(task, Begin).(queue := task.queue[1..]))
    case _ => Local(task)
  }

  function ApplyEffect(st: State, t: TaskId, eff: Effect): State
    requires |st.history| == st.now + 1
    requires eff.Acquire? || eff.Release? || eff.Store? ==> eff.slot in st.heap
  {
    var ticked := st.(now := st.now + 1, history := st.history + [Now(st)], tasks := st.tasks[t := eff.task]);
    match eff
    case Local(_) => ticked
    case Alloc(e, _) =>
      ticked.(slots := st.slots[e := st.nextSlot],
              heap := st.heap[st.nextSlot := Slot(e, st.now, None, None, 0)],
              nextSlot := st.nextSlot + 1)
    case Acquire(s, _) => ticked.(heap := st.heap[s := st.heap[s].(holder := Some(t))])
    case Release(s, _) => ticked.(heap := st.heap[s := st.heap[s].(holder := None)])
    case Store(s, l, byGet, _) =>
      ticked.(heap := st.heap[s := st.heap[s].(
                value := Some(l), getStores := st.heap[s].getStores + if byGet then 1 else 0)])
    case Unlink(e, _) => ticked.(slots := st.slots - {e})
  }

  /** The keys of one shard, each once, in any order. */
  ghost predicate ShardListing(cfg: Config, st: State, k: nat, keys: seq<EnvId>) {
    && (forall e :: e in keys <==> e in st.slots && cfg.shardOf(e) == k)
    && NoRepeats(keys)
  }

  ghost predicate NoRepeats(keys: seq<EnvId>) {
    forall i, j :: 0 <= i < j < |keys| ==> keys[i] != keys[j]
  }

  ghost predicate Act(cfg: Config, st: State, t: TaskId, fail: bool, keys: seq<EnvId>, st': State) {
    && Enabled(st, t)
    && (st.tasks[t].pc.Collect? ==> ShardListing(cfg, st, st.tasks[t].pc.shard, keys))
    && var eff := Decide(cfg, st, t, fail, keys);
       && (eff.Acquire? || eff.Release? || eff.Store? ==> eff.slot in st.heap)
       && st' == ApplyEffect(st, t, eff)
  }

  /** A new call: `get(e)`, `refresh(e)` or `refresh_all()`. */
  ghost predicate NewCall(st: State, task: Task) {
    && task.began == st.now
    && match task
       case Get(_, _, pc) => pc == Begin
       case Refresher(goal, _, queue, covered, failed, pc) =>
         && covered == map[] && !failed
         && (goal.Some? ==> queue == [goal.value] && pc == Begin)
         && (goal.None? ==> queue == [] && pc == Collect(0))
  }

  ghost predicate Spawn(st: State, t: TaskId, task: Task, st': State) {
    && |st.history| == st.now + 1
    && t !in st.tasks
    && NewCall(st, task)
    && st' == st.(now := st.now + 1, history := st.history + [Now(st)], tasks := st.tasks[t := task])
  }

  /** Any write, to any number of environments; a deleted id never comes back. */
  ghost predicate Commit(st: State, db: Database, st': State) {
    && |st.history| == st.now + 1
    && (forall e, i :: e in db && e !in Now(st) && 0 <= i < |st.history| ==> e !in st.history[i])
    && st' == st.(now := st.now + 1, history := st.history + [db])
  }

  ghost predicate Next(cfg: Config, st: State, st': State) {
    || (exists db :: Commit(st, db, st'))
    || (exists t, task :: Spawn(st, t, task, st'))
    || (exists t, fail, keys :: Act(cfg, st, t, fail, keys, st'))
  }

  ghost predicate Run(cfg: Config, run: seq<State>) {
    && BoundedShards(cfg)
    && |run| > 0
    && Init(run[0])
    && forall i :: 0 < i < |run| ==> StepAt(cfg, run, i)
  }

  /** State i of the run comes from the one before by one step. */
  ghost predicate StepAt(cfg: Config, run: seq<State>, i: nat)
    requires 0 < i < |run|
  {
    Next(cfg, run[i - 1], run[i])
  }

  // ----------------------------------------------------------- freshness --

  predicate LoadedSince(l: Loaded, T: Time) {
    l.row.at >= T && l.flags.at >= T && l.segments.at >= T && l.experiments.at >= T
  }

  predicate ProgressSince(p: Progress, T: Time) {
    match p
    case NeedRow => true
    case NeedFlags(row) => row.at >= T
    case NeedSegments(row, flags) => row.at >= T && flags.at >= T
    case NeedExperiments(row, flags, segments) => row.at >= T && flags.at >= T && segments.at >= T
    case Complete(l) => LoadedSince(l, T)
  }

  predicate LoadsInto(task: Task, s: SlotId) {
    task.pc.Loading? && task.pc.slot == s
  }

  /** Nothing read before T is in the slot, or on its way into it. */
  ghost predicate Fresh(st: State, s: SlotId, T: Time) {
    && s in st.heap
    && (st.heap[s].value.Some? ==> LoadedSince(st.heap[s].value.value, T))
    && forall t :: t in st.tasks && LoadsInto(st.tasks[t], s) ==> ProgressSince(st.tasks[t].pc.progress, T)
  }

  predicate HasSlot(pc: Pc) {
    pc.FastRead? || pc.Waiting? || pc.Recheck? || pc.Loading? || pc.Dropping? || pc.Releasing?
  }

  predicate HasOutcome(pc: Pc) {
    pc.Releasing? || pc.Done?
  }

  /** Neither the slot a `get` uses nor the answer it has contains anything read before T. */
  ghost predicate GetSince(st: State, g: Task, T: Time) {
    && (HasSlot(g.pc) ==> Fresh(st, g.pc.slot, T))
    && (HasOutcome(g.pc) && g.pc.outcome.Found? ==> LoadedSince(g.pc.outcome.loaded, T))
  }

  // ----------------------------------------------------------- invariant --

  predicate Critical(pc: Pc) {
    pc.Recheck? || pc.Loading? || pc.Dropping? || pc.Releasing?
  }

  /** Between finding its slot and having dealt with the environment. */
  predicate Working(task: Task) {
    task.Refresher? && (task.pc.Waiting? || task.pc.Loading? || task.pc.Dropping?)
  }

  /** Each part is what the database held for `e` when it was read, and the reads were in order. */
  ghost predicate Genuine(history: seq<Database>, e: EnvId, p: Progress) {
    match p
    case NeedRow => true
    case NeedFlags(row) => GenuineRow(history, e, row)
    case NeedSegments(row, flags) => GenuineRow(history, e, row) && GenuineFlags(history, e, row.at, flags)
    case NeedExperiments(row, flags, segments) =>
      && GenuineRow(history, e, row) && GenuineFlags(history, e, row.at, flags)
      && GenuineSegments(history, e, flags.at, segments)
    case Complete(l) =>
      && GenuineRow(history, e, l.row) && GenuineFlags(history, e, l.row.at, l.flags)
      && GenuineSegments(history, e, l.flags.at, l.segments)
      && GenuineExperiments(history, e, l.segments.at, l.experiments)
  }

  ghost predicate GenuineRow(history: seq<Database>, e: EnvId, row: Stamped<EnvRow>) {
    row.at < |history| - 1 && e in history[row.at] && row.value == history[row.at][e].row
  }

  ghost predicate GenuineFlags(history: seq<Database>, e: EnvId, after: Time, flags: Stamped<seq<Flag>>) {
    after <= flags.at < |history| - 1 && flags.value == FlagsIn(history[flags.at], e)
  }

  ghost predicate GenuineSegments(history: seq<Database>, e: EnvId, after: Time, segments: Stamped<seq<Segment>>) {
    after <= segments.at < |history| - 1 && segments.value == SegmentsIn(history[segments.at], e)
  }

  ghost predicate GenuineExperiments(history: seq<Database>, e: EnvId, after: Time,
                                     experiments: Stamped<seq<ExperimentSpec>>) {
    after <= experiments.at < |history| - 1 && experiments.value == ExperimentsIn(history[experiments.at], e)
  }

  ghost predicate SlotOk(st: State, s: SlotId) {
    && s in st.heap
    && s < st.nextSlot
    && st.heap[s].created < st.now
    && Fresh(st, s, st.heap[s].created)
    && st.heap[s].getStores <= 1
    && (st.heap[s].value.None? ==> st.heap[s].getStores == 0)
    && (st.heap[s].value.Some? ==> Genuine(st.history, st.heap[s].env, Complete(st.heap[s].value.value)))
  }

  ghost predicate TaskOk(st: State, t: TaskId) {
    && t in st.tasks
    && var task := st.tasks[t];
       && task.began < st.now
       && (HasSlot(task.pc) ==>
             HasWork(task) && task.pc.slot in st.heap && st.heap[task.pc.slot].env == EnvOf(task))
       && (Critical(task.pc) ==> st.heap[task.pc.slot].holder == Some(t))
       && (task.pc.FastRead? || task.pc.Recheck? ==> task.Get?)
       && (task.pc.Collect? || task.pc.Dropping? ==> task.Refresher?)
       && (task.pc.Loading? ==>
             && Genuine(st.history, EnvOf(task), task.pc.progress)
             && (st.heap[task.pc.slot].value.Some? ==>
                   ProgressSince(task.pc.progress, st.heap[task.pc.slot].value.value.experiments.at))
             && (task.Get? ==> st.heap[task.pc.slot].value.None?))
       && (task.Get? && HasOutcome(task.pc) && task.pc.outcome.Found? ==>
             Genuine(st.history, task.env, Complete(task.pc.outcome.loaded)))
  }

  /** An environment the refresher will still reach. */
  ghost predicate Pending(cfg: Config, task: Task, e: EnvId)
    requires task.Refresher?
  {
    || e in task.queue
    || (task.pc.Collect? && cfg.shardOf(e) >= task.pc.shard)
  }

  ghost predicate RefresherOk(cfg: Config, st: State, task: Task) {
    task.Refresher? ==>
      && (task.pc.Loading? ==> ProgressSince(task.pc.progress, task.began))
      && (task.pc.Dropping? ==>
            task.began <= task.pc.sawAt < st.now && HasWork(task)
            && task.pc.sawAt < |st.history| && EnvOf(task) !in st.history[task.pc.sawAt])
      && (Working(task) && HasWork(task) && EnvOf(task) in st.slots ==>
            var s := st.slots[EnvOf(task)];
            s == task.pc.slot || (s in st.heap && st.heap[s].created >= task.began))
      && (task.pc.Done? ==> task.queue == [])
      && (task.pc.Releasing? && HasWork(task) && !task.failed ==> EnvOf(task) in task.covered)
      && (!task.failed ==>
            && (task.goal.Some? ==> task.goal.value in task.covered || task.goal.value in task.queue)
            && (task.goal.None? ==> forall e :: e in st.slots ==>
                  || e in task.covered
                  || Pending(cfg, task, e)
                  || (st.slots[e] in st.heap && st.heap[st.slots[e]].created >= task.began)))
  }

  /** What a refresher has covered stays covered: for the map, and for every later `get`. */
  ghost predicate CoverOk(st: State, task: Task, e: EnvId) {
    task.Refresher? && e in task.covered ==>
      var c := task.covered[e];
      && task.began <= c.since < c.from <= st.now
      && (c.gone ==> c.since < |st.history| && e !in st.history[c.since])
      && (e in st.slots ==> Fresh(st, st.slots[e], c.since))
      && (forall g :: g in st.tasks && st.tasks[g].Get? && st.tasks[g].env == e && st.tasks[g].began >= c.from ==>
            GetSince(st, st.tasks[g], c.since))
  }

  ghost predicate Inv(cfg: Config, st: State) {
    && BoundedShards(cfg)
    && |st.history| == st.now + 1
    && (forall e :: e in st.slots ==> st.slots[e] in st.heap && st.heap[st.slots[e]].env == e)
    && (forall s :: s in st.heap ==> SlotOk(st, s))
    && (forall t :: t in st.tasks ==> TaskOk(st, t))
    && (forall t :: t in st.tasks ==> RefresherOk(cfg, st, st.tasks[t]))
    && (forall t, e :: t in st.tasks && e in Covered(st.tasks[t]) ==> CoverOk(st, st.tasks[t], e))
  }

  function Covered(task: Task): set<EnvId> {
    if task.Refresher? then task.covered.Keys else {}
  }
}
