/**
 * One database row under optimistic concurrency. Updating adds one to the
 * version; inserting starts at one under an id never used before.
 */
module VersionedRows {
  import opened FlagTypes

  datatype Row<T> = Row(id: nat, content: T, version: int)

  /** The row one unique key has at the moment, and the next id to be handed out. */
  datatype Table<T> = Table(row: Option<Row<T>>, nextId: nat)

  function Insert<T>(t: Table<T>, content: T): Table<T> {
    if t.row.Some? then t else Table(Some(Row(t.nextId, content, 1)), t.nextId + 1)
  }

  function Update<T>(t: Table<T>, content: T): Table<T> {
    if t.row.None? then t else t.(row := Some(Row(t.row.value.id, content, t.row.value.version + 1)))
  }

  function Remove<T>(t: Table<T>): Table<T> {
    t.(row := None)
  }

  /** The version guard of an UPDATE; no expectation always passes. */
  predicate Guard<T(!new)>(t: Table<T>, expected: Option<int>) {
    t.row.Some? && (expected.None? || t.row.value.version == expected.value)
  }

  ghost predicate WellFormed<T>(t: Table<T>) {
    t.row.Some? ==> t.row.value.id < t.nextId
  }

  /** A row read at some time in the past: as long as it lives, its version tells whether it changed. */
  ghost predicate WasRead<T(!new)>(t: Table<T>, seen: Row<T>) {
    && seen.id < t.nextId
    && (t.row.Some? ==> seen.id <= t.row.value.id)
    && (t.row.Some? && t.row.value.id == seen.id ==>
      && seen.version <= t.row.value.version
      && (seen.version == t.row.value.version ==> t.row.value == seen))
  }

  lemma StillRead<T(!new)>(t: Table<T>, seen: Row<T>, content: T)
    requires WellFormed(t) && WasRead(t, seen)
    ensures WellFormed(Insert(t, content)) && WasRead(Insert(t, content), seen)
    ensures WellFormed(Update(t, content)) && WasRead(Update(t, content), seen)
    ensures WellFormed(Remove(t)) && WasRead(Remove(t), seen)
  {
  }

  datatype Change<T> = Inserted(content: T) | Updated(content: T) | Removed

  function Changed<T>(t: Table<T>, changes: seq<Change<T>>): Table<T>
    decreases |changes|
  {
    if changes == [] then t
    else Changed(match changes[0] case Inserted(c) => Insert(t, c) case Updated(c) => Update(t, c) case Removed => Remove(t), changes[1..])
  }

  /** Whatever happened since a row was read: if the key still has that row, an equal version means an equal row. */
  lemma VersionTells<T(!new)>(t: Table<T>, seen: Row<T>, changes: seq<Change<T>>)
    requires WellFormed(t) && t.row == Some(seen)
    ensures
      var now := Changed(t, changes).row;
      now.Some? && now.value.id == seen.id && now.value.version == seen.version ==> now.value == seen
  {
    StillReadAfter(t, seen, changes);
  }

  lemma {:induction false} StillReadAfter<T(!new)>(t: Table<T>, seen: Row<T>, changes: seq<Change<T>>)
    requires WellFormed(t) && WasRead(t, seen)
    ensures WellFormed(Changed(t, changes)) && WasRead(Changed(t, changes), seen)
    decreases |changes|
  {
    if changes != [] {
      StillRead(t, seen, if changes[0].Removed? then seen.content else changes[0].content);
      match changes[0] {
        case Inserted(c) => StillReadAfter(Insert(t, c), seen, changes[1..]);
        case Updated(c) => StillReadAfter(Update(t, c), seen, changes[1..]);
        case Removed => StillReadAfter(Remove(t), seen, changes[1..]);
      }
    }
  }
}

/**
 * Many operators writing one flag's configuration in one environment. A flag
 * or an environment that is deleted takes the configuration with it for good:
 * its key is the pair of their ids, and ids are never reused.
 */
module ConfigWrites {
  import opened FlagTypes
  import opened ConfigStore
  import opened VersionedRows

  datatype State = State(table: Table<Config>, seen: map<nat, Row<Config>>)

  datatype Event =
    | Read(client: nat)
    | Put(client: nat, config: Config)      // sends the version the client read
    | Overwrite(config: Config)             // sends no version
    | Drop                                  // the flag or the environment is deleted

  function Start(c: Config): State {
    State(Table(Some(Row(0, c, 1)), 1), map[])
  }

  predicate Accepted(s: State, client: nat) {
    client in s.seen && Guard(s.table, Some(s.seen[client].version))
  }

  function Next(s: State, e: Event): State {
    match e
    case Read(c) => if s.table.row.Some? then s.(seen := s.seen[c := s.table.row.value]) else s
    case Put(c, config) =>
      if Accepted(s, c) then
        var t := Update(s.table, config);
        State(t, s.seen[c := t.row.value])
      else s
    case Overwrite(config) => s.(table := Update(s.table, config))
    case Drop => s.(table := Remove(s.table))
  }

  function Run(s: State, events: seq<Event>): State
    decreases |events|
  {
    if events == [] then s else Run(Next(s, events[0]), events[1..])
  }

  ghost predicate Inv(s: State) {
    && WellFormed(s.table) && s.table.nextId == 1
    && forall c :: c in s.seen ==> WasRead(s.table, s.seen[c])
  }

  lemma NextKeeps(s: State, e: Event)
    requires Inv(s)
    ensures Inv(Next(s, e))
  {
    forall c | c in s.seen
      ensures WasRead(Remove(s.table), s.seen[c])
      ensures forall config: Config :: WasRead(Update(s.table, config), s.seen[c])
    {
      forall config: Config
        ensures WasRead(Remove(s.table), s.seen[c]) && WasRead(Update(s.table, config), s.seen[c])
      {
        StillRead(s.table, s.seen[c], config);
      }
      StillRead(s.table, s.seen[c], s.seen[c].content);
    }
  }

  lemma {:induction false} RunKeeps(s: State, events: seq<Event>)
    requires Inv(s)
    ensures Inv(Run(s, events))
    decreases |events|
  {
    if events != [] {
      NextKeeps(s, events[0]);
      RunKeeps(Next(s, events[0]), events[1..]);
    }
  }

  /**
   * No lost update. After any interleaving of reads, guarded and unguarded
   * writes and deletion, a guarded write is accepted exactly when the row still
   * is, content and all, the one its author read.
   */
  lemma WriteLandsOnWhatWasRead(first: Config, events: seq<Event>, client: nat)
    requires client in Run(Start(first), events).seen
    ensures
      var s := Run(Start(first), events);
      Accepted(s, client) <==> s.table.row == Some(s.seen[client])
  {
    RunKeeps(Start(first), events);
  }

  /** A stored configuration as a versioned row. */
  function RowOf(c: Config): Row<Config> { Row(0, c.(version := 0), c.version) }

  /** The request on the configuration tables writes one row, exactly as a guarded update does, and no other. */
  lemma RequestIsGuardedUpdate(P: Platform, db: Tables, flag: Key, environment: string, c: Config, expected: Option<int>)
    requires Slot(flag, Key(flag.project, environment)) in db.configs
    ensures
      var s := Slot(flag, Key(flag.project, environment));
      var t := Table(Some(RowOf(db.configs[s])), 1);
      var o := UpdateConfigSpec(P, db, flag, environment, c, expected);
      && (o == Err(VersionConflict) ==> !Guard(t, expected))
      && (o.Ok? ==>
        && Guard(t, expected)
        && o.value == db.(configs := o.value.configs) && o.value.configs.Keys == db.configs.Keys
        && Some(RowOf(o.value.configs[s])) == Update(t, c.(version := 0)).row
        && forall r :: r in db.configs && r != s ==> o.value.configs[r] == db.configs[r])
  {
  }
}

/**
 * Many operators patching one segment. A request is handled in steps others
 * may run between: the route reads the segment and validates the patched
 * result, storage reads it again and compares versions, and then the guarded
 * UPDATE merges the patch into whatever the row holds by then.
 */
module SegmentWrites {
  import opened FlagTypes
  import opened Validation
  import opened ConfigStore
  import opened VersionedRows

  /** A request under way: the row its client had read, the row its route validated against, and what is left to do. */
  datatype Task = Task(basis: Option<Row<Segment>>, previous: Row<Segment>, patch: SegmentPatch, expected: Option<int>, rechecked: bool)

  datatype State = State(table: Table<Segment>, seen: map<nat, Row<Segment>>, tasks: map<nat, Task>)

  datatype Event =
    | Look(client: nat)
    | Begin(task: nat, client: nat, patch: SegmentPatch, expected: Option<int>)   // route: read, validate
    | Recheck(task: nat)                                                          // storage: read, compare
    | Commit(task: nat)                                                           // storage: guarded UPDATE
    | Drop
    | Create(key: string)

  function EmptySegment(key: string): Segment {
    Segment(key, {}, {}, [], 0)
  }

  const NOTHING: State := State(Table(None, 0), map[], map[])

  predicate Commits(s: State, t: nat) {
    t in s.tasks && s.tasks[t].rechecked && Guard(s.table, s.tasks[t].expected)
  }

  function SeenBy(s: State, c: nat): Option<Row<Segment>> {
    if c in s.seen then Some(s.seen[c]) else None
  }

  function Next(P: Platform, s: State, e: Event): State {
    match e
    case Look(c) => if s.table.row.Some? then s.(seen := s.seen[c := s.table.row.value]) else s
    case Begin(t, c, patch, expected) =>
      if s.table.row.Some? && SegmentOk(P, Patched(s.table.row.value.content, patch)) && t !in s.tasks
      then s.(tasks := s.tasks[t := Task(SeenBy(s, c), s.table.row.value, patch, expected, false)]) else s
    case Recheck(t) =>
      if t in s.tasks && !s.tasks[t].rechecked then
        if Guard(s.table, s.tasks[t].expected) then s.(tasks := s.tasks[t := s.tasks[t].(rechecked := true)])
        else s.(tasks := s.tasks - {t})
      else s
    case Commit(t) =>
      if Commits(s, t) then s.(table := Update(s.table, Patched(s.table.row.value.content, s.tasks[t].patch)), tasks := s.tasks - {t})
      else if t in s.tasks && s.tasks[t].rechecked then s.(tasks := s.tasks - {t})
      else s
    case Drop => s.(table := Remove(s.table))
    case Create(key) => if IsValidKey(key) then s.(table := Insert(s.table, EmptySegment(key))) else s
  }

  function Run(P: Platform, s: State, events: seq<Event>): State
    decreases |events|
  {
    if events == [] then s else Run(P, Next(P, s, events[0]), events[1..])
  }

  /** The version a request sends is the one its client read. */
  predicate Honest(s: State, e: Event) {
    e.Begin? ==> e.client in s.seen && e.expected == Some(s.seen[e.client].version)
  }

  /** When a request commits, the segment is still the one its client read, not a later one of the same key. */
  predicate SameSegment(s: State, e: Event) {
    e.Commit? && Commits(s, e.task) ==>
      s.tasks[e.task].basis.Some? && s.tasks[e.task].basis.value.id == s.table.row.value.id
  }

  type Discipline = (State, Event) -> bool

  /** Every event of the run obeys the discipline. */
  predicate Obeys(P: Platform, s: State, events: seq<Event>, rule: Discipline)
    decreases |events|
  {
    events == [] || (rule(s, events[0]) && Obeys(P, Next(P, s, events[0]), events[1..], rule))
  }

  // ------------------------------------------------------------- invariant --

  ghost predicate TaskOk(P: Platform, s: State, t: nat)
    requires t in s.tasks
  {
    var k := s.tasks[t];
    && k.basis.Some? && k.expected == Some(k.basis.value.version)
    && WasRead(s.table, k.previous) && k.basis.value.id <= k.previous.id
    && (k.basis.value.id == k.previous.id ==> k.basis.value.version <= k.previous.version)
    && SegmentOk(P, Patched(k.previous.content, k.patch))
  }

  ghost predicate SeenOk(s: State, c: nat)
    requires c in s.seen
  {
    WasRead(s.table, s.seen[c])
  }

  ghost predicate Inv(P: Platform, s: State) {
    && WellFormed(s.table)
    && (forall c :: c in s.seen ==> SeenOk(s, c))
    && (forall t :: t in s.tasks ==> TaskOk(P, s, t))
    && (s.table.row.Some? ==> SegmentOk(P, s.table.row.value.content))
  }

  /** A step that only changes the table keeps everything that was read meaningful. */
  lemma TableStep(P: Platform, s: State, table: Table<Segment>)
    requires Inv(P, s) && WellFormed(table)
    requires forall r: Row<Segment> :: WasRead(s.table, r) ==> WasRead(table, r)
    requires table.row.Some? ==> SegmentOk(P, table.row.value.content)
    ensures Inv(P, s.(table := table))
  {
    var s' := s.(table := table);
    forall c | c in s'.seen
      ensures SeenOk(s', c)
    {
      assert SeenOk(s, c);
    }
    forall t | t in s'.tasks
      ensures TaskOk(P, s', t)
    {
      assert TaskOk(P, s, t);
    }
  }

  /** The heart: a version read earlier that still matches pins the row down to what was validated. */
  lemma CommitIsValid(P: Platform, s: State, t: nat)
    requires Inv(P, s) && Commits(s, t) && SameSegment(s, Commit(t))
    ensures s.table.row == Some(s.tasks[t].previous)
    ensures SegmentOk(P, Patched(s.table.row.value.content, s.tasks[t].patch))
  {
    assert TaskOk(P, s, t);
  }

  lemma FewerTasks(P: Platform, s: State, t: nat)
    requires Inv(P, s)
    ensures Inv(P, s.(tasks := s.tasks - {t}))
  {
    var s' := s.(tasks := s.tasks - {t});
    assert forall c :: c in s'.seen ==> SeenOk(s, c);
    forall u | u in s'.tasks
      ensures TaskOk(P, s', u)
    {
      assert TaskOk(P, s, u);
    }
  }

  lemma BeginKeeps(P: Platform, s: State, t: nat, task: Task)
    requires Inv(P, s) && TaskOk(P, s.(tasks := s.tasks[t := task]), t)
    ensures Inv(P, s.(tasks := s.tasks[t := task]))
  {
    var s' := s.(tasks := s.tasks[t := task]);
    assert forall c :: c in s'.seen ==> SeenOk(s, c);
    forall u | u in s'.tasks
      ensures TaskOk(P, s', u)
    {
      assert u != t ==> TaskOk(P, s, u);
    }
  }

  lemma LookKeeps(P: Platform, s: State, c: nat)
    requires Inv(P, s)
    ensures Inv(P, Next(P, s, Look(c)))
  {
    var s' := Next(P, s, Look(c));
    forall d | d in s'.seen
      ensures SeenOk(s', d)
    {
      assert d != c && d in s.seen ==> SeenOk(s, d);
    }
    forall t | t in s'.tasks
      ensures TaskOk(P, s', t)
    {
      assert TaskOk(P, s, t);
    }
  }

  lemma CommitKeeps(P: Platform, s: State, t: nat)
    requires Inv(P, s) && Commits(s, t) && SameSegment(s, Commit(t))
    ensures Inv(P, Next(P, s, Commit(t)))
  {
    CommitIsValid(P, s, t);
    var content := Patched(s.table.row.value.content, s.tasks[t].patch);
    var table := Update(s.table, content);
    forall r: Row<Segment> | WasRead(s.table, r)
      ensures WasRead(table, r)
    {
      StillRead(s.table, r, content);
    }
    TableStep(P, s, table);
    FewerTasks(P, s.(table := table), t);
  }

  lemma NextKeeps(P: Platform, s: State, e: Event)
    requires Inv(P, s) && Honest(s, e) && SameSegment(s, e)
    ensures Inv(P, Next(P, s, e))
  {
    match e {
      case Look(c) => LookKeeps(P, s, c);
      case Begin(t, c, patch, expected) =>
        assert SeenOk(s, c);
        if Next(P, s, e) != s {
          BeginKeeps(P, s, t, Task(SeenBy(s, c), s.table.row.value, patch, expected, false));
        }
      case Recheck(t) =>
        if t in s.tasks {
          assert TaskOk(P, s, t);
          BeginKeeps(P, s, t, s.tasks[t].(rechecked := true));
          FewerTasks(P, s, t);
        }
      case Commit(t) =>
        if Commits(s, t) {
          CommitKeeps(P, s, t);
        } else {
          FewerTasks(P, s, t);
        }
      case Drop => TableStep(P, s, Remove(s.table));
      case Create(key) => CreateKeeps(P, s, key);
    }
  }

  lemma CreateKeeps(P: Platform, s: State, key: string)
    requires Inv(P, s)
    ensures Inv(P, Next(P, s, Create(key)))
  {
    if IsValidKey(key) {
      forall r: Row<Segment> | WasRead(s.table, r)
        ensures WasRead(Insert(s.table, EmptySegment(key)), r)
      {
        StillRead(s.table, r, EmptySegment(key));
      }
      TableStep(P, s, Insert(s.table, EmptySegment(key)));
    }
  }

  lemma {:induction false} RunKeeps(P: Platform, s: State, events: seq<Event>)
    requires Inv(P, s) && Obeys(P, s, events, Honest) && Obeys(P, s, events, SameSegment)
    ensures Inv(P, Run(P, s, events))
    decreases |events|
  {
    if events != [] {
      NextKeeps(P, s, events[0]);
      RunKeeps(P, Next(P, s, events[0]), events[1..]);
    }
  }

  /**
   * In every interleaving in which requests send the version their client read
   * and none commits onto a segment created after that reading, the stored
   * segment passes the validator at every moment.
   */
  lemma SegmentStaysValid(P: Platform, events: seq<Event>)
    requires Obeys(P, NOTHING, events, Honest) && Obeys(P, NOTHING, events, SameSegment)
    ensures StoredOk(P, Run(P, NOTHING, events))
  {
    RunKeeps(P, NOTHING, events);
  }

  /** A request that can commit then merges its patch into exactly the row its client read and its route validated. */
  lemma CommitLandsOnWhatWasRead(P: Platform, events: seq<Event>, t: nat)
    requires Obeys(P, NOTHING, events, Honest) && Obeys(P, NOTHING, events, SameSegment)
    requires
      var s := Run(P, NOTHING, events);
      Commits(s, t) && SameSegment(s, Commit(t))
    ensures
      var s := Run(P, NOTHING, events);
      s.table.row == Some(s.tasks[t].previous)
  {
    RunKeeps(P, NOTHING, events);
    CommitIsValid(P, Run(P, NOTHING, events), t);
  }

  /** A stored segment as a versioned row. */
  function RowOf(id: nat, s: Segment): Row<Segment> { Row(id, s.(version := 0), s.version) }

  /** With nobody in between, the three steps do what the request does as one step. */
  lemma ThreeStepsAreTheRequest(P: Platform, db: Tables, k: Scoped, p: SegmentPatch, expected: Option<int>, s: State, t: nat, c: nat, id: nat)
    requires k.environment in db.environments && k in db.segments
    requires s.table.row == Some(RowOf(id, db.segments[k])) && t !in s.tasks
    ensures
      var after := OrSame(UpdateSegmentSpec(P, db, k, p, expected), db);
      && k in after.segments
      && Run(P, s, [Begin(t, c, p, expected), Recheck(t), Commit(t)]).table.row == Some(RowOf(id, after.segments[k]))
  {
    var held := db.segments[k];
    assert Patched(held.(version := 0), p) == Patched(held, p).(version := 0);
    assert SegmentOk(P, Patched(held.(version := 0), p)) <==> SegmentOk(P, Patched(held, p));
    Run3(P, s, Begin(t, c, p, expected), Recheck(t), Commit(t));
  }

  // ------------------------------------------- what the two conditions bar --

  lemma RunHead(P: Platform, s: State, e: Event, rest: seq<Event>)
    ensures Run(P, s, [e] + rest) == Run(P, Next(P, s, e), rest)
  {
    assert ([e] + rest)[1..] == rest;
  }

  lemma Run3(P: Platform, s: State, a: Event, b: Event, c: Event)
    ensures Run(P, s, [a, b, c]) == Next(P, Next(P, Next(P, s, a), b), c)
  {
    RunHead(P, s, a, [b, c]);
    RunHead(P, Next(P, s, a), b, [c]);
    RunHead(P, Next(P, Next(P, s, a), b), c, []);
    assert [a, b, c] == [a] + [b, c] && [b, c] == [b] + [c] && [c] == [c] + [];
  }

  lemma {:induction false} RunSplit(P: Platform, s: State, a: seq<Event>, b: seq<Event>)
    ensures Run(P, s, a + b) == Run(P, Run(P, s, a), b)
    decreases |a|
  {
    if a == [] {
      assert a + b == b;
    } else {
      assert (a + b)[0] == a[0] && (a + b)[1..] == a[1..] + b;
      RunSplit(P, Next(P, s, a[0]), a[1..], b);
    }
  }

  function Including(u: string): SegmentPatch { SegmentPatch(Some({u}), None, None) }

  function Excluding(u: string): SegmentPatch { SegmentPatch(None, Some({u}), None) }

  /** Storage's two steps for a request whose version matches. */
  lemma Applied(P: Platform, s: State, t: nat)
    requires t in s.tasks && !s.tasks[t].rechecked && Guard(s.table, s.tasks[t].expected)
    ensures Run(P, s, [Recheck(t), Commit(t)])
         == s.(table := Update(s.table, Patched(s.table.row.value.content, s.tasks[t].patch)), tasks := s.tasks - {t})
  {
    RunHead(P, s, Recheck(t), [Commit(t)]);
    RunHead(P, Next(P, s, Recheck(t)), Commit(t), []);
    assert [Recheck(t), Commit(t)] == [Recheck(t)] + [Commit(t)] && [Commit(t)] == [Commit(t)] + [];
    assert Next(P, Next(P, s, Recheck(t)), Commit(t)).tasks == s.tasks - {t};
  }

  lemma {:induction false} ObeysSplit(P: Platform, s: State, a: seq<Event>, b: seq<Event>, rule: Discipline)
    requires Obeys(P, s, a, rule) && Obeys(P, Run(P, s, a), b, rule)
    ensures Obeys(P, s, a + b, rule)
    decreases |a|
  {
    if a == [] {
      assert a + b == b;
    } else {
      assert (a + b)[0] == a[0] && (a + b)[1..] == a[1..] + b;
      ObeysSplit(P, Next(P, s, a[0]), a[1..], b, rule);
    }
  }

  /** The run so far leads here, obeying the discipline. */
  ghost predicate LeadsTo(P: Platform, past: seq<Event>, now: State, rule: Discipline) {
    Run(P, NOTHING, past) == now && Obeys(P, NOTHING, past, rule)
  }

  /** One more stretch of a run. */
  lemma Onward(P: Platform, past: seq<Event>, now: State, stretch: seq<Event>, next: State, rule: Discipline)
    requires LeadsTo(P, past, now, rule) && Run(P, now, stretch) == next && Obeys(P, now, stretch, rule)
    ensures LeadsTo(P, past + stretch, next, rule)
  {
    RunSplit(P, NOTHING, past, stretch);
    ObeysSplit(P, NOTHING, past, stretch, rule);
  }

  lemma Obeys3(P: Platform, s: State, a: Event, b: Event, c: Event, rule: Discipline)
    requires rule(s, a) && rule(Next(P, s, a), b) && rule(Next(P, Next(P, s, a), b), c)
    ensures Obeys(P, s, [a, b, c], rule)
  {
    var s1 := Next(P, s, a);
    var s2 := Next(P, s1, b);
    assert [a, b, c][1..] == [b, c] && [b, c][1..] == [c] && [c][1..] == [];
    assert Obeys(P, Next(P, s2, c), [], rule);
    assert Obeys(P, s2, [c], rule);
    assert Obeys(P, s1, [b, c], rule);
  }

  lemma StorageObeys(P: Platform, s: State, t: nat, rule: Discipline)
    requires rule(s, Recheck(t)) && rule(Next(P, s, Recheck(t)), Commit(t))
    ensures Obeys(P, s, [Recheck(t), Commit(t)], rule)
  {
    var s1 := Next(P, s, Recheck(t));
    assert [Recheck(t), Commit(t)][1..] == [Commit(t)] && [Commit(t)][1..] == [];
    assert Obeys(P, Next(P, s1, Commit(t)), [], rule);
    assert Obeys(P, s1, [Commit(t)], rule);
  }

  /** The stored segment, if there is one, passes the validator. */
  predicate StoredOk(P: Platform, s: State) {
    s.table.row.Some? ==> SegmentOk(P, s.table.row.value.content)
  }

  /**
   * A client reads a new segment and sends two requests, one including and one
   * excluding the same user, the second with a version it did not read; both
   * are validated before the first commits.
   */
  function Clash(k: string, u: string, y: Option<int>): seq<Event> {
    [] + [Create(k), Look(0), Begin(1, 0, Including(u), Some(1))]
    + [Begin(2, 0, Excluding(u), y), Recheck(1), Commit(1)]
    + [Recheck(2), Commit(2)]
  }

  /**
   * A request that sends no version, or one nobody can have read yet, can store
   * a segment the validator rejects, although the segment is the same all along.
   */
  lemma UnreadVersionsBreakIt(P: Platform, k: string, u: string, y: Option<int>)
    requires IsValidKey(k) && (y.None? || y == Some(2))
    ensures
      var events := Clash(k, u, y);
      Obeys(P, NOTHING, events, SameSegment) && !Obeys(P, NOTHING, events, Honest) && !StoredOk(P, Run(P, NOTHING, events))
  {
    var empty := EmptySegment(k);
    var read := Row(0, empty, 1);
    var first, second := Task(Some(read), read, Including(u), Some(1), false), Task(Some(read), read, Excluding(u), y, false);
    var s1 := State(Table(Some(read), 1), map[0 := read], map[1 := first]);
    var s2 := State(Table(Some(Row(0, Patched(empty, Including(u)), 2)), 1), map[0 := read], map[2 := second]);
    var e1, e2 := [Create(k), Look(0), Begin(1, 0, Including(u), Some(1))], [Begin(2, 0, Excluding(u), y), Recheck(1), Commit(1)];
    Run3(P, NOTHING, Create(k), Look(0), Begin(1, 0, Including(u), Some(1)));
    Obeys3(P, NOTHING, Create(k), Look(0), Begin(1, 0, Including(u), Some(1)), SameSegment);
    Onward(P, [], NOTHING, e1, s1, SameSegment);
    ClashMiddle(P, k, u, y, s1, s2);
    Onward(P, [] + e1, s1, e2, s2, SameSegment);
    Applied(P, s2, 2);
    StorageObeys(P, s2, 2, SameSegment);
    var s3 := Run(P, s2, [Recheck(2), Commit(2)]);
    Onward(P, [] + e1 + e2, s2, [Recheck(2), Commit(2)], s3, SameSegment);
    var last := s3.table.row.value.content;
    assert u in last.included * last.excluded;
    ClashDishonest(P, k, u, y, s1);
  }

  lemma ClashMiddle(P: Platform, k: string, u: string, y: Option<int>, s1: State, s2: State)
    requires IsValidKey(k)
    requires
      var read := Row(0, EmptySegment(k), 1);
      && s1 == State(Table(Some(read), 1), map[0 := read], map[1 := Task(Some(read), read, Including(u), Some(1), false)])
      && s2 == State(Table(Some(Row(0, Patched(EmptySegment(k), Including(u)), 2)), 1), map[0 := read],
                     map[2 := Task(Some(read), read, Excluding(u), y, false)])
    ensures Run(P, s1, [Begin(2, 0, Excluding(u), y), Recheck(1), Commit(1)]) == s2
    ensures Obeys(P, s1, [Begin(2, 0, Excluding(u), y), Recheck(1), Commit(1)], SameSegment)
  {
    Run3(P, s1, Begin(2, 0, Excluding(u), y), Recheck(1), Commit(1));
    Obeys3(P, s1, Begin(2, 0, Excluding(u), y), Recheck(1), Commit(1), SameSegment);
  }

  /** The one event that is not honest is the second request. */
  lemma ClashDishonest(P: Platform, k: string, u: string, y: Option<int>, s1: State)
    requires y != Some(1) && 0 in s1.seen && s1.seen[0].version == 1
    requires Run(P, NOTHING, [Create(k), Look(0), Begin(1, 0, Including(u), Some(1))]) == s1
    ensures !Obeys(P, NOTHING, Clash(k, u, y), Honest)
  {
    var e1 := [Create(k), Look(0), Begin(1, 0, Including(u), Some(1))];
    var rest := [Begin(2, 0, Excluding(u), y), Recheck(1), Commit(1)] + [Recheck(2), Commit(2)];
    assert Clash(k, u, y) == e1 + rest;
    assert rest[0] == Begin(2, 0, Excluding(u), y) && !Honest(s1, rest[0]);
    DisobeysLater(P, NOTHING, e1, rest, Honest);
  }

  lemma {:induction false} DisobeysLater(P: Platform, s: State, a: seq<Event>, b: seq<Event>, rule: Discipline)
    requires !Obeys(P, Run(P, s, a), b, rule)
    ensures !Obeys(P, s, a + b, rule)
    decreases |a|
  {
    if a == [] {
      assert a + b == b;
    } else {
      assert (a + b)[0] == a[0] && (a + b)[1..] == a[1..] + b;
      DisobeysLater(P, Next(P, s, a[0]), a[1..], b, rule);
    }
  }

  const UNCHANGED: SegmentPatch := SegmentPatch(None, None, None)

  /** A segment is updated once, deleted, created and updated again, all while one request sits between its two halves. */
  function Recreation(k: string, u: string): seq<Event> {
    [] + [Create(k), Look(8), Begin(0, 8, UNCHANGED, Some(1))]
    + [Recheck(0), Commit(0)]
    + [Look(7), Begin(1, 7, Including(u), Some(2)), Drop]
    + [Create(k), Look(8), Begin(2, 8, Excluding(u), Some(1))]
    + [Recheck(2), Commit(2)]
    + [Recheck(1), Commit(1)]
  }

  /** Honest versions are not enough when the segment is deleted and created again meanwhile. */
  lemma RecreationBreaksIt(P: Platform, k: string, u: string)
    requires IsValidKey(k)
    ensures
      var s := Run(P, NOTHING, Recreation(k, u));
      Obeys(P, NOTHING, Recreation(k, u), Honest) && !StoredOk(P, s)
  {
    var empty := EmptySegment(k);
    var old1, old2, new1 := Row(0, empty, 1), Row(0, empty, 2), Row(1, empty, 1);
    var waiting := Task(Some(old2), old2, Including(u), Some(2), false);
    var s0 := NOTHING;
    var s1 := State(Table(Some(old1), 1), map[8 := old1], map[0 := Task(Some(old1), old1, UNCHANGED, Some(1), false)]);
    var s2 := State(Table(Some(old2), 1), map[8 := old1], map[]);
    var s3 := State(Table(None, 1), map[8 := old1, 7 := old2], map[1 := waiting]);
    var s4 := State(Table(Some(new1), 2), map[8 := new1, 7 := old2],
                    map[1 := waiting, 2 := Task(Some(new1), new1, Excluding(u), Some(1), false)]);
    var s5 := State(Table(Some(Row(1, Patched(empty, Excluding(u)), 2)), 2), map[8 := new1, 7 := old2], map[1 := waiting]);
    First(P, k, s1);
    Applied(P, s1, 0);
    assert Run(P, s1, [Recheck(0), Commit(0)]) == s2;
    Second(P, k, u, s2, s3);
    Third(P, k, u, s3, s4);
    Applied(P, s4, 2);
    assert Run(P, s4, [Recheck(2), Commit(2)]) == s5;
    Applied(P, s5, 1);
    var s6 := Run(P, s5, [Recheck(1), Commit(1)]);
    StorageObeys(P, s1, 0, Honest);
    StorageObeys(P, s4, 2, Honest);
    StorageObeys(P, s5, 1, Honest);
    var p1 := [] + [Create(k), Look(8), Begin(0, 8, UNCHANGED, Some(1))];
    var p2 := p1 + [Recheck(0), Commit(0)];
    var p3 := p2 + [Look(7), Begin(1, 7, Including(u), Some(2)), Drop];
    var p4 := p3 + [Create(k), Look(8), Begin(2, 8, Excluding(u), Some(1))];
    var p5 := p4 + [Recheck(2), Commit(2)];
    Onward(P, [], s0, [Create(k), Look(8), Begin(0, 8, UNCHANGED, Some(1))], s1, Honest);
    Onward(P, p1, s1, [Recheck(0), Commit(0)], s2, Honest);
    Onward(P, p2, s2, [Look(7), Begin(1, 7, Including(u), Some(2)), Drop], s3, Honest);
    Onward(P, p3, s3, [Create(k), Look(8), Begin(2, 8, Excluding(u), Some(1))], s4, Honest);
    Onward(P, p4, s4, [Recheck(2), Commit(2)], s5, Honest);
    Onward(P, p5, s5, [Recheck(1), Commit(1)], s6, Honest);
    var last := s6.table.row.value.content;
    assert u in last.included * last.excluded;
  }

  lemma First(P: Platform, k: string, s1: State)
    requires IsValidKey(k)
    requires
      var old1 := Row(0, EmptySegment(k), 1);
      s1 == State(Table(Some(old1), 1), map[8 := old1], map[0 := Task(Some(old1), old1, UNCHANGED, Some(1), false)])
    ensures Run(P, NOTHING, [Create(k), Look(8), Begin(0, 8, UNCHANGED, Some(1))]) == s1
    ensures Obeys(P, NOTHING, [Create(k), Look(8), Begin(0, 8, UNCHANGED, Some(1))], Honest)
  {
    Run3(P, NOTHING, Create(k), Look(8), Begin(0, 8, UNCHANGED, Some(1)));
    Obeys3(P, NOTHING, Create(k), Look(8), Begin(0, 8, UNCHANGED, Some(1)), Honest);
  }

  lemma Second(P: Platform, k: string, u: string, s2: State, s3: State)
    requires IsValidKey(k)
    requires
      var old1, old2 := Row(0, EmptySegment(k), 1), Row(0, EmptySegment(k), 2);
      && s2 == State(Table(Some(old2), 1), map[8 := old1], map[])
      && s3 == State(Table(None, 1), map[8 := old1, 7 := old2], map[1 := Task(Some(old2), old2, Including(u), Some(2), false)])
    ensures Run(P, s2, [Look(7), Begin(1, 7, Including(u), Some(2)), Drop]) == s3
    ensures Obeys(P, s2, [Look(7), Begin(1, 7, Including(u), Some(2)), Drop], Honest)
  {
    Run3(P, s2, Look(7), Begin(1, 7, Including(u), Some(2)), Drop);
    Obeys3(P, s2, Look(7), Begin(1, 7, Including(u), Some(2)), Drop, Honest);
  }

  lemma Third(P: Platform, k: string, u: string, s3: State, s4: State)
    requires IsValidKey(k) && s3.table == Table(None, 1) && 2 !in s3.tasks
    requires
      var new1 := Row(1, EmptySegment(k), 1);
      s4 == State(Table(Some(new1), 2), s3.seen[8 := new1], s3.tasks[2 := Task(Some(new1), new1, Excluding(u), Some(1), false)])
    ensures Run(P, s3, [Create(k), Look(8), Begin(2, 8, Excluding(u), Some(1))]) == s4
    ensures Obeys(P, s3, [Create(k), Look(8), Begin(2, 8, Excluding(u), Some(1))], Honest)
  {
    Run3(P, s3, Create(k), Look(8), Begin(2, 8, Excluding(u), Some(1)));
    Obeys3(P, s3, Create(k), Look(8), Begin(2, 8, Excluding(u), Some(1)), Honest);
  }

  /**
   * Both disciplines are needed and together they are enough: of the four
   * choices of which to ask for, all runs keep the stored segment valid exactly
   * when honest versions and the same segment are both asked for.
   */
  lemma StaysValidIff(P: Platform, honest: bool, same: bool)
    ensures AllRunsValid(P, honest, same) <==> honest && same
  {
    if honest && same {
      forall events | Obeys(P, NOTHING, events, Honest) && Obeys(P, NOTHING, events, SameSegment)
        ensures StoredOk(P, Run(P, NOTHING, events))
      {
        SegmentStaysValid(P, events);
      }
    }
    ShortKey("k");
    UnreadVersionsBreakIt(P, "k", "user", None);
    RecreationBreaksIt(P, "k", "user");
  }

  ghost predicate AllRunsValid(P: Platform, honest: bool, same: bool) {
    forall events ::
      (honest ==> Obeys(P, NOTHING, events, Honest)) && (same ==> Obeys(P, NOTHING, events, SameSegment)) ==>
        StoredOk(P, Run(P, NOTHING, events))
  }
}
