/**
 * The configuration tables and every request that changes them, each request
 * as one atomic step.
 *
 * Rows are keyed by their unique index instead of their id: a flag and an
 * environment by project and key (keys never change), a configuration by flag
 * and environment, a segment and an experiment by environment and key.
 */
module ConfigStore {
  import opened FlagTypes
  import opened Matching
  import opened Engine
  import opened Validation

  datatype Key = Key(project: Uuid, name: string)

  datatype EnvironmentRow = EnvironmentRow(id: Uuid, salt: string, createdAt: int)

  datatype FlagRow = FlagRow(variants: seq<Variant>, archived: bool)

  datatype Slot = Slot(flag: Key, environment: Key)

  datatype Config = Config(enabled: bool, offVariant: string, fallthrough: Distribution, rules: seq<Rule>, version: int)

  datatype Scoped = Scoped(environment: Key, name: string)

  datatype Tables = Tables(
    environments: map<Key, EnvironmentRow>,
    flags: map<Key, FlagRow>,
    configs: map<Slot, Config>,
    segments: map<Scoped, Segment>,
    experiments: map<Scoped, Key>)

  const EMPTY: Tables := Tables(map[], map[], map[], map[], map[])

  datatype Refusal = BadKey | NotFound | AlreadyExists | Unprocessable | InUse | VersionConflict | NotNullViolation | Archived | UnknownControl

  type Outcome = Result<Tables, Refusal>

  datatype SegmentPatch = SegmentPatch(included: Option<set<string>>, excluded: Option<set<string>>, rules: Option<seq<SegmentRule>>)

  datatype Request =
    | CreateFlag(flag: Key, variants: Option<seq<Variant>>, offVariant: Option<string>, fallthrough: Option<Distribution>)
    | UpdateFlag(flag: Key, newVariants: Option<seq<Variant>>, archived: Option<bool>)
    | DeleteFlag(flag: Key)
    | UpdateConfig(flag: Key, environment: string, config: Config, expected: Option<int>)
    | CreateEnvironment(environmentKey: Key, id: Uuid, salt: string, now: int)
    | DeleteEnvironment(environmentKey: Key)
    | CreateSegment(segment: Scoped)
    | UpdateSegment(segment: Scoped, patch: SegmentPatch, expected: Option<int>)
    | DeleteSegment(segment: Scoped)
    | CreateExperiment(experiment: Scoped, flagName: string, control: string)
    | DeleteExperiment(experiment: Scoped)

  function OrElse<T>(o: Option<T>, default: T): T {
    if o.Some? then o.value else default
  }

  // ---------------------------------------------------------------- reading --

  /** The flag as the engine sees it in one environment. */
  function Loaded(db: Tables, s: Slot): Flag
    requires s in db.configs && s.flag in db.flags
  {
    var c := db.configs[s];
    Flag(s.flag.name, db.flags[s.flag].variants, c.enabled, c.offVariant, c.fallthrough, c.rules, c.version)
  }

  function SegmentNames(db: Tables, e: Key): set<string> {
    set k | k in db.segments && k.environment == e :: k.name
  }

  /** What evaluation needs of an environment besides its flags. */
  function EnvironmentAt(db: Tables, e: Key): Environment
    requires e in db.environments
  {
    Environment(db.environments[e].salt, map n | n in SegmentNames(db, e) :: db.segments[Scoped(e, n)])
  }

  predicate HasEnvironment(db: Tables, project: Uuid) {
    exists e :: e in db.environments && e.project == project
  }

  /** Some rule of the configuration requires or excludes the segment. */
  predicate References(c: Config, segment: string) {
    exists i | 0 <= i < |c.rules| :: segment in RuleSegments(c.rules[i])
  }

  predicate SegmentInUse(db: Tables, segment: Scoped) {
    exists s :: s in db.configs && s.environment == segment.environment && References(db.configs[s], segment.name)
  }

  // ------------------------------------------------------------------ flags --

  /** The candidate the route validates: the flag as the engine would build it. */
  function Candidate(key: string, variants: seq<Variant>, off: string, fallthrough: Distribution, rules: seq<Rule>): Flag {
    Flag(key, variants, true, off, fallthrough, rules, 0)
  }

  const BOOLEAN_VARIANTS: seq<Variant> := [Variant("on", BoolValue(true)), Variant("off", BoolValue(false))]

  function CreateFlagSpec(P: Platform, db: Tables, flag: Key, variants: Option<seq<Variant>>, off: Option<string>, fallthrough: Option<Distribution>): Outcome {
    var vs := OrElse(variants, BOOLEAN_VARIANTS);
    var o := OrElse(off, "off");
    var d := OrElse(fallthrough, Fixed("on"));
    if !IsValidKey(flag.name) then Err(BadKey)
    else if !FlagOk(P, Candidate(flag.name, vs, o, d, [])) then Err(Unprocessable)
    else if flag in db.flags then Err(AlreadyExists)
    else Ok(db.(flags := db.flags[flag := FlagRow(vs, false)],
                configs := db.configs + (map s | s in Seats(db, flag) :: Config(false, o, d, [], 1))))
  }

  /** The flag's slots in the environments of its project. */
  function Seats(db: Tables, flag: Key): set<Slot> {
    set e | e in db.environments && e.project == flag.project :: Slot(flag, e)
  }

  /** The environment's configuration still makes sense with the new variants. */
  predicate Survives(P: Platform, db: Tables, s: Slot, variants: seq<Variant>)
    requires s in db.configs
  {
    var c := db.configs[s];
    FlagOk(P, Candidate(s.flag.name, variants, c.offVariant, c.fallthrough, c.rules))
  }

  function UpdateFlagSpec(P: Platform, db: Tables, flag: Key, variants: Option<seq<Variant>>, archived: Option<bool>): Outcome {
    if flag !in db.flags then Err(NotFound)
    else if variants.Some? && !(Seats(db, flag) <= db.configs.Keys) then Err(NotFound)
    else if variants.Some? && exists s :: s in Seats(db, flag) && !Survives(P, db, s, variants.value) then Err(Unprocessable)
    else
      var row := db.flags[flag];
      Ok(db.(flags := db.flags[flag := FlagRow(OrElse(variants, row.variants), OrElse(archived, row.archived))]))
  }

  function DeleteFlagSpec(db: Tables, flag: Key): Outcome {
    if flag !in db.flags then Err(NotFound)
    else if exists k :: k in db.experiments && db.experiments[k] == flag then Err(InUse)
    else Ok(db.(flags := db.flags - {flag},
                configs := map s | s in db.configs && s.flag != flag :: db.configs[s]))
  }

  /** `config.version` of the request is ignored; the table numbers versions itself. */
  function UpdateConfigSpec(P: Platform, db: Tables, flag: Key, environment: string, c: Config, expected: Option<int>): Outcome {
    var e := Key(flag.project, environment);
    var s := Slot(flag, e);
    if e !in db.environments || flag !in db.flags then Err(NotFound)
    else if !FlagOk(P, Candidate(flag.name, db.flags[flag].variants, c.offVariant, c.fallthrough, c.rules)) then Err(Unprocessable)
    else if !ReferencesOk(c.rules, SegmentNames(db, e)) then Err(Unprocessable)
    else if s in db.configs && expected.Some? && db.configs[s].version != expected.value then Err(VersionConflict)
    else
      var version := if s in db.configs then db.configs[s].version + 1 else 1;
      Ok(db.(configs := db.configs[s := c.(version := version)]))
  }

  // ----------------------------------------------------------- environments --

  predicate NoLaterThan(db: Tables, e: Key, f: Key)
    requires e in db.environments && f in db.environments
  {
    var x, y := db.environments[e], db.environments[f];
    x.createdAt < y.createdAt || (x.createdAt == y.createdAt && x.id <= y.id)
  }

  /** The slot of the oldest environment that configures the flag. */
  predicate IsReference(db: Tables, flag: Key, s: Slot) {
    && s in db.configs && s.flag == flag && s.environment in db.environments
    && forall t :: t in db.configs && t.flag == flag && t.environment in db.environments ==>
        NoLaterThan(db, s.environment, t.environment)
  }

  predicate HasReference(db: Tables, flag: Key) {
    exists s :: s in db.configs && IsReference(db, flag, s)
  }

  ghost function Reference(db: Tables, flag: Key): (s: Slot)
    requires HasReference(db, flag)
    ensures IsReference(db, flag, s)
  {
    var s :| s in db.configs && IsReference(db, flag, s); s
  }

  /** The variant called `off`, or else the first. */
  function DefaultVariant(variants: seq<Variant>): Option<string> {
    if variants == [] then None
    else if HasVariant(variants, "off") then Some("off")
    else Some(variants[0].key)
  }

  /** What a new environment gives an existing flag; absent when there is no variant to serve. */
  ghost function Seed(db: Tables, flag: Key): Option<Config>
    requires flag in db.flags
  {
    if HasReference(db, flag) then
      var c := db.configs[Reference(db, flag)];
      Some(Config(false, c.offVariant, c.fallthrough, [], 1))
    else
      var d := DefaultVariant(db.flags[flag].variants);
      if d.Some? then Some(Config(false, d.value, Fixed(d.value), [], 1)) else None
  }

  ghost predicate Seedable(db: Tables, project: Uuid) {
    forall f :: f in db.flags && f.project == project ==> Seed(db, f).Some?
  }

  function NewSeats(db: Tables, e: Key): set<Slot> {
    set f | f in db.flags && f.project == e.project :: Slot(f, e)
  }

  ghost function CreateEnvironmentSpec(db: Tables, e: Key, id: Uuid, salt: string, now: int): Outcome {
    if !IsValidKey(e.name) then Err(BadKey)
    else if e in db.environments || exists f :: f in db.environments && db.environments[f].id == id then Err(AlreadyExists)
    else if !Seedable(db, e.project) then Err(NotNullViolation)
    else Ok(db.(environments := db.environments[e := EnvironmentRow(id, salt, now)],
                configs := db.configs + (map s | s in NewSeats(db, e) :: Seed(db, s.flag).value)))
  }

  function DeleteEnvironmentSpec(db: Tables, e: Key): Outcome {
    if e !in db.environments then Err(NotFound)
    else Ok(db.(environments := db.environments - {e},
                configs := map s | s in db.configs && s.environment != e :: db.configs[s],
                segments := map k | k in db.segments && k.environment != e :: db.segments[k],
                experiments := map k | k in db.experiments && k.environment != e :: db.experiments[k]))
  }

  // --------------------------------------------------------------- segments --

  function CreateSegmentSpec(db: Tables, k: Scoped): Outcome {
    if !IsValidKey(k.name) then Err(BadKey)
    else if k.environment !in db.environments then Err(NotFound)
    else if k in db.segments then Err(AlreadyExists)
    else Ok(db.(segments := db.segments[k := Segment(k.name, {}, {}, [], 1)]))
  }

  function Patched(s: Segment, p: SegmentPatch): Segment {
    s.(included := OrElse(p.included, s.included), excluded := OrElse(p.excluded, s.excluded), rules := OrElse(p.rules, s.rules))
  }

  function UpdateSegmentSpec(P: Platform, db: Tables, k: Scoped, p: SegmentPatch, expected: Option<int>): Outcome {
    if k.environment !in db.environments || k !in db.segments then Err(NotFound)
    else if !SegmentOk(P, Patched(db.segments[k], p)) then Err(Unprocessable)
    else if expected.Some? && db.segments[k].version != expected.value then Err(VersionConflict)
    else Ok(db.(segments := db.segments[k := Patched(db.segments[k], p).(version := db.segments[k].version + 1)]))
  }

  function DeleteSegmentSpec(db: Tables, k: Scoped): Outcome {
    if k.environment !in db.environments || k !in db.segments then Err(NotFound)
    else if SegmentInUse(db, k) then Err(InUse)
    else Ok(db.(segments := db.segments - {k}))
  }

  // ------------------------------------------------------------ experiments --

  function CreateExperimentSpec(db: Tables, k: Scoped, flagName: string, control: string): Outcome {
    var flag := Key(k.environment.project, flagName);
    if !IsValidKey(k.name) then Err(BadKey)
    else if k.environment !in db.environments || flag !in db.flags then Err(NotFound)
    else if db.flags[flag].archived then Err(Archived)
    else if !HasVariant(db.flags[flag].variants, control) then Err(UnknownControl)
    else if k in db.experiments then Err(AlreadyExists)
    else Ok(db.(experiments := db.experiments[k := flag]))
  }

  /** Whether the experiment's stage allows it is not known here; any experiment may go. */
  function DeleteExperimentSpec(db: Tables, k: Scoped): Outcome {
    if k !in db.experiments then Err(NotFound)
    else Ok(db.(experiments := db.experiments - {k}))
  }

  // ---------------------------------------------------------------- serving --

  ghost function Handle(P: Platform, db: Tables, r: Request): Outcome {
    match r
    case CreateFlag(f, vs, o, d) => CreateFlagSpec(P, db, f, vs, o, d)
    case UpdateFlag(f, vs, a) => UpdateFlagSpec(P, db, f, vs, a)
    case DeleteFlag(f) => DeleteFlagSpec(db, f)
    case UpdateConfig(f, e, c, x) => UpdateConfigSpec(P, db, f, e, c, x)
    case CreateEnvironment(e, id, salt, now) => CreateEnvironmentSpec(db, e, id, salt, now)
    case DeleteEnvironment(e) => DeleteEnvironmentSpec(db, e)
    case CreateSegment(k) => CreateSegmentSpec(db, k)
    case UpdateSegment(k, p, x) => UpdateSegmentSpec(P, db, k, p, x)
    case DeleteSegment(k) => DeleteSegmentSpec(db, k)
    case CreateExperiment(k, f, control) => CreateExperimentSpec(db, k, f, control)
    case DeleteExperiment(k) => DeleteExperimentSpec(db, k)
  }

  ghost function After(P: Platform, db: Tables, r: Request): Tables {
    OrSame(Handle(P, db, r), db)
  }

  function OrSame(o: Outcome, db: Tables): Tables {
    if o.Ok? then o.value else db
  }

  /** The tables after a run of requests. */
  ghost function Run(P: Platform, db: Tables, requests: seq<Request>): Tables
    decreases |requests|
  {
    if requests == [] then db else Run(P, After(P, db, requests[0]), requests[1..])
  }
}
