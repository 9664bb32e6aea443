/** What every run of requests keeps true of the configuration tables. */
module ConfigStoreProof {
  import opened FlagTypes
  import opened Matching
  import opened Engine
  import opened Validation
  import opened ConfigStore

  // ------------------------------------------------------------- invariant --

  /** A configuration belongs to a flag and an environment of one project. */
  ghost predicate Anchored(db: Tables, s: Slot) {
    s.flag in db.flags && s.environment in db.environments && s.flag.project == s.environment.project
  }

  /** It names only the flag's variants and its rollouts add up. */
  ghost predicate Sane(P: Platform, db: Tables, s: Slot)
    requires s in db.configs && s.flag in db.flags
  {
    var c := db.configs[s];
    ConfigOk(P, VariantKeys(db.flags[s.flag].variants), c.offVariant, c.fallthrough, c.rules)
  }

  /** It references only segments of its own environment. */
  ghost predicate Resolved(db: Tables, s: Slot)
    requires s in db.configs
  {
    ReferencesOk(db.configs[s].rules, SegmentNames(db, s.environment))
  }

  ghost predicate ConfigsOk(P: Platform, db: Tables) {
    forall s :: s in db.configs ==> SlotOk(P, db, s)
  }

  /** A flag is configured in every environment of its project. */
  ghost predicate Complete(db: Tables) {
    forall f, e :: f in db.flags && e in db.environments && f.project == e.project ==> Slot(f, e) in db.configs
  }

  ghost predicate SegmentsOk(P: Platform, db: Tables) {
    forall k :: k in db.segments ==>
      k.environment in db.environments && db.segments[k].key == k.name && SegmentOk(P, db.segments[k])
  }

  ghost predicate ExperimentsOk(db: Tables) {
    forall k :: k in db.experiments ==>
      k.environment in db.environments && db.experiments[k] in db.flags && db.experiments[k].project == k.environment.project
  }

  ghost predicate KeysOk(db: Tables) {
    && (forall f :: f in db.flags ==> IsValidKey(f.name))
    && (forall d, e :: d in db.environments && e in db.environments && db.environments[d].id == db.environments[e].id ==> d == e)
  }

  ghost predicate Inv(P: Platform, db: Tables) {
    ConfigsOk(P, db) && Complete(db) && SegmentsOk(P, db) && ExperimentsOk(db) && KeysOk(db)
  }

  // ------------------------------------------------------------- each step --

  ghost predicate SlotOk(P: Platform, db: Tables, s: Slot)
    requires s in db.configs
  {
    Anchored(db, s) && Sane(P, db, s) && Resolved(db, s)
  }

  /** A configuration nothing around it changed for stays in order. */
  lemma Carried(P: Platform, db: Tables, db': Tables, s: Slot)
    requires s in db.configs && SlotOk(P, db, s) && s in db'.configs && db'.configs[s] == db.configs[s]
    requires s.flag in db'.flags && db'.flags[s.flag] == db.flags[s.flag] && s.environment in db'.environments
    requires SegmentNames(db', s.environment) == SegmentNames(db, s.environment)
    ensures SlotOk(P, db', s)
  {
  }

  lemma CreateFlagKeeps(P: Platform, db: Tables, f: Key, vs: Option<seq<Variant>>, o: Option<string>, d: Option<Distribution>)
    requires Inv(P, db) && CreateFlagSpec(P, db, f, vs, o, d).Ok?
    ensures Inv(P, CreateFlagSpec(P, db, f, vs, o, d).value)
  {
    var db' := CreateFlagSpec(P, db, f, vs, o, d).value;
    CreateFlagSlots(P, db, f, vs, o, d);
    forall g, e | g in db'.flags && e in db'.environments && g.project == e.project
      ensures Slot(g, e) in db'.configs
    {
      assert g == f ==> Slot(g, e) in Seats(db, f);
    }
    assert SegmentsOk(P, db') && ExperimentsOk(db') && KeysOk(db');
  }

  lemma CreateFlagSlots(P: Platform, db: Tables, f: Key, vs: Option<seq<Variant>>, o: Option<string>, d: Option<Distribution>)
    requires ConfigsOk(P, db) && CreateFlagSpec(P, db, f, vs, o, d).Ok?
    ensures ConfigsOk(P, CreateFlagSpec(P, db, f, vs, o, d).value)
  {
    var db' := CreateFlagSpec(P, db, f, vs, o, d).value;
    forall s | s in db'.configs
      ensures SlotOk(P, db', s)
    {
      if s in Seats(db, f) {
        assert db'.configs[s].rules == [];
      } else {
        assert SlotOk(P, db, s);
        assert SegmentNames(db', s.environment) == SegmentNames(db, s.environment);
        Carried(P, db, db', s);
      }
    }
  }

  lemma UpdateFlagKeeps(P: Platform, db: Tables, f: Key, vs: Option<seq<Variant>>, a: Option<bool>)
    requires Inv(P, db) && UpdateFlagSpec(P, db, f, vs, a).Ok?
    ensures Inv(P, UpdateFlagSpec(P, db, f, vs, a).value)
  {
    var db' := UpdateFlagSpec(P, db, f, vs, a).value;
    assert forall e :: SegmentNames(db', e) == SegmentNames(db, e);
    forall s | s in db'.configs
      ensures SlotOk(P, db', s)
    {
      assert SlotOk(P, db, s);
      if s.flag == f && vs.Some? {
        assert s == Slot(f, s.environment) && s in Seats(db, f);
        assert Survives(P, db, s, vs.value);
      }
    }
  }

  lemma DeleteFlagKeeps(P: Platform, db: Tables, f: Key)
    requires Inv(P, db) && DeleteFlagSpec(db, f).Ok?
    ensures Inv(P, DeleteFlagSpec(db, f).value)
  {
    var db' := DeleteFlagSpec(db, f).value;
    assert forall e :: SegmentNames(db', e) == SegmentNames(db, e);
    forall s | s in db'.configs
      ensures SlotOk(P, db', s)
    {
      assert SlotOk(P, db, s);
    }
  }

  lemma UpdateConfigKeeps(P: Platform, db: Tables, f: Key, e: string, c: Config, x: Option<int>)
    requires Inv(P, db) && UpdateConfigSpec(P, db, f, e, c, x).Ok?
    ensures Inv(P, UpdateConfigSpec(P, db, f, e, c, x).value)
  {
    var db' := UpdateConfigSpec(P, db, f, e, c, x).value;
    UpdateConfigSlots(P, db, f, e, c, x);
    assert Complete(db') && SegmentsOk(P, db') && ExperimentsOk(db') && KeysOk(db');
  }

  lemma UpdateConfigSlots(P: Platform, db: Tables, f: Key, e: string, c: Config, x: Option<int>)
    requires ConfigsOk(P, db) && UpdateConfigSpec(P, db, f, e, c, x).Ok?
    ensures ConfigsOk(P, UpdateConfigSpec(P, db, f, e, c, x).value)
  {
    var db' := UpdateConfigSpec(P, db, f, e, c, x).value;
    forall s | s in db'.configs
      ensures SlotOk(P, db', s)
    {
      assert SegmentNames(db', s.environment) == SegmentNames(db, s.environment);
      if s != Slot(f, Key(f.project, e)) {
        assert SlotOk(P, db, s);
        Carried(P, db, db', s);
      }
    }
  }

  /** Among the environments that configure a flag one is the oldest. */
  lemma {:induction false} OldestOf(db: Tables, slots: set<Slot>) returns (s: Slot)
    requires slots != {} && forall t :: t in slots ==> t.environment in db.environments
    ensures s in slots && forall t :: t in slots ==> NoLaterThan(db, s.environment, t.environment)
    decreases slots
  {
    s :| s in slots;
    var rest := slots - {s};
    if rest != {} {
      var t := OldestOf(db, rest);
      if !NoLaterThan(db, s.environment, t.environment) {
        s := t;
      }
    }
  }

  lemma ReferenceExists(db: Tables, f: Key, s: Slot)
    requires s in db.configs && s.flag == f && s.environment in db.environments
    ensures HasReference(db, f)
  {
    var slots := set t | t in db.configs && t.flag == f && t.environment in db.environments;
    assert s in slots;
    var r := OldestOf(db, slots);
    assert IsReference(db, f, r);
  }

  /** What a flag is seeded with names its own variants. */
  lemma SeedSane(P: Platform, db: Tables, f: Key)
    requires Inv(P, db) && f in db.flags && Seed(db, f).Some?
    ensures
      var c := Seed(db, f).value;
      ConfigOk(P, VariantKeys(db.flags[f].variants), c.offVariant, c.fallthrough, c.rules) && c.rules == [] && !c.enabled
  {
    if HasReference(db, f) {
      assert Sane(P, db, Reference(db, f));
    } else {
      var vs := db.flags[f].variants;
      assert vs[0].key in VariantKeys(vs);
      if HasVariant(vs, "off") {
        var i :| 0 <= i < |vs| && vs[i].key == "off";
        assert vs[i].key in VariantKeys(vs);
      }
    }
  }

  lemma CreateEnvironmentKeeps(P: Platform, db: Tables, e: Key, id: Uuid, salt: string, now: int)
    requires Inv(P, db) && CreateEnvironmentSpec(db, e, id, salt, now).Ok?
    ensures Inv(P, CreateEnvironmentSpec(db, e, id, salt, now).value)
  {
    var db' := CreateEnvironmentSpec(db, e, id, salt, now).value;
    assert forall e :: SegmentNames(db', e) == SegmentNames(db, e);
    forall s | s in db'.configs
      ensures SlotOk(P, db', s)
    {
      if s in NewSeats(db, e) {
        SeedSane(P, db, s.flag);
      } else {
        assert SlotOk(P, db, s);
      }
    }
    forall f, d | f in db'.flags && d in db'.environments && f.project == d.project
      ensures Slot(f, d) in db'.configs
    {
      assert d == e ==> Slot(f, d) in NewSeats(db, e);
    }
  }

  lemma DeleteEnvironmentKeeps(P: Platform, db: Tables, e: Key)
    requires Inv(P, db) && DeleteEnvironmentSpec(db, e).Ok?
    ensures Inv(P, DeleteEnvironmentSpec(db, e).value)
  {
    var db' := DeleteEnvironmentSpec(db, e).value;
    DeleteEnvironmentConfigs(P, db, e);
    assert SegmentsOk(P, db') && ExperimentsOk(db') && KeysOk(db');
  }

  lemma DeleteEnvironmentConfigs(P: Platform, db: Tables, e: Key)
    requires ConfigsOk(P, db) && Complete(db) && DeleteEnvironmentSpec(db, e).Ok?
    ensures ConfigsOk(P, DeleteEnvironmentSpec(db, e).value) && Complete(DeleteEnvironmentSpec(db, e).value)
  {
    var db' := DeleteEnvironmentSpec(db, e).value;
    forall s | s in db'.configs
      ensures SlotOk(P, db', s)
    {
      assert SlotOk(P, db, s);
      OtherSegments(db, e, s.environment);
      Carried(P, db, db', s);
    }
  }

  lemma OtherSegments(db: Tables, e: Key, d: Key)
    requires DeleteEnvironmentSpec(db, e).Ok? && d != e
    ensures SegmentNames(DeleteEnvironmentSpec(db, e).value, d) == SegmentNames(db, d)
  {
    var db' := DeleteEnvironmentSpec(db, e).value;
    assert forall k: Scoped :: k.environment == d ==> (k in db'.segments <==> k in db.segments);
  }

  /** Segments changed, but every configuration's references still resolve. */
  lemma SegmentsChanged(P: Platform, db: Tables, db': Tables)
    requires ConfigsOk(P, db)
    requires db' == db.(segments := db'.segments)
    requires forall s :: s in db.configs ==> Resolved(db', s)
    ensures ConfigsOk(P, db')
  {
    forall s | s in db'.configs
      ensures SlotOk(P, db', s)
    {
      assert SlotOk(P, db, s);
    }
  }

  lemma MoreSegments(db: Tables, db': Tables, s: Slot)
    requires s in db.configs && s in db'.configs && db'.configs[s] == db.configs[s] && Resolved(db, s)
    requires db.segments.Keys <= db'.segments.Keys
    ensures Resolved(db', s)
  {
    assert SegmentNames(db, s.environment) <= SegmentNames(db', s.environment);
  }

  lemma CreateSegmentKeeps(P: Platform, db: Tables, k: Scoped)
    requires Inv(P, db) && CreateSegmentSpec(db, k).Ok?
    ensures Inv(P, CreateSegmentSpec(db, k).value)
  {
    var db' := CreateSegmentSpec(db, k).value;
    forall s | s in db.configs
      ensures Resolved(db', s)
    {
      MoreSegments(db, db', s);
    }
    SegmentsChanged(P, db, db');
  }

  lemma UpdateSegmentKeeps(P: Platform, db: Tables, k: Scoped, p: SegmentPatch, x: Option<int>)
    requires Inv(P, db) && UpdateSegmentSpec(P, db, k, p, x).Ok?
    ensures Inv(P, UpdateSegmentSpec(P, db, k, p, x).value)
  {
    var db' := UpdateSegmentSpec(P, db, k, p, x).value;
    forall s | s in db.configs
      ensures Resolved(db', s)
    {
      MoreSegments(db, db', s);
    }
    SegmentsChanged(P, db, db');
  }

  lemma DeleteSegmentKeeps(P: Platform, db: Tables, k: Scoped)
    requires Inv(P, db) && DeleteSegmentSpec(db, k).Ok?
    ensures Inv(P, DeleteSegmentSpec(db, k).value)
  {
    var db' := DeleteSegmentSpec(db, k).value;
    forall s | s in db.configs
      ensures Resolved(db', s)
    {
      StillResolved(db, db', s, k);
    }
    SegmentsChanged(P, db, db');
  }

  lemma StillResolved(db: Tables, db': Tables, s: Slot, k: Scoped)
    requires s in db.configs && Resolved(db, s) && !SegmentInUse(db, k)
    requires db' == db.(segments := db.segments - {k})
    ensures Resolved(db', s)
  {
    var rules := db.configs[s].rules;
    forall i | 0 <= i < |rules|
      ensures RuleSegments(rules[i]) <= SegmentNames(db', s.environment)
    {
      forall n | n in RuleSegments(rules[i])
        ensures n in SegmentNames(db', s.environment)
      {
        assert n in SegmentNames(db, s.environment);
        var j :| j in db.segments && j.environment == s.environment && j.name == n;
        if j == k {
          assert References(db.configs[s], k.name);
          assert false;
        }
        assert j in db'.segments;
      }
    }
  }

  lemma ExperimentStepKeeps(P: Platform, db: Tables, db': Tables)
    requires Inv(P, db) && db' == db.(experiments := db'.experiments) && ExperimentsOk(db')
    ensures Inv(P, db')
  {
    assert forall e :: SegmentNames(db', e) == SegmentNames(db, e);
    forall s | s in db'.configs
      ensures SlotOk(P, db', s)
    {
      assert SlotOk(P, db, s);
    }
  }

  lemma StepKeepsInv(P: Platform, db: Tables, r: Request)
    requires Inv(P, db)
    ensures Inv(P, After(P, db, r))
  {
    if Handle(P, db, r).Ok? {
      match r {
        case CreateFlag(f, vs, o, d) => CreateFlagKeeps(P, db, f, vs, o, d);
        case UpdateFlag(f, vs, a) => UpdateFlagKeeps(P, db, f, vs, a);
        case DeleteFlag(f) => DeleteFlagKeeps(P, db, f);
        case UpdateConfig(f, e, c, x) => UpdateConfigKeeps(P, db, f, e, c, x);
        case CreateEnvironment(e, id, salt, now) => CreateEnvironmentKeeps(P, db, e, id, salt, now);
        case DeleteEnvironment(e) => DeleteEnvironmentKeeps(P, db, e);
        case CreateSegment(k) => CreateSegmentKeeps(P, db, k);
        case UpdateSegment(k, p, x) => UpdateSegmentKeeps(P, db, k, p, x);
        case DeleteSegment(k) => DeleteSegmentKeeps(P, db, k);
        case CreateExperiment(k, f, control) => ExperimentStepKeeps(P, db, After(P, db, r));
        case DeleteExperiment(k) => ExperimentStepKeeps(P, db, After(P, db, r));
      }
    }
  }

  /** The invariant holds after every run of requests from empty tables. */
  lemma {:induction false} RunKeepsInv(P: Platform, db: Tables, requests: seq<Request>)
    requires Inv(P, db)
    ensures Inv(P, Run(P, db, requests))
    decreases |requests|
  {
    if requests != [] {
      StepKeepsInv(P, db, requests[0]);
      RunKeepsInv(P, After(P, db, requests[0]), requests[1..]);
    }
  }

  lemma StoreInvariant(P: Platform, requests: seq<Request>)
    ensures Inv(P, Run(P, EMPTY, requests))
  {
    RunKeepsInv(P, EMPTY, requests);
  }
}
