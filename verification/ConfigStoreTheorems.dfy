/** What the store invariant means for the flags and environments being served. */
module ConfigStoreTheorems {
  import opened FlagTypes
  import opened Bucketing
  import opened Matching
  import opened Engine
  import opened Validation
  import opened ConfigStore
  import opened ConfigStoreProof

  // ----------------------------------------------- stored flags evaluate --

  /**
   * After any run of requests, every stored flag evaluates to one of its own
   * variants in its environment, for every context, unless the distribution
   * reached buckets on an attribute the context cannot supply.
   */
  lemma StoredFlagsEvaluate(P: Platform, requests: seq<Request>, s: Slot, ctx: Context, d: Distribution)
    requires
      var db := Run(P, EMPTY, requests);
      s in db.configs && s.flag in db.flags && s.environment in db.environments
    requires
      var db := Run(P, EMPTY, requests);
      Reaches(P, Loaded(db, s), ctx, EnvironmentAt(db, s.environment), d)
    ensures
      var db := Run(P, EMPTY, requests);
      var flag := Loaded(db, s);
      var e := Evaluate(P, flag, ctx, EnvironmentAt(db, s.environment));
      && (e.reason.Error? <==> flag.enabled && Unbucketable(ctx, d))
      && (!e.reason.Error? ==> exists v :: v in flag.variants && e.variant == Some(v.key) && e.value == v.value)
  {
    var db := Run(P, EMPTY, requests);
    StoreInvariant(P, requests);
    assert SlotOk(P, db, s);
    var flag := Loaded(db, s);
    ConfigOkIsEvaluable(P, flag);
    EvaluationSound(P, flag, ctx, EnvironmentAt(db, s.environment), d);
  }

  // ------------------------------------- which stored flags would validate --

  /** A stored flag passes the validator exactly when its own variant list does. */
  lemma StoredPassesIff(P: Platform, db: Tables, s: Slot)
    requires Inv(P, db) && s in db.configs
    ensures s.flag in db.flags && (FlagOk(P, Loaded(db, s)) <==> VariantsOk(db.flags[s.flag].variants))
  {
    assert SlotOk(P, db, s);
  }

  ghost predicate AllVariantsOk(db: Tables) {
    forall f :: f in db.flags ==> VariantsOk(db.flags[f].variants)
  }

  /** Replacing the variants of a flag nobody checks them for: its project has no environment. */
  ghost predicate Unchecked(db: Tables, r: Request) {
    && r.UpdateFlag? && r.flag in db.flags && r.newVariants.Some?
    && !VariantsOk(r.newVariants.value) && !HasEnvironment(db, r.flag.project)
  }

  /** The one way a bad variant list gets stored, as an exact condition on the request. */
  lemma StepKeepsVariantsIff(P: Platform, db: Tables, r: Request)
    requires AllVariantsOk(db)
    ensures AllVariantsOk(After(P, db, r)) <==> !Unchecked(db, r)
  {
    match r {
      case CreateFlag(f, vs, o, d) => CreateFlagVariants(P, db, f, vs, o, d);
      case UpdateFlag(f, vs, a) => UpdateFlagVariants(P, db, f, vs, a);
      case _ => FlagsKept(P, db, r);
    }
  }

  lemma FlagsKept(P: Platform, db: Tables, r: Request)
    requires !r.CreateFlag? && !r.UpdateFlag?
    ensures forall f :: f in After(P, db, r).flags ==> f in db.flags && After(P, db, r).flags[f] == db.flags[f]
  {
  }

  lemma CreateFlagVariants(P: Platform, db: Tables, f: Key, vs: Option<seq<Variant>>, o: Option<string>, d: Option<Distribution>)
    requires AllVariantsOk(db)
    ensures AllVariantsOk(OrSame(CreateFlagSpec(P, db, f, vs, o, d), db))
  {
  }

  lemma UpdateFlagVariants(P: Platform, db: Tables, f: Key, vs: Option<seq<Variant>>, a: Option<bool>)
    requires AllVariantsOk(db)
    ensures AllVariantsOk(OrSame(UpdateFlagSpec(P, db, f, vs, a), db)) <==> !Unchecked(db, UpdateFlag(f, vs, a))
  {
    if f in db.flags && vs.Some? {
      if HasEnvironment(db, f.project) {
        var e :| e in db.environments && e.project == f.project;
        assert Slot(f, e) in Seats(db, f);
      } else {
        assert Seats(db, f) == {};
        assert UpdateFlagSpec(P, db, f, vs, a).Ok?;
        assert UpdateFlagSpec(P, db, f, vs, a).value.flags[f].variants == vs.value;
      }
    }
  }

  lemma {:induction false} RunSplit(P: Platform, db: Tables, rs: seq<Request>, r: Request)
    ensures Run(P, db, rs + [r]) == After(P, Run(P, db, rs), r)
    decreases |rs|
  {
    if rs == [] {
      assert rs + [r] == [r] && [r][1..] == [];
    } else {
      assert (rs + [r])[0] == rs[0] && (rs + [r])[1..] == rs[1..] + [r];
      RunSplit(P, After(P, db, rs[0]), rs[1..], r);
    }
  }

  ghost predicate AlwaysValid(P: Platform, rs: seq<Request>) {
    forall k :: 0 <= k <= |rs| ==> AllVariantsOk(Run(P, EMPTY, rs[..k]))
  }

  ghost predicate NeverUnchecked(P: Platform, rs: seq<Request>) {
    forall k :: 0 <= k < |rs| ==> !Unchecked(Run(P, EMPTY, rs[..k]), rs[k])
  }

  /**
   * Every flag stored at every moment of a run has a variant list the validator
   * accepts, and so passes it in every environment, exactly when no request of
   * the run replaced a flag's variants with a bad list while its project had no
   * environment.
   */
  lemma {:induction false} StoredFlagsValidateIff(P: Platform, rs: seq<Request>)
    ensures AlwaysValid(P, rs) <==> NeverUnchecked(P, rs)
    decreases |rs|
  {
    if rs == [] {
      assert rs[..0] == [];
    } else {
      var n := |rs| - 1;
      var init := rs[..n];
      StoredFlagsValidateIff(P, init);
      RunSplit(P, EMPTY, init, rs[n]);
      assert rs == init + [rs[n]] && rs[..|rs|] == rs;
      assert forall k :: 0 <= k <= n ==> rs[..k] == init[..k];
      assert init[..n] == init;
      if AlwaysValid(P, init) {
        assert AllVariantsOk(Run(P, EMPTY, init[..n]));
        StepKeepsVariantsIff(P, Run(P, EMPTY, init), rs[n]);
      }
      Extends(P, rs, init, n);
    }
  }

  lemma Extends(P: Platform, rs: seq<Request>, init: seq<Request>, n: nat)
    requires rs != [] && n == |rs| - 1 && init == rs[..n]
    requires forall k :: 0 <= k <= n ==> rs[..k] == init[..k]
    ensures AlwaysValid(P, rs) <==> AlwaysValid(P, init) && AllVariantsOk(Run(P, EMPTY, rs[..|rs|]))
    ensures NeverUnchecked(P, rs) <==> NeverUnchecked(P, init) && !Unchecked(Run(P, EMPTY, rs[..n]), rs[n])
  {
    if AlwaysValid(P, rs) {
      forall k | 0 <= k <= |init|
        ensures AllVariantsOk(Run(P, EMPTY, init[..k]))
      {
        assert rs[..k] == init[..k];
      }
    }
    if NeverUnchecked(P, rs) {
      forall k | 0 <= k < |init|
        ensures !Unchecked(Run(P, EMPTY, init[..k]), init[k])
      {
        assert rs[..k] == init[..k] && rs[k] == init[k];
      }
    }
  }

  /**
   * That does happen: a flag created before its project has an environment can
   * be given a repeated variant, and the environment created next stores a
   * configuration of it which the validator rejects.
   */
  lemma UncheckedVariantsGetStored(P: Platform, f: Key, e: Key, v: Variant, id: Uuid, salt: string, now: int)
    requires f.project == e.project && IsValidKey(f.name) && IsValidKey(e.name) && IsValidKey(v.key)
    ensures
      var db := Run(P, EMPTY, [CreateFlag(f, Some([v]), Some(v.key), Some(Fixed(v.key))),
                               UpdateFlag(f, Some([v, v]), None),
                               CreateEnvironment(e, id, salt, now)]);
      Slot(f, e) in db.configs && f in db.flags && !FlagOk(P, Loaded(db, Slot(f, e)))
  {
    var r1, r2, r3 := CreateFlag(f, Some([v]), Some(v.key), Some(Fixed(v.key))), UpdateFlag(f, Some([v, v]), None), CreateEnvironment(e, id, salt, now);
    var db1 := Tables(map[], map[f := FlagRow([v], false)], map[], map[], map[]);
    assert After(P, EMPTY, r1) == db1 by {
      assert v.key in VariantKeys([v]) by { assert [v][0].key == v.key; }
      assert Seats(EMPTY, f) == {};
    }
    var db2 := db1.(flags := map[f := FlagRow([v, v], false)]);
    assert After(P, db1, r2) == db2 by {
      assert Seats(db1, f) == {};
    }
    var db3 := After(P, db2, r3);
    assert Seedable(db2, e.project) by {
      assert forall g :: g in db2.flags ==> g == f;
      assert !HasReference(db2, f);
    }
    assert Slot(f, e) in NewSeats(db2, e);
    assert [v, v][0].key == [v, v][1].key;
    ThreeSteps(P, EMPTY, r1, r2, r3);
  }

  lemma ThreeSteps(P: Platform, db: Tables, r1: Request, r2: Request, r3: Request)
    ensures Run(P, db, [r1, r2, r3]) == After(P, After(P, After(P, db, r1), r2), r3)
  {
    RunSplit(P, db, [r1, r2], r3);
    RunSplit(P, db, [r1], r2);
    RunSplit(P, db, [], r1);
    assert [r1, r2] + [r3] == [r1, r2, r3] && [r1] + [r2] == [r1, r2] && [] + [r1] == [r1];
  }

  // --------------------------------------------------------------- flags --

  /**
   * A new flag is configured in every environment of its project and nowhere
   * else, disabled, without rules, with the off variant and fallthrough asked
   * for or those of a boolean flag; no other configuration changes.
   */
  lemma CreateFlagSeeds(P: Platform, db: Tables, f: Key, vs: Option<seq<Variant>>, o: Option<string>, d: Option<Distribution>, e: Key)
    requires Inv(P, db) && CreateFlagSpec(P, db, f, vs, o, d).Ok?
    ensures
      var db' := CreateFlagSpec(P, db, f, vs, o, d).value;
      && f !in db.flags && f in db'.flags && !db'.flags[f].archived
      && db'.flags[f].variants == (if vs.Some? then vs.value else [Variant("on", BoolValue(true)), Variant("off", BoolValue(false))])
      && SameElsewhere(db.flags, db'.flags, g => g == f) && db' == db.(flags := db'.flags, configs := db'.configs)
      && (Slot(f, e) in db'.configs <==> e in db.environments && e.project == f.project)
      && (Slot(f, e) in db'.configs ==>
        var c := db'.configs[Slot(f, e)];
        && !c.enabled && c.rules == [] && c.version == 1
        && c.offVariant == (if o.Some? then o.value else "off") && c.fallthrough == (if d.Some? then d.value else Fixed("on")))
      && (forall s :: s in db.configs ==> s in db'.configs && db'.configs[s] == db.configs[s])
  {
    NoSeatTaken(P, db, f);
    assert Slot(f, e) in Seats(db, f) <==> e in db.environments && e.project == f.project;
  }

  lemma NoSeatTaken(P: Platform, db: Tables, f: Key)
    requires Inv(P, db) && f !in db.flags
    ensures forall s :: s in db.configs ==> s !in Seats(db, f) && s.flag != f
  {
    forall s | s in db.configs
      ensures s.flag != f
    {
      assert SlotOk(P, db, s);
    }
  }

  // -------------------------------------------------------- environments --

  /** When creating an environment is refused although its key is good and free. */
  lemma CreateEnvironmentRefusedIff(P: Platform, db: Tables, e: Key, id: Uuid, salt: string, now: int)
    requires Inv(P, db) && IsValidKey(e.name) && e !in db.environments
    requires forall d :: d in db.environments ==> db.environments[d].id != id
    ensures CreateEnvironmentSpec(db, e, id, salt, now).Err? <==>
              !HasEnvironment(db, e.project)
              && exists f :: f in db.flags && f.project == e.project && db.flags[f].variants == []
  {
    forall f | f in db.flags && f.project == e.project
      ensures Seed(db, f).None? <==> !HasEnvironment(db, e.project) && db.flags[f].variants == []
    {
      SeedNoneIff(P, db, f);
    }
  }

  lemma SeedNoneIff(P: Platform, db: Tables, f: Key)
    requires Inv(P, db) && f in db.flags
    ensures HasReference(db, f) <==> HasEnvironment(db, f.project)
    ensures Seed(db, f).None? <==> !HasEnvironment(db, f.project) && db.flags[f].variants == []
  {
    if HasEnvironment(db, f.project) {
      var d :| d in db.environments && d.project == f.project;
      ReferenceExists(db, f, Slot(f, d));
    }
    if HasReference(db, f) {
      var s := Reference(db, f);
      assert SlotOk(P, db, s);
      assert s.environment in db.environments && s.environment.project == f.project;
    }
  }

  /** The environment of its project created first, the smaller id deciding between two of the same moment. */
  ghost predicate OldestEnvironment(db: Tables, e: Key) {
    && e in db.environments
    && forall d :: d in db.environments && d.project == e.project ==>
        || db.environments[e].createdAt < db.environments[d].createdAt
        || (db.environments[e].createdAt == db.environments[d].createdAt && db.environments[e].id <= db.environments[d].id)
  }

  lemma OldestExists(P: Platform, db: Tables, f: Key)
    requires Inv(P, db) && f in db.flags && HasReference(db, f)
    ensures
      var d := Reference(db, f).environment;
      OldestEnvironment(db, d) && d.project == f.project
  {
    var s := Reference(db, f);
    assert SlotOk(P, db, s);
    forall d | d in db.environments && d.project == s.environment.project
      ensures NoLaterThan(db, s.environment, d)
    {
      assert Slot(f, d) in db.configs;
    }
  }

  /** The variant a flag is seeded with when nothing configures it yet: `off` if it has one, else its first. */
  lemma DefaultVariantMeaning(variants: seq<Variant>)
    ensures DefaultVariant(variants).None? <==> variants == []
    ensures variants != [] ==>
      DefaultVariant(variants) == Some(if exists i :: 0 <= i < |variants| && variants[i].key == "off" then "off" else variants[0].key)
  {
  }

  /**
   * A new environment gets every flag of its project and only those, disabled,
   * without rules, with what the project's oldest environment serves, or with
   * the flag's default variant when there is no other environment. Nothing else
   * changes.
   */
  lemma SeedsFromOldest(P: Platform, db: Tables, e: Key, id: Uuid, salt: string, now: int, f: Key)
    requires Inv(P, db) && CreateEnvironmentSpec(db, e, id, salt, now).Ok?
    ensures
      var db' := CreateEnvironmentSpec(db, e, id, salt, now).value;
      && (Slot(f, e) in db'.configs <==> f in db.flags && f.project == e.project)
      && (Slot(f, e) in db'.configs ==>
        var c := db'.configs[Slot(f, e)];
        && !c.enabled && c.rules == [] && c.version == 1
        && (HasEnvironment(db, e.project) ==> exists d :: OldestEnvironment(db, d) && d.project == e.project && ServesAlike(db, Slot(f, d), c))
        && (!HasEnvironment(db, e.project) ==>
              && c.fallthrough == Fixed(c.offVariant)
              && c.offVariant == if HasVariant(db.flags[f].variants, "off") then "off" else db.flags[f].variants[0].key))
      && (forall s :: s in db.configs ==> s in db'.configs && db'.configs[s] == db.configs[s])
      && db' == db.(configs := db'.configs, environments := db.environments[e := EnvironmentRow(id, salt, now)])
  {
    forall s | s in db.configs
      ensures s !in NewSeats(db, e)
    {
      assert SlotOk(P, db, s);
    }
    if f in db.flags && f.project == e.project {
      assert Slot(f, e) in NewSeats(db, e);
      SeedNoneIff(P, db, f);
      DefaultVariantMeaning(db.flags[f].variants);
      if HasEnvironment(db, e.project) {
        OldestExists(P, db, f);
        assert ServesAlike(db, Reference(db, f), Seed(db, f).value);
      }
    }
  }

  /** The stored configuration has this off variant and fallthrough. */
  ghost predicate ServesAlike(db: Tables, s: Slot, c: Config) {
    s in db.configs && c.offVariant == db.configs[s].offVariant && c.fallthrough == db.configs[s].fallthrough
  }

  // ------------------------------------------------------------- segments --

  /** The tables differ only in segments the configuration does not reference. */
  lemma UnseenChange(P: Platform, db: Tables, db': Tables, s: Slot, k: Scoped, ctx: Context)
    requires s in db.configs && s.flag in db.flags && s.environment in db.environments
    requires db' == db.(segments := db'.segments)
    requires forall j: Scoped :: j != k ==> (j in db'.segments <==> j in db.segments)
    requires forall j: Scoped :: j != k && j in db.segments ==> db'.segments[j] == db.segments[j]
    requires s.environment == k.environment ==> !References(db.configs[s], k.name)
    ensures Evaluate(P, Loaded(db', s), ctx, EnvironmentAt(db', s.environment))
         == Evaluate(P, Loaded(db, s), ctx, EnvironmentAt(db, s.environment))
  {
    var flag, e := Loaded(db, s), s.environment;
    var before, after := EnvironmentAt(db, e), EnvironmentAt(db', e);
    forall n | n in FlagSegments(flag)
      ensures n in before.segments <==> n in after.segments
      ensures n in before.segments ==> before.segments[n] == after.segments[n]
    {
      var r, m :| r in flag.rules && m in RuleSegments(r) && m == n;
      var i :| 0 <= i < |flag.rules| && flag.rules[i] == r;
      assert Scoped(e, n) != k;
      NameIff(db, e, n);
      NameIff(db', e, n);
    }
    EvaluationFrame(P, flag, ctx, ctx, before, after);
  }

  lemma NameIff(db: Tables, e: Key, n: string)
    ensures n in SegmentNames(db, e) <==> Scoped(e, n) in db.segments
  {
    if n in SegmentNames(db, e) {
      var k :| k in db.segments && k.environment == e && k.name == n;
      assert k == Scoped(e, n);
    }
  }

  /** An allowed deletion of a segment changes no evaluation, of any flag, anywhere, for any context. */
  lemma DeleteSegmentUnseen(P: Platform, db: Tables, k: Scoped, s: Slot, ctx: Context)
    requires Inv(P, db) && DeleteSegmentSpec(db, k).Ok? && s in db.configs
    ensures
      var db' := DeleteSegmentSpec(db, k).value;
      && s.flag in db.flags && s.environment in db.environments && s in db'.configs
      && Evaluate(P, Loaded(db', s), ctx, EnvironmentAt(db', s.environment))
         == Evaluate(P, Loaded(db, s), ctx, EnvironmentAt(db, s.environment))
  {
    assert SlotOk(P, db, s);
    UnseenChange(P, db, DeleteSegmentSpec(db, k).value, s, k, ctx);
  }

  /** Neither does creating one. */
  lemma CreateSegmentUnseen(P: Platform, db: Tables, k: Scoped, s: Slot, ctx: Context)
    requires Inv(P, db) && CreateSegmentSpec(db, k).Ok? && s in db.configs
    ensures
      var db' := CreateSegmentSpec(db, k).value;
      && s.flag in db.flags && s.environment in db.environments && s in db'.configs
      && Evaluate(P, Loaded(db', s), ctx, EnvironmentAt(db', s.environment))
         == Evaluate(P, Loaded(db, s), ctx, EnvironmentAt(db, s.environment))
  {
    assert SlotOk(P, db, s);
    if s.environment == k.environment && References(db.configs[s], k.name) {
      NameIff(db, k.environment, k.name);
      assert false;
    }
    UnseenChange(P, db, CreateSegmentSpec(db, k).value, s, k, ctx);
  }

  // --------------------------------------------------------- reached tables --

  /** Some run of requests from empty tables ends in these. */
  ghost predicate Reached(P: Platform, db: Tables) {
    exists requests :: Run(P, EMPTY, requests) == db
  }

  lemma ReachedStep(P: Platform, db: Tables, r: Request)
    requires Reached(P, db)
    ensures Reached(P, After(P, db, r))
  {
    var requests :| Run(P, EMPTY, requests) == db;
    RunSplit(P, EMPTY, requests, r);
  }

  lemma ReachedInv(P: Platform, db: Tables)
    requires Reached(P, db)
    ensures Inv(P, db)
  {
    var requests :| Run(P, EMPTY, requests) == db;
    StoreInvariant(P, requests);
  }

  // --------------------------------------------------- effects of deletion --

  ghost predicate SameElsewhere<K(!new), V>(a: map<K, V>, b: map<K, V>, touched: K -> bool) {
    forall k :: !touched(k) ==> (k in b <==> k in a) && (k in a ==> b[k] == a[k])
  }

  /** The flag and its configurations are gone, and nothing else is. */
  ghost predicate FlagGone(db: Tables, db': Tables, flag: Key) {
    && flag !in db'.flags && (forall e :: Slot(flag, e) !in db'.configs)
    && SameElsewhere(db.flags, db'.flags, f => f == flag)
    && SameElsewhere(db.configs, db'.configs, (s: Slot) => s.flag == flag)
    && db'.environments == db.environments && db'.segments == db.segments && db'.experiments == db.experiments
  }

  lemma DeleteFlagEffect(db: Tables, flag: Key)
    ensures DeleteFlagSpec(db, flag).Ok? <==> flag in db.flags && forall k :: k in db.experiments ==> db.experiments[k] != flag
    ensures DeleteFlagSpec(db, flag).Ok? ==> FlagGone(db, DeleteFlagSpec(db, flag).value, flag)
  {
  }

  /** Everything scoped to the environment is gone with it, and nothing else is. */
  ghost predicate EnvironmentGone(db: Tables, db': Tables, e: Key) {
    && e !in db'.environments && (forall f :: Slot(f, e) !in db'.configs)
    && (forall n :: Scoped(e, n) !in db'.segments && Scoped(e, n) !in db'.experiments)
    && SameElsewhere(db.environments, db'.environments, d => d == e)
    && SameElsewhere(db.configs, db'.configs, (s: Slot) => s.environment == e)
    && SameElsewhere(db.segments, db'.segments, (k: Scoped) => k.environment == e)
    && SameElsewhere(db.experiments, db'.experiments, (k: Scoped) => k.environment == e)
    && db'.flags == db.flags
  }

  lemma DeleteEnvironmentEffect(db: Tables, e: Key)
    ensures DeleteEnvironmentSpec(db, e).Ok? <==> e in db.environments
    ensures DeleteEnvironmentSpec(db, e).Ok? ==> EnvironmentGone(db, DeleteEnvironmentSpec(db, e).value, e)
  {
  }

  /** There is one segment more, at version 1, and nobody is in it. */
  ghost predicate EmptySegmentAdded(db: Tables, db': Tables, k: Scoped) {
    && k in db'.segments && db'.segments[k].version == 1
    && (forall P, ctx, salt :: !SegmentContains(P, db'.segments[k], ctx, salt))
    && SameElsewhere(db.segments, db'.segments, j => j == k)
    && db' == db.(segments := db'.segments)
  }

  lemma CreateSegmentEffect(db: Tables, k: Scoped)
    ensures CreateSegmentSpec(db, k).Ok? <==> IsValidKey(k.name) && k.environment in db.environments && k !in db.segments
    ensures CreateSegmentSpec(db, k).Ok? ==> EmptySegmentAdded(db, CreateSegmentSpec(db, k).value, k)
  {
  }

  ghost predicate SegmentGone(db: Tables, db': Tables, k: Scoped) {
    k !in db'.segments && SameElsewhere(db.segments, db'.segments, j => j == k) && db' == db.(segments := db'.segments)
  }

  /** Evaluating some flag of the segment's environment may look at the segment. */
  ghost predicate ReferencedByFlag(db: Tables, k: Scoped) {
    exists s :: s in db.configs && s.environment == k.environment && s.flag in db.flags && k.name in FlagSegments(Loaded(db, s))
  }

  lemma DeleteSegmentEffect(db: Tables, k: Scoped)
    ensures DeleteSegmentSpec(db, k).Ok? ==> SegmentGone(db, DeleteSegmentSpec(db, k).value, k)
  {
  }

  /** The query for references finds a segment in use exactly when evaluating some stored flag may look at it. */
  lemma InUseMeaning(P: Platform, db: Tables, k: Scoped)
    requires Inv(P, db)
    ensures SegmentInUse(db, k) <==> ReferencedByFlag(db, k)
  {
    forall s | s in db.configs
      ensures s.flag in db.flags && (References(db.configs[s], k.name) <==> k.name in FlagSegments(Loaded(db, s)))
    {
      assert SlotOk(P, db, s);
      ReferencesMeaning(db, s, k.name);
    }
  }

  lemma ReferencesMeaning(db: Tables, s: Slot, name: string)
    requires s in db.configs && s.flag in db.flags
    ensures References(db.configs[s], name) <==> name in FlagSegments(Loaded(db, s))
  {
    var rules := db.configs[s].rules;
    if name in FlagSegments(Loaded(db, s)) {
      var r, n :| r in rules && n in RuleSegments(r) && n == name;
      var i :| 0 <= i < |rules| && rules[i] == r;
    }
    if References(db.configs[s], name) {
      var i :| 0 <= i < |rules| && name in RuleSegments(rules[i]);
      assert rules[i] in rules;
    }
  }

  // ---------------------------------------------------- effects of updating --

  function Given<T>(o: Option<T>, otherwise: T): T { if o.Some? then o.value else otherwise }

  /** The fields the patch gives are replaced, the others kept, and the version is one more. */
  ghost predicate PatchedRow(was: Segment, now: Segment, p: SegmentPatch) {
    && (p.included.Some? ==> now.included == p.included.value) && (p.included.None? ==> now.included == was.included)
    && (p.excluded.Some? ==> now.excluded == p.excluded.value) && (p.excluded.None? ==> now.excluded == was.excluded)
    && (p.rules.Some? ==> now.rules == p.rules.value) && (p.rules.None? ==> now.rules == was.rules)
    && now.key == was.key && now.version == was.version + 1
  }

  /** One segment was patched, and nothing else changed. */
  ghost predicate SegmentUpdated(db: Tables, db': Tables, k: Scoped, p: SegmentPatch) {
    && k in db.segments && k in db'.segments && PatchedRow(db.segments[k], db'.segments[k], p)
    && SameElsewhere(db.segments, db'.segments, j => j == k) && db' == db.(segments := db'.segments)
  }

  /** The segment with the fields the patch gives. */
  ghost predicate PatchIsOk(P: Platform, was: Segment, p: SegmentPatch) {
    SegmentOk(P, Segment(was.key, Given(p.included, was.included), Given(p.excluded, was.excluded), Given(p.rules, was.rules), was.version))
  }

  /** Missing, not valid once patched, changed since: refused for the first that applies; else updated. */
  lemma UpdateSegmentEffect(P: Platform, db: Tables, k: Scoped, p: SegmentPatch, expected: Option<int>)
    requires SegmentsOk(P, db)
    ensures
      var o := UpdateSegmentSpec(P, db, k, p, expected);
      && (o == Err(NotFound) <==> k !in db.segments)
      && (o == Err(Unprocessable) <==> k in db.segments && !PatchIsOk(P, db.segments[k], p))
      && (o == Err(VersionConflict) <==>
           k in db.segments && PatchIsOk(P, db.segments[k], p) && expected.Some? && expected.value != db.segments[k].version)
      && (o.Ok? <==>
           k in db.segments && PatchIsOk(P, db.segments[k], p) && (expected.None? || expected.value == db.segments[k].version))
      && (o.Ok? ==> SegmentUpdated(db, o.value, k, p))
  {
    if k in db.segments {
      var was := db.segments[k];
      assert Patched(was, p) ==
        Segment(was.key, Given(p.included, was.included), Given(p.excluded, was.excluded), Given(p.rules, was.rules), was.version);
    }
  }

  /** What was given replaces what was stored; nothing else changes. */
  ghost predicate FlagUpdated(db: Tables, db': Tables, f: Key, variants: Option<seq<Variant>>, archived: Option<bool>) {
    && f in db.flags && f in db'.flags
    && (variants.Some? ==> db'.flags[f].variants == variants.value) && (variants.None? ==> db'.flags[f].variants == db.flags[f].variants)
    && (archived.Some? ==> db'.flags[f].archived == archived.value) && (archived.None? ==> db'.flags[f].archived == db.flags[f].archived)
    && SameElsewhere(db.flags, db'.flags, g => g == f) && db' == db.(flags := db'.flags)
  }

  /** New variants are accepted exactly when the flag, as every environment configures it, passes the validator with them. */
  lemma UpdateFlagEffect(P: Platform, db: Tables, f: Key, variants: Option<seq<Variant>>, archived: Option<bool>)
    requires Inv(P, db)
    ensures
      var o := UpdateFlagSpec(P, db, f, variants, archived);
      && (o == Err(NotFound) <==> f !in db.flags)
      && (o.Ok? <==> f in db.flags && (variants.Some? ==>
           forall s :: s in db.configs && s.flag == f ==> FlagOk(P, Loaded(db, s).(variants := variants.value))))
      && (o.Ok? ==> FlagUpdated(db, o.value, f, variants, archived))
  {
    if f in db.flags {
      SeatsAreConfigs(P, db, f);
      if variants.Some? {
        forall s | s in Seats(db, f)
          ensures Survives(P, db, s, variants.value) <==> FlagOk(P, Loaded(db, s).(variants := variants.value))
        {
        }
      }
    }
  }

  lemma SeatsAreConfigs(P: Platform, db: Tables, f: Key)
    requires Inv(P, db) && f in db.flags
    ensures forall s :: s in Seats(db, f) <==> s in db.configs && s.flag == f
  {
    forall s | s in db.configs && s.flag == f
      ensures s in Seats(db, f)
    {
      assert SlotOk(P, db, s);
      assert s == Slot(f, s.environment);
    }
  }

  /** The configuration asked for, one version on; nothing else changes. */
  ghost predicate ConfigUpdated(db: Tables, db': Tables, s: Slot, c: Config) {
    && s in db.configs && s in db'.configs && ConfiguredAs(db.configs[s], db'.configs[s], c)
    && SameElsewhere(db.configs, db'.configs, t => t == s) && db' == db.(configs := db'.configs)
  }

  ghost predicate ConfiguredAs(was: Config, now: Config, c: Config) {
    && now.enabled == c.enabled && now.offVariant == c.offVariant && now.fallthrough == c.fallthrough && now.rules == c.rules
    && now.version == was.version + 1
  }

  /** A valid configuration for the flag whose segment references resolve in the environment. */
  ghost predicate Acceptable(P: Platform, db: Tables, s: Slot, c: Config) {
    && s.flag in db.flags && VariantsOk(db.flags[s.flag].variants)
    && ConfigOk(P, VariantKeys(db.flags[s.flag].variants), c.offVariant, c.fallthrough, c.rules)
    && (forall i, n | 0 <= i < |c.rules| && n in RuleSegments(c.rules[i]) :: Scoped(s.environment, n) in db.segments)
  }

  /** Accepted exactly for a known flag and environment, an acceptable configuration, and a version that is current. */
  lemma UpdateConfigAcceptedIff(P: Platform, db: Tables, f: Key, e: string, c: Config, expected: Option<int>)
    requires Inv(P, db)
    ensures
      var s := Slot(f, Key(f.project, e));
      var o := UpdateConfigSpec(P, db, f, e, c, expected);
      && (o == Err(NotFound) <==> f !in db.flags || s.environment !in db.environments)
      && (o == Err(Unprocessable) <==> s in db.configs && !Acceptable(P, db, s, c))
      && (o == Err(VersionConflict) <==> s in db.configs && Acceptable(P, db, s, c) && expected.Some? && expected.value != db.configs[s].version)
      && (o.Ok? <==> s in db.configs && Acceptable(P, db, s, c) && (expected.None? || expected.value == db.configs[s].version))
  {
    var s := Slot(f, Key(f.project, e));
    if s in db.configs {
      assert SlotOk(P, db, s);
    }
    if f in db.flags && s.environment in db.environments {
      assert s in db.configs && IsValidKey(f.name);
      CandidateAcceptable(P, db, s, c);
    }
  }

  lemma CandidateAcceptable(P: Platform, db: Tables, s: Slot, c: Config)
    requires s.flag in db.flags && IsValidKey(s.flag.name)
    ensures Acceptable(P, db, s, c) <==>
      && FlagOk(P, Candidate(s.flag.name, db.flags[s.flag].variants, c.offVariant, c.fallthrough, c.rules))
      && ReferencesOk(c.rules, SegmentNames(db, s.environment))
  {
    ReferencesMean(db, s.environment, c.rules);
  }

  lemma UpdateConfigEffect(P: Platform, db: Tables, f: Key, e: string, c: Config, expected: Option<int>)
    requires Complete(db) && UpdateConfigSpec(P, db, f, e, c, expected).Ok?
    ensures ConfigUpdated(db, UpdateConfigSpec(P, db, f, e, c, expected).value, Slot(f, Key(f.project, e)), c)
  {
    assert Slot(f, Key(f.project, e)) in db.configs;
  }

  lemma ReferencesMean(db: Tables, e: Key, rules: seq<Rule>)
    ensures ReferencesOk(rules, SegmentNames(db, e)) <==>
      forall i, n | 0 <= i < |rules| && n in RuleSegments(rules[i]) :: Scoped(e, n) in db.segments
  {
    forall n
      ensures n in SegmentNames(db, e) <==> Scoped(e, n) in db.segments
    {
      NameIff(db, e, n);
    }
  }

  /** An experiment is created exactly for a good, free key, on a flag that is served, with one of its variants as control. */
  lemma CreateExperimentEffect(db: Tables, k: Scoped, flagName: string, control: string)
    ensures
      var f := Key(k.environment.project, flagName);
      var o := CreateExperimentSpec(db, k, flagName, control);
      && (o.Ok? <==>
        && IsValidKey(k.name) && k.environment in db.environments && k !in db.experiments
        && f in db.flags && !db.flags[f].archived && exists v :: v in db.flags[f].variants && v.key == control)
      && (o.Ok? ==> o.value == db.(experiments := db.experiments[k := f]))
  {
    var f := Key(k.environment.project, flagName);
    if f in db.flags {
      var vs := db.flags[f].variants;
      if HasVariant(vs, control) {
        var i :| 0 <= i < |vs| && vs[i].key == control;
        assert vs[i] in vs;
      }
    }
  }

  lemma ReachedComplete(P: Platform, db: Tables)
    requires Reached(P, db)
    ensures Complete(db) && SegmentsOk(P, db)
  {
    ReachedInv(P, db);
  }
}
