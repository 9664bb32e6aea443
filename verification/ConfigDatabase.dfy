/** The storage layer and its routes as they run: tables held in an object and changed in place. */
module ConfigDatabase {
  import opened FlagTypes
  import opened Matching
  import opened Engine
  import opened Validation
  import opened ConfigStore
  import opened ConfigStoreProof
  import opened ConfigStoreTheorems

  /** The object did what the specification says, refusal included. */
  ghost predicate Follows(spec: Outcome, before: Tables, after: Tables, r: Option<Refusal>) {
    after == OrSame(spec, before) && r == if spec.Ok? then None else Some(spec.error)
  }

  class Database {
    const platform: Platform
    var environments: map<Key, EnvironmentRow>
    var flags: map<Key, FlagRow>
    var configs: map<Slot, Config>
    var segments: map<Scoped, Segment>
    var experiments: map<Scoped, Key>

    function Contents(): Tables reads this {
      Tables(environments, flags, configs, segments, experiments)
    }

    /** The tables are ones that requests lead to. */
    ghost predicate Valid() reads this {
      Reached(platform, Contents())
    }

    /** The object always keeps the store invariant. */
    lemma KeepsInvariant()
      requires Valid()
      ensures Inv(platform, Contents())
    {
      ReachedInv(platform, Contents());
    }

    constructor (P: Platform)
      ensures Valid() && Contents() == EMPTY && platform == P
    {
      platform := P;
      environments, flags, configs, segments, experiments := map[], map[], map[], map[], map[];
      assert Run(P, EMPTY, []) == EMPTY;
    }

    method CreateFlag(flag: Key, variants: Option<seq<Variant>>, off: Option<string>, fallthrough: Option<Distribution>) returns (r: Option<Refusal>)
      requires Valid()
      modifies this
      ensures Valid() && Follows(CreateFlagSpec(platform, old(Contents()), flag, variants, off, fallthrough), old(Contents()), Contents(), r)
    {
      if !IsValidKey(flag.name) {
        return Some(BadKey);
      }
      var vs := OrElse(variants, BOOLEAN_VARIANTS);
      var o := OrElse(off, "off");
      var d := OrElse(fallthrough, Fixed("on"));
      var issues := Validate(platform, Candidate(flag.name, vs, o, d, []));
      if issues != [] {
        return Some(Unprocessable);
      }
      if flag in flags {
        return Some(AlreadyExists);
      }
      ReachedStep(platform, Contents(), Request.CreateFlag(flag, variants, off, fallthrough));
      flags := flags[flag := FlagRow(vs, false)];
      configs := configs + (map s | s in Seats(Contents(), flag) :: Config(false, o, d, [], 1));
      return None;
    }

    /** Every environment is re-validated against the new variants before the write lands. */
    method UpdateFlag(flag: Key, variants: Option<seq<Variant>>, archived: Option<bool>) returns (r: Option<Refusal>)
      requires Valid()
      modifies this
      ensures Valid() && Follows(UpdateFlagSpec(platform, old(Contents()), flag, variants, archived), old(Contents()), Contents(), r)
    {
      if flag !in flags {
        return Some(NotFound);
      }
      ghost var seats := Seats(Contents(), flag);
      assert seats <= configs.Keys by { KeepsInvariant(); }
      if variants.Some? {
        var todo := Seats(Contents(), flag);
        while todo != {}
          invariant todo <= seats && Contents() == old(Contents())
          invariant forall s :: s in seats && s !in todo ==> Survives(platform, Contents(), s, variants.value)
        {
          var s :| s in todo;
          var c := configs[s];
          var issues := Validate(platform, Candidate(flag.name, variants.value, c.offVariant, c.fallthrough, c.rules));
          if issues != [] {
            assert !Survives(platform, Contents(), s, variants.value);
            return Some(Unprocessable);
          }
          todo := todo - {s};
        }
      }
      ReachedStep(platform, Contents(), Request.UpdateFlag(flag, variants, archived));
      var row := flags[flag];
      flags := flags[flag := FlagRow(OrElse(variants, row.variants), OrElse(archived, row.archived))];
      return None;
    }

    /** Refused while an experiment measures the flag; else the flag and its configurations go, and nothing else. */
    method DeleteFlag(flag: Key) returns (r: Option<Refusal>)
      requires Valid()
      modifies this
      ensures Valid() && Follows(DeleteFlagSpec(old(Contents()), flag), old(Contents()), Contents(), r)
      ensures r.None? <==> flag in old(flags) && forall k :: k in old(experiments) ==> old(experiments)[k] != flag
      ensures r.None? ==> FlagGone(old(Contents()), Contents(), flag)
    {
      if flag !in flags {
        return Some(NotFound);
      }
      if exists k :: k in experiments && experiments[k] == flag {
        return Some(InUse);
      }
      ReachedStep(platform, Contents(), Request.DeleteFlag(flag));
      DeleteFlagEffect(Contents(), flag);
      flags := flags - {flag};
      configs := map s | s in configs && s.flag != flag :: configs[s];
      return None;
    }

    method UpdateConfig(flag: Key, environment: string, c: Config, expected: Option<int>) returns (r: Option<Refusal>)
      requires Valid()
      modifies this
      ensures Valid() && Follows(UpdateConfigSpec(platform, old(Contents()), flag, environment, c, expected), old(Contents()), Contents(), r)
      ensures r.None? ==> ConfigUpdated(old(Contents()), Contents(), Slot(flag, Key(flag.project, environment)), c)
    {
      r := CheckConfig(flag, environment, c, expected);
      if r.Some? {
        return;
      }
      ghost var after := UpdateConfigSpec(platform, Contents(), flag, environment, c, expected).value;
      assert ConfigUpdated(Contents(), after, Slot(flag, Key(flag.project, environment)), c) by {
        ReachedComplete(platform, Contents());
        UpdateConfigEffect(platform, Contents(), flag, environment, c, expected);
      }
      ReachedStep(platform, Contents(), Request.UpdateConfig(flag, environment, c, expected));
      var s := Slot(flag, Key(flag.project, environment));
      configs := configs[s := c.(version := configs[s].version + 1)];
      assert Contents() == after;
    }

    /** What the route and the version guard object to, if anything. */
    method CheckConfig(flag: Key, environment: string, c: Config, expected: Option<int>) returns (r: Option<Refusal>)
      requires Valid()
      ensures
        var spec := UpdateConfigSpec(platform, Contents(), flag, environment, c, expected);
        r == if spec.Ok? then None else Some(spec.error)
      ensures r.None? ==> Slot(flag, Key(flag.project, environment)) in configs
    {
      var e := Key(flag.project, environment);
      var s := Slot(flag, e);
      if e !in environments || flag !in flags {
        return Some(NotFound);
      }
      assert s in configs by { KeepsInvariant(); }
      var issues := Validate(platform, Candidate(flag.name, flags[flag].variants, c.offVariant, c.fallthrough, c.rules));
      if issues != [] {
        return Some(Unprocessable);
      }
      issues := ValidateReferences(c.rules, SegmentNames(Contents(), e));
      if issues != [] {
        return Some(Unprocessable);
      }
      return if expected.Some? && configs[s].version != expected.value then Some(VersionConflict) else None;
    }

    /** Works out what every flag of the project is seeded with before storing anything. */
    method CreateEnvironment(e: Key, id: Uuid, salt: string, now: int) returns (r: Option<Refusal>)
      requires Valid()
      modifies this
      ensures Valid() && Follows(CreateEnvironmentSpec(old(Contents()), e, id, salt, now), old(Contents()), Contents(), r)
    {
      if !IsValidKey(e.name) {
        return Some(BadKey);
      }
      if e in environments || exists f :: f in environments && environments[f].id == id {
        return Some(AlreadyExists);
      }
      var seeded := SeedAll(e);
      if seeded.None? {
        return Some(NotNullViolation);
      }
      ReachedStep(platform, Contents(), Request.CreateEnvironment(e, id, salt, now));
      environments := environments[e := EnvironmentRow(id, salt, now)];
      configs := configs + seeded.value;
      return None;
    }

    /** What each flag of the project is seeded with, or nothing at all if one has no variant to serve. */
    method SeedAll(e: Key) returns (r: Option<map<Slot, Config>>)
      requires Valid()
      ensures r.Some? <==> Seedable(Contents(), e.project)
      ensures r.Some? ==> r.value == map s | s in NewSeats(Contents(), e) :: Seed(Contents(), s.flag).value
    {
      ghost var db := Contents();
      var seats := NewSeats(Contents(), e);
      var todo := seats;
      var seeded: map<Slot, Config> := map[];
      while todo != {}
        invariant todo <= seats && seeded.Keys == seats - todo && Seeded(db, seeded)
      {
        var s :| s in todo;
        var c := SeedFor(s.flag);
        if c.None? {
          assert !Seedable(db, e.project);
          return None;
        }
        seeded := seeded[s := c.value];
        todo := todo - {s};
      }
      AllSeeded(db, e, seeded);
      return Some(seeded);
    }

    method SeedFor(flag: Key) returns (c: Option<Config>)
      requires Valid() && flag in flags
      ensures c == Seed(Contents(), flag)
    {
      if exists s :: s in configs && IsReference(Contents(), flag, s) {
        var s :| s in configs && IsReference(Contents(), flag, s);
        KeepsInvariant();
        OneReference(Contents(), flag, s);
        return Some(Config(false, configs[s].offVariant, configs[s].fallthrough, [], 1));
      }
      var d := DefaultVariant(flags[flag].variants);
      return if d.Some? then Some(Config(false, d.value, Fixed(d.value), [], 1)) else None;
    }

    /** Everything scoped to the environment goes with it, and nothing else. */
    method DeleteEnvironment(e: Key) returns (r: Option<Refusal>)
      requires Valid()
      modifies this
      ensures Valid() && Follows(DeleteEnvironmentSpec(old(Contents()), e), old(Contents()), Contents(), r)
      ensures r.None? <==> e in old(environments)
      ensures r.None? ==> EnvironmentGone(old(Contents()), Contents(), e)
    {
      if e !in environments {
        return Some(NotFound);
      }
      ReachedStep(platform, Contents(), Request.DeleteEnvironment(e));
      DeleteEnvironmentEffect(Contents(), e);
      environments := environments - {e};
      configs := map s | s in configs && s.environment != e :: configs[s];
      segments := map k | k in segments && k.environment != e :: segments[k];
      experiments := map k | k in experiments && k.environment != e :: experiments[k];
      return None;
    }

    /** A new segment is empty; a taken key, a bad one or an unknown environment is refused. */
    method CreateSegment(k: Scoped) returns (r: Option<Refusal>)
      requires Valid()
      modifies this
      ensures Valid() && Follows(CreateSegmentSpec(old(Contents()), k), old(Contents()), Contents(), r)
      ensures r.None? <==> IsValidKey(k.name) && k.environment in old(environments) && k !in old(segments)
      ensures r.None? ==> EmptySegmentAdded(old(Contents()), Contents(), k)
    {
      if !IsValidKey(k.name) {
        return Some(BadKey);
      }
      if k.environment !in environments {
        return Some(NotFound);
      }
      if k in segments {
        return Some(AlreadyExists);
      }
      ReachedStep(platform, Contents(), Request.CreateSegment(k));
      CreateSegmentEffect(Contents(), k);
      segments := segments[k := Segment(k.name, {}, {}, [], 1)];
      return None;
    }

    method UpdateSegment(k: Scoped, patch: SegmentPatch, expected: Option<int>) returns (r: Option<Refusal>)
      requires Valid()
      modifies this
      ensures Valid() && Follows(UpdateSegmentSpec(platform, old(Contents()), k, patch, expected), old(Contents()), Contents(), r)
      ensures r.None? <==>
        && k in old(segments) && PatchIsOk(platform, old(segments)[k], patch)
        && (expected.None? || expected.value == old(segments)[k].version)
      ensures r.None? ==> SegmentUpdated(old(Contents()), Contents(), k, patch)
    {
      ReachedComplete(platform, Contents());
      UpdateSegmentEffect(platform, Contents(), k, patch, expected);
      r := CheckPatch(k, patch, expected);
      if r.Some? {
        return;
      }
      ghost var after := UpdateSegmentSpec(platform, Contents(), k, patch, expected).value;
      ReachedStep(platform, Contents(), Request.UpdateSegment(k, patch, expected));
      segments := segments[k := Patched(segments[k], patch).(version := segments[k].version + 1)];
      assert Contents() == after;
    }

    /** What the route and the version guard object to, if anything. */
    method CheckPatch(k: Scoped, patch: SegmentPatch, expected: Option<int>) returns (r: Option<Refusal>)
      ensures
        var spec := UpdateSegmentSpec(platform, Contents(), k, patch, expected);
        r == if spec.Ok? then None else Some(spec.error)
    {
      if k.environment !in environments || k !in segments {
        return Some(NotFound);
      }
      var issues := ValidateSegment(platform, Patched(segments[k], patch));
      if issues != [] {
        return Some(Unprocessable);
      }
      return if expected.Some? && segments[k].version != expected.value then Some(VersionConflict) else None;
    }

    /** Refused while a rule of its environment requires or excludes it; else it goes, and nothing else. */
    method DeleteSegment(k: Scoped) returns (r: Option<Refusal>)
      requires Valid()
      modifies this
      ensures Valid() && Follows(DeleteSegmentSpec(old(Contents()), k), old(Contents()), Contents(), r)
      ensures r.None? <==> k in old(segments) && !ReferencedByFlag(old(Contents()), k)
      ensures r.None? ==> SegmentGone(old(Contents()), Contents(), k)
    {
      KeepsInvariant();
      InUseMeaning(platform, Contents(), k);
      if k.environment !in environments || k !in segments {
        return Some(NotFound);
      }
      if SegmentInUse(Contents(), k) {
        return Some(InUse);
      }
      ReachedStep(platform, Contents(), Request.DeleteSegment(k));
      DeleteSegmentEffect(Contents(), k);
      segments := segments - {k};
      return None;
    }
  }

  /** Each flag got the configuration it is to be seeded with. */
  ghost predicate Seeded(db: Tables, seeded: map<Slot, Config>) {
    forall s :: s in seeded ==> s.flag in db.flags && Seed(db, s.flag) == Some(seeded[s])
  }

  lemma AllSeeded(db: Tables, e: Key, seeded: map<Slot, Config>)
    requires Seeded(db, seeded) && seeded.Keys == NewSeats(db, e)
    ensures Seedable(db, e.project) && seeded == map s | s in NewSeats(db, e) :: Seed(db, s.flag).value
  {
    assert forall f :: f in db.flags && f.project == e.project ==> Slot(f, e) in seeded;
  }

  lemma OneReference(db: Tables, flag: Key, s: Slot)
    requires KeysOk(db) && s in db.configs && IsReference(db, flag, s)
    ensures HasReference(db, flag) && Reference(db, flag) == s
  {
    var t := Reference(db, flag);
    assert NoLaterThan(db, s.environment, t.environment) && NoLaterThan(db, t.environment, s.environment);
  }
}
