/** The evaluation engine: a pure function of (flag, context, environment). */
module Engine {
  import opened FlagTypes
  import opened Bucketing
  import opened Matching

  datatype EvalError =
    | NoSubject(attribute: string)
    | UncoveredBucket(slot: nat)
    | UnknownVariant(variant: string)

  datatype Reason =
    | Off
    | TargetMatch(ruleId: Uuid, index: nat)
    | Fallthrough
    | FlagNotFound
    | Error(cause: EvalError)

  datatype Evaluation = Evaluation(flagKey: string, variant: Option<string>, value: VariantValue,
                                   reason: Reason, version: int)

  /** Position of the first matching rule at or after `from`; |rules| when none matches. */
  function FirstMatch(P: Platform, rules: seq<Rule>, from: nat, ctx: Context, env: Environment): (i: nat)
    requires from <= |rules|
    ensures from <= i <= |rules|
    ensures i < |rules| ==> RuleMatches(P, rules[i], ctx, env)
    ensures forall j :: from <= j < i ==> !RuleMatches(P, rules[j], ctx, env)
    decreases |rules| - from
  {
    if from == |rules| || RuleMatches(P, rules[from], ctx, env) then from
    else FirstMatch(P, rules, from + 1, ctx, env)
  }

  function Resolve(P: Platform, flag: Flag, distribution: Distribution, ctx: Context, salt: string): Result<string, EvalError> {
    match distribution
    case Fixed(variant) => Ok(variant)
    case Rollout(weights, bucketBy) =>
      match BucketingSubject(P, ctx, bucketBy)
      case None => Err(NoSubject(if bucketBy.Some? then bucketBy.value else "<key>"))
      case Some(subject) =>
        var slot := BucketOf(P, salt, flag.key, subject);
        match Pick(weights, slot)
        case Some(variant) => Ok(variant)
        case None => Err(UncoveredBucket(slot))
  }

  function Degrade(flag: Flag, cause: EvalError): Evaluation {
    var off := FindVariant(flag.variants, flag.offVariant);
    Evaluation(flag.key, None, if off.Some? then off.value.value else NULL_VALUE, Error(cause), flag.version)
  }

  function Serve(flag: Flag, variant: string, reason: Reason): Evaluation {
    match FindVariant(flag.variants, variant)
    case Some(v) => Evaluation(flag.key, Some(v.key), v.value, reason, flag.version)
    case None => Degrade(flag, UnknownVariant(variant))
  }

  function Evaluate(P: Platform, flag: Flag, ctx: Context, env: Environment): Evaluation {
    if !flag.enabled then Serve(flag, flag.offVariant, Off)
    else
      var i := FirstMatch(P, flag.rules, 0, ctx, env);
      if i < |flag.rules| then
        match Resolve(P, flag, flag.rules[i].distribution, ctx, env.salt)
        case Ok(variant) => Serve(flag, variant, TargetMatch(flag.rules[i].id, i))
        case Err(cause) => Degrade(flag, cause)
      else
        match Resolve(P, flag, flag.fallthrough, ctx, env.salt)
        case Ok(variant) => Serve(flag, variant, Fallthrough)
        case Err(cause) => Degrade(flag, cause)
  }

  // ----------------------------------------------------------- soundness --

  /** The distribution is over the flag's own variants and, for a rollout, covers every bucket. */
  predicate Covers(variants: seq<Variant>, d: Distribution) {
    match d
    case Fixed(variant) => HasVariant(variants, variant)
    case Rollout(weights, _) =>
      && Total(weights) == TOTAL_WEIGHT
      && forall w | w in weights :: HasVariant(variants, w.variant)
  }

  /** Everything evaluation relies on. Weaker than what the validator demands. */
  predicate Evaluable(flag: Flag) {
    && HasVariant(flag.variants, flag.offVariant)
    && Covers(flag.variants, flag.fallthrough)
    && forall r | r in flag.rules :: Covers(flag.variants, r.distribution)
  }

  /**
   * `d` is the distribution an enabled flag reaches for this context: that of a
   * matching rule no earlier rule precedes, or the fallthrough when none matches.
   */
  ghost predicate Reaches(P: Platform, flag: Flag, ctx: Context, env: Environment, d: Distribution) {
    || (exists i: nat :: LeadsTo(P, flag.rules, i, ctx, env) && i < |flag.rules| && d == flag.rules[i].distribution)
    || (LeadsTo(P, flag.rules, |flag.rules|, ctx, env) && d == flag.fallthrough)
  }

  /** No rule before `i` matches, and rule `i` does if there is one. */
  ghost predicate LeadsTo(P: Platform, rules: seq<Rule>, i: nat, ctx: Context, env: Environment) {
    && i <= |rules|
    && (forall j :: 0 <= j < i ==> !RuleMatches(P, rules[j], ctx, env))
    && (i < |rules| ==> RuleMatches(P, rules[i], ctx, env))
  }

  /** A rollout keyed on an attribute the context lacks, or holds as a list. */
  predicate Unbucketable(ctx: Context, d: Distribution) {
    && d.Rollout?
    && d.bucketBy.Some?
    && (d.bucketBy.value in ctx.attributes ==> ctx.attributes[d.bucketBy.value].ListAttribute?)
  }

  lemma ResolveSound(P: Platform, flag: Flag, d: Distribution, ctx: Context, salt: string)
    requires Covers(flag.variants, d)
    ensures Resolve(P, flag, d, ctx, salt).Err? <==> Unbucketable(ctx, d)
    ensures Resolve(P, flag, d, ctx, salt).Ok? ==>
              HasVariant(flag.variants, Resolve(P, flag, d, ctx, salt).value)
  {
    if d.Rollout? && !Unbucketable(ctx, d) {
      var subject := BucketingSubject(P, ctx, d.bucketBy);
      NoOwner(d.weights, BucketOf(P, salt, flag.key, subject.value));
    }
  }

  lemma ReachedIsUnique(P: Platform, flag: Flag, ctx: Context, env: Environment, d: Distribution)
    ensures
      var i := FirstMatch(P, flag.rules, 0, ctx, env);
      Reaches(P, flag, ctx, env, d) <==>
      d == if i < |flag.rules| then flag.rules[i].distribution else flag.fallthrough
  {
    var i := FirstMatch(P, flag.rules, 0, ctx, env);
    assert LeadsTo(P, flag.rules, i, ctx, env);
    forall j: nat | LeadsTo(P, flag.rules, j, ctx, env)
      ensures j == i
    {
    }
  }

  /**
   * Evaluating an evaluable flag serves one of its variants with that variant's
   * value, and reports an error exactly when the distribution reached buckets on
   * an attribute the context cannot supply.
   */
  lemma EvaluationSound(P: Platform, flag: Flag, ctx: Context, env: Environment, d: Distribution)
    requires Evaluable(flag)
    requires Reaches(P, flag, ctx, env, d)
    ensures
      var e := Evaluate(P, flag, ctx, env);
      && e.flagKey == flag.key && e.version == flag.version
      && (e.reason.Error? <==> flag.enabled && Unbucketable(ctx, d))
      && (!e.reason.Error? ==>
            e.variant.Some? && exists v :: v in flag.variants && e.variant == Some(v.key) && e.value == v.value)
      && (e.reason.Error? ==>
            e.variant.None? && exists v :: v in flag.variants && v.key == flag.offVariant && e.value == v.value)
      && (!flag.enabled ==> e.reason == Off && e.variant == Some(flag.offVariant))
  {
    ReachedIsUnique(P, flag, ctx, env, d);
    FindVariantCorrect(flag.variants, flag.offVariant);
    if flag.enabled {
      var i := FirstMatch(P, flag.rules, 0, ctx, env);
      assert i < |flag.rules| ==> flag.rules[i] in flag.rules;
      ResolveSound(P, flag, d, ctx, env.salt);
      var r := Resolve(P, flag, d, ctx, env.salt);
      if r.Ok? {
        FindVariantCorrect(flag.variants, r.value);
      }
    }
  }

  /** The bucket lies in the range of arm k, counting the weights up. */
  predicate InRange(weights: seq<WeightedVariant>, k: nat, bucket: nat) {
    k < |weights| && Total(weights[..k]) <= bucket < Total(weights[..k + 1])
  }

  /** What a distribution assigns: the variant it names, or the arm in whose range the subject's bucket lies. */
  ghost predicate Assigns(P: Platform, flag: Flag, d: Distribution, ctx: Context, salt: string, variant: string) {
    match d
    case Fixed(v) => variant == v
    case Rollout(weights, bucketBy) =>
      exists subject, k: nat :: BucketsOn(P, ctx, bucketBy, subject) && InRange(weights, k, BucketOf(P, salt, flag.key, subject))
        && variant == weights[k].variant
  }

  /**
   * An enabled flag serves what the distribution it reaches assigns, and says
   * how it got there: the index and id of the matching rule, or the fallthrough;
   * where it cannot bucket, the error names the attribute it wanted.
   */
  lemma ServesWhatIsReached(P: Platform, flag: Flag, ctx: Context, env: Environment, i: nat)
    requires Evaluable(flag) && flag.enabled && LeadsTo(P, flag.rules, i, ctx, env)
    ensures
      var d := if i < |flag.rules| then flag.rules[i].distribution else flag.fallthrough;
      var e := Evaluate(P, flag, ctx, env);
      && (Unbucketable(ctx, d) ==> e.reason == Error(NoSubject(d.bucketBy.value)))
      && (!Unbucketable(ctx, d) ==>
        && e.variant.Some? && Assigns(P, flag, d, ctx, env.salt, e.variant.value)
        && (forall v :: Assigns(P, flag, d, ctx, env.salt, v) ==> e.variant == Some(v))
        && e.reason == if i < |flag.rules| then TargetMatch(flag.rules[i].id, i) else Fallthrough)
  {
    var d := if i < |flag.rules| then flag.rules[i].distribution else flag.fallthrough;
    assert FirstMatch(P, flag.rules, 0, ctx, env) == i;
    assert i < |flag.rules| ==> flag.rules[i] in flag.rules;
    if !Unbucketable(ctx, d) {
      ResolveSound(P, flag, d, ctx, env.salt);
      ResolveAssigns(P, flag, d, ctx, env.salt);
      FindVariantCorrect(flag.variants, Resolve(P, flag, d, ctx, env.salt).value);
    }
  }

  lemma ResolveAssigns(P: Platform, flag: Flag, d: Distribution, ctx: Context, salt: string)
    requires Covers(flag.variants, d) && !Unbucketable(ctx, d)
    ensures
      var r := Resolve(P, flag, d, ctx, salt);
      r.Ok? && Assigns(P, flag, d, ctx, salt, r.value) && forall v :: Assigns(P, flag, d, ctx, salt, v) ==> v == r.value
  {
    if d.Rollout? {
      var subject := BucketingSubject(P, ctx, d.bucketBy).value;
      var slot := BucketOf(P, salt, flag.key, subject);
      var k := OwnerIndex(d.weights, slot);
      NoOwner(d.weights, slot);
      OwnerRange(d.weights, slot, k);
      assert BucketsOn(P, ctx, d.bucketBy, subject) && InRange(d.weights, k, slot);
      forall v | Assigns(P, flag, d, ctx, salt, v)
        ensures v == d.weights[k].variant
      {
        var same, j: nat :| BucketsOn(P, ctx, d.bucketBy, same) && InRange(d.weights, j, BucketOf(P, salt, flag.key, same))
          && v == d.weights[j].variant;
        OwnerRange(d.weights, slot, j);
      }
    }
  }

  // --------------------------------------------------------------- frame --

  function DistributionAttributes(d: Distribution): set<string> {
    if d.Rollout? then OptionalName(d.bucketBy) else {}
  }

  function FlagSegments(flag: Flag): set<string> {
    set r, k | r in flag.rules && k in RuleSegments(r) :: k
  }

  function RuleAttributes(rule: Rule): set<string> {
    ConditionAttributes(rule.conditions) + DistributionAttributes(rule.distribution)
  }

  /** Every attribute evaluation of `flag` may read in `env`. */
  function FlagAttributes(flag: Flag, env: Environment): set<string> {
    DistributionAttributes(flag.fallthrough)
    + (set r, a | r in flag.rules && a in RuleAttributes(r) :: a)
    + (set k, a | k in FlagSegments(flag) && k in env.segments && a in SegmentAttributes(env.segments[k]) :: a)
  }

  lemma RuleFrame(P: Platform, flag: Flag, r: Rule, c1: Context, c2: Context, e1: Environment, e2: Environment)
    requires r in flag.rules
    requires AgreeOn(FlagAttributes(flag, e1), c1, c2)
    requires AgreeOnSegments(FlagSegments(flag), e1, e2)
    ensures RuleMatches(P, r, c1, e1) == RuleMatches(P, r, c2, e2)
  {
    assert RuleAttributes(r) <= FlagAttributes(flag, e1);
    ConditionsFrame(P, r.conditions, c1, c2);
    forall k | k in RuleSegments(r)
      ensures InSegment(P, k, c1, e1) == InSegment(P, k, c2, e2)
    {
      assert k in FlagSegments(flag);
      if k in e1.segments {
        assert SegmentAttributes(e1.segments[k]) <= FlagAttributes(flag, e1);
        SegmentFrame(P, e1.segments[k], c1, c2, e1.salt);
      }
    }
    if r.segments.Some? {
      var m := r.segments.value;
      assert forall k :: k in m.anyOf || k in m.noneOf ==> k in RuleSegments(r);
    }
  }

  /**
   * Evaluation depends only on the segments the flag's rules reference, and on
   * the attributes those rules and segments name.
   */
  lemma EvaluationFrame(P: Platform, flag: Flag, c1: Context, c2: Context, e1: Environment, e2: Environment)
    requires AgreeOn(FlagAttributes(flag, e1), c1, c2)
    requires AgreeOnSegments(FlagSegments(flag), e1, e2)
    ensures Evaluate(P, flag, c1, e1) == Evaluate(P, flag, c2, e2)
  {
    forall r | r in flag.rules
      ensures RuleMatches(P, r, c1, e1) == RuleMatches(P, r, c2, e2)
    {
      RuleFrame(P, flag, r, c1, c2, e1, e2);
    }
    var i, j := FirstMatch(P, flag.rules, 0, c1, e1), FirstMatch(P, flag.rules, 0, c2, e2);
    assert i < |flag.rules| ==> flag.rules[i] in flag.rules;
    assert j < |flag.rules| ==> flag.rules[j] in flag.rules;
    assert i == j;
    var d := if i < |flag.rules| then flag.rules[i].distribution else flag.fallthrough;
    if i < |flag.rules| {
      assert RuleAttributes(flag.rules[i]) <= FlagAttributes(flag, e1);
    }
    assert BucketingSubjectAgrees(P, d, c1, c2);
  }

  predicate BucketingSubjectAgrees(P: Platform, d: Distribution, c1: Context, c2: Context) {
    d.Rollout? ==> BucketingSubject(P, c1, d.bucketBy) == BucketingSubject(P, c2, d.bucketBy)
  }
}
