/**
 * Configuration validation: the checks a flag, a segment and a flag's segment
 * references must pass before anything is stored.
 */
module Validation {
  import opened FlagTypes
  import opened Bucketing
  import opened Matching
  import opened Engine

  const MAX_KEY_LEN: nat := 128

  datatype Place = InFallthrough | InRule(index: nat)

  /** One rejected thing, with its place kept structurally instead of as a path string. */
  datatype Issue =
    | InvalidKey
    | NoVariants
    | InvalidVariantKey(index: nat)
    | DuplicateVariantKey(index: nat)
    | UnknownOffVariant
    | DuplicateRuleId(index: nat)
    | EmptyAttribute(rule: nat, condition: nat)
    | MissingValues(rule: nat, condition: nat)
    | InvalidRegex(rule: nat, condition: nat, position: nat)
    | NonStringPattern(rule: nat, condition: nat, position: nat)
    | EmptySegmentMatch(rule: nat)
    | EmptySegmentKey(rule: nat)
    | RequiredAndExcluded(rule: nat, key: string)
    | UnknownVariantIn(place: Place)
    | NoWeights(place: Place)
    | UnknownWeightedVariant(place: Place, position: nat)
    | RepeatedWeightedVariant(place: Place, position: nat)
    | WrongTotal(place: Place, total: nat)
    | EmptyBucketBy(place: Place)
    | IncludedAndExcluded(key: string)
    | PercentageTooLarge(rule: nat)
    | UnknownSegment(rule: nat, key: string)

  predicate IsKeyChar(c: char) {
    'a' <= c <= 'z' || 'A' <= c <= 'Z' || '0' <= c <= '9' || c == '.' || c == '_' || c == '-'
  }

  predicate IsValidKey(key: string) {
    && key != ""
    && |Utf8(key)| <= MAX_KEY_LEN
    && forall c | c in key :: IsKeyChar(c)
  }

  /** Unicode White_Space, which `trim` strips. */
  predicate IsWhitespace(c: char) {
    var n := c as int;
    || 0x9 <= n <= 0xD || n == 0x20 || n == 0x85 || n == 0xA0 || n == 0x1680
    || 0x2000 <= n <= 0x200A || n == 0x2028 || n == 0x2029 || n == 0x202F || n == 0x205F || n == 0x3000
  }

  predicate IsBlank(s: string) {
    forall c | c in s :: IsWhitespace(c)
  }

  // ------------------------------------------------------- what is legal --

  predicate ConditionOk(P: Platform, c: Condition) {
    && !IsBlank(c.attribute)
    && (TakesValues(c.operator) ==> c.values != [])
    && (c.operator.Matches? || c.operator.NotMatches? ==>
          forall v | v in c.values :: v.StringAttribute? && P.compiles(v.text))
  }

  predicate ConditionsOk(P: Platform, conditions: seq<Condition>) {
    forall i | 0 <= i < |conditions| :: ConditionOk(P, conditions[i])
  }

  predicate SegmentMatchOk(m: SegmentMatch) {
    && (m.anyOf != [] || m.noneOf != [])
    && (forall k | k in m.anyOf + m.noneOf :: !IsBlank(k))
    && (forall k | k in m.anyOf :: k !in m.noneOf)
  }

  predicate BucketByOk(bucketBy: Option<string>) {
    bucketBy.Some? ==> !IsBlank(bucketBy.value)
  }

  predicate DistributionOk(keys: set<string>, d: Distribution) {
    match d
    case Fixed(variant) => variant in keys
    case Rollout(weights, bucketBy) =>
      && weights != []
      && (forall i | 0 <= i < |weights| :: weights[i].variant in keys)
      && DistinctArms(weights)
      && Total(weights) == TOTAL_WEIGHT
      && BucketByOk(bucketBy)
  }

  function VariantKeys(variants: seq<Variant>): set<string> {
    set i | 0 <= i < |variants| :: variants[i].key
  }

  predicate VariantsOk(variants: seq<Variant>) {
    && variants != []
    && (forall i | 0 <= i < |variants| :: IsValidKey(variants[i].key))
    && (forall i, j | 0 <= i < j < |variants| :: variants[i].key != variants[j].key)
  }

  predicate RuleOk(P: Platform, keys: set<string>, r: Rule) {
    && ConditionsOk(P, r.conditions)
    && (r.segments.Some? ==> SegmentMatchOk(r.segments.value))
    && DistributionOk(keys, r.distribution)
  }

  /** The checks on how one environment configures a flag, given the flag's variant keys. */
  predicate ConfigOk(P: Platform, keys: set<string>, offVariant: string, fallthrough: Distribution, rules: seq<Rule>) {
    && offVariant in keys
    && DistributionOk(keys, fallthrough)
    && (forall i, j | 0 <= i < j < |rules| :: rules[i].id != rules[j].id)
    && (forall i | 0 <= i < |rules| :: RuleOk(P, keys, rules[i]))
  }

  predicate FlagOk(P: Platform, flag: Flag) {
    && IsValidKey(flag.key)
    && VariantsOk(flag.variants)
    && ConfigOk(P, VariantKeys(flag.variants), flag.offVariant, flag.fallthrough, flag.rules)
  }

  predicate SegmentRuleOk(P: Platform, r: SegmentRule) {
    && ConditionsOk(P, r.conditions)
    && (r.rollout.Some? ==> r.rollout.value.percentage <= TOTAL_WEIGHT && BucketByOk(r.rollout.value.bucketBy))
  }

  predicate SegmentOk(P: Platform, s: Segment) {
    && IsValidKey(s.key)
    && s.included * s.excluded == {}
    && (forall i, j | 0 <= i < j < |s.rules| :: s.rules[i].id != s.rules[j].id)
    && (forall i | 0 <= i < |s.rules| :: SegmentRuleOk(P, s.rules[i]))
  }

  predicate ReferencesOk(rules: seq<Rule>, known: set<string>) {
    forall i | 0 <= i < |rules| :: RuleSegments(rules[i]) <= known
  }

  // ------------------------------------------------- what there is to report --

  /** A pattern among the first n that is not a string or does not compile. */
  predicate PatternFlaw(P: Platform, values: seq<AttributeValue>, n: nat, rule: nat, j: nat, x: Issue)
    requires n <= |values|
  {
    match x
    case InvalidRegex(r, i, k) => r == rule && i == j && k < n && values[k].StringAttribute? && !P.compiles(values[k].text)
    case NonStringPattern(r, i, k) => r == rule && i == j && k < n && !values[k].StringAttribute?
    case _ => false
  }

  /** What is wrong with condition j of a rule. */
  predicate ConditionFlaw(P: Platform, c: Condition, rule: nat, j: nat, x: Issue) {
    || (x == EmptyAttribute(rule, j) && IsBlank(c.attribute))
    || (x == MissingValues(rule, j) && TakesValues(c.operator) && c.values == [])
    || ((c.operator.Matches? || c.operator.NotMatches?) && PatternFlaw(P, c.values, |c.values|, rule, j, x))
  }

  predicate ConditionsFlaw(P: Platform, conditions: seq<Condition>, rule: nat, x: Issue) {
    exists j | 0 <= j < |conditions| :: ConditionFlaw(P, conditions[j], rule, j, x)
  }

  predicate SegmentMatchFlaw(m: SegmentMatch, rule: nat, x: Issue) {
    match x
    case EmptySegmentMatch(r) => r == rule && m.anyOf == [] && m.noneOf == []
    case EmptySegmentKey(r) => r == rule && exists k | k in m.anyOf + m.noneOf :: IsBlank(k)
    case RequiredAndExcluded(r, k) => r == rule && k in m.anyOf && k in m.noneOf
    case _ => false
  }

  /** An arm among the first n that names no variant, or the variant of an earlier arm. */
  predicate ArmFlaw(weights: seq<WeightedVariant>, n: nat, place: Place, keys: set<string>, x: Issue)
    requires n <= |weights|
  {
    match x
    case UnknownWeightedVariant(p, i) => p == place && i < n && weights[i].variant !in keys
    case RepeatedWeightedVariant(p, i) => p == place && i < n && exists j | 0 <= j < i :: weights[j].variant == weights[i].variant
    case _ => false
  }

  predicate DistributionFlaw(d: Distribution, place: Place, keys: set<string>, x: Issue) {
    match d
    case Fixed(variant) => x == UnknownVariantIn(place) && variant !in keys
    case Rollout(weights, bucketBy) =>
      if weights == [] then x == NoWeights(place)
      else
        || ArmFlaw(weights, |weights|, place, keys, x)
        || (x == WrongTotal(place, Total(weights)) && Total(weights) != TOTAL_WEIGHT)
        || (x == EmptyBucketBy(place) && bucketBy.Some? && IsBlank(bucketBy.value))
  }

  /** A variant among the first n with a bad key or the key of an earlier one. */
  predicate VariantFlaw(variants: seq<Variant>, n: nat, x: Issue)
    requires n <= |variants|
  {
    match x
    case InvalidVariantKey(i) => i < n && !IsValidKey(variants[i].key)
    case DuplicateVariantKey(i) => i < n && exists j | 0 <= j < i :: variants[j].key == variants[i].key
    case _ => false
  }

  /** What is wrong with rule i on its own. */
  predicate RuleFlaw(P: Platform, keys: set<string>, rule: Rule, i: nat, x: Issue) {
    || ConditionsFlaw(P, rule.conditions, i, x)
    || (rule.segments.Some? && SegmentMatchFlaw(rule.segments.value, i, x))
    || DistributionFlaw(rule.distribution, InRule(i), keys, x)
  }

  /** The same for the first n rules, or the id of an earlier one used again. */
  predicate RulesFlaw(P: Platform, keys: set<string>, rules: seq<Rule>, n: nat, x: Issue)
    requires n <= |rules|
  {
    || (x.DuplicateRuleId? && x.index < n && exists j | 0 <= j < x.index :: rules[j].id == rules[x.index].id)
    || (exists i | 0 <= i < n :: RuleFlaw(P, keys, rules[i], i, x))
  }

  /** Everything that is wrong with a flag, each thing at its place. */
  predicate FlagFlaw(P: Platform, flag: Flag, x: Issue) {
    var keys := VariantKeys(flag.variants);
    || (x == InvalidKey && !IsValidKey(flag.key))
    || (x == NoVariants && flag.variants == [])
    || VariantFlaw(flag.variants, |flag.variants|, x)
    || (x == UnknownOffVariant && flag.offVariant !in keys)
    || DistributionFlaw(flag.fallthrough, InFallthrough, keys, x)
    || RulesFlaw(P, keys, flag.rules, |flag.rules|, x)
  }

  /** What is wrong with rule i of a segment on its own. */
  predicate SegmentRuleFlaw(P: Platform, rule: SegmentRule, i: nat, x: Issue) {
    || ConditionsFlaw(P, rule.conditions, i, x)
    || (rule.rollout.Some? && x == PercentageTooLarge(i) && rule.rollout.value.percentage > TOTAL_WEIGHT)
    || (rule.rollout.Some? && x == EmptyBucketBy(InRule(i)) && rule.rollout.value.bucketBy.Some? && IsBlank(rule.rollout.value.bucketBy.value))
  }

  predicate SegmentRulesFlaw(P: Platform, rules: seq<SegmentRule>, n: nat, x: Issue)
    requires n <= |rules|
  {
    || (x.DuplicateRuleId? && x.index < n && exists j | 0 <= j < x.index :: rules[j].id == rules[x.index].id)
    || (exists i | 0 <= i < n :: SegmentRuleFlaw(P, rules[i], i, x))
  }

  /** Everything that is wrong with a segment. */
  predicate SegmentFlaw(P: Platform, s: Segment, x: Issue) {
    || (x == InvalidKey && !IsValidKey(s.key))
    || (x.IncludedAndExcluded? && x.key in s.included && x.key in s.excluded)
    || SegmentRulesFlaw(P, s.rules, |s.rules|, x)
  }

  /** A reference of one of the first n rules to a segment that is not there. */
  predicate ReferenceFlaw(rules: seq<Rule>, known: set<string>, n: nat, x: Issue)
    requires n <= |rules|
  {
    x.UnknownSegment? && x.rule < n && x.key in RuleSegments(rules[x.rule]) && x.key !in known
  }

  // ------------------------------------------------------ the validators --

  method CheckConditions(P: Platform, conditions: seq<Condition>, rule: nat) returns (issues: seq<Issue>)
    ensures issues == [] <==> ConditionsOk(P, conditions)
    ensures forall x :: x in issues <==> ConditionsFlaw(P, conditions, rule, x)
  {
    issues := [];
    for j := 0 to |conditions|
      invariant issues == [] <==> ConditionsOk(P, conditions[..j])
      invariant forall x :: x in issues <==> ConditionsFlaw(P, conditions[..j], rule, x)
    {
      assert conditions[..j + 1] == conditions[..j] + [conditions[j]];
      OneMoreCondition(P, conditions, j, rule);
      var found := CheckCondition(P, conditions[j], rule, j);
      issues := issues + found;
    }
    assert conditions[..|conditions|] == conditions;
  }

  lemma OneMoreCondition(P: Platform, conditions: seq<Condition>, n: nat, rule: nat)
    requires n < |conditions|
    ensures forall x :: ConditionsFlaw(P, conditions[..n + 1], rule, x) <==>
      ConditionsFlaw(P, conditions[..n], rule, x) || ConditionFlaw(P, conditions[n], rule, n, x)
  {
    var before, now := conditions[..n], conditions[..n + 1];
    forall x
      ensures ConditionsFlaw(P, now, rule, x) <==> ConditionsFlaw(P, before, rule, x) || ConditionFlaw(P, conditions[n], rule, n, x)
    {
      if ConditionsFlaw(P, before, rule, x) {
        var j :| 0 <= j < n && ConditionFlaw(P, before[j], rule, j, x);
        assert now[j] == before[j];
      }
      assert now[n] == conditions[n];
    }
  }

  method CheckCondition(P: Platform, c: Condition, rule: nat, j: nat) returns (issues: seq<Issue>)
    ensures issues == [] <==> ConditionOk(P, c)
    ensures forall x :: x in issues <==> ConditionFlaw(P, c, rule, j, x)
  {
    issues := [];
    if IsBlank(c.attribute) {
      issues := issues + [EmptyAttribute(rule, j)];
    }
    if TakesValues(c.operator) && c.values == [] {
      issues := issues + [MissingValues(rule, j)];
    }
    if c.operator.Matches? || c.operator.NotMatches? {
      var found := CheckPatterns(P, c.values, rule, j);
      issues := issues + found;
    }
  }

  method CheckPatterns(P: Platform, values: seq<AttributeValue>, rule: nat, j: nat) returns (issues: seq<Issue>)
    ensures issues == [] <==> forall i | 0 <= i < |values| :: values[i].StringAttribute? && P.compiles(values[i].text)
    ensures forall x :: x in issues <==> PatternFlaw(P, values, |values|, rule, j, x)
  {
    issues := [];
    for k := 0 to |values|
      invariant issues == [] <==> forall i | 0 <= i < k :: values[i].StringAttribute? && P.compiles(values[i].text)
      invariant forall x :: x in issues <==> PatternFlaw(P, values, k, rule, j, x)
    {
      if values[k].StringAttribute? {
        if !P.compiles(values[k].text) {
          issues := issues + [InvalidRegex(rule, j, k)];
        }
      } else {
        issues := issues + [NonStringPattern(rule, j, k)];
      }
    }
  }

  method CheckSegmentMatch(m: SegmentMatch, rule: nat) returns (issues: seq<Issue>)
    ensures issues == [] <==> SegmentMatchOk(m)
    ensures forall x :: x in issues <==> SegmentMatchFlaw(m, rule, x)
  {
    if m.anyOf == [] && m.noneOf == [] {
      return [EmptySegmentMatch(rule)];
    }
    issues := [];
    var referenced := m.anyOf + m.noneOf;
    for i := 0 to |referenced|
      invariant issues == [] <==> forall j | 0 <= j < i :: !IsBlank(referenced[j])
      invariant forall x :: x in issues <==> x == EmptySegmentKey(rule) && exists j | 0 <= j < i :: IsBlank(referenced[j])
    {
      if IsBlank(referenced[i]) {
        issues := issues + [EmptySegmentKey(rule)];
      }
    }
    ghost var before := issues;
    for i := 0 to |m.anyOf|
      invariant issues == [] <==> before == [] && forall j | 0 <= j < i :: m.anyOf[j] !in m.noneOf
      invariant forall x :: x in issues <==>
        x in before || (x.RequiredAndExcluded? && x.rule == rule && x.key in m.anyOf[..i] && x.key in m.noneOf)
    {
      if m.anyOf[i] in m.noneOf {
        issues := issues + [RequiredAndExcluded(rule, m.anyOf[i])];
      }
    }
  }

  method CheckDistribution(d: Distribution, place: Place, keys: set<string>) returns (issues: seq<Issue>)
    ensures issues == [] <==> DistributionOk(keys, d)
    ensures forall x :: x in issues <==> DistributionFlaw(d, place, keys, x)
  {
    issues := [];
    match d {
      case Fixed(variant) =>
        if variant !in keys {
          issues := [UnknownVariantIn(place)];
        }
      case Rollout(weights, bucketBy) =>
        if weights == [] {
          return [NoWeights(place)];
        }
        issues := CheckArms(weights, place, keys);
        var total := 0;
        for i := 0 to |weights|
          invariant total == Total(weights[..i])
        {
          TotalSplit(weights[..i], [weights[i]]);
          assert weights[..i] + [weights[i]] == weights[..i + 1];
          assert [weights[i]][1..] == [];
          total := total + weights[i].weight;
        }
        assert weights[..|weights|] == weights;
        if total != TOTAL_WEIGHT {
          issues := issues + [WrongTotal(place, total)];
        }
        if bucketBy.Some? && IsBlank(bucketBy.value) {
          issues := issues + [EmptyBucketBy(place)];
        }
    }
  }

  method CheckArms(weights: seq<WeightedVariant>, place: Place, keys: set<string>) returns (issues: seq<Issue>)
    ensures issues == [] <==> (forall j | 0 <= j < |weights| :: weights[j].variant in keys) && DistinctArms(weights)
    ensures forall x :: x in issues <==> ArmFlaw(weights, |weights|, place, keys, x)
  {
    issues := [];
    var seen: set<string> := {};
    for i := 0 to |weights|
      invariant seen == set j | 0 <= j < i :: weights[j].variant
      invariant issues == [] <==> (forall j | 0 <= j < i :: weights[j].variant in keys) && DistinctArms(weights[..i])
      invariant forall x :: x in issues <==> ArmFlaw(weights, i, place, keys, x)
    {
      if weights[i].variant !in keys {
        issues := issues + [UnknownWeightedVariant(place, i)];
      }
      if weights[i].variant in seen {
        issues := issues + [RepeatedWeightedVariant(place, i)];
      }
      seen := seen + {weights[i].variant};
    }
    assert weights[..|weights|] == weights;
  }

  lemma OneMoreVariant(variants: seq<Variant>, n: nat)
    requires n < |variants|
    ensures VariantKeys(variants[..n + 1]) == VariantKeys(variants[..n]) + {variants[n].key}
    ensures variants[n].key in VariantKeys(variants[..n]) <==> exists j | 0 <= j < n :: variants[j].key == variants[n].key
  {
    var before, now := variants[..n], variants[..n + 1];
    assert now == before + [variants[n]];
    assert forall j :: 0 <= j < n ==> before[j] == variants[j];
    forall k
      ensures k in VariantKeys(now) <==> k in VariantKeys(before) || k == variants[n].key
    {
      if k in VariantKeys(before) {
        var j :| 0 <= j < n && before[j].key == k;
        assert now[j].key == k;
      }
      assert now[n].key == variants[n].key;
    }
  }

  lemma NoVariantFlaw(variants: seq<Variant>)
    ensures variants != [] && (forall x :: !VariantFlaw(variants, |variants|, x)) <==> VariantsOk(variants)
  {
    if forall x :: !VariantFlaw(variants, |variants|, x) {
      forall i | 0 <= i < |variants|
        ensures IsValidKey(variants[i].key)
      {
        assert !VariantFlaw(variants, |variants|, InvalidVariantKey(i));
      }
      forall i, j | 0 <= i < j < |variants|
        ensures variants[i].key != variants[j].key
      {
        assert !VariantFlaw(variants, |variants|, DuplicateVariantKey(j));
      }
    }
  }

  method CheckVariants(variants: seq<Variant>) returns (keys: set<string>, issues: seq<Issue>)
    ensures keys == VariantKeys(variants)
    ensures issues == [] <==> VariantsOk(variants)
    ensures forall x :: x in issues <==> (x == NoVariants && variants == []) || VariantFlaw(variants, |variants|, x)
  {
    keys := {};
    issues := if variants == [] then [NoVariants] else [];
    for i := 0 to |variants|
      invariant keys == VariantKeys(variants[..i])
      invariant forall x :: x in issues <==> (x == NoVariants && variants == []) || VariantFlaw(variants, i, x)
    {
      OneMoreVariant(variants, i);
      if !IsValidKey(variants[i].key) {
        issues := issues + [InvalidVariantKey(i)];
      }
      if variants[i].key in keys {
        issues := issues + [DuplicateVariantKey(i)];
      }
      keys := keys + {variants[i].key};
    }
    assert variants[..|variants|] == variants;
    NoVariantFlaw(variants);
    assert NoVariants in issues <==> variants == [];
    assert issues != [] ==> issues[0] in issues;
  }

  ghost predicate FirstRulesOk(P: Platform, keys: set<string>, rules: seq<Rule>, n: nat) {
    && n <= |rules|
    && (forall j, k | 0 <= j < k < n :: rules[j].id != rules[k].id)
    && (forall j | 0 <= j < n :: RuleOk(P, keys, rules[j]))
  }

  lemma OneMoreRule(P: Platform, keys: set<string>, rules: seq<Rule>, n: nat, ids: set<Uuid>)
    requires n < |rules| && ids == set j | 0 <= j < n :: rules[j].id
    ensures FirstRulesOk(P, keys, rules, n + 1) <==> FirstRulesOk(P, keys, rules, n) && RuleOk(P, keys, rules[n]) && rules[n].id !in ids
    ensures forall x :: RulesFlaw(P, keys, rules, n + 1, x) <==>
      RulesFlaw(P, keys, rules, n, x) || (x == DuplicateRuleId(n) && rules[n].id in ids) || RuleFlaw(P, keys, rules[n], n, x)
  {
    assert rules[n].id in ids <==> exists j | 0 <= j < n :: rules[j].id == rules[n].id;
    forall x
      ensures RulesFlaw(P, keys, rules, n + 1, x) <==>
        RulesFlaw(P, keys, rules, n, x) || (x == DuplicateRuleId(n) && rules[n].id in ids) || RuleFlaw(P, keys, rules[n], n, x)
    {
      assert (exists i | 0 <= i < n + 1 :: RuleFlaw(P, keys, rules[i], i, x)) <==>
        (exists i | 0 <= i < n :: RuleFlaw(P, keys, rules[i], i, x)) || RuleFlaw(P, keys, rules[n], n, x);
    }
  }

  method CheckRules(P: Platform, rules: seq<Rule>, keys: set<string>) returns (issues: seq<Issue>)
    ensures issues == [] <==> FirstRulesOk(P, keys, rules, |rules|)
    ensures forall x :: x in issues <==> RulesFlaw(P, keys, rules, |rules|, x)
  {
    issues := [];
    var ids: set<Uuid> := {};
    for i := 0 to |rules|
      invariant ids == set j | 0 <= j < i :: rules[j].id
      invariant issues == [] <==> FirstRulesOk(P, keys, rules, i)
      invariant forall x :: x in issues <==> RulesFlaw(P, keys, rules, i, x)
    {
      OneMoreRule(P, keys, rules, i, ids);
      if rules[i].id in ids {
        issues := issues + [DuplicateRuleId(i)];
      }
      ids := ids + {rules[i].id};
      var found := CheckRule(P, rules[i], i, keys);
      issues := issues + found;
    }
  }

  method CheckRule(P: Platform, rule: Rule, i: nat, keys: set<string>) returns (issues: seq<Issue>)
    ensures issues == [] <==> RuleOk(P, keys, rule)
    ensures forall x :: x in issues <==> RuleFlaw(P, keys, rule, i, x)
  {
    issues := CheckConditions(P, rule.conditions, i);
    if rule.segments.Some? {
      var found := CheckSegmentMatch(rule.segments.value, i);
      issues := issues + found;
    }
    var found := CheckDistribution(rule.distribution, InRule(i), keys);
    issues := issues + found;
  }

  /** Accepts exactly the flags that satisfy `FlagOk`, and otherwise reports exactly what is wrong and where. */
  method Validate(P: Platform, flag: Flag) returns (issues: seq<Issue>)
    ensures issues == [] <==> FlagOk(P, flag)
    ensures forall x :: x in issues <==> FlagFlaw(P, flag, x)
  {
    issues := if IsValidKey(flag.key) then [] else [InvalidKey];
    var keys, found := CheckVariants(flag.variants);
    issues := issues + found;
    if flag.offVariant !in keys {
      issues := issues + [UnknownOffVariant];
    }
    found := CheckDistribution(flag.fallthrough, InFallthrough, keys);
    issues := issues + found;
    found := CheckRules(P, flag.rules, keys);
    issues := issues + found;
  }

  method ValidateSegment(P: Platform, segment: Segment) returns (issues: seq<Issue>)
    ensures issues == [] <==> SegmentOk(P, segment)
    ensures forall x :: x in issues <==> SegmentFlaw(P, segment, x)
  {
    issues := if IsValidKey(segment.key) then [] else [InvalidKey];
    var both := segment.included * segment.excluded;
    while both != {}
      invariant issues == [] ==> both == segment.included * segment.excluded && IsValidKey(segment.key)
      invariant issues != [] ==> !IsValidKey(segment.key) || segment.included * segment.excluded != {}
      invariant forall x :: x in issues <==>
        || (x == InvalidKey && !IsValidKey(segment.key))
        || (x.IncludedAndExcluded? && x.key in segment.included * segment.excluded - both)
    {
      var key :| key in both;
      issues := issues + [IncludedAndExcluded(key)];
      both := both - {key};
    }
    var found := CheckSegmentRules(P, segment.rules);
    issues := issues + found;
  }

  ghost predicate FirstSegmentRulesOk(P: Platform, rules: seq<SegmentRule>, n: nat) {
    && n <= |rules|
    && (forall j, k | 0 <= j < k < n :: rules[j].id != rules[k].id)
    && (forall j | 0 <= j < n :: SegmentRuleOk(P, rules[j]))
  }

  lemma OneMoreSegmentRule(P: Platform, rules: seq<SegmentRule>, n: nat, ids: set<Uuid>)
    requires n < |rules| && ids == set j | 0 <= j < n :: rules[j].id
    ensures FirstSegmentRulesOk(P, rules, n + 1) <==>
      FirstSegmentRulesOk(P, rules, n) && SegmentRuleOk(P, rules[n]) && rules[n].id !in ids
    ensures forall x :: SegmentRulesFlaw(P, rules, n + 1, x) <==>
      SegmentRulesFlaw(P, rules, n, x) || (x == DuplicateRuleId(n) && rules[n].id in ids) || SegmentRuleFlaw(P, rules[n], n, x)
  {
    assert rules[n].id in ids <==> exists j | 0 <= j < n :: rules[j].id == rules[n].id;
    forall x
      ensures SegmentRulesFlaw(P, rules, n + 1, x) <==>
        SegmentRulesFlaw(P, rules, n, x) || (x == DuplicateRuleId(n) && rules[n].id in ids) || SegmentRuleFlaw(P, rules[n], n, x)
    {
      assert (exists i | 0 <= i < n + 1 :: SegmentRuleFlaw(P, rules[i], i, x)) <==>
        (exists i | 0 <= i < n :: SegmentRuleFlaw(P, rules[i], i, x)) || SegmentRuleFlaw(P, rules[n], n, x);
    }
  }

  method CheckSegmentRules(P: Platform, rules: seq<SegmentRule>) returns (issues: seq<Issue>)
    ensures issues == [] <==> FirstSegmentRulesOk(P, rules, |rules|)
    ensures forall x :: x in issues <==> SegmentRulesFlaw(P, rules, |rules|, x)
  {
    issues := [];
    var ids: set<Uuid> := {};
    for i := 0 to |rules|
      invariant ids == set j | 0 <= j < i :: rules[j].id
      invariant issues == [] <==> FirstSegmentRulesOk(P, rules, i)
      invariant forall x :: x in issues <==> SegmentRulesFlaw(P, rules, i, x)
    {
      OneMoreSegmentRule(P, rules, i, ids);
      if rules[i].id in ids {
        issues := issues + [DuplicateRuleId(i)];
      }
      ids := ids + {rules[i].id};
      var found := CheckSegmentRule(P, rules[i], i);
      issues := issues + found;
    }
  }

  method CheckSegmentRule(P: Platform, rule: SegmentRule, i: nat) returns (issues: seq<Issue>)
    ensures issues == [] <==> SegmentRuleOk(P, rule)
    ensures forall x :: x in issues <==> SegmentRuleFlaw(P, rule, i, x)
  {
    issues := CheckConditions(P, rule.conditions, i);
    if rule.rollout.Some? {
      if rule.rollout.value.percentage > TOTAL_WEIGHT {
        issues := issues + [PercentageTooLarge(i)];
      }
      if rule.rollout.value.bucketBy.Some? && IsBlank(rule.rollout.value.bucketBy.value) {
        issues := issues + [EmptyBucketBy(InRule(i))];
      }
    }
  }

  method ValidateReferences(rules: seq<Rule>, known: set<string>) returns (issues: seq<Issue>)
    ensures issues == [] <==> ReferencesOk(rules, known)
    ensures forall x :: x in issues <==> ReferenceFlaw(rules, known, |rules|, x)
  {
    issues := [];
    for i := 0 to |rules|
      invariant issues == [] <==> forall j | 0 <= j < i :: RuleSegments(rules[j]) <= known
      invariant forall x :: x in issues <==> ReferenceFlaw(rules, known, i, x)
    {
      if rules[i].segments.Some? {
        var m := rules[i].segments.value;
        var referenced := m.anyOf + m.noneOf;
        ghost var before := issues;
        for k := 0 to |referenced|
          invariant issues == [] <==> before == [] && forall j | 0 <= j < k :: referenced[j] in known
          invariant forall x :: x in issues <==>
            x in before || (x.UnknownSegment? && x.rule == i && x.key in referenced[..k] && x.key !in known)
        {
          if referenced[k] !in known {
            issues := issues + [UnknownSegment(i, referenced[k])];
          }
        }
        assert forall k :: k in RuleSegments(rules[i]) <==> k in m.anyOf || k in m.noneOf;
        assert forall k :: k in RuleSegments(rules[i]) <==> k in referenced;
      }
    }
  }

  // ----------------------------------------------------------- soundness --

  /** The per-environment checks are all evaluation needs. */
  lemma ConfigOkIsEvaluable(P: Platform, flag: Flag)
    requires ConfigOk(P, VariantKeys(flag.variants), flag.offVariant, flag.fallthrough, flag.rules)
    ensures Evaluable(flag)
  {
    forall d | DistributionOk(VariantKeys(flag.variants), d)
      ensures Covers(flag.variants, d)
    {
    }
  }

  /** Validator soundness: an accepted flag evaluates to one of its own variants in every environment. */
  lemma ValidatorSound(P: Platform, flag: Flag, ctx: Context, env: Environment, d: Distribution)
    requires FlagOk(P, flag)
    requires Reaches(P, flag, ctx, env, d)
    ensures
      var e := Evaluate(P, flag, ctx, env);
      && (e.reason.Error? <==> flag.enabled && Unbucketable(ctx, d))
      && (!e.reason.Error? ==> exists v :: v in flag.variants && e.variant == Some(v.key) && e.value == v.value)
      && (e.reason.Error? ==>
            e.variant.None? && exists v :: v in flag.variants && v.key == flag.offVariant && e.value == v.value)
  {
    ConfigOkIsEvaluable(P, flag);
    EvaluationSound(P, flag, ctx, env, d);
  }

  /** In an accepted rollout each arm owns exactly `weight` of the 100 000 buckets. */
  lemma AcceptedRolloutShares(keys: set<string>, d: Distribution, i: nat)
    requires DistributionOk(keys, d) && d.Rollout? && i < |d.weights|
    ensures |Share(d.weights, d.weights[i].variant)| == d.weights[i].weight
  {
    ExactShares(d.weights, i);
  }

  /** No segment rollout and no flag rollout with a valid key ever hash the same bytes. */
  lemma NamespacesDisjoint(salt: string, segmentKey: string, subject: string,
                           salt': string, flagKey: string, subject': string)
    requires IsValidKey(flagKey)
    requires |Utf8(salt)| < U64_LIMIT && |Utf8(SegmentNamespace(segmentKey))| < U64_LIMIT && |Utf8(subject)| < U64_LIMIT
    requires |Utf8(salt')| < U64_LIMIT && |Utf8(subject')| < U64_LIMIT
    ensures Encode(salt, SegmentNamespace(segmentKey), subject) != Encode(salt', flagKey, subject')
  {
    NamespaceIsNoKey(segmentKey, flagKey);
    KeysSeparate(salt, SegmentNamespace(segmentKey), subject, salt', flagKey, subject');
  }

  lemma NamespaceIsNoKey(segmentKey: string, flagKey: string)
    requires IsValidKey(flagKey)
    ensures SegmentNamespace(segmentKey) != flagKey
  {
    assert SegmentNamespace(segmentKey)[7] == ':';
    assert |flagKey| > 7 ==> flagKey[7] in flagKey && IsKeyChar(flagKey[7]);
  }

  lemma KeysSeparate(salt: string, key: string, subject: string, salt': string, key': string, subject': string)
    requires key != key'
    requires |Utf8(salt)| < U64_LIMIT && |Utf8(key)| < U64_LIMIT && |Utf8(subject)| < U64_LIMIT
    requires |Utf8(salt')| < U64_LIMIT && |Utf8(key')| < U64_LIMIT && |Utf8(subject')| < U64_LIMIT
    ensures Encode(salt, key, subject) != Encode(salt', key', subject')
  {
    EncodeInjective(salt, key, subject, salt', key', subject');
  }

  /** Bytes a rollout of some flag with a valid key hashes, and bytes some segment's rollout hashes. */
  ghost predicate FlagInput(bytes: seq<byte>) {
    exists salt, key, subject :: IsValidKey(key) && Short(salt) && Short(subject) && bytes == Encode(salt, key, subject)
  }

  ghost predicate SegmentInput(bytes: seq<byte>) {
    exists salt, key, subject :: Short(salt) && Short(SegmentNamespace(key)) && Short(subject)
      && bytes == Encode(salt, SegmentNamespace(key), subject)
  }

  predicate Short(s: string) { |Utf8(s)| < U64_LIMIT }

  /** The same platform with another hash, which differs from the first at most where `changed` says. */
  ghost predicate DiffersOnlyAt(P: Platform, Q: Platform, changed: seq<byte> -> bool) {
    && Q == P.(digestHead := Q.digestHead)
    && forall bytes :: P.digestHead(bytes) != Q.digestHead(bytes) ==> changed(bytes)
  }

  lemma InputsDisjoint(bytes: seq<byte>)
    ensures !(FlagInput(bytes) && SegmentInput(bytes))
  {
    if FlagInput(bytes) && SegmentInput(bytes) {
      var salt', key', subject' :| IsValidKey(key') && Short(salt') && Short(subject') && bytes == Encode(salt', key', subject');
      var salt, key, subject :| Short(salt) && Short(SegmentNamespace(key)) && Short(subject)
        && bytes == Encode(salt, SegmentNamespace(key), subject);
      NamespacesDisjoint(salt, key, subject, salt', key', subject');
    }
  }

  lemma ConditionsIgnoreHash(P: Platform, Q: Platform, c: Condition, ctx: Context)
    requires Q == P.(digestHead := Q.digestHead)
    ensures ConditionMatches(P, c, ctx) == ConditionMatches(Q, c, ctx)
  {
    forall op, s, e
      ensures Compare(P, op, s, e) == Compare(Q, op, s, e)
    {
      assert ToText(P, s) == ToText(Q, s) && ToText(P, e) == ToText(Q, e);
    }
  }

  /** However the hash answers for flag rollouts, segment rollouts come out the same. */
  lemma SegmentsIgnoreFlagHashes(P: Platform, Q: Platform, rule: SegmentRule, segmentKey: string, ctx: Context, salt: string)
    requires DiffersOnlyAt(P, Q, bytes => FlagInput(bytes))
    requires Short(salt) && Short(SegmentNamespace(segmentKey))
    requires rule.rollout.Some? ==>
      forall subject :: BucketingSubject(P, ctx, rule.rollout.value.bucketBy) == Some(subject) ==> Short(subject)
    ensures SegmentRuleMatches(P, rule, segmentKey, ctx, salt) == SegmentRuleMatches(Q, rule, segmentKey, ctx, salt)
  {
    forall c | c in rule.conditions
      ensures ConditionMatches(P, c, ctx) == ConditionMatches(Q, c, ctx)
    {
      ConditionsIgnoreHash(P, Q, c, ctx);
    }
    if rule.rollout.Some? {
      var subject := BucketingSubject(P, ctx, rule.rollout.value.bucketBy);
      if subject.Some? {
        var bytes := Encode(salt, SegmentNamespace(segmentKey), subject.value);
        assert SegmentInput(bytes);
        InputsDisjoint(bytes);
        assert P.digestHead(bytes) == Q.digestHead(bytes);
      }
    }
  }

  /** However the hash answers for segment rollouts, the rollouts of a flag with a valid key come out the same. */
  lemma FlagsIgnoreSegmentHashes(P: Platform, Q: Platform, flag: Flag, d: Distribution, ctx: Context, salt: string)
    requires DiffersOnlyAt(P, Q, bytes => SegmentInput(bytes))
    requires IsValidKey(flag.key) && Short(salt)
    requires d.Rollout? ==> forall subject :: BucketingSubject(P, ctx, d.bucketBy) == Some(subject) ==> Short(subject)
    ensures Resolve(P, flag, d, ctx, salt) == Resolve(Q, flag, d, ctx, salt)
  {
    if d.Rollout? {
      var subject := BucketingSubject(P, ctx, d.bucketBy);
      if subject.Some? {
        var bytes := Encode(salt, flag.key, subject.value);
        assert FlagInput(bytes);
        InputsDisjoint(bytes);
        assert P.digestHead(bytes) == Q.digestHead(bytes);
      }
    }
  }

  // ----------------------------------------------------------- dead rules --

  /** No context in any environment meets the requirement. */
  ghost predicate Dead(P: Platform, m: SegmentMatch) {
    forall ctx, env :: !SegmentMatchHolds(P, m, ctx, env)
  }

  /** An environment in which exactly one user is in segment `a`, and nobody in any other. */
  function OnlyMember(a: string, user: string): Environment {
    Environment("", map[a := Segment(a, {user}, {}, [], 1)])
  }

  /** A requirement is dead exactly when it names alternatives and excludes every one of them. */
  lemma DeadIff(P: Platform, m: SegmentMatch)
    ensures Dead(P, m) <==> m.anyOf != [] && forall k | k in m.anyOf :: k in m.noneOf
  {
    var nobody := Environment("", map[]);
    if m.anyOf == [] {
      assert SegmentMatchHolds(P, m, Context("user", map[]), nobody);
    } else if a :| a in m.anyOf && a !in m.noneOf {
      AliveInOnlyMember(P, m, a);
    }
  }

  lemma AliveInOnlyMember(P: Platform, m: SegmentMatch, a: string)
    requires a in m.anyOf && a !in m.noneOf
    ensures SegmentMatchHolds(P, m, Context("user", map[]), OnlyMember(a, "user"))
  {
    var ctx, env := Context("user", map[]), OnlyMember(a, "user");
    assert InSegment(P, a, ctx, env);
    assert forall k :: k != a ==> !InSegment(P, k, ctx, env);
  }

  /** The requirement the validator refuses as dead although it is not: "beta or staff, but not staff". */
  lemma RejectedButNotDead(P: Platform)
    ensures
      var m := SegmentMatch(["beta", "staff"], ["staff"]);
      && !SegmentMatchOk(m) && !Dead(P, m)
      && SegmentMatchHolds(P, m, Context("user", map[]), OnlyMember("beta", "user"))
  {
    var m := SegmentMatch(["beta", "staff"], ["staff"]);
    assert "beta"[0] != "staff"[0];
    assert m.anyOf[0] == "beta" && m.anyOf[1] == "staff" && m.noneOf[0] == "staff";
    assert "staff" in m.anyOf && "staff" in m.noneOf;
    AliveInOnlyMember(P, m, "beta");
    DeadIff(P, m);
  }

  // ------------------------------------------------- accepted, yet an error --

  /** An accepted, enabled flag without rules can give an error exactly when its fallthrough buckets on an attribute. */
  lemma RulelessErrsIff(P: Platform, flag: Flag)
    requires FlagOk(P, flag) && flag.enabled && flag.rules == []
    ensures (exists ctx, env :: Evaluate(P, flag, ctx, env).reason.Error?) <==>
              flag.fallthrough.Rollout? && flag.fallthrough.bucketBy.Some?
  {
    forall ctx, env
      ensures Evaluate(P, flag, ctx, env).reason.Error? <==> Unbucketable(ctx, flag.fallthrough)
    {
      assert LeadsTo(P, flag.rules, 0, ctx, env);
      ValidatorSound(P, flag, ctx, env, flag.fallthrough);
    }
    if flag.fallthrough.Rollout? && flag.fallthrough.bucketBy.Some? {
      var anonymous, nowhere := Context("user", map[]), Environment("", map[]);
      assert Evaluate(P, flag, anonymous, nowhere).reason.Error?;
    }
  }

  /** Such a flag: everybody gets "on", bucketed by plan. */
  const BY_PLAN: Flag := Flag("f", [Variant("on", BoolValue(true))], true, "on",
                              Rollout([WeightedVariant("on", TOTAL_WEIGHT)], Some("plan")), [], 1)

  lemma AcceptedYetError(P: Platform)
    ensures FlagOk(P, BY_PLAN)
    ensures Evaluate(P, BY_PLAN, Context("user", map[]), Environment("", map[])).reason.Error?
  {
    var weights := BY_PLAN.fallthrough.weights;
    assert BY_PLAN.variants[0].key in VariantKeys(BY_PLAN.variants);
    assert Total(weights) == TOTAL_WEIGHT by { assert weights[1..] == []; }
    assert !IsBlank("plan") by { assert "plan"[0] in "plan"; }
    ShortKey("f");
    ShortKey("on");
    assert LeadsTo(P, BY_PLAN.rules, 0, Context("user", map[]), Environment("", map[]));
    ValidatorSound(P, BY_PLAN, Context("user", map[]), Environment("", map[]), BY_PLAN.fallthrough);
  }

  lemma ShortKey(key: string)
    requires 1 <= |key| <= MAX_KEY_LEN && forall c | c in key :: IsKeyChar(c)
    ensures IsValidKey(key)
  {
    OneByteEach(key);
  }

  /** Key characters take one byte each. */
  lemma {:induction false} OneByteEach(key: string)
    requires forall c | c in key :: IsKeyChar(c)
    ensures |Utf8(key)| == |key|
  {
    if key != "" {
      assert key[0] in key;
      OneByteEach(key[1..]);
    }
  }
}
