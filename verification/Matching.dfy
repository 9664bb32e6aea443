/** Condition, segment and rule matching: does this context satisfy this predicate? */
module Matching {
  import opened FlagTypes
  import opened Bucketing

  predicate IsNegated(op: Operator) {
    op.NotIn? || op.NotContains? || op.NotMatches? || op.NotExists?
  }

  predicate TakesValues(op: Operator) {
    !op.Exists? && !op.NotExists?
  }

  function PositiveCounterpart(op: Operator): Operator {
    match op
    case NotIn => In
    case NotContains => Contains
    case NotMatches => Matches
    case _ => op
  }

  function Scalars(v: AttributeValue): seq<AttributeValue> {
    if v.ListAttribute? then v.items else [v]
  }

  predicate HasInfix(text: string, infix: string) {
    exists i | 0 <= i <= |text| :: infix <= text[i..]
  }

  predicate HasSuffix(text: string, suffix: string) {
    |suffix| <= |text| && text[|text| - |suffix|..] == suffix
  }

  /** Numbers compare numerically, everything else by its text projection. */
  predicate Equals(P: Platform, actual: AttributeValue, expected: AttributeValue) {
    if actual.NumberAttribute? && expected.NumberAttribute? then actual.number == expected.number
    else ToText(P, actual).Some? && ToText(P, actual) == ToText(P, expected)
  }

  predicate Compare(P: Platform, op: Operator, actual: AttributeValue, expected: AttributeValue) {
    var a, e := ToText(P, actual), ToText(P, expected);
    var texts := a.Some? && e.Some?;
    var numbers := actual.NumberAttribute? && expected.NumberAttribute?;
    match op
    case In => Equals(P, actual, expected)
    case Contains => texts && HasInfix(a.value, e.value)
    case StartsWith => texts && e.value <= a.value
    case EndsWith => texts && HasSuffix(a.value, e.value)
    case GreaterThan => numbers && actual.number > expected.number
    case GreaterThanOrEqual => numbers && actual.number >= expected.number
    case LessThan => numbers && actual.number < expected.number
    case LessThanOrEqual => numbers && actual.number <= expected.number
    case Matches =>
      a.Some? && expected.StringAttribute? && P.compiles(expected.text) && P.isMatch(expected.text, a.value)
    case SemverEqual => texts && P.semverOrder(a.value, e.value) == Some(0)
    case SemverGreaterThan =>
      texts && P.semverOrder(a.value, e.value).Some? && P.semverOrder(a.value, e.value).value > 0
    case SemverLessThan =>
      texts && P.semverOrder(a.value, e.value).Some? && P.semverOrder(a.value, e.value).value < 0
    case _ => false
  }

  /** A missing attribute never matches, negated operators included. */
  predicate ConditionMatches(P: Platform, c: Condition, ctx: Context) {
    var present := c.attribute in ctx.attributes;
    if c.operator.Exists? then present
    else if c.operator.NotExists? then !present
    else if !present || c.values == [] then false
    else
      var scalars := Scalars(ctx.attributes[c.attribute]);
      var anyMatch := exists s | s in scalars :: exists e | e in c.values :: Compare(P, PositiveCounterpart(c.operator), s, e);
      if IsNegated(c.operator) then !anyMatch else anyMatch
  }

  predicate AllMatch(P: Platform, conditions: seq<Condition>, ctx: Context) {
    forall c | c in conditions :: ConditionMatches(P, c, ctx)
  }

  function SegmentNamespace(segmentKey: string): string {
    "segment:" + segmentKey
  }

  predicate SegmentRuleMatches(P: Platform, rule: SegmentRule, segmentKey: string, ctx: Context, salt: string) {
    && AllMatch(P, rule.conditions, ctx)
    && (rule.rollout.Some? ==>
          var subject := BucketingSubject(P, ctx, rule.rollout.value.bucketBy);
          && subject.Some?
          && BucketOf(P, salt, SegmentNamespace(segmentKey), subject.value) < rule.rollout.value.percentage)
  }

  /** Exclusions first, then inclusions, then any rule. */
  predicate SegmentContains(P: Platform, segment: Segment, ctx: Context, salt: string) {
    if ctx.key in segment.excluded then false
    else if ctx.key in segment.included then true
    else exists r | r in segment.rules :: SegmentRuleMatches(P, r, segment.key, ctx, salt)
  }

  /** A key the environment does not define contains nobody. */
  predicate InSegment(P: Platform, key: string, ctx: Context, env: Environment) {
    key in env.segments && SegmentContains(P, env.segments[key], ctx, env.salt)
  }

  predicate SegmentMatchHolds(P: Platform, required: SegmentMatch, ctx: Context, env: Environment) {
    && (required.anyOf == [] || exists k | k in required.anyOf :: InSegment(P, k, ctx, env))
    && !exists k | k in required.noneOf :: InSegment(P, k, ctx, env)
  }

  predicate RuleMatches(P: Platform, rule: Rule, ctx: Context, env: Environment) {
    && AllMatch(P, rule.conditions, ctx)
    && (rule.segments.Some? ==> SegmentMatchHolds(P, rule.segments.value, ctx, env))
  }

  // ------------------------------------------------ what conditions mean --

  /** A context with one attribute. */
  function Holding(name: string, v: AttributeValue): Context { Context("", map[name := v]) }

  /** Asking one operator of one attribute value and a list of expected values. */
  predicate Asks(P: Platform, op: Operator, actual: AttributeValue, values: seq<AttributeValue>) {
    ConditionMatches(P, Condition("a", op, values), Holding("a", actual))
  }

  /** A condition looks at its attribute's value and at nothing else; without one only `not_exists` holds. */
  lemma MissingNeverMatches(P: Platform, c: Condition, ctx: Context)
    ensures c.attribute !in ctx.attributes ==> (ConditionMatches(P, c, ctx) <==> c.operator.NotExists?)
    ensures c.attribute in ctx.attributes ==>
      (ConditionMatches(P, c, ctx) <==> Asks(P, c.operator, ctx.attributes[c.attribute], c.values))
    ensures c.values == [] && ConditionMatches(P, c, ctx) ==> c.operator.Exists? || c.operator.NotExists?
  {
  }

  /** Each negated operator is the negation of its twin wherever there is something to compare. */
  lemma NegationIsExact(P: Platform, actual: AttributeValue, values: seq<AttributeValue>)
    requires values != []
    ensures Asks(P, NotIn, actual, values) <==> !Asks(P, In, actual, values)
    ensures Asks(P, NotContains, actual, values) <==> !Asks(P, Contains, actual, values)
    ensures Asks(P, NotMatches, actual, values) <==> !Asks(P, Matches, actual, values)
    ensures Asks(P, NotExists, actual, values) <==> !Asks(P, Exists, actual, values)
  {
    NegatedTwin(P, NotIn, actual, values);
    NegatedTwin(P, NotContains, actual, values);
    NegatedTwin(P, NotMatches, actual, values);
  }

  lemma NegatedTwin(P: Platform, op: Operator, actual: AttributeValue, values: seq<AttributeValue>)
    requires values != [] && IsNegated(op) && TakesValues(op)
    ensures Asks(P, op, actual, values) <==> !Asks(P, PositiveCounterpart(op), actual, values)
  {
  }

  /** A positive operator holds of a list when it holds of an item, and of several values when it holds of one. */
  lemma AnyItemAnyValue(P: Platform, op: Operator, actual: AttributeValue, values: seq<AttributeValue>)
    requires TakesValues(op) && !IsNegated(op)
    requires actual.ListAttribute? ==> forall x | x in actual.items :: !x.ListAttribute?
    ensures Asks(P, op, actual, values) <==> exists x, v :: ItemOf(x, actual) && v in values && Asks(P, op, x, [v])
  {
    if Asks(P, op, actual, values) {
      var x :| x in Scalars(actual) && exists v | v in values :: Compare(P, op, x, v);
      var v :| v in values && Compare(P, op, x, v);
      OneToOne(P, op, x, v);
      assert ItemOf(x, actual);
    }
    assert forall x :: ItemOf(x, actual) <==> x in Scalars(actual);
    forall x, v | ItemOf(x, actual) && v in values && Asks(P, op, x, [v])
      ensures Asks(P, op, actual, values)
    {
      OneToOne(P, op, x, v);
    }
  }

  /** An item of a list, or the value itself if it is none. */
  predicate ItemOf(x: AttributeValue, v: AttributeValue) {
    if v.ListAttribute? then x in v.items else x == v
  }

  /** Truth values and numbers compare with text by the way they are written. */
  lemma WrittenForms(P: Platform, b: bool, n: real, text: string)
    ensures Asks(P, In, BoolAttribute(b), [StringAttribute(text)]) <==> text == if b then "true" else "false"
    ensures Asks(P, In, NumberAttribute(n), [StringAttribute(text)]) <==> text == P.formatNumber(n)
  {
    OneToOne(P, In, BoolAttribute(b), StringAttribute(text));
    OneToOne(P, In, NumberAttribute(n), StringAttribute(text));
  }

  lemma OneToOne(P: Platform, op: Operator, x: AttributeValue, v: AttributeValue)
    requires TakesValues(op) && !IsNegated(op) && !x.ListAttribute?
    ensures Asks(P, op, x, [v]) <==> Compare(P, op, x, v)
  {
    var c, ctx := Condition("a", op, [v]), Holding("a", x);
    assert ctx.attributes[c.attribute] == x && Scalars(x)[0] == x && c.values[0] == v;
    assert forall y :: y in Scalars(x) <==> y == x;
    assert forall w :: w in c.values <==> w == v;
    var anyMatch := exists y | y in Scalars(x) :: exists w | w in c.values :: Compare(P, op, y, w);
    if Compare(P, op, x, v) {
      assert exists w | w in c.values :: Compare(P, op, x, w);
      assert x in Scalars(x) && anyMatch;
    }
    assert PositiveCounterpart(op) == op && (ConditionMatches(P, c, ctx) <==> anyMatch);
  }

  /** The order operators compare numbers as numbers, and nothing else. */
  lemma OrderOperators(P: Platform, actual: AttributeValue, expected: AttributeValue)
    requires !actual.ListAttribute?
    ensures actual.NumberAttribute? && expected.NumberAttribute? ==>
      && (Asks(P, GreaterThan, actual, [expected]) <==> actual.number > expected.number)
      && (Asks(P, LessThan, actual, [expected]) <==> actual.number < expected.number)
      && (Asks(P, GreaterThanOrEqual, actual, [expected]) <==> !Asks(P, LessThan, actual, [expected]))
      && (Asks(P, LessThanOrEqual, actual, [expected]) <==> !Asks(P, GreaterThan, actual, [expected]))
      && (Asks(P, In, actual, [expected]) <==> actual.number == expected.number)
    ensures !(actual.NumberAttribute? && expected.NumberAttribute?) ==>
      && !Asks(P, GreaterThan, actual, [expected]) && !Asks(P, LessThan, actual, [expected])
      && !Asks(P, GreaterThanOrEqual, actual, [expected]) && !Asks(P, LessThanOrEqual, actual, [expected])
  {
    OneToOne(P, GreaterThan, actual, expected);
    OneToOne(P, GreaterThanOrEqual, actual, expected);
    OneToOne(P, LessThan, actual, expected);
    OneToOne(P, LessThanOrEqual, actual, expected);
    OneToOne(P, In, actual, expected);
  }

  /** The text operators look for the expected text inside, at the start, at the end, or as the whole. */
  lemma TextOperators(P: Platform, text: string, part: string)
    ensures Asks(P, Contains, StringAttribute(text), [StringAttribute(part)]) <==> exists x, y :: text == x + part + y
    ensures Asks(P, StartsWith, StringAttribute(text), [StringAttribute(part)]) <==> exists y :: text == part + y
    ensures Asks(P, EndsWith, StringAttribute(text), [StringAttribute(part)]) <==> exists x :: text == x + part
    ensures Asks(P, In, StringAttribute(text), [StringAttribute(part)]) <==> text == part
  {
    var a, e := StringAttribute(text), StringAttribute(part);
    OneToOne(P, Contains, a, e);
    OneToOne(P, StartsWith, a, e);
    OneToOne(P, EndsWith, a, e);
    OneToOne(P, In, a, e);
    InfixMeaning(text, part);
    PrefixSuffixMeaning(text, part);
  }

  lemma InfixMeaning(text: string, part: string)
    ensures HasInfix(text, part) <==> exists x, y :: text == x + part + y
  {
    if HasInfix(text, part) {
      var i :| 0 <= i <= |text| && part <= text[i..];
      assert text == text[..i] + part + text[i + |part|..];
    }
    if x, y :| text == x + part + y {
      assert text[|x|..] == part + y;
    }
  }

  lemma PrefixSuffixMeaning(text: string, part: string)
    ensures part <= text <==> exists y :: text == part + y
    ensures HasSuffix(text, part) <==> exists x :: text == x + part
  {
    if part <= text {
      assert text == part + text[|part|..];
    }
    if HasSuffix(text, part) {
      assert text == text[..|text| - |part|] + part;
    }
    if x :| text == x + part {
      assert text[|text| - |part|..] == part;
    }
  }

  /** The version operators answer by the order of versions, and never where either side is no version. */
  lemma VersionOperators(P: Platform, text: string, other: string)
    ensures
      var a, e, order := StringAttribute(text), StringAttribute(other), P.semverOrder(text, other);
      && (Asks(P, SemverEqual, a, [e]) <==> order.Some? && order.value == 0)
      && (Asks(P, SemverGreaterThan, a, [e]) <==> order.Some? && order.value > 0)
      && (Asks(P, SemverLessThan, a, [e]) <==> order.Some? && order.value < 0)
      && (Asks(P, Matches, a, [e]) <==> P.compiles(other) && P.isMatch(other, text))
  {
    var a, e := StringAttribute(text), StringAttribute(other);
    OneToOne(P, SemverEqual, a, e);
    OneToOne(P, SemverGreaterThan, a, e);
    OneToOne(P, SemverLessThan, a, e);
    OneToOne(P, Matches, a, e);
  }

  /** In a rule, every condition must hold, some alternative must contain the context, and no exclusion may. */
  lemma RuleMeaning(P: Platform, rule: Rule, ctx: Context, env: Environment)
    ensures RuleMatches(P, rule, ctx, env) <==>
      && (forall i | 0 <= i < |rule.conditions| :: ConditionMatches(P, rule.conditions[i], ctx))
      && (rule.segments.Some? ==>
        && (|rule.segments.value.anyOf| > 0 ==> exists i | 0 <= i < |rule.segments.value.anyOf| :: InSegment(P, rule.segments.value.anyOf[i], ctx, env))
        && (forall i | 0 <= i < |rule.segments.value.noneOf| :: !InSegment(P, rule.segments.value.noneOf[i], ctx, env)))
    ensures forall k :: k !in env.segments ==> !InSegment(P, k, ctx, env)
  {
    assert AllMatch(P, rule.conditions, ctx) <==> forall i | 0 <= i < |rule.conditions| :: ConditionMatches(P, rule.conditions[i], ctx);
  }

  /** The text a rollout buckets on: the context's key, or the named attribute as text. */
  ghost predicate BucketsOn(P: Platform, ctx: Context, bucketBy: Option<string>, subject: string) {
    if bucketBy.None? then subject == ctx.key
    else bucketBy.value in ctx.attributes && ToText(P, ctx.attributes[bucketBy.value]) == Some(subject)
  }

  /** The rule's conditions hold, and the bucket of what it buckets on is among the first `percentage`. */
  ghost predicate TakesIn(P: Platform, rule: SegmentRule, segmentKey: string, ctx: Context, salt: string) {
    && (forall i | 0 <= i < |rule.conditions| :: ConditionMatches(P, rule.conditions[i], ctx))
    && (rule.rollout.None? || exists subject ::
          && BucketsOn(P, ctx, rule.rollout.value.bucketBy, subject)
          && P.digestHead(Encode(salt, "segment:" + segmentKey, subject)) % 100_000 < rule.rollout.value.percentage)
  }

  /** Whoever is excluded is out; else whoever is included, or taken in by a rule, is in, and nobody else. */
  lemma SegmentMeaning(P: Platform, segment: Segment, ctx: Context, salt: string)
    ensures SegmentContains(P, segment, ctx, salt) <==>
      && ctx.key !in segment.excluded
      && (ctx.key in segment.included || exists i | 0 <= i < |segment.rules| :: TakesIn(P, segment.rules[i], segment.key, ctx, salt))
  {
    forall i | 0 <= i < |segment.rules|
      ensures TakesIn(P, segment.rules[i], segment.key, ctx, salt) <==> SegmentRuleMatches(P, segment.rules[i], segment.key, ctx, salt)
    {
      TakesInMeaning(P, segment.rules[i], segment.key, ctx, salt);
    }
  }

  lemma TakesInMeaning(P: Platform, rule: SegmentRule, segmentKey: string, ctx: Context, salt: string)
    ensures TakesIn(P, rule, segmentKey, ctx, salt) <==> SegmentRuleMatches(P, rule, segmentKey, ctx, salt)
  {
    assert AllMatch(P, rule.conditions, ctx) <==> forall i | 0 <= i < |rule.conditions| :: ConditionMatches(P, rule.conditions[i], ctx);
    if rule.rollout.Some? {
      var subject := BucketingSubject(P, ctx, rule.rollout.value.bucketBy);
      assert forall text :: BucketsOn(P, ctx, rule.rollout.value.bucketBy, text) <==> subject == Some(text);
    }
  }

  // ------------------------------------------------------- what is read --

  function ConditionAttributes(conditions: seq<Condition>): set<string> {
    set c | c in conditions :: c.attribute
  }

  function OptionalName(name: Option<string>): set<string> {
    if name.Some? then {name.value} else {}
  }

  function SegmentRuleAttributes(rule: SegmentRule): set<string> {
    ConditionAttributes(rule.conditions)
    + (if rule.rollout.Some? then OptionalName(rule.rollout.value.bucketBy) else {})
  }

  function SegmentAttributes(segment: Segment): set<string> {
    set r, a | r in segment.rules && a in SegmentRuleAttributes(r) :: a
  }

  function Referenced(m: SegmentMatch): set<string> {
    (set k | k in m.anyOf) + (set k | k in m.noneOf)
  }

  function RuleSegments(rule: Rule): set<string> {
    if rule.segments.Some? then Referenced(rule.segments.value) else {}
  }

  /** Two contexts that cannot be told apart through the attributes in `names`. */
  predicate AgreeOn(names: set<string>, c1: Context, c2: Context) {
    && c1.key == c2.key
    && forall a | a in names ::
         && (a in c1.attributes <==> a in c2.attributes)
         && (a in c1.attributes ==> c1.attributes[a] == c2.attributes[a])
  }

  /** Two environments that hold the same segments under the keys in `keys`. */
  predicate AgreeOnSegments(keys: set<string>, e1: Environment, e2: Environment) {
    && e1.salt == e2.salt
    && forall k | k in keys ::
         && (k in e1.segments <==> k in e2.segments)
         && (k in e1.segments ==> e1.segments[k] == e2.segments[k])
  }

  lemma ConditionsFrame(P: Platform, conditions: seq<Condition>, c1: Context, c2: Context)
    requires AgreeOn(ConditionAttributes(conditions), c1, c2)
    ensures AllMatch(P, conditions, c1) == AllMatch(P, conditions, c2)
  {
    forall c | c in conditions
      ensures ConditionMatches(P, c, c1) == ConditionMatches(P, c, c2)
    {
      assert c.attribute in ConditionAttributes(conditions);
    }
  }

  lemma SegmentFrame(P: Platform, segment: Segment, c1: Context, c2: Context, salt: string)
    requires AgreeOn(SegmentAttributes(segment), c1, c2)
    ensures SegmentContains(P, segment, c1, salt) == SegmentContains(P, segment, c2, salt)
  {
    forall r | r in segment.rules
      ensures SegmentRuleMatches(P, r, segment.key, c1, salt) == SegmentRuleMatches(P, r, segment.key, c2, salt)
    {
      assert forall a :: a in SegmentRuleAttributes(r) ==> a in SegmentAttributes(segment);
      ConditionsFrame(P, r.conditions, c1, c2);
    }
  }

  /** Raising the share of one rule of a segment keeps every member. */
  lemma RaisingPercentageOnlyAdds(P: Platform, segment: Segment, i: nat, percentage: u32, ctx: Context, salt: string)
    requires i < |segment.rules| && segment.rules[i].rollout.Some?
    requires segment.rules[i].rollout.value.percentage <= percentage
    requires SegmentContains(P, segment, ctx, salt)
    ensures
      var raised := segment.rules[i].(rollout := Some(segment.rules[i].rollout.value.(percentage := percentage)));
      SegmentContains(P, segment.(rules := segment.rules[i := raised]), ctx, salt)
  {
    var raised := segment.rules[i].(rollout := Some(segment.rules[i].rollout.value.(percentage := percentage)));
    var rules' := segment.rules[i := raised];
    if ctx.key !in segment.included {
      var r :| r in segment.rules && SegmentRuleMatches(P, r, segment.key, ctx, salt);
      var j :| 0 <= j < |segment.rules| && segment.rules[j] == r;
      assert rules'[j] in rules';
      assert SegmentRuleMatches(P, rules'[j], segment.key, ctx, salt);
    }
  }

  /** Excluding a context, however it was matched, removes it; including one adds it. */
  lemma MembershipOrder(P: Platform, segment: Segment, ctx: Context, salt: string)
    ensures !SegmentContains(P, segment.(excluded := segment.excluded + {ctx.key}), ctx, salt)
    ensures ctx.key !in segment.excluded ==>
      SegmentContains(P, segment.(included := segment.included + {ctx.key}), ctx, salt)
  {
  }

  // --------------------------------------------------- compiled patterns --

  const REGEX_CACHE_CAPACITY: nat := 1024

  /** The capped cache of compiled patterns. `None` records a pattern that does not compile. */
  class RegexCache {
    var entries: map<string, Option<string>>
    const platform: Platform

    /** A compiled pattern is represented by its source text. */
    static function CompileWith(P: Platform, pattern: string): Option<string> {
      if P.compiles(pattern) then Some(pattern) else None
    }

    ghost predicate Valid()
      reads this
    {
      && |entries| <= REGEX_CACHE_CAPACITY
      && forall p :: p in entries ==> entries[p] == CompileWith(platform, p)
    }

    constructor (P: Platform)
      ensures Valid() && platform == P && entries == map[]
    {
      platform := P;
      entries := map[];
    }

    /** Answers as if it compiled afresh; entries are added, never evicted, up to the cap. */
    method Compiled(pattern: string) returns (r: Option<string>)
      requires Valid()
      modifies this
      ensures Valid()
      ensures r == CompileWith(platform, pattern)
      ensures entries ==
              if pattern in old(entries) || |old(entries)| >= REGEX_CACHE_CAPACITY then old(entries)
              else old(entries)[pattern := r]
    {
      if pattern in entries {
        return entries[pattern];
      }
      r := CompileWith(platform, pattern);
      if |entries| < REGEX_CACHE_CAPACITY {
        entries := entries[pattern := r];
      }
    }
  }
}
