/**
 * The values the evaluation engine works on: flags, segments, contexts and the
 * three library primitives (SHA-256, regular expressions, semantic versions)
 * the engine treats as pure functions.
 */
module FlagTypes {

  datatype Option<+T> = None | Some(value: T)

  datatype Result<+T, +E> = Ok(value: T) | Err(error: E)

  type Uuid = nat

  type byte = n: nat | n < 256

  type u32 = n: nat | n < 0x1_0000_0000

  const U32_MAX: nat := 0xFFFF_FFFF

  /** Total weight of a percentage rollout, in thousandths of a percent. */
  const TOTAL_WEIGHT: nat := 100_000

  /** What a variant serves. Objects, arrays and null stay as JSON text. */
  datatype VariantValue =
    | BoolValue(bool)
    | NumberValue(real)
    | StringValue(string)
    | JsonValue(raw: string)

  const NULL_VALUE: VariantValue := JsonValue("null")

  datatype AttributeValue =
    | BoolAttribute(flag: bool)
    | NumberAttribute(number: real)
    | StringAttribute(text: string)
    | ListAttribute(items: seq<AttributeValue>)

  datatype Context = Context(key: string, attributes: map<string, AttributeValue>)

  datatype Variant = Variant(key: string, value: VariantValue)

  datatype WeightedVariant = WeightedVariant(variant: string, weight: u32)

  datatype Distribution =
    | Fixed(variant: string)
    | Rollout(weights: seq<WeightedVariant>, bucketBy: Option<string>)

  datatype Operator =
    | In | NotIn | Contains | NotContains | StartsWith | EndsWith
    | GreaterThan | GreaterThanOrEqual | LessThan | LessThanOrEqual
    | Matches | NotMatches
    | SemverEqual | SemverGreaterThan | SemverLessThan
    | Exists | NotExists

  datatype Condition = Condition(attribute: string, operator: Operator, values: seq<AttributeValue>)

  datatype SegmentMatch = SegmentMatch(anyOf: seq<string>, noneOf: seq<string>)

  datatype Rule = Rule(id: Uuid, conditions: seq<Condition>, segments: Option<SegmentMatch>,
                       distribution: Distribution)

  datatype Flag = Flag(key: string, variants: seq<Variant>, enabled: bool, offVariant: string,
                       fallthrough: Distribution, rules: seq<Rule>, version: int)

  datatype SegmentRollout = SegmentRollout(percentage: u32, bucketBy: Option<string>)

  datatype SegmentRule = SegmentRule(id: Uuid, conditions: seq<Condition>, rollout: Option<SegmentRollout>)

  datatype Segment = Segment(key: string, included: set<string>, excluded: set<string>,
                             rules: seq<SegmentRule>, version: int)

  type SegmentSet = map<string, Segment>

  datatype Environment = Environment(salt: string, segments: SegmentSet)

  datatype ExperimentSpec = ExperimentSpec(key: string, flagKey: string, metricKey: string,
                                           controlVariant: string, version: int)

  /**
   * The library calls evaluation makes. Each is a pure function; nothing in the
   * model depends on which function it is.
   */
  datatype Platform = Platform(
    digestHead: seq<byte> -> nat,               // first eight bytes of SHA-256, big-endian
    compiles: string -> bool,                   // does the pattern compile?
    isMatch: (string, string) -> bool,          // (pattern, text), for a pattern that compiles
    semverOrder: (string, string) -> Option<int>, // None when either side is not a version
    formatNumber: real -> string)

  /** String projection of an attribute; a list has none. */
  function ToText(P: Platform, v: AttributeValue): Option<string> {
    match v
    case StringAttribute(s) => Some(s)
    case BoolAttribute(b) => Some(if b then "true" else "false")
    case NumberAttribute(n) => Some(P.formatNumber(n))
    case ListAttribute(_) => None
  }

  /** What a rollout hashes on: the named attribute, or the context key. */
  function BucketingSubject(P: Platform, ctx: Context, bucketBy: Option<string>): Option<string> {
    match bucketBy
    case None => Some(ctx.key)
    case Some(name) => if name in ctx.attributes then ToText(P, ctx.attributes[name]) else None
  }

  function FindVariant(variants: seq<Variant>, key: string): Option<Variant> {
    if variants == [] then None
    else if variants[0].key == key then Some(variants[0])
    else FindVariant(variants[1..], key)
  }

  predicate HasVariant(variants: seq<Variant>, key: string) {
    exists i | 0 <= i < |variants| :: variants[i].key == key
  }

  /** Looking a key up finds a variant of that key exactly when there is one. */
  lemma {:induction false} FindVariantCorrect(variants: seq<Variant>, key: string)
    ensures FindVariant(variants, key).Some? <==> HasVariant(variants, key)
    ensures FindVariant(variants, key).Some? ==>
              && FindVariant(variants, key).value in variants
              && FindVariant(variants, key).value.key == key
  {
    if variants != [] && variants[0].key != key {
      FindVariantCorrect(variants[1..], key);
      assert forall i :: 1 <= i < |variants| ==> variants[i] == variants[1..][i - 1];
    }
  }
}
