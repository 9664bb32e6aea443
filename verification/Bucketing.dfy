/**
 * Deterministic bucketing: the unambiguous byte encoding fed to the hash, and
 * the walk over cumulative weights that turns a bucket into a variant.
 */
module Bucketing {
  import opened FlagTypes

  // ------------------------------------------------------------ encoding --

  /** UTF-8 encoding of one Unicode scalar value. */
  function Utf8Char(c: char): (r: seq<byte>) {
    var n := c as int;
    if n < 0x80 then [n]
    else if n < 0x800 then [0xC0 + n / 64, 0x80 + n % 64]
    else if n < 0x1_0000 then [0xE0 + n / 4096, 0x80 + n / 64 % 64, 0x80 + n % 64]
    else [0xF0 + n / 262144, 0x80 + n / 4096 % 64, 0x80 + n / 64 % 64, 0x80 + n % 64]
  }

  function Utf8(s: string): seq<byte> {
    if s == "" then [] else Utf8Char(s[0]) + Utf8(s[1..])
  }

  function BigEndian(n: nat, width: nat): (r: seq<byte>)
    ensures |r| == width
  {
    if width == 0 then [] else BigEndian(n / 256, width - 1) + [n % 256]
  }

  function Pow256(width: nat): (r: nat)
    ensures r >= 1
  {
    if width == 0 then 1 else 256 * Pow256(width - 1)
  }

  const U64_LIMIT: nat := 0x1_0000_0000_0000_0000

  /** One length-prefixed field; `part.len()` counts bytes. */
  function Field(part: string): seq<byte> {
    BigEndian(|Utf8(part)|, 8) + Utf8(part)
  }

  function FieldsOf(parts: seq<string>): seq<byte> {
    if parts == [] then [] else Field(parts[0]) + FieldsOf(parts[1..])
  }

  function Encode(salt: string, key: string, subject: string): seq<byte> {
    FieldsOf([salt, key, subject])
  }

  /** The bucket a subject lands in, as a pure function of the digest. */
  function BucketOf(P: Platform, salt: string, key: string, subject: string): (slot: nat)
    ensures slot < TOTAL_WEIGHT
  {
    P.digestHead(Encode(salt, key, subject)) % TOTAL_WEIGHT
  }

  lemma {:induction false} FieldsOfAppend(parts: seq<string>, last: string)
    ensures FieldsOf(parts + [last]) == FieldsOf(parts) + Field(last)
  {
    if parts == [] {
      assert [last][1..] == [];
    } else {
      assert (parts + [last])[1..] == parts[1..] + [last];
      FieldsOfAppend(parts[1..], last);
    }
  }

  /** Feeds the hasher one field at a time: salt, key and subject, each after its length in eight bytes. */
  method Bucket(P: Platform, salt: string, key: string, subject: string) returns (slot: nat)
    ensures slot == BucketOf(P, salt, key, subject)
    ensures
      var a, b, c := Utf8(salt), Utf8(key), Utf8(subject);
      slot == P.digestHead(BigEndian(|a|, 8) + a + (BigEndian(|b|, 8) + b) + (BigEndian(|c|, 8) + c)) % 100_000
  {
    var parts := [salt, key, subject];
    var fed: seq<byte> := [];
    for i := 0 to 3
      invariant fed == FieldsOf(parts[..i])
    {
      FieldsOfAppend(parts[..i], parts[i]);
      assert parts[..i] + [parts[i]] == parts[..i + 1];
      fed := fed + BigEndian(|Utf8(parts[i])|, 8);
      fed := fed + Utf8(parts[i]);
    }
    assert parts[..3] == parts;
    EncodeParts(salt, key, subject);
    slot := P.digestHead(fed) % TOTAL_WEIGHT;
  }

  lemma EncodeParts(salt: string, key: string, subject: string)
    ensures Encode(salt, key, subject) == Field(salt) + Field(key) + Field(subject)
  {
    FieldsOfAppend([salt, key], subject);
    FieldsOfAppend([salt], key);
    FieldsOfAppend([], salt);
    assert [salt, key] + [subject] == [salt, key, subject] && [salt] + [key] == [salt, key] && [] + [salt] == [salt];
  }

  /** The number a byte string spells, most significant byte first. */
  function Value(bytes: seq<byte>): nat {
    if bytes == [] then 0 else Value(bytes[..|bytes| - 1]) * 256 + bytes[|bytes| - 1]
  }

  /** Writing a number that fits and reading it back gives the number. */
  lemma {:induction false} BigEndianRoundTrip(n: nat, width: nat)
    requires n < Pow256(width)
    ensures Value(BigEndian(n, width)) == n
  {
    if width > 0 {
      BigEndianRoundTrip(n / 256, width - 1);
    }
  }

  /** A digit string of fixed width determines the number it encodes. */
  lemma {:induction false} BigEndianInjective(m: nat, n: nat, width: nat)
    requires m < Pow256(width) && n < Pow256(width)
    requires BigEndian(m, width) == BigEndian(n, width)
    ensures m == n
  {
    if width > 0 {
      var a, b := BigEndian(m, width), BigEndian(n, width);
      assert a[..width - 1] == BigEndian(m / 256, width - 1);
      assert b[..width - 1] == BigEndian(n / 256, width - 1);
      assert a[width - 1] == m % 256 && b[width - 1] == n % 256;
      BigEndianInjective(m / 256, n / 256, width - 1);
    }
  }

  lemma Pow256Eight()
    ensures Pow256(8) == U64_LIMIT
  {
    assert Pow256(2) == 0x1_0000;
    assert Pow256(4) == 0x1_0000_0000;
    assert Pow256(6) == 0x1_0000_0000_0000;
  }

  /** UTF-8 is a prefix code: the first character and the rest can be read back. */
  lemma Utf8CharPrefixFree(c: char, d: char, x: seq<byte>, y: seq<byte>)
    requires Utf8Char(c) + x == Utf8Char(d) + y
    ensures c == d && x == y
  {
    var s, t := Utf8Char(c) + x, Utf8Char(d) + y;
    assert s[0] == Utf8Char(c)[0] && t[0] == Utf8Char(d)[0];
    assert |Utf8Char(c)| == |Utf8Char(d)|;
    assert s[..|Utf8Char(c)|] == Utf8Char(c) && t[..|Utf8Char(d)|] == Utf8Char(d);
    assert s[|Utf8Char(c)|..] == x && t[|Utf8Char(d)|..] == y;
    Utf8CharInjective(c, d);
  }

  /** A code point is its base-64 digits. */
  lemma Base64Digits(n: nat)
    ensures n == n / 64 * 64 + n % 64
    ensures n / 64 == n / 4096 * 64 + n / 64 % 64
    ensures n / 4096 == n / 262144 * 64 + n / 4096 % 64
  {
    assert n / 64 / 64 == n / 4096;
    assert n / 4096 / 64 == n / 262144;
  }

  lemma Utf8CharInjective(c: char, d: char)
    requires Utf8Char(c) == Utf8Char(d)
    ensures c == d
  {
    var m, n := c as int, d as int;
    var a, b := Utf8Char(c), Utf8Char(d);
    Base64Digits(m);
    Base64Digits(n);
    assert a[0] == b[0];
    if |a| == 2 {
      assert a[1] == b[1];
    } else if |a| == 3 {
      assert a[1] == b[1] && a[2] == b[2];
    } else if |a| == 4 {
      assert a[1] == b[1] && a[2] == b[2] && a[3] == b[3];
    }
    assert m == n;
  }

  lemma Utf8Empty(s: string)
    ensures Utf8(s) == [] <==> s == ""
  {
  }

  lemma {:induction false} Utf8Injective(s: string, t: string)
    requires Utf8(s) == Utf8(t)
    ensures s == t
  {
    if s != "" && t != "" {
      Utf8CharPrefixFree(s[0], t[0], Utf8(s[1..]), Utf8(t[1..]));
      Utf8Injective(s[1..], t[1..]);
      assert s == [s[0]] + s[1..] && t == [t[0]] + t[1..];
    } else {
      Utf8Empty(s);
      Utf8Empty(t);
    }
  }

  /** A field is self-delimiting: what follows it does not affect where it ends. */
  lemma FieldPrefixFree(p: string, q: string, x: seq<byte>, y: seq<byte>)
    requires |Utf8(p)| < U64_LIMIT && |Utf8(q)| < U64_LIMIT
    requires Field(p) + x == Field(q) + y
    ensures p == q && x == y
  {
    var s, t := Field(p) + x, Field(q) + y;
    var m, n := |Utf8(p)|, |Utf8(q)|;
    assert s[..8] == BigEndian(m, 8) && t[..8] == BigEndian(n, 8);
    Pow256Eight();
    BigEndianInjective(m, n, 8);
    assert s[8..8 + m] == Utf8(p) && t[8..8 + n] == Utf8(q);
    Utf8Injective(p, q);
    assert s[8 + m..] == x && t[8 + n..] == y;
  }

  /** The bytes fed to the hash determine the (salt, key, subject) triple. */
  lemma EncodeInjective(salt: string, key: string, subject: string,
                        salt': string, key': string, subject': string)
    requires |Utf8(salt)| < U64_LIMIT && |Utf8(key)| < U64_LIMIT && |Utf8(subject)| < U64_LIMIT
    requires |Utf8(salt')| < U64_LIMIT && |Utf8(key')| < U64_LIMIT && |Utf8(subject')| < U64_LIMIT
    ensures Encode(salt, key, subject) == Encode(salt', key', subject')
            <==> salt == salt' && key == key' && subject == subject'
  {
    if Encode(salt, key, subject) == Encode(salt', key', subject') {
      EncodeUnfolds(salt, key, subject);
      EncodeUnfolds(salt', key', subject');
      FieldPrefixFree(salt, salt', Field(key) + (Field(subject) + []), Field(key') + (Field(subject') + []));
      FieldPrefixFree(key, key', Field(subject) + [], Field(subject') + []);
      FieldPrefixFree(subject, subject', [], []);
    }
  }

  lemma EncodeUnfolds(salt: string, key: string, subject: string)
    ensures Encode(salt, key, subject) == Field(salt) + (Field(key) + (Field(subject) + []))
  {
    assert [salt, key, subject][1..] == [key, subject];
    assert [key, subject][1..] == [subject];
    assert [subject][1..] == [];
    assert FieldsOf([subject]) == Field(subject) + [];
    assert FieldsOf([key, subject]) == Field(key) + FieldsOf([subject]);
  }

  // ------------------------------------------------------------- weights --

  function Total(weights: seq<WeightedVariant>): nat {
    if weights == [] then 0 else weights[0].weight + Total(weights[1..])
  }

  /** Index of the entry owning `bucket`, counting down the weights; |weights| when nobody does. */
  function OwnerIndex(weights: seq<WeightedVariant>, bucket: nat): (i: nat)
    ensures i <= |weights|
  {
    if weights == [] then 0
    else if bucket < weights[0].weight then 0
    else 1 + OwnerIndex(weights[1..], bucket - weights[0].weight)
  }

  function Pick(weights: seq<WeightedVariant>, bucket: nat): Option<string> {
    var i := OwnerIndex(weights, bucket);
    if i < |weights| then Some(weights[i].variant) else None
  }

  lemma {:induction false} TotalSplit(a: seq<WeightedVariant>, b: seq<WeightedVariant>)
    ensures Total(a + b) == Total(a) + Total(b)
  {
    if a == [] {
      assert a + b == b;
    } else {
      assert (a + b)[1..] == a[1..] + b;
      TotalSplit(a[1..], b);
    }
  }

  /** The owner is the entry whose cumulative range covers the bucket. */
  lemma {:induction false} OwnerRange(weights: seq<WeightedVariant>, bucket: nat, i: nat)
    requires i < |weights|
    ensures OwnerIndex(weights, bucket) == i
            <==> Total(weights[..i]) <= bucket < Total(weights[..i + 1])
  {
    if i == 0 {
      assert weights[..1] == [weights[0]];
      assert weights[..1][1..] == [];
    } else {
      assert weights[..i][1..] == weights[1..][..i - 1];
      assert weights[..i + 1][1..] == weights[1..][..i];
      if bucket >= weights[0].weight {
        OwnerRange(weights[1..], bucket - weights[0].weight, i - 1);
      } else {
        TotalSplit([weights[0]], weights[1..i]);
        assert weights[..i] == [weights[0]] + weights[1..i];
      }
    }
  }

  lemma {:induction false} NoOwner(weights: seq<WeightedVariant>, bucket: nat)
    ensures OwnerIndex(weights, bucket) == |weights| <==> bucket >= Total(weights)
  {
    if weights != [] && bucket >= weights[0].weight {
      NoOwner(weights[1..], bucket - weights[0].weight);
    }
  }

  /** Accumulates the weights and stops at the first range that reaches past `bucket`. */
  method PickWeighted(weights: seq<WeightedVariant>, bucket: nat) returns (r: Option<string>)
    ensures r == Pick(weights, bucket)
  {
    var cumulative := 0;
    for i := 0 to |weights|
      invariant cumulative == Total(weights[..i]) <= bucket
    {
      TotalSplit(weights[..i], [weights[i]]);
      assert weights[..i] + [weights[i]] == weights[..i + 1];
      assert [weights[i]][1..] == [];
      cumulative := cumulative + weights[i].weight;
      if bucket < cumulative {
        OwnerRange(weights, bucket, i);
        return Some(weights[i].variant);
      }
    }
    assert weights[..|weights|] == weights;
    NoOwner(weights, bucket);
    r := None;
  }

  predicate DistinctArms(weights: seq<WeightedVariant>) {
    forall i, j :: 0 <= i < j < |weights| ==> weights[i].variant != weights[j].variant
  }

  /** The buckets that serve `variant`. */
  ghost function Share(weights: seq<WeightedVariant>, variant: string): set<nat> {
    set b: nat | 0 <= b < TOTAL_WEIGHT && Pick(weights, b) == Some(variant)
  }

  ghost function Interval(lo: nat, hi: nat): (r: set<nat>)
    requires lo <= hi
    ensures forall b: nat :: b in r <==> lo <= b < hi
    ensures |r| == hi - lo
    decreases hi
  {
    if lo == hi then {} else Interval(lo, hi - 1) + {hi - 1}
  }

  lemma PrefixTotals(weights: seq<WeightedVariant>, i: nat)
    requires i < |weights|
    ensures Total(weights[..i + 1]) == Total(weights[..i]) + weights[i].weight
    ensures Total(weights[..i + 1]) <= Total(weights)
  {
    var init, rest := weights[..i], weights[i + 1..];
    TotalSplit(init, [weights[i]]);
    TotalOne(weights[i]);
    assert init + [weights[i]] == weights[..i + 1];
    TotalSplit(init + [weights[i]], rest);
    assert init + [weights[i]] + rest == weights;
  }

  lemma TotalOne(w: WeightedVariant)
    ensures Total([w]) == w.weight
  {
    assert [w][1..] == [];
  }

  /** The buckets an arm owns are one contiguous range as long as its weight. */
  lemma ShareIsInterval(weights: seq<WeightedVariant>, i: nat)
    requires DistinctArms(weights) && Total(weights) == TOTAL_WEIGHT
    requires i < |weights|
    ensures Total(weights[..i + 1]) == Total(weights[..i]) + weights[i].weight
    ensures Share(weights, weights[i].variant) == Interval(Total(weights[..i]), Total(weights[..i + 1]))
  {
    PrefixTotals(weights, i);
    forall b: nat
      ensures b in Share(weights, weights[i].variant)
              <==> b in Interval(Total(weights[..i]), Total(weights[..i + 1]))
    {
      OwnerRange(weights, b, i);
      PickNames(weights, b, i);
    }
  }

  lemma PickNames(weights: seq<WeightedVariant>, b: nat, i: nat)
    requires DistinctArms(weights) && i < |weights|
    ensures Pick(weights, b) == Some(weights[i].variant) <==> OwnerIndex(weights, b) == i
  {
  }

  /** Each arm of a full rollout owns exactly `weight` of the 100 000 buckets. */
  lemma ExactShares(weights: seq<WeightedVariant>, i: nat)
    requires DistinctArms(weights) && Total(weights) == TOTAL_WEIGHT
    requires i < |weights|
    ensures |Share(weights, weights[i].variant)| == weights[i].weight
  {
    ShareIsInterval(weights, i);
  }

  /** Every bucket of a full rollout is owned by exactly one arm. */
  lemma OneOwner(weights: seq<WeightedVariant>, b: nat)
    requires DistinctArms(weights) && Total(weights) == TOTAL_WEIGHT && b < TOTAL_WEIGHT
    ensures exists i :: 0 <= i < |weights| && b in Share(weights, weights[i].variant)
    ensures forall i, j :: 0 <= i < |weights| && 0 <= j < |weights|
                           && b in Share(weights, weights[i].variant)
                           && b in Share(weights, weights[j].variant)
              ==> i == j
  {
    NoOwner(weights, b);
    var i := OwnerIndex(weights, b);
    assert b in Share(weights, weights[i].variant);
  }

  /**
   * Moving k units of weight from an arm to the one before it moves exactly the
   * k buckets at their border, all from the second arm to the first; everybody
   * else, on any arm, stays put.
   */
  lemma StickyGrowth(before: seq<WeightedVariant>, a: string, x: u32, b: string, y: u32,
                     after: seq<WeightedVariant>, k: nat)
    requires a != b && k <= y && x + k <= U32_MAX
    requires Total(before) + x + y + Total(after) == TOTAL_WEIGHT
    ensures
      var narrow := before + [WeightedVariant(a, x), WeightedVariant(b, y)] + after;
      var wide := before + [WeightedVariant(a, x + k), WeightedVariant(b, y - k)] + after;
      var moved := set s: nat | 0 <= s < TOTAL_WEIGHT && Pick(narrow, s) != Pick(wide, s);
      && |moved| == k
      && (forall s :: s in moved ==> Pick(narrow, s) == Some(b) && Pick(wide, s) == Some(a))
  {
    var narrow := before + [WeightedVariant(a, x), WeightedVariant(b, y)] + after;
    var wide := before + [WeightedVariant(a, x + k), WeightedVariant(b, y - k)] + after;
    var lo := Total(before) + x;
    var moved := set s: nat | 0 <= s < TOTAL_WEIGHT && Pick(narrow, s) != Pick(wide, s);
    forall s: nat | s < TOTAL_WEIGHT
      ensures s in moved <==> s in Interval(lo, lo + k)
      ensures s in moved ==> Pick(narrow, s) == Some(b) && Pick(wide, s) == Some(a)
    {
      PickAroundPair(before, WeightedVariant(a, x), WeightedVariant(b, y), after, s);
      PickAroundPair(before, WeightedVariant(a, x + k), WeightedVariant(b, y - k), after, s);
    }
    assert moved == Interval(lo, lo + k);
  }

  /** Who owns a bucket around two adjacent arms. */
  lemma PickAroundPair(before: seq<WeightedVariant>, p: WeightedVariant, q: WeightedVariant,
                       after: seq<WeightedVariant>, s: nat)
    ensures
      var t := Total(before);
      Pick(before + [p, q] + after, s) ==
      if s < t then Pick(before, s)
      else if s < t + p.weight then Some(p.variant)
      else if s < t + p.weight + q.weight then Some(q.variant)
      else Pick(after, s - t - p.weight - q.weight)
  {
    var t, last := Total(before), [q] + after;
    var pair := [p] + last;
    PairRegrouped(before, p, q, after);
    PickSplit(before, pair, s);
    if s >= t {
      PickFirst(p, last, s - t);
      if s - t >= p.weight {
        PickFirst(q, after, s - t - p.weight);
      }
    }
  }

  lemma PairRegrouped(before: seq<WeightedVariant>, p: WeightedVariant, q: WeightedVariant, after: seq<WeightedVariant>)
    ensures before + [p, q] + after == before + ([p] + ([q] + after))
  {
    assert [p, q] == [p] + [q];
  }

  /** The arms of a list own its first buckets; those of the list after it own the ones that follow. */
  lemma {:induction false} PickSplit(a: seq<WeightedVariant>, b: seq<WeightedVariant>, s: nat)
    ensures Pick(a + b, s) == if s < Total(a) then Pick(a, s) else Pick(b, s - Total(a))
    decreases |a|
  {
    if a == [] {
      assert a + b == b;
    } else {
      assert a == [a[0]] + a[1..] && a + b == [a[0]] + (a[1..] + b);
      PickFirst(a[0], a[1..] + b, s);
      PickFirst(a[0], a[1..], s);
      if s >= a[0].weight {
        PickSplit(a[1..], b, s - a[0].weight);
      }
    }
  }

  /** The first arm owns the buckets below its weight; the other arms share the rest. */
  lemma PickFirst(p: WeightedVariant, rest: seq<WeightedVariant>, s: nat)
    ensures Pick([p] + rest, s) == if s < p.weight then Some(p.variant) else Pick(rest, s - p.weight)
  {
    var w := [p] + rest;
    assert w[1..] == rest;
    if s >= p.weight {
      var i := OwnerIndex(rest, s - p.weight);
      assert i < |rest| ==> w[i + 1] == rest[i];
    }
  }
}
