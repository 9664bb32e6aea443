/** An immutable, self-contained view of one environment. */
module Snapshots {
  import opened FlagTypes
  import opened Engine

  datatype EnvRow = EnvRow(key: string, salt: string)

  datatype Snapshot = Snapshot(environmentKey: string, salt: string, flags: map<string, Flag>,
                               segments: SegmentSet, experiments: seq<ExperimentSpec>, version: int)

  function FlagsByKey(flags: seq<Flag>): map<string, Flag> {
    if flags == [] then map[]
    else var last := flags[|flags| - 1]; FlagsByKey(flags[..|flags| - 1])[last.key := last]
  }

  function SegmentsByKey(segments: seq<Segment>): SegmentSet {
    if segments == [] then map[]
    else var last := segments[|segments| - 1]; SegmentsByKey(segments[..|segments| - 1])[last.key := last]
  }

  function Versions(flags: seq<Flag>, segments: seq<Segment>, experiments: seq<ExperimentSpec>): seq<int> {
    seq(|flags|, i requires 0 <= i < |flags| => flags[i].version)
    + seq(|segments|, i requires 0 <= i < |segments| => segments[i].version)
    + seq(|experiments|, i requires 0 <= i < |experiments| => experiments[i].version)
  }

  /** The largest element, or zero for none. */
  function Maximum(xs: seq<int>): (m: int)
    ensures xs == [] ==> m == 0
    ensures xs != [] ==> m in xs
    ensures forall x :: x in xs ==> x <= m
  {
    if xs == [] then 0
    else if |xs| == 1 then xs[0]
    else
      var m := Maximum(xs[1..]);
      assert forall x :: x in xs ==> x == xs[0] || x in xs[1..];
      if xs[0] > m then xs[0] else m
  }

  /**
   * Rows as the loader reads them: flags and segments come from tables with a
   * unique key per environment, so building the maps loses none of them.
   */
  function Build(row: EnvRow, flags: seq<Flag>, segments: seq<Segment>, experiments: seq<ExperimentSpec>): Snapshot {
    Snapshot(row.key, row.salt, FlagsByKey(flags), SegmentsByKey(segments), experiments,
             if flags == [] && segments == [] then Maximum([0] + Versions([], [], experiments))
             else Maximum(Versions(flags, segments, experiments)))
  }

  /** The snapshot's version is the greatest of the versions in it; without flags and segments it is not below zero. */
  lemma VersionIsGreatest(row: EnvRow, flags: seq<Flag>, segments: seq<Segment>, experiments: seq<ExperimentSpec>)
    ensures
      var v := Build(row, flags, segments, experiments).version;
      && (forall i :: 0 <= i < |flags| ==> flags[i].version <= v)
      && (forall i :: 0 <= i < |segments| ==> segments[i].version <= v)
      && (forall i :: 0 <= i < |experiments| ==> experiments[i].version <= v)
      && (v in Versions(flags, segments, experiments) || (v == 0 && flags == [] && segments == []))
  {
    var all := Versions(flags, segments, experiments);
    VersionsComplete(flags, segments, experiments);
    assert flags == [] && segments == [] ==> all == Versions([], [], experiments);
    assert forall x :: x in all ==> x in [0] + all;
  }

  lemma VersionsComplete(flags: seq<Flag>, segments: seq<Segment>, experiments: seq<ExperimentSpec>)
    ensures
      var all := Versions(flags, segments, experiments);
      && (forall i :: 0 <= i < |flags| ==> flags[i].version in all)
      && (forall i :: 0 <= i < |segments| ==> segments[i].version in all)
      && (forall i :: 0 <= i < |experiments| ==> experiments[i].version in all)
  {
    var all := Versions(flags, segments, experiments);
    forall i | 0 <= i < |flags|
      ensures flags[i].version in all
    {
      assert all[i] == flags[i].version;
    }
    forall i | 0 <= i < |segments|
      ensures segments[i].version in all
    {
      assert all[|flags| + i] == segments[i].version;
    }
    forall i | 0 <= i < |experiments|
      ensures experiments[i].version in all
    {
      assert all[|flags| + |segments| + i] == experiments[i].version;
    }
  }

  function EnvironmentOf(s: Snapshot): Environment {
    Environment(s.salt, s.segments)
  }

  /** Unknown keys resolve to the fallback rather than an error. */
  function EvaluateKey(P: Platform, s: Snapshot, flagKey: string, ctx: Context, fallback: VariantValue): Evaluation {
    if flagKey in s.flags then Evaluate(P, s.flags[flagKey], ctx, EnvironmentOf(s))
    else Evaluation(flagKey, None, fallback, FlagNotFound, 0)
  }

  /** What was read is what the snapshot holds, part by part, when keys are distinct as the tables keep them. */
  lemma BuildHolds(row: EnvRow, flags: seq<Flag>, segments: seq<Segment>, experiments: seq<ExperimentSpec>, flag: Flag, segment: Segment)
    requires forall i, j :: 0 <= i < j < |flags| ==> flags[i].key != flags[j].key
    requires forall i, j :: 0 <= i < j < |segments| ==> segments[i].key != segments[j].key
    ensures
      var s := Build(row, flags, segments, experiments);
      && s.environmentKey == row.key && s.salt == row.salt && s.experiments == experiments
      && (flag in flags <==> flag.key in s.flags && s.flags[flag.key] == flag)
      && (segment in segments <==> segment.key in s.segments && s.segments[segment.key] == segment)
  {
    FlagsByKeyComplete(flags);
    SegmentsByKeyComplete(segments);
    if flag.key in FlagsByKey(flags) {
      var i :| 0 <= i < |flags| && flags[i].key == flag.key;
    }
    if segment.key in SegmentsByKey(segments) {
      var i :| 0 <= i < |segments| && segments[i].key == segment.key;
    }
  }

  /** A known flag is evaluated against the snapshot's own salt and segments; an unknown one gives the fallback. */
  lemma EvaluateKeyMeaning(P: Platform, s: Snapshot, flagKey: string, ctx: Context, fallback: VariantValue)
    ensures
      var e := EvaluateKey(P, s, flagKey, ctx, fallback);
      && (flagKey in s.flags ==> e == Evaluate(P, s.flags[flagKey], ctx, Environment(s.salt, s.segments)))
      && (flagKey !in s.flags ==> e.flagKey == flagKey && e.variant.None? && e.value == fallback && e.reason == FlagNotFound)
  {
  }

  lemma {:induction false} SegmentsByKeyComplete(segments: seq<Segment>)
    requires forall i, j :: 0 <= i < j < |segments| ==> segments[i].key != segments[j].key
    ensures forall i :: 0 <= i < |segments| ==> segments[i].key in SegmentsByKey(segments) && SegmentsByKey(segments)[segments[i].key] == segments[i]
    ensures forall k :: k in SegmentsByKey(segments) ==> exists i :: 0 <= i < |segments| && segments[i].key == k
  {
    if segments != [] {
      var init := segments[..|segments| - 1];
      SegmentsByKeyComplete(init);
      forall k | k in SegmentsByKey(segments)
        ensures exists i :: 0 <= i < |segments| && segments[i].key == k
      {
        if k in SegmentsByKey(init) {
          var i :| 0 <= i < |init| && init[i].key == k;
          assert segments[i].key == k;
        }
      }
    }
  }

  lemma {:induction false} FlagsByKeyComplete(flags: seq<Flag>)
    requires forall i, j :: 0 <= i < j < |flags| ==> flags[i].key != flags[j].key
    ensures forall i :: 0 <= i < |flags| ==> flags[i].key in FlagsByKey(flags) && FlagsByKey(flags)[flags[i].key] == flags[i]
    ensures forall k :: k in FlagsByKey(flags) ==> exists i :: 0 <= i < |flags| && flags[i].key == k
  {
    if flags != [] {
      var init := flags[..|flags| - 1];
      FlagsByKeyComplete(init);
      forall k | k in FlagsByKey(flags)
        ensures exists i :: 0 <= i < |flags| && flags[i].key == k
      {
        if k in FlagsByKey(init) {
          var i :| 0 <= i < |init| && init[i].key == k;
          assert flags[i].key == k;
        }
      }
    }
  }
}
