# FlagForge, verified model

FlagForge is a feature-flag service. Operators edit flags, segments and
experiments in Postgres; each node keeps a snapshot per environment in memory
and evaluates flags against it; SDKs count exposures and conversions and ship
the counts back; the dashboard judges them.

This project models the parts of it whose guarantees are hard to see in the
code, and proves those guarantees for every input, every run or every
interleaving:

| files | part of the system |
|---|---|
| `FlagTypes`, `Bucketing`, `Matching`, `Engine`, `Validation`, `Snapshots` | the evaluation engine, its hash buckets, its validator |
| `SnapshotCache`, `SnapshotCacheProof`, `SnapshotCacheTheorems`, `SnapshotCacheProgress` | the snapshot cache as a protocol of interleaved atomic actions: what is served, and that nothing gets stuck |
| `ConfigStore`, `ConfigDatabase`, `ConfigStoreProof`, `ConfigStoreTheorems` | the configuration tables as a state machine over requests |
| `VersionedRows` | optimistic concurrency: configuration writes and segment patches, interleaved |
| `Recorder`, `Flushing`, `Attribution` | the SDK's counters, their flushing, and what evaluating and tracking count |
| `Experiments`, `Lifecycle` | counter ingest and the life of an experiment |
| `Results`, `FlagOrder`, `Statistics` | the two readers of the counter table, their order, and the verdicts |
| `RateLimiter` | the token bucket |
| `Collections` | facts about sets, multisets and sums over lists |

`dafny verify dfyconfig.toml` checks everything.

## How the model relates to the code

Code that computes a value is a function with lemmas about it. Code that works
by updating state is a class or a method with loops (`ConfigDatabase.Database`,
`Recorder.Recorder`, `Attribution.Client`, `Experiments.ExperimentStore`,
`RateLimiter.RateLimiter`, `Matching.RegexCache`, the validators, the readers),
proved to do what a specification function says; the properties are then proved
of that function. Concurrency is a transition system: `SnapshotCache.Next` takes
one atomic action of one task, one commit or one new call; `SegmentWrites.Next`
and `Flushing.Next` take one step of one request or flush.

SHA-256, regular expressions, semantic versions and number formatting are the
function-valued fields of `Platform`; nothing depends on which functions they
are. The square root and the normal distribution are fields of `Maths`. `f64`
arithmetic is exact real arithmetic. Database and wall clocks are parameters.

Version columns follow the triggers in `migrations/`: 1 on insert, one more on
every update. Row ids are never reused.

### Where the code does not do what is claimed of it

* `crates/core/src/validate.rs:3-5` says a stored flag never evaluates to an
  error. Two things stand in the way. A rollout keyed on an attribute the
  context lacks does give an error (`Validation.AcceptedYetError`), and that is
  the only way (`Validation.ValidatorSound`). And a stored flag need not pass the validator:
  the variant check runs once per environment, so a project without one stores
  any variant list. `ConfigStoreTheorems.UncheckedVariantsGetStored` is the run,
  `ConfigStoreTheorems.StoredFlagsValidateIff` the exact condition. Such a flag
  still evaluates to its own variants (`ConfigStoreTheorems.StoredFlagsEvaluate`).
* `crates/api/src/rate_limit.rs:76-77` says forgetting an idle client changes
  nothing. That holds, and the limiter keeps to its configured rate, exactly when
  the burst is at most 300 seconds of refill (`RateLimiter.WindowBound`).
* `crates/core/src/validate.rs:211-217` calls a rule that both requires and
  excludes a segment dead. A rule's requirement is dead exactly when every
  alternative it names is excluded (`Validation.DeadIff`); short of that the
  validator refuses a rule that can match (`Validation.RejectedButNotDead`).
* `crates/storage/src/segments.rs:157-198` guards a segment against concurrent
  edits only when a version is sent, that version was really read, and the
  segment is the one that was read. `SegmentWrites.StaysValidIff` shows that both
  are needed and enough; `SegmentWrites.UnreadVersionsBreakIt` and
  `SegmentWrites.RecreationBreaksIt` give the runs in which an invalid segment is
  stored otherwise.
* `crates/storage/src/experiments.rs:290` says ingest returns how many increments
  were accepted. It returns how many hourly cells were written; the two numbers
  agree exactly when no two accepted increments share a cell
  (`Experiments.ReportsIncrementsIff`), and differ in
  `Experiments.TwoIncrementsOneCell`.

## Model

| member | source | states |
|---|---|---|
| Bucketing.Bucket | crates/core/src/bucket.rs:18-31 | feeding the hasher part by part hashes the eight big-endian length bytes and the UTF-8 bytes of the salt, then of the key, then of the subject; the bucket is the digest's head modulo 100000 |
| Bucketing.BigEndianRoundTrip | crates/core/src/bucket.rs:22 | the length bytes read back, most significant first, as the length, for every number that fits the width |
| Bucketing.Utf8Injective | crates/core/src/bucket.rs:23 | different strings have different bytes |
| Bucketing.EncodeInjective | crates/core/src/bucket.rs:18-25 | two triples feed the hash the same bytes if and only if they are the same triple, for all strings shorter than 2^64 bytes |
| Bucketing.PickWeighted | crates/core/src/bucket.rs:37-46 | the loop over cumulative weights returns the arm whose interval holds the bucket, or none |
| Bucketing.NoOwner | crates/core/src/bucket.rs:35-46 | no arm is picked exactly when the bucket is not below the total weight |
| Bucketing.ExactShares | crates/core/src/bucket.rs:37-46 | with distinct arms summing to 100000, each arm is picked for exactly `weight` of the 100000 buckets |
| Bucketing.OneOwner | crates/core/src/bucket.rs:37-46 | every bucket below the total has one arm, and the arms' shares do not overlap |
| Bucketing.StickyGrowth | crates/core/src/bucket.rs:37-46 | moving k units of weight to an arm from the next one moves exactly k buckets, all of them from that neighbour to it, and nobody else |
| Matching.ConditionsFrame | crates/core/src/matcher.rs:95-116 | conditions read only the attributes they name |
| Matching.SegmentFrame | crates/core/src/matcher.rs:51-80 | segment membership reads only the context key and the attributes the segment names |
| Matching.MembershipOrder | crates/core/src/matcher.rs:46-59 | exclusion beats inclusion and both beat the rules |
| Matching.RaisingPercentageOnlyAdds | crates/core/src/matcher.rs:61-80 | raising a segment rule's percentage keeps every member and moves nobody out |
| Matching.SegmentMeaning | crates/core/src/matcher.rs:51-88 | a context is in a segment exactly when it is not excluded and is included or taken in by a rule: every condition holds and, where the rule has a percentage, the hash of the salt, the segment's own namespace and the text of what it buckets on is below it; without such a text it is out |
| Matching.RuleMeaning | crates/core/src/matcher.rs:18-44 | a rule matches exactly when every condition does, the context is in one of the required segments if any are named, and in none of the excluded; a segment the environment lacks contains nobody |
| Matching.MissingNeverMatches | crates/core/src/matcher.rs:90-109 | a missing attribute matches nothing but NotExists, negated operators included; of a present one only the value counts; without values to compare with, only the existence operators match |
| Matching.NegationIsExact | crates/core/src/matcher.rs:118-127 | on a present attribute with values, each negated operator answers the opposite of its twin |
| Matching.AnyItemAnyValue | crates/core/src/matcher.rs:107-115 | a positive operator matches exactly when some item of the attribute compares to some value |
| Matching.OrderOperators | crates/core/src/matcher.rs:134-140 | the four order operators compare numbers as numbers and match nothing else; two numbers are equal as numbers |
| Matching.TextOperators | crates/core/src/matcher.rs:131-133 | contains, starts with and ends with say that the text is made of the part with something before or after it; texts are equal as texts |
| Matching.VersionOperators | crates/core/src/matcher.rs:142-149 | the version operators follow the order of versions where both texts are versions, and patterns match only where they compile |
| Matching.WrittenForms | crates/core/src/matcher.rs:158-168 | a truth value or a number equals a text exactly when the text is how it is written |
| Matching.RegexCache.Compiled | crates/core/src/matcher.rs:200-233 | the capped global cache always answers as compiling afresh would |
| FlagTypes.FindVariantCorrect | crates/core/src/flag.rs:193-195 | looking a variant up finds one of that key exactly when there is one |
| Engine.ResolveSound | crates/core/src/engine.rs:128-151 | a distribution over known variants fails to resolve exactly when it buckets on an attribute that is absent or a list |
| Engine.ReachedIsUnique | crates/core/src/engine.rs:106-125 | evaluation reaches one distribution: that of the first matching rule, or the fallthrough |
| Engine.EvaluationSound | crates/core/src/engine.rs:106-180 | an evaluable flag serves one of its own variants with that variant's value, degrades to the off value with no variant exactly on an unbucketable rollout, and serves the off variant, for that reason, when disabled |
| Engine.ServesWhatIsReached | crates/core/src/engine.rs:106-151 | an enabled flag serves the one variant that the distribution it reaches assigns: the one it names, or the arm in whose range of cumulative weights the subject's bucket lies; the reason names the matching rule by id and index, or the fallthrough, and an error names the attribute that was wanted |
| Engine.EvaluationFrame | crates/core/src/engine.rs:106-151 | evaluation depends only on the segments the rules reference and the attributes those rules and segments name |
| Validation.CheckConditions | crates/core/src/validate.rs:223-260 | no issue exactly for conditions with a name, values where needed and patterns that compile; otherwise exactly the flaws there are, each at its condition and value |
| Validation.CheckSegmentMatch | crates/core/src/validate.rs:196-219 | no issue exactly for a requirement that names something, no blank key, and nothing both required and excluded; otherwise exactly those flaws |
| Validation.CheckDistribution | crates/core/src/validate.rs:262-322 | no issue exactly for a distribution over known variants, without repetition, summing to 100000; otherwise exactly the flaws there are, each at its arm |
| Validation.CheckVariants | crates/core/src/validate.rs:53-70 | collects the variant keys, with no issue exactly for a nonempty list of valid, distinct keys, and otherwise one for each bad or repeated key |
| Validation.Validate | crates/core/src/validate.rs:40-105 | accepts exactly the flags that satisfy the declarative `FlagOk`, and otherwise reports every flaw of the flag at its place and nothing else |
| Validation.ValidateSegment | crates/core/src/validate.rs:112-166 | accepts exactly the segments that satisfy `SegmentOk`, and otherwise reports every flaw and nothing else |
| Validation.ValidateReferences | crates/core/src/validate.rs:175-194 | accepts exactly rule lists all of whose segment references are known, and otherwise reports exactly the unknown ones |
| Validation.ValidatorSound | crates/core/src/validate.rs:40-105 | every accepted flag, in every environment and context, serves its own variants, with an error exactly when the distribution reached is unbucketable |
| Validation.ConfigOkIsEvaluable | crates/core/src/validate.rs:72-102 | the checks on off variant, fallthrough and rules alone make a flag evaluable |
| Validation.AcceptedRolloutShares | crates/core/src/validate.rs:286-310 | in an accepted rollout each arm owns exactly its weight in buckets |
| Validation.NamespacesDisjoint | crates/core/src/matcher.rs:82-88 | no segment rollout and no rollout of a flag with a valid key ever hash the same bytes |
| Validation.InputsDisjoint | crates/core/src/matcher.rs:82-88 | no bytes are both hashed for a segment rollout and for the rollout of a flag with a valid key |
| Validation.SegmentsIgnoreFlagHashes | crates/core/src/matcher.rs:61-80 | changing the hash of every input a flag rollout can have changes no segment membership |
| Validation.FlagsIgnoreSegmentHashes | crates/core/src/engine.rs:128-151 | changing the hash of every input a segment rollout can have changes nothing a flag with a valid key resolves to |
| Validation.DeadIff | crates/core/src/matcher.rs:24-33 | no context in any environment meets a requirement exactly when it names alternatives and excludes every one of them |
| Validation.RejectedButNotDead | crates/core/src/validate.rs:211-217 | "beta or staff, but not staff" is refused as dead, with the environment and context that meet it |
| Validation.RulelessErrsIff | crates/core/src/validate.rs:3-5 | an accepted, enabled flag without rules can give an error exactly when its fallthrough buckets on an attribute |
| Validation.AcceptedYetError | crates/core/src/validate.rs:3-5 | the accepted flag, context and environment that give one |
| Snapshots.VersionIsGreatest | crates/core/src/snapshot.rs:64-90 | the snapshot's version is one of the flag, segment and experiment versions in it and at least all of them, or zero where there are no flags and segments |
| Snapshots.FlagsByKeyComplete | crates/core/src/snapshot.rs:53-82 | building the snapshot's map from rows with distinct keys loses no flag and adds none |
| Snapshots.SegmentsByKeyComplete | crates/core/src/snapshot.rs:53-82 | the same for segments |
| Snapshots.BuildHolds | crates/core/src/snapshot.rs:53-90 | the snapshot holds exactly the flags, segments and experiments that were read, under the salt and key of their environment |
| Snapshots.EvaluateKeyMeaning | crates/core/src/snapshot.rs:101-127 | a known flag is evaluated with the snapshot's own salt and segments, an unknown one gives the fallback and says so |
| SnapshotCacheProof.NextKeepsInv | crates/api/src/cache.rs:43-134 | every atomic action of every task, every commit and every new call keeps the protocol invariant |
| SnapshotCacheProof.RunInv | crates/api/src/cache.rs:43-134 | the invariant holds in every state of every run |
| SnapshotCacheTheorems.ReadYourWrites | crates/api/src/cache.rs:49-110 | in every interleaving, after a commit and a later refresh that finished without a database error (skipping included), a later get that returns a snapshot returns one all of whose parts were read after the commit and are what the database held |
| SnapshotCacheTheorems.RefreshConverges | crates/api/src/routes/flags.rs:388-391 | with no further commit, that get answers with the database's own contents |
| SnapshotCacheTheorems.SweepConverges | crates/api/src/cache.rs:112-121 | after an error-free `refresh_all` begun after the last commit, every filled slot in the map agrees with the database, slots created meanwhile included |
| SnapshotCacheTheorems.SweepReadsWrites | crates/api/src/cache.rs:112-121 | with commits going on, a get called after an error-free `refresh_all` that was called after time i returns a snapshot all of whose parts were read at i or later |
| SnapshotCacheTheorems.SingleFlight | crates/api/src/cache.rs:60-70 | at most one load in flight per slot, and at most one get ever fills a slot |
| SnapshotCacheTheorems.SlotsMoveForward | crates/api/src/cache.rs:79-110 | a filled slot never empties and each part's read time never decreases |
| SnapshotCacheTheorems.FailedRefreshChangesNothing | crates/api/src/cache.rs:98-108 | over a whole run, a refresh that comes to fail has at none of its steps changed the slot map or what any slot holds |
| SnapshotCacheTheorems.DeletedNotServed | crates/api/src/cache.rs:92-97 | after a deletion and a refresh that followed it no new get returns a snapshot |
| SnapshotCacheTheorems.DeletionIsFinal | crates/api/src/cache.rs:92-97 | once any refresh or sweep has seen an environment that existed deleted and removed the slot, no get called later returns a snapshot for it, whenever the refresh or sweep began |
| SnapshotCacheTheorems.NoReuse | crates/storage/src/snapshot.rs:20-23 | an environment that is gone from the database stays gone |
| SnapshotCacheTheorems.NothingMadeUp | crates/storage/src/snapshot.rs:19-47 | at every moment of every run, whatever a slot holds and whatever a get has answered was read in the order of the four queries, each part being what the database held at its own moment |
| SnapshotCacheTheorems.NotFoundMeansGone | crates/api/src/cache.rs:69-72 | in every run a get that answers "not found" had its environment missing from the database at some moment since its call |
| SnapshotCacheTheorems.DbErrorMeansFailure | crates/api/src/cache.rs:69-72 | a get that answers with a database error had a query of its own fail at a step of the run |
| SnapshotCacheTheorems.GetFinds | crates/api/src/cache.rs:49-73 | a finished get whose environment was in the database ever since its call, and none of whose queries failed, has returned a snapshot |
| SnapshotCacheTheorems.OneGetLoads | crates/api/src/cache.rs:60-72 | of all the gets that ever use a slot, at most one loads it to the end; the others find what it stored |
| SnapshotCacheProgress.ReadsAreLockFree | crates/api/src/cache.rs:10-11 | a get called while its slot is filled never takes or awaits the lock, whatever is being loaded meanwhile, and finds a snapshot |
| SnapshotCacheProgress.DroppedMeansGone | crates/api/src/cache.rs:92-97 | an environment leaves the slot map only by a refresh or sweep since whose call it was missing from the database |
| SnapshotCacheProgress.LiveStaysCached | crates/api/src/cache.rs:79-110 | an environment no refresh or sweep can have seen missing keeps its slot, and keeps a snapshot in it once one is there |
| SnapshotCacheProgress.NeverStuck | crates/api/src/cache.rs:60-84 | in no state of any run is a call stuck: it can move, or the holder of the lock it waits for can |
| SnapshotCacheProgress.StepsRunOut | crates/api/src/cache.rs:49-121 | every step brings its call nearer its end, in a well-founded order, so no call goes on forever |
| SnapshotCacheProgress.EveryCallCanFinish | crates/api/src/cache.rs:49-121 | from every state of every run, every call can be brought to its end by steps of the calls already made, without a commit, a new call or a failing query |
| SnapshotCacheProgress.UndisturbedGetFinds | crates/api/src/cache.rs:49-73 | however such a continuation goes, a get of an environment the database holds ends with a snapshot |
| ConfigDatabase.Database.CreateFlag | crates/api/src/routes/flags.rs:50-75 | validates, then inserts the flag and seeds it, disabled, into every environment of its project; or refuses and changes nothing |
| ConfigDatabase.Database.UpdateFlag | crates/api/src/routes/flags.rs:182-211 | the loop re-validates every environment against new variants and writes exactly when all survive, reporting the specified refusal otherwise |
| ConfigDatabase.Database.KeepsInvariant | crates/storage/src/projects.rs:85-93 | the object's tables keep the store invariant, whatever its methods were called with |
| ConfigDatabase.Database.DeleteFlag | crates/storage/src/flags.rs:205-225 | refused exactly when the flag is missing or an experiment measures it; else the flag and all its configurations are gone and every other row is unchanged |
| ConfigDatabase.Database.UpdateConfig | crates/api/src/routes/flags.rs:356-386 | validates the configuration and its references, then writes it under the version guard; when accepted the row is what was sent, one version up, and every other row is unchanged |
| ConfigDatabase.Database.CreateEnvironment | crates/storage/src/projects.rs:94-171 | inserts the environment and a seeded configuration for every flag of the project in one step, or nothing at all |
| ConfigDatabase.Database.DeleteEnvironment | crates/storage/src/projects.rs:205-218 | everything scoped to the environment is gone with it and every other row is unchanged |
| ConfigDatabase.Database.CreateSegment | crates/storage/src/segments.rs:13-49 | accepted exactly for a good, free key in an existing environment; the new segment is at version 1 and contains nobody, for any context |
| ConfigDatabase.Database.UpdateSegment | crates/api/src/routes/segments.rs:188-205 | accepted exactly when the segment exists, the patched one is valid and the version sent, if any, is the current one; each list of the patch replaces the stored one where it is given and only there, the key is kept, the version is one more, every other row is unchanged |
| ConfigDatabase.Database.DeleteSegment | crates/storage/src/segments.rs:252-274 | accepted exactly when evaluating no stored flag of the environment can look at the segment; nothing but the segment goes |
| ConfigStoreTheorems.InUseMeaning | crates/storage/src/segments.rs:215-244 | the reference query finds a segment in use exactly when some stored flag of its environment references it |
| ConfigStoreProof.StepKeepsInv | crates/storage/src/projects.rs:85-93 | every request keeps the store invariant: each flag configured in every environment of its project and only there, configurations naming the flag's own variants with rollouts summing to 100000, references resolving in their own environment, segments valid, experiments on existing flags |
| ConfigStoreProof.StoreInvariant | crates/storage/src/flags.rs:11-18 | the invariant holds after every run of requests from empty tables |
| ConfigStoreTheorems.StoredFlagsEvaluate | crates/api/src/routes/flags.rs:59-61 | after any run every stored flag serves its own variants for every context, but for unbucketable rollouts |
| ConfigStoreTheorems.StoredPassesIff | crates/core/src/validate.rs:1-5 | a stored flag passes the validator exactly when its variant list does |
| ConfigStoreTheorems.StepKeepsVariantsIff | crates/api/src/routes/flags.rs:185-201 | a request leaves all variant lists valid exactly when it does not replace the variants of a flag in a project without environments by a bad list |
| ConfigStoreTheorems.StoredFlagsValidateIff | crates/api/src/routes/flags.rs:185-201 | over a whole run all stored flags pass the validator at every moment exactly when no such request was made |
| ConfigStoreTheorems.UncheckedVariantsGetStored | crates/api/src/routes/flags.rs:188-201 | the run that stores a flag the validator rejects |
| ConfigStoreTheorems.UpdateFlagEffect | crates/api/src/routes/flags.rs:182-211 | refused exactly when the flag is missing or the new variants invalidate it somewhere; else variants and the archived mark are replaced where given, and nothing else changes |
| ConfigStoreTheorems.UpdateConfigAcceptedIff | crates/api/src/routes/flags.rs:356-386 | accepted exactly when environment and flag exist, off variant, fallthrough and rules are legal for the flag's variants, the references exist in that environment and the version sent, if any, is the current one; each refusal has its own cause |
| ConfigStoreTheorems.UpdateConfigEffect | crates/storage/src/flags.rs:274-304 | the row then holds what was sent, one version up, and every other row is unchanged |
| ConfigStoreTheorems.UpdateSegmentEffect | crates/storage/src/segments.rs:157-198 | exactly when a segment update is refused and for which of its reasons, and what it stores otherwise, field by field |
| ConfigStoreTheorems.CreateExperimentEffect | crates/api/src/routes/experiments.rs:100-140 | an experiment is created exactly for a good, free key on an existing, unarchived flag of the same project with the control among its variants; nothing else changes |
| ConfigStoreTheorems.CreateFlagSeeds | crates/storage/src/flags.rs:34-67 | a new flag is stored with its variants, not archived, and configured in exactly the environments of its project, disabled, without rules, with the off variant and fallthrough asked for or the boolean defaults; no other row changes |
| ConfigStoreTheorems.CreateEnvironmentRefusedIff | crates/storage/src/projects.rs:120-166 | a good, free environment key is refused exactly when the project has no environment yet and some flag has no variants |
| ConfigStoreTheorems.SeedsFromOldest | crates/storage/src/projects.rs:120-166 | a new environment gets exactly the project's flags, disabled and without rules, with the off variant and fallthrough of the environment that was created first, the smaller id deciding a tie, or the default variant where there is none, and nothing else changes |
| ConfigStoreTheorems.DefaultVariantMeaning | crates/storage/src/projects.rs:154-159 | the default is the variant called "off" if there is one, else the first, and is missing exactly for an empty list |
| ConfigStoreTheorems.DeleteSegmentUnseen | crates/storage/src/segments.rs:246-274 | an allowed segment deletion changes no evaluation of any stored flag for any context |
| ConfigStoreTheorems.CreateSegmentUnseen | crates/api/src/routes/segments.rs:114-117 | creating a segment changes no evaluation either |
| ConfigWrites.WriteLandsOnWhatWasRead | crates/storage/src/flags.rs:253-304 | in every interleaving a guarded configuration write is accepted exactly when the row is still, content and all, the one its author read |
| ConfigWrites.RequestIsGuardedUpdate | crates/storage/src/flags.rs:274-304 | the configuration request on the tables is a guarded update of one row, adding one to its version, and a conflict is reported only when the guard fails |
| SegmentWrites.SegmentStaysValid | crates/api/src/routes/segments.rs:188-205 | in every interleaving of the request's separate steps, with versions that were read and no deletion and re-creation in between, the stored segment passes the validator at every moment |
| SegmentWrites.CommitLandsOnWhatWasRead | crates/storage/src/segments.rs:157-198 | a segment update that can commit merges its patch into exactly the row its route validated against |
| SegmentWrites.ThreeStepsAreTheRequest | crates/api/src/routes/segments.rs:188-205 | with nobody in between, read and validate, read and compare, guarded UPDATE leave the segment as the atomic request does |
| SegmentWrites.UnreadVersionsBreakIt | crates/storage/src/segments.rs:163-183 | without a version, or with one nobody read, an invalid segment can be stored although the segment is the same all along |
| SegmentWrites.RecreationBreaksIt | crates/storage/src/segments.rs:163-183 | with honest versions only, deleting and re-creating the segment meanwhile can still store an invalid one |
| SegmentWrites.StaysValidIff | crates/api/src/routes/segments.rs:188-205 | of the two disciplines, versions that were read and no re-creation in between, all runs keep the segment valid exactly when both are asked for |
| VersionedRows.VersionTells | migrations/20260101000003_segments.sql:38-50 | whatever sequence of inserts, updates and deletions happened since a row was read, if it is still that row, an equal version means an equal row |
| Recorder.Recorder.Record | crates/sdk/src/events.rs:61-76 | the cell's count or the dropped count grows by one and nothing else changes; a full map never grows past 4096 cells |
| Recorder.Recorder.Drain | crates/sdk/src/events.rs:79-82 | takes everything and leaves nothing |
| Recorder.Recorder.Restore | crates/sdk/src/events.rs:86-97 | merges every unsent counter once, in the map's own order |
| Recorder.Recorder.FlushEvents | crates/sdk/src/client.rs:80-113 | posts nonempty chunks of at most 1000 counters in order, each told as it is or as the largest 32-bit number; acknowledges whole chunks and on the first failure restores exactly the rest |
| Recorder.Enumerate | crates/sdk/src/client.rs:92 | lists each counter of a map exactly once |
| Recorder.ListsAmount | crates/sdk/src/client.rs:92 | listing a map in any order counts every cell as the map does |
| Flushing.AddAllKeeps | crates/sdk/src/events.rs:84-97 | merging counters keeps or counts as dropped every increment of them |
| Flushing.NothingVanishes | crates/sdk/src/client.rs:75-113 | for every interleaving of recording, draining, chunked flushes, failures and restores: increments recorded equal those held, in flight, acknowledged and dropped, cell by cell; drop counters equal the dropped increments; held cells never exceed 4096 |
| Flushing.NothingVanishesOnTheWire | crates/sdk/src/client.rs:95-106 | the same with what the server was told, exactly when no counter was above the 32-bit maximum when posted |
| Flushing.FailedFlushAlone | crates/sdk/src/client.rs:108-111 | a failed flush nothing was recorded during loses nothing |
| Attribution.Client.EvaluateFlag | crates/sdk/src/client.rs:316-341 | answers as the snapshot does; unless the cap refuses one, each exposure counter grows by the number of running experiments on the flag with that key and the served variant, and no conversion counter moves |
| Attribution.Client.Track | crates/sdk/src/client.rs:357-374 | returns the number of running experiments that measure the metric and whose flag serves a variant; unless the cap refuses one, each conversion counter grows by the number of those with that key and variant, and no exposure counter moves |
| Attribution.TrackingCredits | crates/sdk/src/client.rs:357-374 | the same of any recorder state, for every experiment key and variant |
| Attribution.EvaluationExposes | crates/sdk/src/client.rs:316-341 | the mirror image for evaluating a flag |
| Attribution.ConversionsWithinExposures | crates/sdk/src/client.rs:343-374 | if each credited conversion has an earlier evaluation of its own for the same context, no arm ever has more conversions than exposures |
| Experiments.Collapse | crates/storage/src/experiments.rs:299-312 | for a batch of any size, folds it into hourly sums in 64-bit wrap-around arithmetic, rejecting it exactly when a timestamp cannot be truncated |
| Experiments.HourContains | crates/storage/src/experiments.rs:305-309 | a delta is counted in the hour that contains its timestamp |
| Experiments.NoOverflow | crates/storage/src/experiments.rs:311 | within the batch limit no sum leaves 64 bits, so none wraps around |
| Experiments.RowsOf | crates/storage/src/experiments.rs:314-324 | the statement's columns name each cell exactly once |
| Experiments.StatementIsUpsert | crates/storage/src/experiments.rs:326-345 | the statement is never refused for touching a row twice, and adds each accepted cell to its counter |
| Experiments.ExperimentStore.IngestCounters | crates/storage/src/experiments.rs:294-348 | a bad timestamp or a refused statement changes nothing; where no sum leaves 64 bits, the whole batch is applied and the number of cells written is reported |
| Experiments.ReportsIncrementsIff | crates/storage/src/experiments.rs:290-293 | the number reported is the number of accepted increments exactly when no two accepted increments share a cell |
| Experiments.TwoIncrementsOneCell | crates/storage/src/experiments.rs:290-293 | the batch of two accepted increments for which one is reported |
| Experiments.ExperimentStore.IngestEvents | crates/api/src/routes/events.rs:72-105 | refuses oversized batches and bad variants without effect, else ingests |
| Experiments.BatchRefinesSingles | crates/storage/src/experiments.rs:288-348 | a batch leaves exactly the counters that ingesting its deltas one at a time leaves, in any order |
| Experiments.IngestAddsUp | crates/storage/src/experiments.rs:326-348 | each counter grows by the batch's sum for it if its experiment runs, and not at all otherwise |
| Experiments.OneDelta | crates/storage/src/experiments.rs:299-345 | one increment of a running experiment lands in the counter of its own variant, kind and hour and in no other |
| Experiments.ExperimentStore.Move | crates/storage/src/experiments.rs:177-212 | moves a row from one state to another only from that state, and says why not otherwise |
| Experiments.ExperimentStore.DeleteExperiment | crates/storage/src/experiments.rs:219-238 | refused exactly when it is missing or running; else the experiment and all its counters are gone and no other experiment loses anything |
| Lifecycle.OneWay | crates/storage/src/experiments.rs:162-175 | over every run an experiment only moves from draft to running to stopped |
| Lifecycle.AlwaysInv | crates/storage/src/experiments.rs:184-196 | at every moment an experiment has a start time exactly when it is past draft and a stop time exactly when it is stopped |
| Lifecycle.CreateMakesDraft | crates/storage/src/experiments.rs:33-62 | in every run, creating an experiment under a free key makes a draft without times, under an id no experiment of the run ever had |
| Lifecycle.TransitionTimes | crates/storage/src/experiments.rs:177-212 | a start stores its own moment, a stop keeps the start time and stores its own, backdating changes the start time of a running experiment alone |
| Lifecycle.StoppedIsFrozen | crates/storage/src/experiments.rs:326-347 | once stopped, an experiment's counters never change again |
| Lifecycle.DraftHasNone | crates/storage/src/experiments.rs:326-347 | no counter belongs to a draft, or to an experiment that is gone |
| Lifecycle.CountersMoveOnlyWhileRunning | crates/storage/src/experiments.rs:326-347 | between two moments at which it was not running at any statement, an experiment's counters are the same |
| Lifecycle.OneStart | crates/storage/src/experiments.rs:162-170 | of all starts of one experiment, however they race, at most one succeeds |
| Lifecycle.StartSucceedsIff | crates/storage/src/experiments.rs:162-170 | a start makes an experiment running exactly when it finds a draft |
| Lifecycle.RunningNotDeleted | crates/storage/src/experiments.rs:214-238 | a running experiment disappears only with its environment |
| Results.HourlyCounts | crates/storage/src/experiments.rs:396-431 | the one-pass grouping computes the fold `SeriesOf` |
| Results.OneSeriesPerVariant | crates/storage/src/experiments.rs:396-431 | it yields one series per variant, with strictly increasing hours |
| Results.SeriesKeepHours | crates/storage/src/experiments.rs:412-429 | every count is shown in its own variant, hour and kind |
| Results.ExperimentCounts | crates/storage/src/experiments.rs:354-388 | the find-or-push loop computes the fold `CountsOf` |
| Results.CountsAreTotals | crates/storage/src/experiments.rs:354-388 | one entry for each variant with a counter, holding its total exposures and conversions |
| Results.TablesAgree | crates/storage/src/experiments.rs:350-431 | for any table the sums of the series plus the rows before the window equal the overall counts |
| FlagOrder.InFlagOrder | crates/api/src/routes/experiments.rs:434-451 | each flag variant in flag order, zero-filled where it has no counts, then the other variants sorted; no counter is lost and everything added is zero |
| FlagOrder.SeriesInFlagOrder | crates/api/src/routes/experiments.rs:416-432 | the same for series, leaving out variants without one; nothing is lost or added |
| FlagOrder.Arrange | crates/api/src/routes/experiments.rs:423-450 | the shared loop with `swap_remove`, `push`, `sort_by` and `extend`, arm by arm |
| FlagOrder.SortCorrect | crates/api/src/routes/experiments.rs:429 | sorting by variant yields a sorted permutation |
| FlagOrder.LeqMeaning | crates/api/src/routes/experiments.rs:429 | the order is the lexicographic one: the first difference decides, and a prefix comes first |
| FlagOrder.SeriesAreDistinct | crates/storage/src/experiments.rs:396-431 | what the hourly reader yields has no variant twice |
| Statistics.Observed | crates/core/src/experiment.rs:124-127 | present exactly for an exposed variant, with conversions between zero and the exposures |
| Statistics.ClampsAreNoOps | crates/core/src/experiment.rs:129-144 | for every n of at least 1 and every rate both clamps change nothing: 0 <= low <= rate <= high <= 1 |
| Statistics.IntervalInvertsScoreTest | crates/core/src/experiment.rs:129-144 | the interval is exactly the set of rates x with (rate - x)^2 at most z^2 x(1-x)/n |
| Statistics.VarianceSign | crates/core/src/experiment.rs:154-158 | the pooled variance is never negative, and zero exactly when nobody or everybody converted |
| Statistics.ComparisonAbsentIff | crates/core/src/experiment.rs:146-158 | the comparison of two exposed arms is absent exactly when nobody or everybody converted across both |
| Statistics.CompareMeaning | crates/core/src/experiment.rs:160-164 | z has the sign of the lift and z squared times the variance is the lift squared |
| Statistics.CrossMultiply | crates/core/src/experiment.rs:160 | the lift is positive exactly when the arm converted a larger share than the control |
| Statistics.SwapNegates | crates/core/src/experiment.rs:150-165 | swapping arm and control negates lift and z and keeps the p-value and the verdict |
| Statistics.ResultsMeaning | crates/core/src/experiment.rs:92-122 | raw counts row by row; rate and interval exactly for exposed variants; a comparison exactly for a non-control variant when it and the first control entry are exposed and not degenerate |
| Statistics.ResultValues | crates/core/src/experiment.rs:97-165 | the rate is the conversions, at most the exposures, over the exposures; the lift is that rate minus the control's; z has its sign and z squared times the pooled variance is the lift squared; the p-value is twice the upper tail beyond the size of z, and significant means below 0.05 |
| RateLimiter.RateLimiter.constructor | crates/api/src/rate_limit.rs:40-46 | both limits are raised to at least one |
| RateLimiter.RateLimiter.Consume | crates/api/src/rate_limit.rs:49-82 | answers and updates the map as the specification `Check` with sweeping on, whose refusals `RefusedIff` and whose admissions `WindowBound` pin down |
| RateLimiter.ConfiguredLimits | crates/api/src/rate_limit.rs:40-46 | the limits in force are those configured where positive, else one, and refill is proportional to time |
| RateLimiter.PlainWindowBound | crates/api/src/rate_limit.rs:49-73 | without sweeping, a client's admissions in any window of a time-ordered run are at most burst plus refill |
| RateLimiter.SweepingIsTransparent | crates/api/src/rate_limit.rs:76-82 | with a burst of at most 300 seconds of refill, sweeping changes no answer of any run |
| RateLimiter.WindowBound | crates/api/src/rate_limit.rs:39-82 | with sweeping, as it runs, the window bound holds for every client, window and run exactly when burst is at most 300 times the rate, and sweeping is invisible under exactly the same condition |
| RateLimiter.PlainRefusedIff | crates/api/src/rate_limit.rs:49-73 | without sweeping, a call of a time-ordered run is refused exactly when admitting it would exceed burst plus refill in some window that starts at a call of the same client |
| RateLimiter.RefusedIff | crates/api/src/rate_limit.rs:49-82 | the same with sweeping, as it runs, for every burst of at most 300 times the rate |
| RateLimiter.BoundFailsAboveThreshold | crates/api/src/rate_limit.rs:52-54 | above that, the run that overdraws |
| RateLimiter.WaitIsOneSecond | crates/api/src/rate_limit.rs:70-73 | every refusal of every run says to wait exactly one second |
| RateLimiter.SpendAll | crates/api/src/rate_limit.rs:49-68 | a client with n tokens has its next n calls admitted, each taking one token, however many clients there are |
| RateLimiter.OthersLeaveAlone | crates/api/src/rate_limit.rs:57-63 | other clients' calls never change a client's bucket, except by forgetting it |
| RateLimiter.RetrySucceeds | crates/api/src/rate_limit.rs:70-73 | a refused client that waits that second, whatever others do meanwhile, is admitted |

## Left out

- Web pages, dashboard serving, OpenAPI, telemetry, configuration parsing, seeding and process start-up.
- Authentication, API keys, roles and tenancy checks; audit entries; usage tracking; SDK polling and backoff.
- SHA-256, regular expressions, semantic versions, number formatting and the error function are uninterpreted; rounding of `f64` is not modelled.
- The snapshot cache: a task dropped halfway, which releases its lock early; and memory ordering below the atomic actions. The cache is a transition system rather than a class, because its guarantees are about interleavings.
- SnapshotCacheProgress.EveryCallCanFinish: says that a call can always be brought to its end and that its steps run out, not that the runtime gives it its turn.
- A snapshot's parts may be read at different moments (`SnapshotCacheTheorems.NothingMadeUp`); no consistency between its parts is claimed unless nothing was committed meanwhile.
- Deleting a project, which deletes its flags, environments and experiments together.
- Names and descriptions, and the length checks on them; an experiment's metric key.
- DeleteExperimentSpec: does not refuse a running experiment, because the configuration tables do not hold experiment states; `Experiments` and `Lifecycle` do.
- ConfigStoreProof.StoreInvariant: requests are atomic, because a flag's check and its write are separate statements and interleaved requests can leave a dangling segment key, which then contains nobody.
- The methods of `ConfigDatabase.Database` have no branch for a configuration that is missing, since by `KeepsInvariant` none is; the specification functions keep those branches.
- RateLimiter.WindowBound: calls are served in time order, because the clock is read before the bucket is locked and nothing can be said of older readings.
- Flushing.NothingVanishes: counts are unbounded where the SDK uses 64 bits, a post the server applied but did not acknowledge counts as failed, and a shutdown that discards unflushed counts is not modelled.
- Experiments.ExperimentStore.IngestCounters: for a batch with a sum beyond 64 bits it promises only that a refusal changes nothing, because what the wrapped-around sums then add is not meant by anybody.
- Experiments.IngestAddsUp: the 64-bit sum of a stored counter over many batches is unbounded.
- Results.OneSeriesPerVariant: the database's collation is any injective ranking of variants.
