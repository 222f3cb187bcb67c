# Proofs about vitals' history store, sign-in state machine and dashboard protocols

vitals is a single-host monitor. Three of its parts are protocols over state that outlives a call,
and those are modelled here, with the properties they exist for proved about every run.

**The history store** (`src/store.rs`, `src/web.rs`). Raw samples roll up to five-minute buckets and
those to hours, each tier is pruned at its own age, and metric names are interned through a memo
while unused names are collected. `HistoryStore.Store` holds the tables as maps and changes them
statement by statement. `History` runs it against a *ledger*: one book per metric name with no ids,
no memo and nothing ever removed. The results, from the store upward:

- the store refines the ledger through any commits, restarts, id reuse and rollbacks, so a name is shown
  only its own rows and loses only rows past their retention, exactly as long as no committed write uses
  a memo entry whose table row a rollback took back; one name's guarantee does not depend on what became
  of the others;
- pruning never corrupts a rollup, under every id and whatever the memo holds, with no assumption but that
  compaction times do not go back; the shape of rows, the storage bound and the size of an automatic
  query's result hold in every reachable state;
- at a cadence where gap plus lag is at most 301 seconds, the retained tiers after a compaction are a
  function of the readings ever recorded and the clock alone; 301 is exact, in both directions;
- said of the readings alone, with no rows or folds in between: a shown raw point is the last value written,
  and a shown rollup is the number, mean, least and greatest of the readings of its bucket;
- the hour tier on its own is the exact aggregate of the five-minute tier at every gap up to 3900 seconds,
  whatever the lag, and at no larger one.

**The passkey ceremonies and sessions** (`src/auth.rs`). `Auth.AuthState` has the source's fields and
one method per handler, each proved against a step relation over snapshots. `AuthRuns`, `Lineage` and
`Tokens` reason about runs of whole handlers with a crash possible after any step of a save and a
restart anywhere; `AuthDecisions` says of the fields alone when a ceremony starts and is granted, what is
stored then and how long a session is good. `Interleaving`, `Claims` and `RollbackIdentity` reason about the lock sections of
enrolments and sign-ins in any order, and `Granularity` shows that every handler and sweep is one of those
orders; `StartupCode` is about the startup code over those orders, `SharedSaves` about saves that overlap on
disk, and `SaveOrder` carries the lock sections on to the order in which saves land and to restarts. `Sweeping` compares a process that is swept with
one that is not.

**The dashboard script** (`src/web/dashboard.html`). `Poll.Dashboard` is the self-scheduling status
loop, `RangeSwitch.Tabs` the range tabs with their sequence guard, each over every interleaving of
timers, clicks, tab visibility and responses.

## Assumptions

- Compaction times do not decrease (`Orderly`). End-to-end exactness also needs `Cadence`: consecutive
  compactions at most `gap` apart, a reading written after a compaction at most `lag` older than it,
  and at the first compaction only readings whose five-minute bucket starts inside the raw retention or
  whose hour is past the hour retention; `BucketHistory.FirstCompactionIff` shows that condition exact.
  `src/main.rs:169` sets the gap to 300 nominally, which leaves one second of lag; a restart after a
  long downtime is outside the cadence, and `BucketHistory` says bucket by bucket what stays exact then.
- What is said of a name by name needs the writes to have kept to the name's own id (`SoundFor`). For all names
  at once that is: no committed write used a stale memo entry, that is, resolved a name that the memo holds
  and the table does not (`SoundWrites`). Only a rolled-back write leaves such entries, and the next
  compaction or restart clears them (`Rollbacks.StaleStep`); runs whose rollbacks had resolved only names in
  the table never have any (`Rollbacks.CleanRunsAreSound`). The condition is exact:
  `Rollbacks.WritePostsIffSound` for one write, `Rollbacks.PostsIffSound` and `Rollbacks.ShowsBooksIffSound`
  over runs, and `Interning.RolledBackNameIsMisread` is an input on which it fails. What is said of every id
  needs no such condition.
- Ids of metrics are any number no current metric has, so a collected id may return. Random 256-bit ids
  are not in use when drawn, and where a lemma needs it (`FreshIds`) never drawn twice.
- Runs of whole handlers save one at a time; what happens otherwise is in `SharedSaves` and `SaveOrder`. A rename is atomic
  and durable. The clock read by successive handlers does not go back where a lemma
  says so (`Ticking`); one handler reads it once.
- The sign-in code's clock counts nanoseconds and the store's seconds, as in the source.
- The WebAuthn library is an oracle: a call carries its answer as a parameter.

## Where the code and its documentation differ

The model follows the code.

- `src/store.rs:17` says rollups cover the buckets that can still change. The lower bound is rounded up
  (`src/store.rs:237`), so with a gap plus lag of 302 seconds a bucket that changed is skipped for good:
  `CadenceBound.LosingRunIsInexact`.
- `src/store.rs:277` clears the memo so that no write uses a dangling id. A write that rolls back leaves
  one behind as well, and that path clears nothing (`src/store.rs:136`, `src/store.rs:171`).
- `src/auth.rs:455` says no ceremony parked during the open window can be redeemed after a bootstrap, and
  `src/auth.rs:420-422` that none can once an admin exists. A bootstrap call that has pushed can be overtaken:
  `login_start` offers its credential before it is saved (`src/auth.rs:473`), the session adds a device, and
  then the bootstrap call succeeds as well: `Claims.LateClaim`. `Claims.LateClaimIff` is the exact condition.
- `src/auth.rs:447` takes back the last credential. With two calls in flight it can take one whose
  enrolment has succeeded and leave the one that failed: `RollbackIdentity.RollbackTakesAnothers`.
  `RollbackIdentity.RollbackOutcome` says exactly when. The count is right regardless.
- `src/auth.rs:146-148` says a crash never leaves a truncated `auth.json`. That holds if and only if no other
  save is in progress when one begins (`SharedSaves.WholeIffSerial`): `persist` takes no lock over its file
  steps and all calls share one temporary path.
- `src/auth.rs:95-96` says the startup code is cleared the moment a credential is enrolled. After an early
  sign-in whose bootstrap fails, a device can be saved with the code still there, of no further use:
  `StartupCode.CodeOutlivesEnrolment`. `StartupCode.CodeIffNobodyEnrolled` is the exact condition.
- `src/auth.rs:443-445` reports success only once the credential is on disk. A save that read the list
  earlier and lands later takes it off again: `SaveOrder.ReportedIsLost`. `SaveOrder.NeverLostIffKept` says
  exactly when a credential stays.
- `README.md:127-128` says the retentions can be shortened in the configuration; the store's are constants
  (`src/store.rs:30-32`), and the bounds proved are for those.

## Model

| member | source | states |
|---|---|---|
| Buckets.Bucket | src/store.rs:244 | the bucket of a timestamp is the one boundary with the timestamp in the width that follows it |
| Buckets.CeilBucket | src/store.rs:299-305 | the smallest non-negative boundary at or above the argument |
| Buckets.BucketUnique | src/store.rs:243-258 | a timestamp lies in exactly one bucket of a width, so the groups of a rollup partition its rows |
| Rollup.FoldSplit | src/store.rs:243-248 | a group accumulated in two stretches of time joins to the whole |
| PlainReadings.FoldSums | src/store.rs:246 | a group accumulates to the plain sum of avg*n and the plain sum of n over its rows |
| PlainReadings.RolledAverage | src/store.rs:243-258 | what a rollup statement writes for a bucket: n is the sum of n, and avg times n the sum of avg*n, over the selected rows |
| Rollup.TwoLevel | src/store.rs:243-258 | sum(avg*n)/sum(n), min of mins, max of maxes and sum of n over a rolled-up tier equal the direct aggregate over any whole number of buckets |
| Rollup.HourFromFiveMinutes | src/store.rs:243-258 | raw to five minutes to an hour gives exactly the raw-to-hour aggregate |
| Tables.RollUpAt | src/store.rs:243-258 | after the INSERT OR REPLACE ... GROUP BY, each row of the table is the summary of the selected rows of its group, or what it was |
| Tables.RollUpColumnOf | src/store.rs:243-258 | one statement over all metrics is, for each metric, the same rollup over its own rows |
| Tables.RollUpOtherColumn | src/store.rs:243-258 | a rollup into one tier leaves every other tier of every metric unchanged |
| Tables.PruneColumnOf | src/store.rs:260-262 | a tier's delete removes from each metric exactly the rows older than the cut |
| HistoryStore.Store.FreshId | src/store.rs:103-106 | a new metric gets an id that no current metric has, and nothing more is promised of it |
| HistoryStore.Store.MetricId | src/store.rs:127-138 | a memoised name is answered from the memo alone; any other gets or creates its table row and is memoised; no other entry changes |
| HistoryStore.Store.TryWrite | src/store.rs:149-173 | a commit leaves the last finite reading per id at the timestamp and interns exactly the finite names; a failure after any point restores the tables and keeps the memo it filled |
| HistoryStore.CompactionKeeps | src/store.rs:229-262 | what the five statements leave is inside its tier's retention, and every raw row inside its own is left as it was |
| HistoryStore.Store.TryCompact | src/store.rs:222-282 | a commit rolls up, trims, drops ownerless names, clears the memo and sets the mark; a failure changes nothing |
| HistoryStore.Store.Series | src/store.rs:176-213 | unknown name is empty; otherwise the earliest matching rows up to the limit, strictly increasing, four columns of equal length, each value the row's |
| HistoryStore.Earliest | src/store.rs:194 | the next row of an ORDER BY ts is the earliest remaining |
| HistoryStore.InternedTwice | src/store.rs:160-168 | resolving a batch name by name is resolving its set of names |
| HistoryStore.StampedMore | src/store.rs:160-170 | one more point of a batch overwrites just its own row, whatever names were interned meanwhile |
| History.CompactedTrackOf | src/store.rs:242-262 | the whole-table transaction acts on each metric independently of all the others |
| History.WriteRows | src/store.rs:127-173 | a committed write that uses no stale memo entry posts to each named book and leaves every other name's rows alone, even under a reused id |
| History.CompactKeepsCoherence | src/store.rs:267-280 | after a compaction names and ids are in bijection, every row has a metric row and the memo is coherent, whatever the memo was before |
| History.CompactRows | src/store.rs:222-282 | in any state whatever, collecting ownerless names takes nothing from any name's rows |
| History.OwnerlessGo | src/store.rs:267-270 | a compaction keeps exactly the names that own a row after it |
| History.RollUpAgrees | src/store.rs:229-258 | a rollup from a boundary at or above the lower tier's cut writes what a store without pruning would write |
| History.StoreRefinesLedger | src/store.rs:127-282 | over every run with id reuse in which the writes kept to this name's own id, whatever became of others: the name shows only rows of its own book and all of those inside the retention |
| History.OwnWriteRows | src/store.rs:127-173 | a write that keeps to a name's own id posts exactly that name's reading to its rows |
| PlainReadings.LastReadingIs | src/store.rs:160-170 | the reading a batch posts for a name is the finite one with no finite one of that name after it |
| PlainReadings.WriteStoresValue | src/store.rs:149-173 | a committed write leaves at its timestamp a raw row with avg, min and max equal to the last finite value and n 1, and the name's other raw rows as they were |
| PlainReadings.BookRawIs | src/store.rs:149-173 | over every list of events the ledger's raw rows are exactly the last values written at each timestamp |
| History.StepRefines | src/store.rs:127-282 | each write, rollback, compaction and restart keeps the name's agreement with its book |
| History.TrackMoves | src/store.rs:149-282 | what each event does to the rows under any id, named or not |
| History.IdsRefineBooks | src/store.rs:149-282 | over every run, with any rollbacks and any memo, the rows under each id are those of the id's book less rows past their retention |
| History.AbortCoherence | src/store.rs:136-171 | a rolled-back write makes stale exactly the names it resolved that the table lacked, so the memo stays inside the table if and only if it lacked none; the tables stay coherent |
| History.MemoCoherence | src/store.rs:127-138 | resolving names keeps the memo inside the old table if and only if the table held them all |
| Rollbacks.StaleStep | src/store.rs:127-280 | stale names: only a rollback adds any, a commit keeps them, a compaction or restart clears them |
| Rollbacks.CleanRunsAreSound | src/store.rs:127-173 | runs whose rollbacks had resolved only names in the table keep the memo inside the table throughout |
| Rollbacks.AlwaysCoherent | src/store.rs:127-280 | over every run whose writes used no stale entry: names and ids in bijection, every row with a metric row, the memo contradicting the table nowhere |
| Rollbacks.SoundForEach | src/store.rs:127-173 | in such a run every write keeps to every name's own id, reused or not |
| Rollbacks.StaleReadingIsLost | src/store.rs:128-130 | a write that finds a stale name in the memo loses that name's reading |
| Rollbacks.WritePostsIffSound | src/store.rs:127-173 | a committed write posts to every name's rows if and only if it used no stale memo entry |
| Rollbacks.PostsIffSound | src/store.rs:127-282 | over every run, all writes post faithfully if and only if none used a stale entry |
| Rollbacks.ShowsBooksIffSound | src/store.rs:127-282 | over every run whose writes are not already past the retention, every name shows exactly its retained rows throughout if and only if no write used a stale entry |
| Interning.RolledBackNameIsMisread | src/store.rs:127-173 | counterexample: after one rolled-back write a query for "b" shows the reading of "a" |
| Exactness.RecordedExact | src/store.rs:229-258 | one compaction makes both tiers exact again if both lower bounds reach every bucket that changed |
| Exactness.BookExact | src/store.rs:222-282 | if every compaction reached what had changed, both tiers summarise all readings present at the last one |
| Exactness.ChangedIsRecent | src/main.rs:169-178 | under the cadence a reading that changed since the last compaction is no older than the lag allows |
| Exactness.BoundsReach | src/store.rs:237-238 | gap plus lag at most 301 puts both rounded-up bounds at or below the bucket of every late reading |
| Exactness.CadenceReaches | src/store.rs:233-238 | over every run at that cadence each compaction reaches every changed bucket |
| Exactness.AfterCompaction | src/store.rs:222-282 | right after a compaction a name shows exactly the retained part of its book |
| Exactness.TiersShowHistory | src/store.rs:222-282 | at the cadence, a row exists exactly for each retained bucket with a reading ever recorded and is the aggregate of all of them, pruned ones included |
| PlainReadings.ShownIsPlain | src/store.rs:222-282 | at the cadence, after a compaction: raw points are the readings of the last 172,800 seconds, and a five-minute or hour row is there exactly for each retained bucket with a reading and holds the number, mean, least and greatest of its readings |
| BucketHistory.FiveRow | src/store.rs:229-258 | with no cadence, a five-minute row is the aggregate of exactly the readings seen by the last compaction that reached its bucket |
| BucketHistory.HourRow | src/store.rs:229-258 | an hour row is the aggregate of the five-minute rows at the last compaction that reached its hour |
| BucketHistory.FiveExactIffSeen | src/store.rs:229-258 | a five-minute row is the aggregate of all readings of its bucket if and only if those have the total of the ones seen |
| BucketHistory.HourExactIffSeen | src/store.rs:229-258 | an hour row is the aggregate of all readings of its hour if and only if the five-minute rows it was made from have their total |
| BucketHistory.UnchangedIsExact | src/store.rs:233-238 | a row is right if nothing in its bucket changed since the bucket was last reached, however long ago |
| BucketHistory.AddedIsInexact | src/store.rs:233-238 | and wrong if a reading was added to its bucket since |
| BucketHistory.ShownIffSeen | src/store.rs:222-282 | after a compaction the store shows a retained five-minute bucket as the aggregate of all its readings if and only if those seen have their total |
| BucketHistory.FirstCompactionIff | src/store.rs:222-282 | a first compaction shows the whole history if and only if each reading's five-minute bucket starts inside the raw retention or its hour is past the hour retention |
| Exactness.CompactionSeesWholeBuckets | src/store.rs:229-262 | prune safety under every id, given only the order of compaction times: each bucket a compaction rewrites is aggregated from the same rows a store without pruning holds, and none below the bound is touched |
| Exactness.CompactionSeesWholeBook | src/store.rs:229-262 | the same by name, against the name's own book |
| HourTier.HourFollowsOnce | src/store.rs:237-258 | at a gap of at most 3900 one compaction keeps the hour tier the exact aggregate of the five-minute tier |
| HourTier.HourFollowsFive | src/store.rs:222-282 | over every run at that gap, whatever the lag, it is so after every event |
| HourTier.HoursShowFive | src/store.rs:222-282 | after a compaction the retained hours the store shows are the aggregate of every five-minute row ever written |
| HourTier.LateHourIsMissing | src/store.rs:237-258 | a run of the store with a gap of 3901 after which a five-minute row is shown and its hour is missing |
| HourTier.FollowsIffGap | src/store.rs:237-238 | the hours the store shows are the aggregate of the five-minute tier after every compaction of every run if and only if the gap is at most 3900 |
| CadenceBound.LosingRunIsInexact | src/store.rs:237-238 | for each lag, a run of three events at gap plus lag 302 whose reading is never rolled up |
| CadenceBound.ExactIffCadence | src/store.rs:222-282 | exactness of every run at a gap and lag holds if and only if they sum to at most 301 |
| Idempotence.BoundsRise | src/store.rs:237-238 | the second compaction's lower bounds are never below the first's |
| Idempotence.RollUpAgain | src/store.rs:243-258 | rolling up what is left after the cut, from the higher bound, changes nothing |
| Idempotence.CompactTwice | src/store.rs:222-282 | from every state, compacting twice at an instant leaves rows, names, memo and mark as once |
| Shape.JoinBalanced | src/store.rs:243-258 | merging two weighted groups keeps the weighted sum between the extremes |
| Shape.FoldExtremes | src/store.rs:246 | a group's min and max bound every row and are attained by rows of the group |
| Shape.FoldCounts | src/store.rs:246 | over raw rows sum(n) is the number of rows |
| Shape.TracksWellShaped | src/store.rs:149-258 | in every reachable state the rows under every id are well shaped and lie between 0 and the latest write |
| Shape.RowsWellShaped | src/store.rs:149-258 | in every reachable state raw rows are single readings, rollups sit on boundaries and min <= avg <= max |
| Shape.RowsWithin | src/store.rs:149-258 | no tier shows a timestamp below zero or beyond the latest reading |
| Capacity.Pigeonhole | src/store.rs:260-262 | at most k boundaries of a width fit in k widths |
| Capacity.BoundedStorage | src/store.rs:229-262 | after any compaction with no reading from the future every id has at most 172,801 raw, 8,641 five-minute and 4,321 hour rows |
| Capacity.BoundedRows | src/store.rs:229-262 | the same for what a name shows |
| Capacity.HoursStayRetained | src/store.rs:249-262 | in every reachable state the hour tier holds no row older than its retention at the last compaction |
| Capacity.CompleteAnswer | src/store.rs:191-211 | an answer with room for every match holds exactly the matches |
| Capacity.AutomaticFits | src/store.rs:317-325 | when the resolution is picked from the span the matches fit under MAX_POINTS |
| SeriesApi.Series | src/web.rs:100-145 | bad range first, bad resolution second; a given resolution is used, otherwise 15 up to 3600 seconds, 300 up to 86,400 and 3600 beyond; the earliest rows of that tier, at most 20,000 |
| SeriesApi.PickCoarsens | src/store.rs:317-325 | the picked tier never gets finer as the span grows |
| SeriesApi.EveryReplyIsOwn | src/web.rs:125-145 | at any resolution and limit every returned point is that name's own with the ledger's values |
| PlainReadings.RawPointIsLast | src/store.rs:176-213 | every raw point a query returns carries in all columns the last finite value written for that name at that timestamp |
| SeriesApi.AutomaticReplyIsComplete | src/web.rs:100-145 | without a resolution the reply is every retained row of the range, in order, with the ledger's values |
| SeriesApi.CtEq | src/web.rs:147-156 | the accumulated comparison is equality |
| Ceremonies.Oldest | src/auth.rs:288-292 | the entry picked for eviction expires no later than any other |
| Ceremonies.InsertCapped | src/auth.rs:277-298 | the loop ends with the expired gone, as many unexpired as fit, none outlived by an evicted one, the new entry in, and the cap kept |
| Ceremonies.SurvivesStart | src/auth.rs:277-298 | one more start cannot evict an entry that at most 1022 others outlive |
| Ceremonies.FloodSurvival | src/auth.rs:277-298 | a ceremony stays in the map until its time to live through any 1023 later starts, at any rate and with other entries leaving meanwhile |
| Ceremonies.EvictedByStart | src/auth.rs:277-298 | an unexpired entry that 1023 others outlive is evicted by one more start |
| Ceremonies.FloodBound | src/auth.rs:277-298 | in a flood in which nothing else leaves the map, an unexpired ceremony is there after j later starts if and only if j is at most 1023 |
| FullFlood.FillsTheMap | src/auth.rs:277-298 | a concrete flood inside one time to live in which 1023 later starts keep the first ceremony and the next evicts it |
| Auth.AuthState.New | src/auth.rs:103-142 | the process a start builds from its files, with a code exactly when nobody is enrolled |
| AuthDecisions.StartLoads | src/auth.rs:103-142 | a start refuses a torn file and otherwise holds just what the file holds, with the given code exactly if nobody is enrolled and every table empty |
| Auth.AuthState.Persist | src/auth.rs:149-165 | the files after the step that failed, or the complete new file |
| Auth.AuthState.SessionValid | src/auth.rs:176-189 | valid exactly for a held, unexpired session; an expired one is dropped and nothing else |
| Auth.AuthState.NewSession | src/auth.rs:191-204 | the expired go, the soonest to expire is evicted only at the cap, the new session lasts twelve hours |
| Auth.AuthState.StartRegistration | src/auth.rs:334-388 | the whole handler: each refusal in the source's order with its effects, otherwise the ceremony |
| AuthDecisions.RegistrationStarts | src/auth.rs:341-379 | a registration starts if and only if the library accepts and either nobody is enrolled and the held code was presented or somebody is and the session is held and unexpired; which refusal otherwise |
| AuthDecisions.StartedRegistration | src/auth.rs:365-388 | the ceremony started lasts 300 seconds and adds a device exactly if somebody is enrolled; a user id is stored if none was |
| Auth.AuthState.TakeRegistration | src/auth.rs:401-410 | the ceremony leaves the table whatever follows and is current only before its expiry |
| Auth.AuthState.PushCredential | src/auth.rs:417-441 | the re-check decides on the state at finish: refused, duplicate, or pushed last |
| Auth.AuthState.SaveEnrolment | src/auth.rs:443-465 | failed save takes the push back; success closes the bootstrap, clears parked ceremonies if it was one, and signs in |
| Auth.AuthState.FinishRegistration | src/auth.rs:390-466 | the whole handler, every refusal and fault included |
| AuthDecisions.RedemptionGranted | src/auth.rs:390-466 | a redemption is granted if and only if the ceremony is current, verified and of a new credential, the save works, and nobody is enrolled for a bootstrap or the session is good for a device; which refusal otherwise |
| AuthDecisions.GrantedRedemption | src/auth.rs:440-465 | granted: the verdict is the last credential in memory and in the main file, and the session lasts twelve hours; otherwise both lists are as they were |
| Auth.AuthState.BeginLogin | src/auth.rs:468-490 | refused without an account; otherwise a ceremony offering the credentials enrolled now |
| AuthDecisions.LoginStarts | src/auth.rs:468-490 | a login starts if and only if somebody is enrolled and the library accepts; it offers exactly the enrolled credentials for 300 seconds |
| Auth.AuthState.UpdateCounters | src/auth.rs:516-521 | the loop over the list; what it stores is stated by AuthDecisions.GrantedLogin |
| Auth.AuthState.FinishLogin | src/auth.rs:492-534 | the whole handler: single redemption, and a failed counter save does not block the sign-in |
| AuthDecisions.LoginGranted | src/auth.rs:492-534 | a login is granted if and only if its ceremony is current and verified with an offered credential |
| AuthDecisions.GrantedLogin | src/auth.rs:516-531 | granted: the passkey returned, counter included, stands where the one that signed stood and every other is unchanged at its index; unless the save failed the main file holds that list |
| AuthDecisions.CounterLasts | src/auth.rs:516-526 | after a saved login memory and disk hold the counter presented in every later state, through crashes and restarts, until that credential signs again |
| Auth.AuthState.Logout | src/auth.rs:538-546 | the handler |
| AuthDecisions.SignOutIsExact | src/auth.rs:538-546 | exactly the presented session goes; every other stays with its expiry, and nothing else changes |
| Auth.AuthState.Sweep | src/auth.rs:213-224 | the sweep of the three tables |
| AuthDecisions.SweepIsExact | src/auth.rs:213-224 | nothing expired is left in any table and nothing unexpired goes or changes |
| AuthDecisions.StepKeepsRegistration | src/auth.rs:277-461 | only its redemption, a granted bootstrap, a restart or a start into a full table takes an unexpired registration |
| AuthDecisions.StepKeepsLogin | src/auth.rs:277-512 | only its redemption, a restart or a start into a full table takes an unexpired login |
| AuthDecisions.TablesStaySmall | src/auth.rs:59-63 | in every state of every run each table holds at most 1024 entries |
| Auth.Enrolled | src/auth.rs:436 | the duplicate scan finds a credential exactly when it is enrolled |
| Auth.PushPop | src/auth.rs:440-447 | without a push in between, the rollback restores the credential list |
| AuthRuns.SaveIsAtomic | src/auth.rs:149-165 | at every step of a save that runs alone the main file is the complete old store or the complete new one |
| SharedSaves.SerialStep | src/auth.rs:149-165 | while saves do not overlap the main file changes only by a rename, to the complete store that was saved |
| SharedSaves.TornByTruncation | src/auth.rs:155-163 | a save that begins between another's sync and its rename makes that rename install a truncated file |
| SharedSaves.TornByWriting | src/auth.rs:155-163 | one that begins earlier ends up writing into the main file |
| SharedSaves.WholeIffSerial | src/auth.rs:149-165 | a save keeps the main file whole at every later moment if and only if no other is in progress when it begins |
| SharedSaves.TornFromEmpty | src/auth.rs:149-165 | four file steps of two saves on an empty data directory that end with a torn main file, which a start refuses |
| SaveOrder.SaneKeeps | src/auth.rs:149-531 | sections, snapshots, renames, failures and restarts keep the count exact and every list free of repetitions |
| SaveOrder.NeverLostIffKept | src/auth.rs:149-531 | over all orders of lock sections, snapshots, renames, failures and restarts: a credential stays on disk for ever if and only if it is there, is on every list a save in progress has read, and stands in memory among the first as many as were loaded or saved |
| SaveOrder.LoneEnrolmentLasts | src/auth.rs:440-453 | an enrolment lasts for ever if from its push to its rename no other enrolment was undecided and no other save held a list |
| SaveOrder.ReportedIsLost | src/auth.rs:149-531 | a run of sections in which a saved enrolment is gone after a restart, because an older list was renamed into place last |
| AuthRuns.AdmittedMode | src/auth.rs:420-441 | a redemption that goes through was a bootstrap exactly if nobody was enrolled, and otherwise its session is valid now |
| AuthRuns.FinishKeeps | src/auth.rs:390-466 | granted exactly with the credential enrolled and saved; otherwise memory and the main file keep the same credentials |
| AuthRuns.LoginKeeps | src/auth.rs:492-534 | a sign-in changes no credential id and is granted only to an enrolled credential |
| AuthRuns.CrashStepKeeps | src/auth.rs:103-165 | dying at any point the next start succeeds, consistent, with the old credentials or the ones being saved |
| AuthRuns.StepKeeps | src/auth.rs:103-546 | every handler and crash keeps: code iff nobody enrolled, no bootstrap pending once somebody is, distinct ids, memory and disk agree, caps; and loses no credential |
| Lineage.AlwaysConsistent | src/auth.rs:103-546 | that invariant holds in every state of every run |
| Lineage.EnrolmentLasts | src/auth.rs:443-453 | after a reported success the credential is in every later state, through restarts, and no start hands out a code |
| Lineage.OneLineage | src/auth.rs:341-465 | every credential and live session stands in one log whose only root is the first redemption of a startup code |
| Lineage.GrantsAreLegitimate | src/auth.rs:401-465 | each entry was given by the code into an empty store, by a session valid at that instant, or by an enrolled credential |
| Lineage.ChainToRoot | src/auth.rs:341-465 | every entry of the log descends from the root by a finite chain |
| Tokens.GoneForGood | src/auth.rs:401-405 | an id that left a table is in it never again |
| Tokens.RedeemedOnce | src/auth.rs:401-410 | a registration presented once is refused ever after |
| Tokens.LoginRedeemedOnce | src/auth.rs:503-512 | a login presented once is refused ever after |
| Tokens.SignedOutForGood | src/auth.rs:538-546 | a signed-out session is never accepted again |
| Tokens.SessionLifetime | src/auth.rs:176-204 | a session keeps the expiry it was issued with and is never accepted at or after twelve hours |
| AuthDecisions.SessionIsGood | src/auth.rs:176-204 | over every run a session not signed out, not crowded out and not ended by a restart is good at an instant if and only if that is less than 43,200 seconds after its issue |
| Tokens.BootstrapHadCode | src/auth.rs:352-363 | a pending bootstrap was started by presenting the startup code while nobody was enrolled |
| Tokens.EveryGrantIsLegitimate | src/auth.rs:341-465 | over every run, each entry of the log is legitimate at the event that gave it, and the root redeems the very ceremony whose start presented the code while nobody was enrolled |
| Sweeping.Mirror | src/auth.rs:176-298 | processes agreeing on the unexpired give the same reply to every event and still agree, eviction at capacity included |
| Sweeping.SweepingIsUnobservable | src/auth.rs:213-224 | over whole runs, two processes swept at different moments give the same replies to the same calls |
| Interleaving.SectionKeeps | src/auth.rs:401-531 | every lock section of enrolments and sign-ins keeps the credential count equal to base plus successes plus undecided pushes, the ids distinct, and at most one call claiming |
| Interleaving.AlwaysCountExact | src/auth.rs:401-531 | that holds over every interleaving with failing saves |
| Interleaving.NeverEmptyAgain | src/auth.rs:417-461 | once a credential is saved or was on disk the store is never empty again |
| Interleaving.LateBootstrapRefused | src/auth.rs:420-434 | from then on a bootstrap call that has yet to push is refused, wherever its ceremony was parked |
| Interleaving.ClaimedOnce | src/auth.rs:455-461 | at most one bootstrap call ever succeeds, early sign-ins included |
| Interleaving.LeadsCountExact | src/auth.rs:401-531 | the count stays exact along any sequence of sections from any such state |
| Claims.NoClaimNext | src/auth.rs:417-461 | with a credential saved and no bootstrap push unsaved, no section claims or makes a claim possible |
| Claims.LateClaimIff | src/auth.rs:417-461 | with a credential saved, some continuation lets a bootstrap call succeed if and only if one has pushed and not yet saved |
| Claims.NoLateClaim | src/auth.rs:417-531 | in a run where no sign-in issues a session before a credential is saved, no bootstrap call succeeds after the first success |
| Claims.LateClaim | src/auth.rs:440-531 | counterexample: a run with an early sign-in in which a bootstrap call succeeds after another call has |
| StartupCode.CodeWhileEnrolled | src/auth.rs:126-133 | over every interleaving, when exactly the code is there although somebody is enrolled; nobody enrolled always means it is there |
| StartupCode.CodeIffNobodyEnrolled | src/auth.rs:455-461 | between calls the code is there exactly while nobody is enrolled, unless devices were saved and no bootstrap call ever was |
| StartupCode.QuietCode | src/auth.rs:455-461 | with every sign-in after a saved credential the code is there, between calls, exactly while nobody is enrolled |
| StartupCode.CodeOutlivesEnrolment | src/auth.rs:440-531 | a run that ends between calls with a saved credential and the code still there |
| RollbackIdentity.EnrolledIffKept | src/auth.rs:440-447 | over every run a credential is enrolled if and only if it was there at the start or pushed, and since then the pops never reached its place |
| RollbackIdentity.RollbackOutcome | src/auth.rs:440-447 | over every run a rollback gets the call's own credential off the list if and only if, at some moment from its push to its pop, pops since outnumber pushes |
| RollbackIdentity.LoneRollbackIsExact | src/auth.rs:443-448 | with no other call undecided meanwhile a rollback restores the list the call found, so nobody else's credential goes |
| RollbackIdentity.RollbackTakesAnothers | src/auth.rs:440-447 | counterexample: a run that ends with a saved credential gone and the failed one enrolled |
| RollbackIdentity.RollbackTakesOwn | src/auth.rs:446-448 | one pop removes the call's own credential if and only if that is the newest |
| Granularity.FinishIsSections | src/auth.rs:390-466 | each whole redemption is a sequence of lock sections with the same outcome |
| Granularity.LoginIsSections | src/auth.rs:492-534 | each whole login is a sequence of lock sections |
| Granularity.StartIsFresh | src/auth.rs:103-142 | a process that has just started is a state in which runs of sections begin |
| Granularity.StepIsSections | src/auth.rs:176-546 | every handler, check, sign-out and sweep is some sequence of lock sections with as many successes as redemptions granted |
| Poll.NeverTwoNeverNone | src/web/dashboard.html:504-539 | at most one timer and one request, and while visible before a 401 at least one of them |
| Poll.ShowsLastReceived | src/web/dashboard.html:529-538 | the latest snapshot is the one of the last good answer, and the rendered one the last with a new timestamp: a null body and a repeated timestamp render nothing |
| Poll.RenderedIsLatest | src/web/dashboard.html:529-538 | if the server gives one body per timestamp, what is rendered is the latest snapshot whenever there is one |
| Poll.BackoffIs | src/web/dashboard.html:519-523 | in every run the back-off is 5000 after a good answer and 5000 times 1.6 to the failures since, at most 20,000, otherwise |
| Poll.TimerStep | src/web/dashboard.html:506-527 | a timer is set only by an answer other than a 401 on a visible page, for the back-off, or by showing the page, for at once; only a 401 sends the page away |
| Poll.ScheduleKeeps | src/web/dashboard.html:506 | if the only timer pending was the current handle, afterwards exactly one is pending and it is the new handle |
| Poll.Dashboard.OnAnswer | src/web/dashboard.html:508-540 | the try, catch and finally of one request and what follows them |
| Poll.Dashboard.OnVisibilityChange | src/web/dashboard.html:558-561 | hiding clears the timer, showing schedules at once |
| RangeSwitch.AlwaysInOrder | src/web/dashboard.html:352-383 | the newest call is for the mode on the tabs and the caption names that mode, in every reachable state |
| RangeSwitch.OnlyTheNewestInstalls | src/web/dashboard.html:370-377 | an answer installs its series exactly if it answers the most recent call, under that call's label |
| RangeSwitch.InstallsNeverGoBack | src/web/dashboard.html:352-383 | a later install comes from a later call, whatever order responses arrive in |
| RangeSwitch.StepKeeps | src/web/dashboard.html:355-382 | a click, refresh, tick or response keeps the order: no call from the future, the newest call for the mode on the tabs, the caption naming it |
| RangeSwitch.SwitchStep | src/web/dashboard.html:352-383 | a click makes the newest call for its mode, draws at once only if live, and touches no other call; a response ends just its own |
| RangeSwitch.ShowsLastClick | src/web/dashboard.html:352-361 | in every run tabs and caption show the last click and the calls are numbered one by one |
| RangeSwitch.MatchesIffDrawn | src/web/dashboard.html:349-383 | in every run the chart is of the mode its caption names if and only if the last event that drew did so under that mode |

## Left out

- 64-bit overflow: timestamps are unbounded integers, so the wrap of a `u64` timestamp above the signed
  range and the overflow of `now` minus a retention at the ends of the range are not modelled; the span of
  a query saturates as in the source.
- Floating point: readings are reals or "not finite"; rounding of weighted averages, and sums that
  overflow to infinity, are not modelled.
- SQLite: transactions are atomic map updates, a failing compaction statement is one flag whatever
  statement it was, and the read connection sees the last commit. Write-ahead logging, schema migration,
  file modes, connection errors and poisoned locks are not modelled.
- Databases written by another version: runs start from an empty database and credentials from no file.
- HistoryStore.Store.FreshId: promises only an unused id, although SQLite picks a particular one, because
  nothing proved may lean on which.
- History.StoreRefinesLedger: is one-way for a single name; the exact condition is proved for all names at
  once (`Rollbacks.ShowsBooksIffSound`).
- WebAuthn cryptography, cookies, headers, HTTP routing, the `status` and `index` pages, trimming of the
  typed code, and randomness of ids.
- Several clock readings inside one handler: a handler reads the clock once.
- Lineage.EnrolmentLasts: is about handlers that do not overlap, as are the other results over runs of
  whole handlers, lineage included. Overlapping calls are covered in memory (the count, the claim, the
  startup code, whose credential a rollback takes), down to the disk across restarts, and by the file steps
  of overlapping saves; the last in a model of its own.
- SaveOrder.NeverLostIffKept: takes each rename as installing the list its save read; torn files are in
  `SharedSaves`.
- Auth.AuthState.NewSession: requires a table within its cap, an invariant of every run
  (`AuthRuns.Consistent`), and removes one entry at the cap as the source does.
- Interleaving.NeverEmptyAgain: says nothing of later claims, because with an early sign-in there can be one
  (`Claims.LateClaim`); expiry, eviction, sweeps and sign-outs are arbitrary removals there.
- RollbackIdentity.RollbackOutcome: is about calls whose credential nobody pushes again before the rollback;
  `RollbackIdentity.EnrolledIffKept` has no such restriction.
- Rollbacks.ShowsBooksIffSound: is about writes inside the raw retention, because an older one is past its
  retention whether or not its reading is lost; `Rollbacks.PostsIffSound` has no such restriction.
- Poll.Dashboard.OnAnswer: the request timeout is one of the failing answers; delays are not modelled, so
  the back-off is bounded but not timed; freshness display, the drawing itself and exceptions in it are left
  out.
- RangeSwitch.MatchesIffDrawn: the two series of a call are one value, and the suffixes of the caption and
  the time range a tab asks for are left out.
- The host and container collectors, reading and checking the configuration, start-up validation in
  `src/main.rs`, the bearer-token middleware, canvas drawing and styling.
