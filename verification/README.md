# Simply IP Vault, verified model

Simply IP Vault is a service that keeps ban lists and whitelists of IP addresses in groups, hands out API keys with
delegated rights on those groups, authenticates every request by an HMAC signature, and notifies webhooks. This project
models its decision logic in Dafny and proves what the service is for: rights that never amplify, a master key that no
cascade and no database edit replaces, signatures whose reuse is bounded exactly, bulk synchronisation that agrees with
single writes, and listings that disclose nothing beyond what a caller may read.

`dafny verify dfyconfig.toml` checks everything.

## How it is laid out

Code that updates rows or fields in place is a class whose methods are proved equal to a specification function on
values; the properties are then lemmas about those functions and invariants over runs of them. RightsEffects,
RecordEffects, Listings and Sha256Laws say what those functions do in terms of the tables and digits alone.

| module | what it covers |
|---|---|
| Lineage, Guards, Rights, RightsRuns, RightsEffects, KeyService, KeyListing | the key tree, the guards, every handler that changes rights as one step, runs of steps, what each step does and who may take it, the handlers as they write rows, the key listing |
| Replay, ReplayThreads, ReplaySweeps, ReuseRuns, CrowdedRuns, Reuse | the replay guard called in sequence, under interleaved lock sections with stale clock reads, what its sweeps reopen, the runs that reopen most often, and guard and freshness check together |
| Addresses, Records, RecordRuns, RecordEffects, RecordRights, Batch, BatchCounts, BatchSingles, RecordService, ListIps, Listings, DeltaSync | canonical addresses, record handlers and purge, what each request does and what no run can do without the verb for it, the batch endpoint and its counters, the listing, its rows and pages, replication through `since` |
| ClientIp, DnsCache, DnsAges | which address a request is attributed to; the cache of resolved proxy hostnames, and how old its answers can be |
| Templates, Signatures, Authentication, AuthRuns, Middleware | template expansion and the canonical string, header spelling and HMAC, the checks and the pinned master, their interleavings, and one request as the middleware runs it |
| Sha256, Sha256Laws, Sha256Constants, Sha256Js | FIPS 180-4 and RFC 2104 as a specification, what it means digit by digit and key by key; the dashboard's JavaScript loops against it |

A handler is one atomic step on the tables, except where a module says otherwise: ReplayThreads splits the guard at its
lock sections, DnsCache and AuthRuns split requests at every point where another task can run. Times
are clock ticks since an origin; row ids come from a supply of fresh numbers.

## What turned out to need a condition

- The resolved client address is the real client for any text the client wrote, provided that text is visible ASCII; one
  other byte makes the service skip the whole `X-Forwarded-For` header (`ChainResolvesToTheClient` is an equivalence,
  `UnreadableHeaderHidesTheClient` the concrete input).
- The built DNS snapshot equals recomputation exactly when the outcomes since the last answer left the merged list as it
  was (`SnapshotCurrentExactly`, `SnapshotCurrentByName`), which a refresh dropped while it waits for a lookup can break
  (`DroppedRefreshLeavesSnapshotBehind`). Answers handed out are right in every case, because a name is then still lapsed.
- A repeated `full_replace` by the same caller is admitted except when the first one created the group for a caller that
  is not the master: the batch endpoint creates the group without a permission row for its creator
  (`RepeatIsRefused`).
- Without a key that may delete from any of a record's groups, no run by non-masters takes the record away, provided no
  request of the run registers it (`NothingGoesWithoutDelete`): a key that may write in one group and delete from
  another can register the record there first (`RegistrationExposes`).
- A level replication consumer is level again after one more operation and a poll exactly when the operation was stamped
  no earlier than the second of the previous poll, or all it changed are deletions of records seen since
  (`LevelAfterOneOperation`). A ban or whitelist request with an earlier stamp is missed exactly when it is admitted, its
  address is not locked, and the consumer follows its group or another group of that record
  (`LevelAfterOneRegistration`). A request that reads the clock and then waits for the write lock can break this
  (`StaleStampIsMissed` is such a run).
- A webhook dispatch with the default template signs what a chained instance verifies exactly when the target URL has no
  query string (`ChainingNeedsNoQuery`): the dispatch signs the path alone (src/dispatch.rs:424-430), the receiver the
  path and query (src/middleware.rs:98-108). README.md:227-231 of the repository promises it without that condition.
- Freshness is two-sided, the guard remembers from acceptance, a request waits for the database and for its body between
  the two checks (the gap), and a call of the guard waits for its locks after reading the clock (the lag). Under every
  interleaving of the guard's calls one signed request can be accepted n times exactly when
  (n - 1) * (300 s - lag) < 601 s + gap (`UsesPossible`), so three times at most if and only if
  gap + 3 * lag <= 299 s (`AcceptedAtMostThrice`). The service limits neither wait, so there is no limit on the uses
  (`SlowBodiesAllowAnyNumber`). Lags over 225 s let that many in only if the guard's map was full once: calls of other
  keys that measured it then and wait longer still set the sweep schedule back to their stale clock value
  (src/replay.rs:236). Where the map never fills, sweeps stay 75 s apart and the uses with them
  (`UncrowdedUsesPossible`, `CrowdsAllowMore`).
- Resolving the master lazily is not safe against a concurrent edit of the database (`LazyResolutionAdmitsTwoMasters` is a
  run from the first start); pinning before the listener is bound, as the service does, makes the guarantee hold for every
  request (`PinnedBeforeServing`). The comment at src/master.rs:175-176 claims the race is harmless.
- The JavaScript digest is right for every array with length + 72 < 2^31 and a `RangeError` for every longer one.

## Model

| member | source | states |
|---|---|---|
| Sha256.PadIsLeast | static/app.js:56-67 | The padded length is the least multiple of 64 with room for the marker and the 64-bit length |
| Sha256.RotrRotates | static/app.js:39-41 | The specification's rotation moves each binary digit of a word n places down, cyclically |
| Sha256.BitwiseBits | static/app.js:75-88 | The specification's exclusive or, conjunction and disjunction act digit by digit |
| Sha256.WordBytesRoundTrip | static/app.js:100-104 | Four bytes are a word's big-endian bytes exactly when the word is theirs |
| Sha256Laws.HmacOfShortKeys | static/app.js:109-124 | For a key of at most 64 bytes, 64 included, HMAC hashes with the key's own bytes and zeros behind them, each combined with the two pads |
| Sha256Laws.HmacOfLongKeys | static/app.js:109-124 | A longer key stands for its digest |
| Sha256Laws.TrailingZerosDoNotMatter | static/app.js:109-124 | Zeros behind a key, up to 64 bytes, do not change the result |
| Sha256Laws.ChoiceAndMajority | static/app.js:80-92 | Choice picks digits of its second or third word by the first, majority has a one where two of three do |
| Sha256Laws.SigmaDigits | static/app.js:74-88 | Each sigma adds, without carry, the digits at its three distances |
| Sha256Laws.PadLayout | static/app.js:56-67 | Message, one bit, zeros, and the length in bits as a big-endian number |
| Sha256Laws.PaddingIsInjective | static/app.js:56-67 | No two messages share a padded form |
| Sha256Laws.InitialValueIsSquareRoots | static/app.js:51-54 | The initial words are the first 32 bits of the fractional parts of the square roots of the first eight primes |
| Sha256Constants.ConstantsAreCubeRoots | static/app.js:24-33 | Each of the 64 constants is the first 32 bits of the fractional part of the cube root of its prime |
| Sha256Constants.TableAgrees | static/app.js:24-33 | The dashboard's table holds the standard's constants |
| Sha256Js.TotalLenIsPadded | static/app.js:56-59 | The shifted length, a signed 32-bit value, is the padded length below 2^31 and no valid array length above |
| Sha256Js.PadMessage | static/app.js:56-67 | The message buffer is section 5.1.1's padding, or a RangeError exactly from length + 72 = 2^31 on |
| Sha256Js.LoadBlock | static/app.js:71-73 | The first 16 schedule words are the block's words |
| Sha256Js.ExtendSchedule | static/app.js:74-78 | The 64 schedule words are section 6.2.2's, though sums are doubles and xors signed |
| Sha256Js.RunRounds | static/app.js:80-92 | 64 rounds on reassigned variables are 64 rounds of the specification |
| Sha256Js.EncodeDigest | static/app.js:100-105 | The output bytes are the digest of the final registers |
| Sha256Js.Sha256Bytes | static/app.js:50-106 | The result is SHA-256 of the bytes for length + 72 < 2^31, and an error, never a wrong digest, otherwise |
| Sha256Js.HmacSha256Bytes | static/app.js:109-124 | The result is HMAC of RFC 2104 section 2 for every key length, and an error exactly when a hashed buffer is too long |
| Lineage.SubtreeIsDescendants | src/api/keys.rs:419-448 | The specified subtree holds a key exactly when a parent chain leads from it to the root |
| Lineage.SubtreeIsLeastClosed | src/api/keys.rs:419-448 | The subtree is the least set that holds the root and is closed under children |
| Lineage.CollectKeySubtree | src/api/keys.rs:428-448 | The breadth-first walk ends on every parent graph, cycles included, and returns exactly the descendants |
| Lineage.ForestHasNoCycle | src/api/keys.rs:754-790 | Where parents were issued before children, no key is its own proper ancestor |
| Lineage.ForestIsAntisymmetric | src/api/keys.rs:754-790 | Two keys below one another are the same key |
| Guards.ElevationGuardIsTight | src/api/guards.rs:373-397 | The guard admits a non-master's scope change exactly when no scope rises |
| Guards.GrantGuardIsTight | src/api/guards.rs:280-332 | The guard admits a non-master's grant exactly when it manages the group and holds every verb it gives |
| Rights.Preflight | src/api/keys.rs:790-858 | Accepts exactly the resolutions that cover the inventory entry by entry with valid heirs |
| RightsEffects.PreflightExactly | src/api/keys.rs:790-858 | It accepts exactly when nothing is named twice, every group and webhook in doomed hands is named and nothing else, and every heir lives, is no master and is not doomed |
| RightsEffects.RevocationTakesTheRow | src/api/keys.rs:1323-1374 | A revocation takes the named key's row on the named group and nothing else, exactly when the row exists and the caller is the master or manages that group |
| RightsEffects.RevokedStaysRevoked | src/api/keys.rs:1166-1374 | Over every run a key without a row on a group gets none until a request grants it one |
| RightsEffects.GrantSetsTheRow | src/api/keys.rs:1166-1285 | A grant to an existing group sets exactly that row to exactly those verbs, under its exact condition |
| RightsEffects.GrantMakesTheGroup | src/api/keys.rs:1166-1285 | A grant to a new name makes the group, and only the master's then succeeds |
| RightsEffects.CreationMakesAChild | src/api/keys.rs:194-268 | A created key is the caller's child with what was asked for, exactly when the caller may, and nothing else changes |
| RightsEffects.UpdateWritesTheFieldsGiven | src/api/keys.rs:956-1040 | An update writes the fields given and keeps the rest, under its exact condition |
| RightsEffects.CreationMakesAGroup | src/api/groups.rs:44-98 | A created group has the name, type and owner it should, its creator's row aside nothing else changes |
| RightsEffects.DeletionTakesTheGroup | src/api/groups.rs:150-167 | A deleted group goes with its rows and webhooks only, by the master or its owner |
| RightsEffects.HandingOnSetsTheOwner | src/api/groups.rs:178-214 | The master alone hands groups and webhooks on, to nobody or a living non-master |
| RightsEffects.DeletionIsAdmittedExactly | src/api/keys.rs:754-800 | Who may delete which key, as an equivalence |
| RightsEffects.DeletionCarriesOutEachEntry | src/api/keys.rs:860-920 | What an entry of a committed deletion names is deleted, or belongs to the heir it names |
| RightsEffects.DeletionTakesRowsWithThem | src/api/keys.rs:860-930 | The subtree's keys go, and exactly the rows of keys and groups that go |
| RightsEffects.WebhooksAreMadeAndDeleted | src/api/webhooks.rs:121-250 | Who makes and deletes webhooks, and that nothing else changes |
| RightsRuns.StepKeepsForm | src/api/keys.rs:194-1374 | Each handler keeps a forest of living keys under one parentless master, and owners absent or living non-masters |
| RightsRuns.RunKeepsForm | src/api/keys.rs:754-930 | Every run of any callers keeps that form |
| RightsRuns.CascadeSparesMasterAndCaller | src/api/keys.rs:754-930 | In every reachable state a key deletion removes neither the master nor its caller, never suspects a cycle, and removes exactly the subtree when it commits |
| RightsRuns.CascadeNeverDestroysImplicitly | src/api/keys.rs:674-930 | A committed deletion drops or gives away only groups the request names, to living heirs, and leaves the rest as they were |
| RightsRuns.CascadeNeverDestroysHooksImplicitly | src/api/keys.rs:674-930 | It drops a webhook only if the request names it, or its group, with delete, and gives one away only as named, to a living heir |
| RightsRuns.NonMastersNeverAmplify | src/api/guards.rs:171-397 | Over any run by non-master keys no group gains a verb nobody held, no key gains a scope or mastery, new keys hold none, and nobody manages a group born in the run |
| KeyService.AllAppliedIsCascade | src/api/keys.rs:860-920 | Applying every resolution and dropping the doomed keys equals the specified cascade |
| KeyService.Vault.CreateApiKey | src/api/keys.rs:194-268 | Result and new tables are the specified step |
| KeyService.Vault.UpdateApiKey | src/api/keys.rs:956-1040 | Result and new tables are the specified step |
| KeyService.Vault.FindAdministrableKey | src/api/keys.rs:514-526 | Finds a key exactly when the caller is master or its ancestor |
| KeyService.Vault.InventoryOwnedEntities | src/api/keys.rs:674-722 | Lists exactly the groups and webhooks owned in the subtree, each once |
| KeyService.Vault.CheckResolutions | src/api/keys.rs:806-858 | The loop's verdict is the specified pre-flight check |
| KeyService.Vault.ApplyResolutions | src/api/keys.rs:860-905 | The write loop leaves the cascade's tables whatever order it visits entries in |
| KeyService.Vault.DeleteApiKey | src/api/keys.rs:754-930 | Result and new tables are the specified deletion, refusals included |
| KeyService.Vault.UpdateKeyGroupPermissions | src/api/keys.rs:1166-1285 | Result and tables are the specified step, including the group that a refused request leaves behind |
| KeyService.Vault.RevokeKeyGroupPermission | src/api/keys.rs:1323-1374 | Result and tables are the specified step |
| KeyService.Vault.GetOrCreateGroup | src/api/support.rs:220-244 | The group under that name afterwards, inserted only if there was none |
| KeyService.Vault.CreateIpGroup | src/api/groups.rs:44-98 | Result and tables are the specified step |
| KeyService.Vault.DeleteIpGroup | src/api/groups.rs:150-167 | Result and tables are the specified step, dependent rows included |
| KeyService.Vault.ReassignGroupOwner | src/api/groups.rs:178-214 | Result and tables are the specified step |
| KeyListing.ListingIsDeterminedByView | src/api/keys.rs:357-415 | Two databases that agree on a non-master's subtree and on the groups it manages give it the same listing |
| KeyListing.WhoIsListed | src/api/keys.rs:333-599 | A key is shown in full exactly to the master and to key managers above it, by name and shared rows exactly to those that manage a group it has a row on, with exactly its rows |
| KeyListing.ListApiKeys | src/api/keys.rs:544-599 | The two loops produce the specified listing as a set, with no key listed twice |
| Replay.MapAnswers | src/replay.rs:191-201 | The expiring map answers as an unbounded history would |
| Replay.SweepForgetsOnlyExpired | src/replay.rs:246 | A sweep keeps that agreement |
| Replay.ReplayGuard.CheckAndRecord | src/replay.rs:180-202 | Accepts exactly when no acceptance within the window is in the history, and keeps no entry older than a window and a quarter |
| Replay.ReplayGuard.constructor | src/replay.rs:148-171 | The window is the seconds asked for between one and 3600, and the nearer end outside |
| Replay.ReplayGuard.Default | src/replay.rs:132-139 | The service's guard remembers for 300 seconds |
| Replay.ReplayGuard.AcceptedIsRemembered | src/replay.rs:180-202 | What it accepted at t stands unexpired in its map for every call before t + 300 s, whatever came between |
| Replay.ReplayGuard.PruneIfDue | src/replay.rs:221-257 | Sweeping never changes the history or its agreement with the map |
| Replay.ReplayGuard.SweepsAreAmortised | src/replay.rs:221-257 | Sweeps in elapsed time D are at most D/(window/4) + D/(window/16) + 1 |
| ReplayThreads.AcceptancesAreSpaced | src/replay.rs:180-257 | Under every interleaving with stale clocks two acceptances are a window apart, from the first's captured time to the second's decision, and refusals are justified |
| ReplayThreads.StaleCallsSpaceLess | src/replay.rs:180-257 | An interleaving where the captured times themselves are closer than a window |
| ReplayThreads.UninterruptedCallIsARun | src/replay.rs:180-257 | A call that nothing interrupts is the same under both models of the guard |
| ReplaySweeps.SweepsReopen | src/replay.rs:221-257 | In a run whose map never fills, sweeps are a quarter window apart and each acceptance within a window of an earlier captured time has a sweep that let it in |
| ReuseRuns.UsesAreReached | src/replay.rs:180-257 | Interleavings that never fill the map and accept one signature any number of times, at any spacings from a sweep interval up, the first shorter still |
| CrowdedRuns.CrowdedUsesAreReached | src/replay.rs:221-257 | Interleavings that fill it once and then accept one signature any number of times at any spacing, none included, each decision a window after the previous captured time |
| Reuse.UsesAreBounded | src/middleware.rs:75-76 | In every interleaved run n uses of one signature, fresh when checked, in the guard a gap later and decided a lag after that, satisfy (n - 1) * (300 s - lag) < 601 s + gap |
| Reuse.UsesPossible | src/middleware.rs:75-76 | For every number of uses, gap and lag that is exactly when they are possible |
| Reuse.UncrowdedUsesPossible | src/replay.rs:221-257 | In runs whose map never fills, for lags below the window: exactly when n uses fit, the first two 300 s - lag apart and the others that or 75 s, whichever is more |
| Reuse.CrowdsAllowMore | src/replay.rs:236 | With a lag of 299 s ten uses are possible, but not in such runs |
| Reuse.AcceptedAtMostThrice | src/middleware.rs:165-283 | Three is the bound exactly when gap + 3 * lag <= 299 s, for every gap and lag |
| Reuse.AcceptedThrice | src/replay.rs:180-202 | Three acceptances without any wait; a fourth after a gap of 299 s and a nanosecond, or with lags of 100 s |
| Reuse.SlowBodiesAllowAnyNumber | src/middleware.rs:225-237 | Without a limit on the gap no number of acceptances is excluded |
| Addresses.NormalFormsAreRanges | src/api/support.rs:96-112 | Two networks have one canonical form exactly when they denote the same range |
| Addresses.NormalizeIsIdempotent | src/api/support.rs:96-112 | Canonicalising a canonical form changes nothing |
| Addresses.CanonicalAddressesAreDistinctRanges | src/api/support.rs:96-112 | Different canonical addresses denote different ranges |
| Addresses.BannableSurvivesNormalizing | src/api/records.rs:74-94 | The ban guard gives one verdict on an address and on its stored form |
| Addresses.BannableIpv4Exactly | src/api/records.rs:74-94 | An IPv4 network may be banned exactly when its base is outside the loopback, private and link-local ranges and not zero |
| Addresses.BannableIpv6Exactly | src/api/records.rs:74-94 | An IPv6 network exactly when its base is not :: or ::1 and its first sixteen digits lie outside fe80::/10 and fc00::/7 |
| Records.UpsertKeepsForm | src/api/records.rs:110-370 | A ban or whitelist request keeps records canonical, ids unique, references held and deletion fields together |
| Records.DeletionsKeepForm | src/api/records.rs:885-1033 | So do deletion by id and restore |
| Records.PurgeRemovesExactlyTheExpired | src/retention.rs:72-90 | The purge removes exactly the records whose recorded deletion is older than the retention window, with their memberships |
| RecordRuns.RunKeepsWellKept | src/api/records.rs:252-316 | Every run of record operations keeps that form |
| RecordRuns.NoTwoRecordsShareARange | src/api/records.rs:252-316 | In every reachable store distinct records denote distinct ranges, and deleted flag, time and deleter are set together |
| RecordRuns.LockedRecordsStand | src/api/records.rs:258-262 | Over every run of record operations, by any callers, a live locked record is never changed, removed or put in another group |
| RecordRuns.RestoreUndoesDelete | src/api/records.rs:885-1033 | A restore gives back the record a soft delete marked, but for the time of the last change |
| RecordRights.NothingGoesWithoutDelete | src/api/records.rs:826-1718 | Over every run by non-masters a live record, in groups from which no key may delete, which no request registers, stays as it is and joins no group |
| RecordRights.RegistrationExposes | src/api/records.rs:110-370 | A run in which a key registers such a record in a second group and then replaces that group by nothing |
| RecordRights.NothingJoinsWithoutWrite | src/api/records.rs:110-370 | Over every run by non-masters a group on which no key holds write gains no record |
| RecordRights.MembershipsHaveGroups | src/api/records.rs:110-1718 | Over every run, by any callers, each membership is of a group that exists |
| RecordRights.BatchNeedsItsVerbs | src/api/records.rs:1426-1480 | A batch a non-master commits had write on its group, and delete if it replaces, or the right to make groups |
| RecordEffects.RegistrationDoes | src/api/records.rs:110-370 | Into an existing group: carried out under its exact condition, and then that record is live, seen now and linked, and nothing else changes |
| RecordEffects.RegistrationMakesTheGroup | src/api/records.rs:110-370 | Into a new one: who may, what is made, and what a locked record leaves behind |
| RecordEffects.DeletionDoes | src/api/records.rs:826-972 | A deletion by id under its exact condition, for good by the master alone, and what it leaves |
| RecordEffects.RestoreDoes | src/api/records.rs:980-1033 | The master alone restores, what is deleted |
| RecordEffects.UnlinkingDoes | src/api/records.rs:1137-1239 | Taking a record out of a group needs delete there and an unlocked member, and takes that membership only |
| RecordEffects.EntryWrites | src/api/records.rs:1511-1600 | What a batch entry makes of each field of a record, old or new |
| RecordEffects.BatchIsCommittedExactly | src/api/records.rs:1385-1510 | Into an existing group a batch is committed exactly when its entries can be stored, its verbs are held and, outside whitelists, its addresses may be banned |
| RecordEffects.BatchMakesTheGroup | src/api/records.rs:1426-1510 | Into a new name: who may, and the group without a row that stays even if the addresses are refused |
| Batch.FoldEffect | src/api/records.rs:1511-1621 | What the entry loop leaves at each listed address and that it leaves every other record and link alone |
| Batch.FoldCounts | src/api/records.rs:1511-1621 | Created, updated and locked-skipped add up to the entries |
| BatchCounts.CountersCount | src/api/records.rs:1511-1621 | Each counter is the number of entries that were new, known, deleted and brought back, locked, or not yet in the group |
| BatchCounts.EventsAreTold | src/api/records.rs:1511-1621 | One event, addition or update, for each entry not skipped, with its address and cause, or none if the batch asks for silence |
| RecordService.SweepsAreTold | src/api/records.rs:1623-1671 | One deletion event for each swept record |
| Batch.CommitReplaces | src/api/records.rs:1511-1671 | After a full_replace live unlocked members are exactly among the listed, listed ones are as told, locked and unrelated records and creation times untouched |
| Batch.CommitTwice | src/api/records.rs:1511-1671 | The same full_replace again creates, restores, links and sweeps nothing |
| Batch.FullReplaceIsExactAndIdempotent | src/api/records.rs:1400-1671 | Both for the whole endpoint, with the exact condition under which the repeat is admitted |
| Batch.RepeatIsRefused | src/api/records.rs:1426-1480 | A key that may create groups sends one full_replace twice and the second is forbidden |
| BatchSingles.BatchIsSinglesInAnyOrder | src/api/records.rs:1400-1621 | A committed plain upsert equals one request per entry: the same store in order, and the same up to record ids in any order, with the same events |
| BatchSingles.BatchCommitsWhenSinglesDo | src/api/records.rs:1400-1510 | A batch into an existing group with distinct unlocked addresses is committed exactly when each entry, sent alone, would be |
| RecordService.RecordStore.HandleIpUpsert | src/api/records.rs:110-370 | Result, tables and events are the specified registration |
| RecordService.RecordStore.DeleteIpRecord | src/api/records.rs:885-972 | Result and tables are the specified deletion, soft or hard |
| RecordService.RecordStore.RestoreIpRecord | src/api/records.rs:980-1033 | Result and tables are the specified restore |
| RecordService.RecordStore.DeleteIp | src/api/records.rs:1137-1239 | Result, tables and event are the specified membership removal |
| RecordService.RecordStore.PurgeExpired | src/retention.rs:72-90 | Tables and count are the specified purge |
| RecordService.RecordStore.Canonicalise | src/api/records.rs:1400-1420 | Yields the canonical items exactly when all parse and no address repeats |
| RecordService.RecordStore.ProcessEntries | src/api/records.rs:1511-1621 | The mutating loop computes the specified fold: records, counters and events |
| RecordService.RecordStore.SweepUnlisted | src/api/records.rs:1623-1671 | The sweep soft-deletes exactly the live unlocked unlisted members, one event each, in any visiting order |
| RecordService.RecordStore.CommitBatch | src/api/records.rs:1511-1671 | Summary, tables and events of an admitted batch are the specified ones |
| RecordService.RecordStore.BatchRecords | src/api/records.rs:1385-1718 | Outcome, tables and events of the endpoint are the specified ones |
| ListIps.AnswersDependOnReadableOnly | src/api/records.rs:520-817 | Databases that agree on what a non-master can read give the same answers, totals included, for every filter |
| Listings.RowsAreExactly | src/api/records.rs:520-800 | Without named groups the rows are exactly the memberships, in readable groups of the type the status asks for, of records that meet the filters, each with its fields |
| Listings.PagesAreTheWhole | src/api/records.rs:745-817 | The announced pages show every row once and in order, the last of them is not empty, and the total is true |
| Listings.AnswersShowThePage | src/api/records.rs:745-817 | Each shape of answer shows the rows between offset and limit |
| Listings.ListsNameTheirParts | src/api/records.rs:594-609 | A list of group names names what its parts name |
| Listings.NamedGroupsOnly | src/api/records.rs:573-660 | With named groups only those of them are shown that the caller may read |
| Listings.UnknownStatusIsRefused | src/api/records.rs:631-638 | A status without a meaning is refused to whoever can read something |
| Listings.NoReaderGetsNothing | src/api/records.rs:509-590 | Whoever can read nothing is answered with nothing |
| DeltaSync.PollIsTheListing | src/api/records.rs:520-817 | What the listing answers to a poll's request are the poll's rows, all and only, each giving back its replicated copy, the deleter shown to the master alone |
| DeltaSync.PollCatchesUp | src/api/records.rs:683-716 | One poll brings a lagging consumer level |
| DeltaSync.ConsumerIsLevelAfterEveryPoll | src/api/records.rs:683-716 | Over every history of registrations, soft deletes and plain batches the polling consumer, master or not, holds the server's table as it may see it after each poll |
| DeltaSync.LevelAfterOneOperation | src/api/records.rs:271-281 | One replicable operation on a level consumer, then a poll: level exactly when the stamp is no earlier than the cutoff second or every change is a deletion of a record sighted since |
| DeltaSync.RequestShowsExactly | src/api/records.rs:110-370 | A ban or whitelist request changes what a consumer may see exactly when it is admitted, the address is not locked, and its group or another group of that record is followed |
| DeltaSync.LevelAfterOneRegistration | src/api/records.rs:110-370 | For such a request, on the store it finds: level exactly when the stamp is no earlier or the request does not do that |
| DeltaSync.StaleStampIsMissed | src/api/records.rs:271-281 | A run from an empty store in which a whitelisting stamped before the poll's second commits after it and is missed |
| ClientIp.ResolveClientIp | src/config.rs:997-1036 | The answer is never an IPv4-mapped spelling |
| ClientIp.MappedPeersAreIpv4 | src/config.rs:957-962 | A peer spelled ::ffff:a.b.c.d gets the answer a.b.c.d gets |
| ClientIp.OtherIpv6PeersStand | src/config.rs:957-962 | Any other IPv6 peer is attributed as it stands when no proxy is trusted |
| ClientIp.TrustIsContainment | src/config.rs:965-967 | An address is trusted exactly when it lies in a network of its family, from the base to the end of its size |
| ClientIp.RightmostUntrustedWins | src/config.rs:1010-1018 | The chain names the rightmost untrusted parseable entry, and nobody exactly when all are trusted |
| ClientIp.JunkIsSkipped | src/config.rs:1010-1018 | A piece that is blank or no address changes nothing |
| ClientIp.HearsayNeverMatters | src/config.rs:978-991 | Text before a comma followed by an untrusted parseable entry never changes the result |
| ClientIp.ChainResolvesToTheClient | src/config.rs:978-1036 | Behind any number of trusted appending hops the result is the real client, exactly when the client's text is readable or X-Real-IP names the client |
| ClientIp.UnreadableHeaderHidesTheClient | src/config.rs:1009 | One byte outside visible ASCII makes the proxy pass for the client |
| ClientIp.UntrustedPeerSpeaksForItself | src/config.rs:1004-1007 | With an untrusted peer no headers change the answer, the peer |
| ClientIp.HeadersMatterExactly | src/config.rs:1004-1035 | Headers can change the answer exactly when the peer is trusted, given any text that names someone else |
| ClientIp.AllTrustedFallsThrough | src/config.rs:1020-1035 | A chain of trusted entries only is as good as no header |
| DnsCache.CacheAgreesWithRecomputation | src/config.rs:687-768 | Under every interleaving each answer is the literals followed by each name's latest addresses, and lookups of a name wait out every earlier outcome's reuse window, prime aside |
| DnsCache.BuiltSnapshotIsCurrent | src/config.rs:719-745 | Without dropped refreshes the built snapshot itself is current whenever no refresh is under way |
| DnsCache.FreshSnapshotIsCurrent | src/config.rs:687-716 | With dropped refreshes it is current while every outcome is within its window |
| DnsCache.CurrentHolds | src/config.rs:738-745 | A network is trusted exactly as a literal or as an address some configured name last resolved to |
| DnsAges.AnswersAreYoung | src/config.rs:687-745 | Over every interleaving no answer rests on an outcome that was past its reuse window when its reader or writer began |
| DnsCache.SnapshotCurrentExactly | src/config.rs:719-745 | Over every run the built snapshot is current exactly when the outcomes since the last answer left the merged list as it was |
| DnsCache.SnapshotCurrentByName | src/config.rs:719-745 | Where at most one name's addresses differ from those at the last answer, it is current exactly when none do |
| DnsCache.DroppedRefreshLeavesSnapshotBehind | src/config.rs:719-745 | A run in which a dropped refresh leaves a stale snapshot marked built |
| DnsCache.TrustedProxies.Resolved | src/config.rs:687-716 | A call is a run of the steps, answers with the current networks, looks nothing up while every outcome is within its window, and rests on no outcome that was past its window when the call began |
| DnsCache.TrustedProxies.RefreshLocked | src/config.rs:719-745 | The refresh is a run of the steps and leaves every name known |
| DnsCache.TrustedProxies.Prime | src/config.rs:753-768 | Every name is looked up anew, and exactly those without an address are reported, in order |
| Templates.CanonicalIsInjective | src/crypto.rs:80-91 | The canonical string determines its four fields when the first three hold no newline |
| Templates.CanonicalV1Payload | src/crypto.rs:80-91 | Appending field by field builds that string |
| Templates.ResolveHmacTemplate | src/dispatch.rs:151-213 | The loop renders a token list that depends on the template alone |
| Templates.DefaultTemplateIsCanonical | src/dispatch.rs:151-213 | The default template yields the canonical string for all values |
| Templates.TemplateReads | src/dispatch.rs:151-213 | What each placeholder, each escape and any other character of a template renders to |
| Templates.ChainingNeedsNoQuery | src/dispatch.rs:416-438 | It is what a chained receiver verifies exactly when the target URL has no query |
| Templates.SubstituteNeverRescans | src/dispatch.rs:230-255 | Substitution fills slots fixed by template and names alone |
| Templates.TableOrderIsImmaterial | src/dispatch.rs:226-229 | With prefix-free placeholders the table's order does not matter |
| Templates.ShorterShadowsLonger | src/dispatch.rs:226-229 | Otherwise it does |
| Templates.SubstitutePlaceholders | src/dispatch.rs:230-255 | The loop computes the specified substitution |
| Templates.EventTableIsPrefixFree | src/dispatch.rs:279-291 | The service's own table is prefix-free |
| Templates.PlaceholdersStandFor | src/dispatch.rs:274-292 | Which field of the event each placeholder stands for |
| Text.TrimStrips | src/middleware.rs:66-70 | Trimming takes white space off both ends, all of it and nothing else |
| Templates.ResolveEventVariables | src/dispatch.rs:274-292 | The result fills the template's slots and is the same for every ordering of the table |
| Signatures.DecodesUpToCase | src/crypto.rs:191 | A text decodes to some bytes exactly when it is their encoding up to case |
| Signatures.DigitsAreHexadecimal | src/crypto.rs:191 | The sixteen digits, lower case written and either case read |
| Signatures.AcceptedSpellings | src/crypto.rs:181-198 | A header verifies exactly when it is tagged and spells the message's digest, up to case and surrounding space |
| Signatures.ComputedSignatureVerifies | src/crypto.rs:111-198 | What is computed verifies |
| Signatures.OneSignatureOneDigest | src/crypto.rs:174-180 | Two accepted headers give one digest exactly when they differ only in case and surrounding space |
| Authentication.FreshnessIsTwoSided | src/middleware.rs:64-88 | A timestamp passes exactly when it parses and lies within 300 seconds either way, saturation notwithstanding |
| Authentication.DecimalIsParsed | src/middleware.rs:64-75 | A timestamp written in decimal, with or without sign, reads back as its number, and none outside 64 bits is read |
| Authentication.SourceIsAdmittedExactly | src/middleware.rs:281-310 | A key's network list admits a source exactly when it can be read and is empty or some entry covers the source |
| Authentication.SignatureCoversTheWholeRequest | src/middleware.rs:245-260 | One digest under one secret stands for one method, target, timestamp and body, or HMAC collides |
| Authentication.SoleMaster | src/master.rs:268-282 | Succeeds exactly when the database is reachable and has one master row, and names it |
| Authentication.MasterPin.PinAtBoot | src/master.rs:154-179 | The cell is written at most once, and with the sole master only |
| Authentication.MasterPin.Resolve | src/master.rs:197-207 | Fails closed and leaves a set cell alone |
| Authentication.MasterPin.Authenticate | src/master.rs:231-262 | The row keeps its master flag exactly when the pin names its key |
| AuthRuns.ReplayEntriesAreVerified | src/middleware.rs:245-283 | Over every interleaved run with arbitrary database edits each replay entry comes from a signature verified under its key |
| AuthRuns.HandlersSeeOnlyProvenCallers | src/middleware.rs:144-328 | Over the same runs a handler sees only fresh, proven, network-admitted callers, as master only if the row said so and the pin, when looked at, named it |
| AuthRuns.PinNeverMoves | src/master.rs:154-179 | A set pin never changes |
| AuthRuns.OnlyThePinnedKeyIsMaster | src/master.rs:231-262 | Once the pin is set and no request is left that found it empty, no request reaches a handler as master unless its key is the pinned one |
| AuthRuns.PinnedBeforeServing | src/main.rs:345-371 | From the first start: whatever boot and the edits beside it did, if a pin stands before the first request arrives, only its key ever acts as master |
| AuthRuns.TwoMasters | src/master.rs:175-178 | Any two requests that would be admitted as the sole master of two states of the database can both pass as master when the pin is resolved lazily |
| AuthRuns.LazyResolutionAdmitsTwoMasters | src/master.rs:175-178 | Such a run from the first start, on concrete inputs |
| Middleware.Identify | src/middleware.rs:160-262 | The checks before the guard give the specified verdict and are a run of the steps |
| Middleware.Spend | src/replay.rs:180-202 | The guard's call accepts exactly a signature unused within the window and is one of the steps |
| Middleware.AuthMiddleware | src/middleware.rs:144-328 | The answer, the guard's history and the pin are those of the ordered checks (signature, single use, source network, pin), and the call is a run of the interleaved steps |
| Middleware.HonestRequestsPass | src/middleware.rs:144-328 | A fresh unused request signed with the secret of an unbound key is let through as that key, master only if pinned, and its signature is spent |
| Middleware.ForbiddenOnlyAfterProof | src/middleware.rs:126-143 | A network refusal is given only to a caller that held a key, signed with its secret and spent that signature on the answer |
| Middleware.BindingIsInvisibleWithoutProof | src/middleware.rs:126-143 | Two databases that differ only in the keys' networks allow the same answers to a request that proves nothing |

## Left out

- HTTP routing, extractors, JSON shapes, error texts, environment parsing, logging, startup and shutdown.
- SQL, transactions' rollback, retries after unique-key conflicts, drivers and migrations: tables are finite maps with unique keys, handlers are atomic.
- Parsing and printing of addresses and networks: a network is what the parser returns; in ClientIp, Authentication and AuthRuns the parser is any function.
- Substring and time tests inside the listing's SQL are taken on values; ties in `updated_at` may come in any order.
- Calendar dates: a time is a number, and a stamp a handler takes is the one it writes.
- Webhooks beyond an owned second table: delivery, retries, the outbound address filter, and templates stored per webhook. With its group a webhook goes as the declared foreign key says.
- Key rotation, the audit trail, `GET /api/me`, group listing and the manual purge endpoint: single branches or reads.
- The AEAD cipher, SHA-256 of API keys, HMAC inside the service and random generation are arbitrary functions or a supply of fresh ids; the dashboard's own SHA-256 and HMAC are modelled in full.
- Lock poisoning in the replay guard, and a second service instance on the same database.
- A forwarding header split over several field lines: the service reads the first line, and the model starts from it.
- Sha256Js.Sha256Bytes: lengths from 2^50 on are outside, where doubles no longer hold the bit length exactly; an array that long cannot exist.
- DeltaSync.ConsumerIsLevelAfterEveryPoll: histories with restore, membership removal, hard deletion or purge are outside, as these leave no trace a `since` filter can see.
- Batch.FullReplaceIsExactAndIdempotent: the repeat is the caller's next write; writes by others in between are not considered.
- AuthRuns.ReplayEntriesAreVerified: what the guard sweeps and when it accepts are left free there; Middleware.Spend ties the real guard to that step.
- Reuse.UsesPossible: the wall clock and the monotonic clock are taken to run alike.
- Reuse.UncrowdedUsesPossible: lags of a window or more are outside; `UsesPossible` has them for runs in general.
- Middleware.Spend: a call reads the clock no earlier than the guard's last one did; ReplayThreads and Reuse take the calls whose reading is stale.
