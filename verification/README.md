# Verified model of the routing proxy's account map, sticky identities and session injectors

This project models the parts of the proxy where state, interleaving and text scanning meet, in Dafny 4.11, and
proves what they are for.

* **Account map and bindings.** `Tables` holds the tables `acct_map`, `acct_egress`, `sync_sources` and `upstreams`
  as maps from their primary keys and every transaction as a function on them; `Store` is the class whose methods do
  the same with loops and accumulators, proved equal to those functions. `StoreRuns` proves the cross-table
  invariants over every run, `Effects` says key by key what each transaction writes and leaves alone, `Secrets` what
  the API keys and DSNs stored beside a source keep, `SnapshotGuard`, `PushMerge` and `ClearFingerprint` what the
  three hardest transactions promise, `Handlers` the management handlers' loops.
* **Publication and life cycle.** `Publish` is a transition system of writers that commit and then, under the
  map-change lock, read the tables and swap the in-memory snapshots. `SourceLifecycle` is one of full
  synchronisations, incremental readers, reconciliation, configuration updates, deletions and shutdown, with the
  per-source locks, the lock registry, the reconcile mutex and the map-change lock as explicit steps; `SourceSteps`
  proves its invariant, `SourceRuns` its safety, `SourceShutdown` that a shutdown is final, `SourceProgress` that it
  never deadlocks and `SourceTermination` that work under way ends. `Provenance` runs the life cycle together with
  the tables and the secrets and traces every row back to the commit it came from; `JointRuns` shows that such runs
  get somewhere. `Registry` and `Egress` are the in-memory index and binding table themselves, and `Serving` ties
  them, and the route of a request, to the published snapshots.
* **Sticky identity and exit choice.** `Salts` is the bounded LRU store of salts and failure streaks, `SaltHistory`
  the outcomes that drive it, `Egress` the rendezvous choice, `Routing` the whole routing decision. SHA-256 is an
  uninterpreted function throughout.
* **Session parameters.** `FlatUsername` is the printer/parser pair over hyphen-separated user names, `Injectors`
  the two platforms that chain two rewrites, `DataImpulse` and `Template` the other two grammars, `Platforms` the
  dispatch over all platforms and the exit's side of it.
* **Log writer.** `LogWriter` is the batching loop of the audit log.

Class methods and loops are proved against specification functions; the lemmas are about those functions. Where the
code meets a property only under a condition, the lemma is an if-and-only-if with that condition:

* The flat round trip, the frame law and last-write-wins fail exactly when the user name holds no pair but ends in a
  known key (`DanglingTail`), except where key, tail and value are the same word.
* The dataimpulse round trip fails exactly when the account holds a `;` or ends in a blank, when a login without
  `__` ends in `_` (it lends its underscore to the mark), or when a surviving parameter is the bare word `sessid`.
* The resin round trip fails exactly when the stored user name begins with a dot; the generic one when nothing is
  printed in front of the session (the template `{sid}` is accepted and reads back under no rule), and its rule can
  be configured once for all accounts exactly when the template around `{sid}` holds no further `{sid}`.
* After clearing a fingerprint, an access token moved onto an empty-refresh-token row is lost exactly when that row
  matches the fingerprint itself and is processed later.
* The reserved salt keys of requests without a marker begin with a NUL character, and a marker that spells one
  shares its salt with those requests; no other marker does.
* Updating a source leaves its secrets consistent exactly when the source is still there or nothing is stored, a DSN
  comes with the kind that has one, a row that keeps its DSN is not stale, and no other source's DSN is dropped. A
  stale row strands the DSN, a late update the API key of a deleted source.
* A binding written outside its handler's check breaks the "bound exits are plain" invariant exactly when one of its
  exits is not a live plain exit.

## Model

| member | source | states |
|---|---|---|
| FlatUsername.Prescan | internal/upstream/common.go:50-61 | the pre-scan finds the target exactly if the parsed items hold a pair with that key |
| FlatUsername.RewriteTokens | internal/upstream/common.go:63-90 | the in-place/insert/drop loop emits what remains to be emitted for the parsed items, from its three flags |
| FlatUsername.FlatRewrite | internal/upstream/common.go:44-91 | the whole loop prints the items with the first occurrence replaced and the others dropped, or inserted before the first pair, or appended |
| FlatUsername.FlatStickyId | benchmark/main.go:521-548 | the parser loop returns the single non-empty value of the wanted key, or the error its first problem gives |
| FlatUsername.RewrittenLaws | internal/upstream/common.go:44-91 | exactly one value of the key afterwards, everything else untouched in order, and rewriting twice is rewriting once |
| FlatUsername.RewriteReadsBack | internal/upstream/common.go:38-91 | unless the tail dangles, splitting and parsing the printed user name gives back exactly the rewritten items |
| FlatUsername.DanglingReadsBack | internal/upstream/common.go:63-90 | with a dangling tail the appended key is read as the value of the dangling one |
| FlatUsername.RewrittenPlace | internal/upstream/common.go:63-90 | the pair stands at the first occurrence of its key, else in front of the first pair, else at the end; what is in front stays, behind it go only further occurrences |
| FlatUsername.StickyIdAccepts | benchmark/main.go:521-548 | accepted exactly with one value of the key, a non-empty one; each error exactly in its case |
| FlatUsername.StickyIdIsToken | benchmark/main.go:521-548 | what the parser returns is never empty and never holds a hyphen |
| FlatUsername.ParseAfterPrint | benchmark/main.go:521-548 | for every user name, key and value: the parser returns the value that was written if and only if it is a non-empty token and the tail does not dangle (or is the harmless word) |
| FlatUsername.RewriteFrame | internal/upstream/common.go:44-91 | removing the target's pairs from input and output gives the same items, if and only if the tail does not dangle (or is the harmless word) |
| FlatUsername.LastWriteWins | internal/upstream/common.go:44-91 | rewriting with v1 and then v2 equals rewriting with v2, with the same exact condition |
| Injectors.RewrittenNeverDangles | internal/upstream/common.go:44-91 | a rewritten user name never dangles, so a second rewrite is always safe |
| Injectors.SecondRewriteKeepsFirst | internal/upstream/c1024.go:26-43 | the second rewrite leaves what the exit reads for the first key as it was, and its own value reads back |
| Injectors.TwoRewritesReadBack | internal/upstream/decodo.go:27-47 | for every TTL the session reads back under the exact condition and the TTL reads back clamped to its range |
| Injectors.C1024RoundTrip | internal/upstream/c1024.go:26-43 | succeeds exactly for a non-empty account and user name; session reads back (exact condition); t reads back as the TTL clamped to 1..120; host, scheme and password stay |
| Injectors.RewriteKeepsHead | internal/upstream/decodo.go:27-47 | a leading plain token survives a rewrite at the front |
| Injectors.DecodoRoundTrip | internal/upstream/decodo.go:27-47 | succeeds exactly for a non-empty account behind "user-"; prefix survives both rewrites; session reads back (exact condition); sessionduration reads back as the TTL clamped to 1..1440 |
| Injectors.C1024Dangles | internal/upstream/common.go:66-90 | an input that does not read back: the stored user name "key-sid" |
| Injectors.DecodoDangles | internal/upstream/common.go:66-90 | an input that does not read back: the stored user name "user-session" |
| DataImpulse.InjectUser | internal/upstream/dataimpulse.go:26-41 | the segment loop keeps login and all trimmed non-session segments and appends the session |
| DataImpulse.DataImpulseStickyId | benchmark/main.go:486-509 | the parser loop returns the only non-empty session value, or the error of the first problem |
| DataImpulse.StickyIdAccepts | benchmark/main.go:486-509 | accepted exactly with one session value, a non-empty one; each error exactly in its case |
| DataImpulse.RoundTrip | internal/upstream/dataimpulse.go:22-42 | the exit reads the account back if and only if it has no ';' and no blank at its end, the login lends no underscore, and no segment is the bare key |
| DataImpulse.LentUnderscoreHidesSession | internal/upstream/dataimpulse.go:27-40 | a login ending in '_' without a mark of its own makes the exit find no session |
| DataImpulse.OthersSurvive | internal/upstream/dataimpulse.go:27-40 | parsing the injected name gives the same login and all other segments in order, then the session |
| DataImpulse.LoginEndsInUnderscore | internal/upstream/dataimpulse.go:27-40 | an input that does not read back: the login "login_" with any account |
| Template.ValidateTemplate | internal/upstream/upstream.go:139-164 | the shrinking loop terminates and reports the first problem a left-to-right scan meets |
| Template.ScannerMeetsGrammar | internal/upstream/upstream.go:139-164 | accepted exactly if the template is brace-free text interleaved with known placeholders, {ttl_min} only with a TTL |
| Template.UnpairedBraces | internal/upstream/upstream.go:139-164 | which problem an unpaired brace behind brace-free text is reported as |
| Template.KnownNames | internal/upstream/upstream.go:139-164 | a lone placeholder is accepted exactly for user, sid and country, and for ttl_min with a TTL |
| Template.RenderIsSubstitution | internal/upstream/generic.go:36-42 | for templates of the grammar one-pass replacement equals piecewise substitution |
| Template.AcceptedRendersBraceFree | internal/upstream/generic.go:24-47 | an accepted template renders brace-free from brace-free arguments |
| Platforms.InjectionKeepsExit | internal/upstream/common.go:12-36 | an injector exists exactly for the registered platforms, and none changes scheme, host, the rest of the URL, or the password unless a static one is set |
| Platforms.ResinRoundTrip | internal/upstream/resin.go:22-36 | the exit reads the account back exactly if the stored user name does not begin with a dot |
| Platforms.ResinNeedsPlatform | internal/upstream/resin.go:26-35 | an input that does not read back: the stored user name ".acct" |
| Platforms.GenericRoundTrip | internal/upstream/generic.go:24-47 | with what the template around one {sid} renders to as the exit's rule the account reads back exactly if the part before it renders to something |
| Platforms.GenericRenders | internal/upstream/generic.go:31-46 | an accepted template prints the stored user name, account, TTL and country where their placeholders stand |
| Platforms.GenericNeedsPrefix | internal/upstream/generic.go:24-47 | an input that does not read back under any rule: the accepted template "{sid}", with every account |
| Platforms.RuleFixed | benchmark/main.go:448-484 | the prefix and suffix of the exit's rule are the same for every account exactly if they hold no further {sid} |
| Platforms.SessionReadsBack | benchmark/main.go:448-484 | for every session platform and plain identity, the exit reads the identity back exactly if the stored user name does not hide it |
| Salts.SaltStore.constructor | internal/marker/salts.go:39-48 | starts empty with the given capacity, or the default for a non-positive one |
| Salts.SaltStore.SeedFingerprint | internal/marker/salts.go:72-80 | one step of the LRU specification that leaves the given salt, 0 for a negative one, and no failures |
| Salts.SaltStore.GetSalt | internal/marker/salts.go:83-91 | returns the stored salt or 0, and is one step of the LRU specification |
| Salts.SaltStore.RotateSalt | internal/marker/salts.go:94-104 | returns the successor of the stored salt, leaves it with no failures, and is one step of the LRU specification |
| Salts.SaltStore.RecordFailure | internal/marker/salts.go:107-124 | rotates exactly when the streak reaches the threshold, returns and leaves the new salt and streak, and is one step of the LRU specification |
| Salts.SaltStore.ClearFailures | internal/marker/salts.go:127-137 | clears the streak of a present identity only, as one step of the LRU specification |
| Salts.StepMeaning | internal/marker/salts.go:70-137 | what seeding, lookup, rotation, failure and clearing leave under their key |
| Salts.PutMeaning | internal/marker/salts.go:72-80 | storing an entry puts it in front, changes no other value and keeps the others' order; only a new key meeting a full store drops one, the least recently used |
| Salts.RunLruOk | internal/marker/salts.go:39-48 | in every run the size never exceeds the capacity and the keys in use order are exactly the stored ones |
| Salts.MissInsertsNothing | internal/marker/salts.go:81-91 | a lookup or a clearing of an absent identity leaves the store as it was |
| Salts.LruRefinesMap | internal/marker/salts.go:70-137 | as long as fewer than capacity distinct other keys are named between touches of a key, its state is what an unbounded map would hold |
| Salts.CapacityOtherKeysForget | internal/marker/salts.go:70-137 | the bound is tight: capacity many distinct other keys make the store forget the key |
| SaltHistory.RecordError | internal/server/ingress.go:1590-1602 | an error rotates or clears only for a rotatable identity that went through an exit |
| SaltHistory.RecordResponse | internal/server/ingress.go:819-823 | a response clears the streak only for a rotatable identity that went through an exit |
| SaltHistory.SaltOfHistory | internal/marker/salts.go:107-137 | the salt is the sum over maximal unusable runs of length divided by threshold, the streak is the last run's remainder |
| SaltHistory.StoreKeepsHistory | internal/marker/salts.go:70-137 | the bounded store's state of an identity kept warm is that of its own outcome history |
| SaltHistory.MapKeepsHistory | internal/marker/salts.go:70-137 | interleaving with other identities does not change an identity's history |
| Text.NatDigitsReadBack | internal/sticky/hash.go:26-31 | numbers are rendered in decimal: the digits read back as the number |
| SaltHistory.PreimagesDiffer | internal/sticky/hash.go:26-31 | two salts give the same preimage for the same identity if and only if they are equal |
| SaltHistory.HistoryPreimages | internal/sticky/hash.go:26-31 | along a history the salt never falls, and two moments share a preimage exactly if no rotation lies between |
| Tables.SrcNameInjective | internal/syncer/direct.go:505-507 | different sources never own rows under the same name, nor under the push channel's |
| Store.Store.ReplaceSourceSnapshot | internal/store/acctmap.go:74-105 | the whole new state: the source's rows are the inserted ones, orphaned bindings go, a missing source changes nothing |
| Store.Store.ReplaceSourceSnapshotGuarded | internal/store/acctegress.go:224-310 | the whole new state and the reported outcome and streak |
| Store.Store.ApplyAccountDelta | internal/store/acctmap.go:110-143 | the whole new state, and an error exactly for a missing source |
| Store.Store.CreateSyncSource | internal/store/acctmap.go:491-533 | the whole new state with API key, DSN and the row's name for it, a fresh ID, and which error: a taken name, a taken name of a secret |
| Store.Store.UpdateSyncSource | internal/store/acctmap.go:544-607 | the whole new state with the secrets replaced, dropped or kept, and which error: a contradictory or blank DSN request, a taken name |
| Store.Store.DeleteSyncSource | internal/store/acctmap.go:611-636 | the whole new state: the source, its rows, the orphaned bindings and its secrets go together |
| Secrets.CreateKeepsSecrets | internal/store/acctmap.go:491-533 | a creation never meets a left-over secret, the supplied API key and DSN are what is read afterwards, and other sources' secrets stay |
| Secrets.DeleteKeepsSecrets | internal/store/acctmap.go:611-636 | a deletion leaves no secret of the source and all of the others |
| Secrets.UpdateKeepsSecrets | internal/store/acctmap.go:544-607 | an update that succeeds leaves every secret with its source and every named DSN stored, if and only if it is safe for every source |
| Secrets.UpdateRefusals | internal/store/acctmap.go:544-574 | an update is refused exactly for a contradictory or blank DSN request or for another source's name, in this order, and then changes nothing |
| Secrets.FreshUpdateReads | internal/api/acctmap.go:294-360 | an update with the row as stored is safe; new values are read afterwards, or the old ones where none were sent, and other sources' stay |
| Secrets.UpdateWritesNamed | internal/store/acctmap.go:551-607 | which secrets an update writes and takes and which name it leaves in the row, whatever the tables hold |
| Secrets.DeleteTakesNamed | internal/store/acctmap.go:611-636 | a deletion takes exactly the secrets under the source's two names and the one its row gives |
| Secrets.StaleRowStrandsDsn | internal/store/acctmap.go:555-568 | an input that strands a secret: two updates from one reading of the row leave a stored DSN that no row names |
| Secrets.LateUpdateStrandsKey | internal/syncer/direct.go:262-283 | an input that strands a secret: an update behind the deletion succeeds and stores the API key of a source that is gone |
| Secrets.RunKeepsSecrets | internal/store/acctmap.go:491-636 | in every run whose updates are safe no secret is without its source and no named DSN is missing |
| Store.Store.ReplaceAccountSnapshot | internal/store/acctmap.go:148-225 | the accumulator scan over existing rows produces the merged row and the whole new state |
| Store.Store.DeleteAcctMapAccount | internal/store/acctmap.go:230-254 | the whole new state and the number of removed rows |
| Store.Store.ClearRow | internal/store/acctmap.go:300-351 | one row's case split, including the key conflict, is the specified step |
| Store.Store.ClearRows | internal/store/acctmap.go:300-352 | the loop clears the rows in the order of the query |
| Store.Store.WhatMatched | internal/store/acctmap.go:356-374 | at, rt or both by what the rows matched on, and the source exactly if there is only one |
| Store.Store.ClearAcctMapFp | internal/store/acctmap.go:273-376 | the whole new state, found exactly if a row matched, field and source as reported |
| Store.Store.ReplaceAccountBinding | internal/store/acctegress.go:86-109 | the whole new state: one row per exit, other accounts untouched, orphans gone |
| Store.Store.ClearAcctEgress | internal/store/acctegress.go:112-118 | all bindings go, and how many there were |
| Store.Store.ReplaceEgressAccounts | internal/store/acctegress.go:130-182 | the whole new state: the exit's assignments are replaced, modes kept where the account already had one on that exit |
| Store.Store.InsertUpstream | internal/store/store.go:613-622 | the whole new state, error exactly for a taken name |
| Store.Store.ModifyUpstream | internal/store/store.go:637-667 | the whole new state, and which error, including the platform change of a bound exit |
| Store.Store.RemoveUpstream | internal/store/store.go:694-707 | the exit and its bindings go together |
| StoreRuns.ApplyKeeps | internal/store/acctmap.go:74-376 | every single operation keeps all cross-table invariants |
| StoreRuns.RunKeepsInv | internal/store/acctegress.go:86-194 | in every run: bindings only of accounts with a row, source rows only of live sources, no row without a credential, bound exits live and plain, IDs and names unique |
| StoreRuns.RunsFromNothing | internal/store/acctegress.go:86-194 | the same from an empty store, for every run |
| StoreRuns.GoneStaysGone | internal/store/acctmap.go:611-636 | no operation brings back a source that is gone |
| StoreRuns.DeletedSourceOwnsNothing | internal/store/acctmap.go:110-124 | after a deletion and any further operations no row names the source |
| StoreRuns.BindingNeedsPlainExits | internal/store/acctegress.go:86-109 | writing a binding keeps the invariant if and only if all its exits are live plain ones (or the account has no row) |
| StoreRuns.BindingToNothing | internal/store/acctegress.go:86-109 | an input that breaks the invariant: a live account bound to an exit that does not exist |
| SnapshotGuard.StreakIsCount | internal/store/acctegress.go:239-284 | in every run, counted from right behind the last reset (or from where the source did not exist, or the beginning), the streak column is the number of empty snapshots |
| SnapshotGuard.EmptySnapshotClearsAtThreshold | internal/store/acctegress.go:253-284 | an empty snapshot takes the rows if and only if, with itself, threshold many were counted since the last reset; such a position exists, and every such position gives the same answer |
| SnapshotGuard.DeferredChangesNothing | internal/store/acctegress.go:270-276 | a deferred snapshot changes no row and no binding, and the streak stays below the threshold |
| SnapshotGuard.ClearingIsExact | internal/store/acctegress.go:277-290 | a clearing removes this source's rows and the bindings of accounts left without a row, nothing else |
| Effects.SnapshotEffect | internal/store/acctmap.go:74-105 | a snapshot that is taken over makes the source's rows exactly those it asks for, with the values of the last account asking, and touches no other row; bindings stay exactly while their account has a row |
| Effects.GuardedEffect | internal/store/acctegress.go:224-310 | a non-empty guarded snapshot is taken over, an empty one empties the source or changes no row and no binding, and of the sources only this one's streak changes |
| Effects.DeltaEffect | internal/store/acctmap.go:110-143 | a delta replaces exactly the rows its source has for this account, by the one row given if a credential was supplied; all other rows stay |
| Effects.DeleteAccountEffect | internal/store/acctmap.go:230-254 | which rows go, of one source or of all, and that the others stay |
| Effects.DeleteSourceEffect | internal/store/acctmap.go:611-636 | exactly the source and its rows go; other sources, their rows and the bindings of accounts with a row stay |
| Effects.WriteSourceEffect | internal/store/acctmap.go:491-607 | the row as given, the streak 0 for a new source and kept for an old one; refused exactly for another source's name |
| Effects.BindingEffect | internal/store/acctegress.go:86-109 | afterwards the account is bound to exactly these exits if it has a row, in this mode, and to none otherwise; other accounts keep theirs |
| Effects.PutLeavesExactly | internal/api/acctegress.go:94-136 | an accepted PUT leaves exactly the requested exits in the requested mode, sticky by default; a refused one changes nothing |
| Effects.DeleteLeavesNone | internal/api/acctegress.go:139-151 | a DELETE leaves the account no exit and other accounts theirs |
| Effects.AssignEffect | internal/store/acctegress.go:130-182 | the exit is bound by exactly the assigned accounts that have a row, each in the mode it had there or else the requested one; other exits' bindings stay |
| Effects.BatchLeavesExactly | internal/api/acctegress.go:168-239 | an accepted PUT of an exit's accounts leaves exactly those, in kept or requested modes; a refused one changes nothing |
| Effects.WriteExitEffect | internal/store/store.go:613-667 | the row as given; refused exactly for another exit's name or a bound exit's platform change |
| Effects.DeleteExitEffect | internal/store/store.go:694-707 | exactly the exit and its bindings go |
| Effects.RowsOnly | internal/store/acctegress.go:184-194 | pushes and cleared fingerprints leave sources and exits alone, and keep exactly the bindings of accounts with a row |
| PushMerge.PushMerges | internal/store/acctmap.go:148-225 | exactly one pushed row remains; each credential is the supplied one or the most recent non-empty one, with its hint; no kind of credential is lost |
| PushMerge.PushTwice | internal/store/acctmap.go:148-225 | repeating a push changes the timestamp only |
| PushMerge.PushKeepsBindings | internal/store/acctmap.go:148-225 | a push keeps every binding |
| ClearFingerprint.ClearAllIsFate | internal/store/acctmap.go:300-352 | the loop's result for each key depends only on the rows that can reach it and on their order |
| ClearFingerprint.ClearRemovesFp | internal/store/acctmap.go:273-376 | afterwards no row of the account has the fingerprint as access token, and as refresh token only where it was both |
| ClearFingerprint.SecondClearRemovesAll | internal/store/acctmap.go:296-304 | a second call removes the fingerprint completely |
| ClearFingerprint.ClearKeepsOthers | internal/store/acctmap.go:273-352 | rows of other accounts and rows that do not match stay, except an empty-refresh-token row that takes over a moved token |
| ClearFingerprint.MovedTokenSurvives | internal/store/acctmap.go:308-339 | a moved access token survives if and only if its new row does not match the fingerprint or was processed before |
| ClearFingerprint.SurvivesEveryOrder | internal/store/acctmap.go:308-339 | it survives in every processing order if and only if its new row does not match the fingerprint |
| ClearFingerprint.MovedTokenLost | internal/store/acctmap.go:308-339 | an input that loses the token in one order and keeps it in the other |
| ClearFingerprint.EmptyFpKeepsCredentials | internal/store/acctmap.go:273-352 | clearing the empty fingerprint moves no row and loses no credential |
| ClearFingerprint.ClearKeepsNonEmpty | internal/store/acctmap.go:300-352 | no row is left without a credential, in any processing order |
| Handlers.ValidateEgressIds | internal/api/acctegress.go:244-274 | accepted exactly if all IDs are live plain exits; the result has each ID once |
| Handlers.SameIdsSameBinding | internal/api/acctegress.go:244-274 | removing duplicates does not change the binding that is written |
| Handlers.PutAcctEgress | internal/api/acctegress.go:94-136 | the store afterwards is what the operation of the run model makes of it, and which answer: done, not found exactly for a well-formed request with an unknown account, otherwise bad request |
| Handlers.PutAcctEgressBatch | internal/api/acctegress.go:168-239 | the deduplicating loop writes what the operation of the run model makes of it; which answer, and the unknown accounts all listed, each once in order of first mention |
| Registry.Registry.Reload | internal/acctmap/acctmap.go:133-150 | the loop builds rows and both indices of exactly these entries |
| Registry.Registry.Lookup | internal/acctmap/acctmap.go:102-112 | reads the access token index first, then the refresh token index |
| Registry.IndexAgreesWithScan | internal/acctmap/acctmap.go:102-150 | with one entry per primary key a lookup equals a linear scan |
| Registry.LookupPrefersAtThenLater | internal/acctmap/acctmap.go:48-112 | a hit exactly if some entry matches; access token matches go first, then later entries |
| Registry.ReloadServesTable | internal/syncer/syncer.go:356-373 | after a reload from acct_map a lookup hits exactly if a stored row holds the fingerprint, whatever the loading order |
| Egress.NewTable | internal/acctegress/acctegress.go:42-61 | per account the stored exits in increasing order and the last non-empty mode |
| Egress.TableServesRows | internal/acctegress/acctegress.go:42-70 | an account is bound to exactly the exits it has a stored row for |
| Egress.LastModeServed | internal/acctegress/acctegress.go:42-61 | the mode served is that of the account's last row that has one |
| Egress.SharedModeServed | internal/acctegress/acctegress.go:40-56 | when all rows of an account share a mode, that mode is served |
| Egress.HighestScore | internal/server/ingress.go:1445-1450 | the loop finds the highest score, the lowest ID on ties |
| Egress.SelectBound | internal/server/ingress.go:1412-1453 | unbound exactly without exits in the binding; none enabled exactly if no bound exit is enabled and plain; otherwise one of those, in sticky mode the one with the highest score |
| Egress.ChoiceIsOrderFree | internal/server/ingress.go:1412-1451 | the choices over two exit tables and two lists of binding rows with the same members are of the same kind, and in sticky mode the same exit |
| Egress.RemovingOthersKeepsPick | internal/server/ingress.go:1412-1451 | removing, disabling or unbinding exits leaves the sticky choice as long as the chosen exit stays |
| Egress.AddingMovesOnlyToNew | internal/server/ingress.go:1412-1451 | adding, enabling or binding exits leaves the sticky choice or moves it to a new exit, and leaves it exactly if every new one loses to it |
| Egress.PreimagesDiffer | internal/server/ingress.go:1458-1461 | under one salt and identity, different exits are scored on different preimages |
| Egress.IdentitiesScoredApart | internal/server/ingress.go:1458-1461 | under one salt and for one exit, different identities are scored on different preimages |
| Routing.Select | internal/upstream/upstream.go:88-98 | the first entry with the name, if that one is enabled |
| Routing.DefaultExitIsNamed | internal/upstream/upstream.go:88-98 | with unique names: exactly the enabled entry of that name |
| Routing.Through | internal/server/ingress.go:1386-1404 | a URL exactly if the injector exists and succeeds, unchanged apart from socks5h becoming socks5; otherwise a configuration error |
| Routing.ResolveExit | internal/server/ingress.go:1341-1405 | a bound account leaves through one of its enabled plain exits with the URL as stored, or fails; others through the default exit, or directly only without a configured one |
| Routing.Resolve | internal/server/ingress.go:1300-1405 | the account is "-", "default" or the head of the identity's hash, each exactly in its cases; "no URL and no error" exactly for an allowed private target, the direct policy without a marker, or an unbound identity without a default exit; the rest as above |
| Routing.AccountOfRequest | internal/server/ingress.go:1307-1326 | the words "-" and "default" stand for exactly the two unmarked cases; every other request travels under the head of a hash of what identifies it, of the configured length clamped to 1..64, 16 by default |
| Routing.PreimageOfRequest | internal/server/ingress.go:1306-1326 | what is hashed: system salt, own salt once rotated, and the marker, mapped account, address or fixed word |
| Routing.KindsSeparate | internal/server/ingress.go:1307-1326 | two requests of one kind are hashed from the same text exactly if marker, mapped account or address are the same |
| Routing.ScoreOfExit | internal/server/ingress.go:1458-1461 | an exit's score is the hash of salt, identity and ID |
| Routing.DialableMeaning | internal/server/ingress.go:1368-1370 | socks5h in any spelling becomes socks5, and nothing else of the URL changes |
| Routing.RotationChangesPreimages | internal/server/ingress.go:1300-1326 | two salts give the same identity preimage, and the same score preimage, exactly if they are equal |
| Routing.FallbackKeysSeparate | internal/server/ingress.go:1248-1273 | requests without a key of their own have a salt key exactly under a session policy, and share one exactly under the same policy and, by address, from the same address |
| Routing.SaltKeysSeparate | internal/server/ingress.go:1240-1273 | a marker or account shares its salt with requests that have none exactly if it spells the reserved key, and with another marker or account exactly if they are equal |
| Routing.ReservedMarkerShares | internal/server/ingress.go:1248-1273 | an input for which the separation fails: a marker that spells the reserved default key |
| Routing.ExitReadsDerivedIdentity | internal/server/ingress.go:1386-1404 | end to end: the default exit reads back exactly the identity the router derived, unless its own user name hides it |
| Publish.ReloadCoversChange | internal/api/acctmap.go:46-56 | a commit that can change rows or bindings is always followed by the reload that covers it |
| Publish.StepOk | internal/syncer/direct.go:491-503 | every step keeps: each unpublished change is owed by a writer that will still read it |
| Publish.PublishedNeverGoesBack | internal/syncer/syncer.go:65-71 | in every interleaving published snapshots are committed versions and never go back |
| Publish.QuietMeansCurrent | internal/api/acctegress.go:23-40 | whenever no writer is between commit and end of reload, both snapshots equal the current tables |
| Publish.OwnCommitPublished | internal/syncer/direct.go:491-503 | a writer that leaves the lock has its own commit published |
| Serving.QuietServesTables | internal/api/acctmap.go:46-56 | with no writer between commit and reload, lookups hit exactly for current rows, and accounts are bound to exactly their current exits, all live plain ones |
| Serving.MappedRequestLeavesByCurrentExit | internal/server/ingress.go:1341-1405 | with no writer between commit and reload, a mapped request leaves through an enabled plain exit its account is bound to in the current tables, or is refused when there is none; without a current binding it is routed as an unbound one |
| SourceSteps.WithLockOk | internal/syncer/direct.go:201-213 | looking a lock up never disturbs one in use: as long as a source lives all its workers share one lock object |
| SourceSteps.JobCommitOk | internal/syncer/direct.go:262-283 | committing an update or a deletion invalidates nothing that any other agent has read and may still commit |
| SourceSteps.RegisterOk | internal/syncer/direct.go:119-147 | a new reader is registered only when no other is, and from the configuration in force |
| SourceSteps.StepOk | internal/syncer/direct.go:48-147 | every step of every agent keeps the invariant |
| SourceRuns.CommitsAreFresh | internal/syncer/syncer.go:201-260 | in every interleaving each committed snapshot or delta was fetched under the configuration in force at its commit: a snapshot from a URL, a delta by a reader of an enabled source that names its path |
| SourceRuns.ReadersAreWanted | internal/syncer/direct.go:48-147 | whatever reader is alive, its source is there, enabled and names the path of its kind, and has the configuration the reader was built from |
| SourceRuns.StopsAreComplete | internal/syncer/direct.go:66-86 | once a job has stopped its readers, none is alive of the source it updates or deletes, none concerned by a forced reconciliation, and at shutdown none at all |
| SourceRuns.UpdateIsReconciled | internal/syncer/direct.go:262-283 | however an update ends, its source is reconciled by force before the mutex is left |
| SourceRuns.DeletionDropsLock | internal/syncer/direct.go:239-257 | after a deletion exactly the lock object of its source is dropped |
| SourceRuns.ListTakesOnly | internal/syncer/direct.go:66-80 | a reconciliation takes out readers it concerns only, and an unforced one none that is alive |
| SourceRuns.OneStopAtATime | internal/syncer/direct.go:82-86 | readers are stopped one after the other, except at shutdown |
| SourceRuns.StillDirectNeverFails | internal/syncer/direct.go:436-449 | the second look at the stored row never fails for a reader that is alive: the locks alone keep its configuration in force |
| SourceShutdown.CancelledCommitsNothing | internal/syncer/direct.go:399-410 | a reader cancelled before it looks at its context never commits again |
| SourceShutdown.ShutdownIsFinal | internal/syncer/direct.go:226-237 | after a shutdown has entered, and until the manager runs again, readers are alive only while the shutdown is still stopping them |
| SourceRuns.OneReaderPerSource | internal/syncer/direct.go:119-147 | at most one reader of a source is alive |
| SourceRuns.OneWorkerPerSource | internal/syncer/direct.go:201-283 | synchronisations, readers, updates and deletions of one live source never overlap |
| SourceRuns.NothingAfterDeletion | internal/syncer/direct.go:239-257 | once a deletion has committed nothing of that source is ever committed again, although its lock object is dropped |
| Provenance.LifeSeesStoredConfig | internal/syncer/syncer.go:205-226 | in every joint run of life cycle, tables and secrets, the configuration the life cycle works with is the stored one |
| Provenance.RowsAreFresh | internal/syncer/syncer.go:201-260 | in every joint run a row of a source belongs to a live source, and its credentials were supplied by the last snapshot or delta that replaced the rows of its account, which was fetched under the configuration in force at its commit |
| JointRuns.SomeRunWritesRows | internal/syncer/syncer.go:201-260 | for every source with a URL and a key and every account with a credential there is a run that commits its row |
| JointRuns.SomeRunAppliesDelta | internal/syncer/direct.go:399-434 | for every enabled source with a DSN and every account with a credential there is a run in which a reconciliation starts the source's reader and the reader commits a delta |
| SourceProgress.NoDeadlock | internal/syncer/direct.go:215-283 | in every reachable state, as long as a thread has something under way (a source lock, the reconcile mutex, the map-change lock taken inside a source lock), some step of work under way is enabled |
| SourceTermination.AdvanceLowers | internal/syncer/direct.go:215-283 | every such step lowers a lexicographic measure of the work left, so none can be repeated for ever |
| SourceTermination.WorkEnds | internal/syncer/direct.go:48-283 | from every reachable state such steps alone bring every thread to its end |
| LogWriter.Flush | internal/store/store.go:790-801 | the buffer becomes one batch, an empty buffer none |
| LogWriter.Append | internal/store/store.go:826-829 | an entry is buffered and a full buffer written, keeping order and bounds |
| LogWriter.Drain | internal/store/store.go:804-823 | draining keeps conservation and order and returns with an empty buffer |
| LogWriter.RunLogWriter | internal/store/store.go:780-837 | for every script of arrivals, ticks, cancellation and close: batches and buffer are the received entries in order, batches have 1 to 256 entries, the buffer is empty at return; while it runs nothing received before a tick is still buffered, and batches that are not full are written only at ticks and at the end |
| LogWriter.EntriesKeepOrder | internal/store/store.go:802-836 | until the channel closes or the context is cancelled every received entry counts, in order |

## Left out

- HTTP, TLS and SOCKS transport, tunnels, DNS, certificates, file watching, SQL and PostgreSQL internals, logging, metrics and the web UI: input/output or library behaviour. A transaction is one atomic step, and a failed one changes nothing.
- `DeleteSourceRows` (internal/store/acctmap.go:379-386): it skips the binding clean-up and serves no handler.
- The persistence of salts: rotation and the write queue are not one step, and restored rows are seeded newest first, so neither agreement with the database nor the use order after a restart is claimed.
- Collisions of identities from different namespaces: the derivation concatenates without a separator, so only preimages of one identity are compared.
- "All rows of an account share a mode" is not an invariant: assigning an exit consults only modes stored for that exit. What the table serves then (the last non-empty mode in row order) is specified instead.
- Egress.SelectBound: in random mode says no more than that some enabled plain bound exit is picked.
- Store.Store.ClearAcctMapFp: the query that finds the rows runs before the transaction in the source; here query and transaction are one step.
- Handlers.PutAcctEgress: the check of the exits and the commit are one step; `StoreRuns.BindingNeedsPlainExits` says exactly what happens otherwise.
- Handlers.PutAcctEgressBatch: as for the single handler, check and commit are one step.
- Store.Store.ReplaceEgressAccounts: the source remembers earlier modes under platform and account joined by a NUL character; here under the pair.
- Tables.SrcNameInjective: rows are matched to sources by ID where the source compares rendered names; this lemma is why that is the same.
- Publish.QuietMeansCurrent: reads are assumed to succeed; the publication of the exit table and the registry's own reload mutex are not modelled.
- SourceRuns.CommitsAreFresh: listing the sources and choosing which readers to stop is one step: readers change only under the reconcile mutex, and so do sources, except that new ones are created without it; one created in between has no reader yet and is reconciled by its own handler.
- SourceProgress.NoDeadlock: fetches are assumed to end, and the scheduler is not modelled.
- Provenance.RowsAreFresh: an update's row names either no DSN or the source's own, as the row its caller read did; a transaction and its entry in the ledger are one step.
- Secrets.RunKeepsSecrets: other users of the secrets table, under other names, are not part of it.
- The LRU library's lookup and store are modelled by their documented behaviour on a recency list; salts are unbounded integers, so the wrap-around after 2^63 rotations is not modelled.
- Routing.Resolve: whether a target is private or resolvable enters as the outcome of the check; the checks themselves are library parsing and DNS.
- Text is a sequence of characters, not of UTF-8 bytes; trimming follows Go's Unicode white space.
- URLs are kept as parsed parts: user info, scheme, host and the rest; percent-encoding is not modelled.
- Settings validation, login and sessions, pagination, access lists and credential normalisation: mostly single-branch facts or library parsing.
