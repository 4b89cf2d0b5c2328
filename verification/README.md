# Verified model of Insightics

Insightics answers questions about a Postgres database: a model writes a plan, a guard admits or
refuses its SQL, a read-only transaction runs it, and streams keep a result live. This project models
the logic that decides what may happen on the way and proves what that logic is for, over all inputs,
all schedules and all runs.

The model keeps the form of the code. What the code computes by expressions is a function; what it
computes by updating variables is a method with loops and invariants; the objects that live across
calls are classes (`StreamStore.MemoryStreamStore`, `Limiter.Limiter`, `Streams.Hub`, `Runner.Corpus`,
`SqlGuard.Scan`, `SqlGuard.SelectNode`, `GlossaryGate.Gate`, `Transactions.Client`). Each method is
proved against a specification function or relation, and the results below are proved about that
specification; a class method's contract is the link between the two. Modules named `...Account` say what the
specification comes to without its own words: of inputs and answers, events and runs, paths and texts.

| modules | what they cover |
|---|---|
| `Text`, `Numbers`, `Framing`, `CacheKey`, `CacheKeyAccount` | text and arithmetic shared by several components, the length-prefix encoding, and the three cache-key preimages built on it |
| `Compare`, `CompareAccount`, `Runner` | the result comparator and the bounded, capped corpus runner |
| `Streams`, `StreamsAccount`, `StreamStore`, `StreamStoreAccount`, `Limiter`, `LimiterAccount` | the live-stream protocol, its token store, and the rate limiter |
| `SqlTypes`, `SqlGuard`, `GuardPaths` | the syntax-tree walk, the policy, the row cap and the second inspection |
| `Terms`, `TermsAccount`, `Tiling`, `Glossary`, `GlossaryAccount` | words, phrases and the leftmost-longest expansion of a question |
| `Fragment`, `FragmentAccount`, `Pieces`, `GlossaryRender`, `GlossaryRenderAccount`, `GlossaryCheck`, `GlossaryCheckAccount`, `GlossaryGate` | glossary fragments: lexing, reading as written, rendering, validating, vetting |
| `Schema`, `Ranking`, `Retrieve`, `RetrieveAccount`, `TableLayout` | tables ranked and chosen for a prompt, and the DDL they are shown as |
| `Planner`, `PlannerAccount`, `Sentences`, `Narrow`, `NarrowAccount`, `Pipeline` | the repair loop, what crosses the wire, and plan-to-guard |
| `SessionPreamble`, `Transactions`, `Statements`, `StoreSql` | the sealed read and write transactions, and the statements of the query store |
| `AxisScale` | chart axes |
| `Misreading`, `GuardWitness`, `LimiterWitness`, `StreamsWitness` | inputs and runs on which a promise fails |

## What turned out not to hold

Nine promises fail on some inputs. In each case the model keeps the code as it is; a lemma says when the promise
holds, and another exhibits inputs on which it does not.

- The planner's fall-through failure, meant to be unreachable, is reachable exactly when the cap on attempts is not
  a whole number (`Planner.RunsOutExactlyForFractions`, whose proof exhibits a run).
- String literals are emptied before quoted names are read, so an apostrophe in a quoted name can open a literal
  nobody wrote. Take an expression of plain text, literals and quoted names that Postgres reads as they are written:
  in its plain text nothing opens a dollar quote or a comment or makes `E'...'` or `U&"..."` of what follows
  (`Pieces.Separate`). It is read as it is written exactly when emptying the literals changes nothing but the
  literals (`Pieces.ReadAsWrittenExactlyWhen`), as when no quoted name has an apostrophe
  (`Pieces.NamesWithoutApostrophes`). Otherwise two names can be read as one (`Misreading.TwoNamesReadAsOne`), a name
  loses what a literal in it says (`Misreading.QuotedNameMisread`), and text between a name and a literal can go
  unread altogether, so that an undeclared name passes (`Misreading.TextBetweenIsHidden`,
  `Misreading.UndeclaredNamePasses`). Dollar quotes and escaped literals are not known to the code at all: an
  apostrophe in one hides what follows it up to the next (`Misreading.DollarQuotesHide`,
  `Misreading.EscapedQuoteHides`).
- The clamp inserts a node at depth five, so a policy with a lower depth limit refuses every statement it
  clamps (`SqlGuard.ClampKeepsAcceptance`, `SqlGuard.SecondPassAgrees`, `GuardWitness.ShallowPolicyRefusesItsOwnClamp`).
- The clamp keeps the list of tables exactly when the limit it overwrites names none
  (`SqlGuard.ClampKeepsAcceptance`). The tree of `GuardWitness.ClampCanLoseATable`, on which it does not, is one an
  arbitrary parser may return; the parser of Postgres does not.
- A new identity is swept at birth exactly when the limiter is full and every other entry is busy or cooling down
  (`Limiter.NewIdentityIsKept`, `LimiterWitness.FullAndBusyForgets`).
- After a token refusal, waiting the advertised time admits the identity exactly when the burst is at least one
  (`Limiter.WaitingClearsTokens`, `LimiterWitness.SmallBurstNeverAdmits`).
- A result that cannot be converted sets the error count back first, so such results close a stream only when one
  error is enough (`Streams.UnconvertibleDoesNotAccumulate`, `StreamsWitness.TwoInARowStayOpen`).
- Inside one part of a cache-key preimage the separators are plain, and two different references can share a text
  (`CacheKey.RefTextCollides`). References whose names hold no separator share a text exactly when they are alike
  (`CacheKey.RefTextUnique`), and glossaries of such references a preimage exactly when they say the same
  (`CacheKey.PlainGlossariesUnique`).
- A composed statement may hold a second command behind a semicolon, and that may be COMMIT
  (`Statements.AnyStatementCanCarryCommit`). A statement that is plainly written, in pieces that Postgres reads as
  they stand, and has no semicolon outside its literals and quoted names cannot end the transaction it runs in
  (`Statements.StatementsLeaveTheTransaction`), and a write transaction is sealed for bodies that keep to those
  (`Statements.SealedWrite`). To look for semicolons outside what stands between apostrophes would not be enough
  (`Statements.ApostrophesHideCommit`). The statements of the query store are of that kind whatever the payloads say,
  so its transactions are sealed (`StoreSql.SaveSays`, `StoreSql.StoreTransaction`). COMMIT follows whenever the body
  returns, also when the body swallowed a failed statement (`Transactions.FailureCanBeSwallowed`); those of the store
  do not.

## Model

| member | source | states |
|---|---|---|
| Framing.Utf8Injective | packages/core/src/store/key.ts:9-12 | what is hashed is bytes: two well-formed texts with the same bytes are the same text |
| Framing.DecimalInjective | packages/core/src/store/key.ts:14-16 | a length written in decimal names one number |
| Framing.FramedInjective | packages/core/src/store/key.ts:14-20 | a text behind its own length can be cut off any continuation in one way only |
| Framing.PartCancel | packages/core/src/store/key.ts:14-16 | a labelled part is told from whatever follows it, whatever the value contains |
| Framing.PartsInjective | packages/core/src/store/key.ts:14-20 | any number of parts decodes uniquely |
| CacheKey.ListInjective | packages/core/src/store/key.ts:18-20 | a list of any length decodes to its elements |
| CacheKey.GlossaryPreimageUnique | packages/core/src/store/key.ts:62-77 | two glossaries have one preimage if and only if they have the same entries, part for part, and none is told from an empty one |
| CacheKey.RefTextCollides | packages/core/src/store/key.ts:70-73 | two different references with the same text: uniqueness stops at the parts |
| CacheKey.RefTextUnique | packages/core/src/store/key.ts:70-73 | references without a separator in their names share a text if and only if schema, table and columns agree, no schema counting as the empty one and no columns as one empty column |
| CacheKey.PlainGlossariesUnique | packages/core/src/store/key.ts:62-77 | glossaries of such references have one preimage if and only if they say the same, entry by entry and reference by reference |
| CacheKey.ColumnRunEnds | packages/core/src/store/key.ts:30-55 | where a table's columns end is determined by the text |
| CacheKey.TablesPartsInjective | packages/core/src/store/key.ts:36-55 | a run of tables of any length decodes table by table |
| CacheKey.SchemaPreimageUnique | packages/core/src/store/key.ts:30-60 | tables in digest order and sorted links give one preimage if and only if every part of every table, in order, and every link agree |
| CacheKey.SchemaTextUnique | packages/core/src/store/key.ts:53-60 | for any sorts by name and by text, two catalogs are hashed from one text if and only if their sorted tables agree part for part and they have the same links as often, in whatever order |
| CacheKey.ListingOrderDoesNotMatter | packages/core/src/store/key.ts:53-60 | the order in which a catalog lists tables and links does not reach the digest while no two table names compare equal |
| CacheKey.PreimageDecodes | packages/core/src/store/key.ts:79-98 | equal preimages if and only if question, both digests, planner version, maxRows and guidance agree, null guidance counting as empty |
| CacheKey.EqualKeys | packages/core/src/store/key.ts:79-98 | where the hash does not collide, two requests share a cache row if and only if they agree in question, sorted tables, links, glossary, planner version, maxRows and guidance; for references without separators agreeing in the glossary means that it says the same |
| CacheKeyAccount.TableShapesUnique | packages/core/src/store/key.ts:30-45 | lists of tables whose names hold no separator have the same parts if and only if they agree table by table and column by column |
| CacheKeyAccount.LinksUnique | packages/core/src/store/key.ts:47-60 | foreign keys whose names hold no separator have the same texts, as often, if and only if they are the same, as often |
| CacheKeyAccount.EqualKeysMeanAlike | packages/core/src/store/key.ts:79-98 | where no name holds a separator and the hash does not collide, two requests share a row if and only if they are alike in everything a key is about |
| Compare.NormaliseSeparates | packages/eval/src/compare.ts:9-36 | two cells normalise alike if and only if both are numbers with one quantised text, or neither is and they are equal |
| Compare.KeyInjective | packages/eval/src/compare.ts:38-44 | a row key determines the row, whatever its cells contain |
| Compare.KeysDecideRows | packages/eval/src/compare.ts:77-90 | comparing keys as a multiset is comparing rows as a multiset |
| Compare.Tally | packages/eval/src/compare.ts:89-90 | the map counts every key as often as it occurs and holds no other |
| Compare.LeftIsDifference | packages/eval/src/compare.ts:91-96 | spending keys one at a time leaves the multiset difference |
| Compare.UnpairedCount | packages/eval/src/compare.ts:91-98 | as many rows stay unmatched as the difference has elements, so none stays exactly when nothing is surplus |
| Compare.UnpairedStartsWithExtra | packages/eval/src/compare.ts:91-98 | the first unmatched row is surplus, and no row before it is |
| Compare.Spend | packages/eval/src/compare.ts:91-96 | the loop leaves the difference in the map and lists the rows that found no partner |
| Compare.FirstRemaining | packages/eval/src/compare.ts:99-100 | the search always finds a row, that row really is missing from the other side, and it is the first such |
| Compare.CompareInOrder | packages/eval/src/compare.ts:80-88 | equal if and only if the sequences are; otherwise the row named is the first difference |
| Compare.CompareUnordered | packages/eval/src/compare.ts:89-105 | equal if and only if the multisets are; otherwise both indices named are of surplus rows |
| Compare.ResultSetsEqual | packages/eval/src/compare.ts:51-106 | equal if and only if the sets are of one rectangular shape with the same normalised rows in the asked sense; a failure points at real evidence |
| Compare.SameReflexive | packages/eval/src/compare.ts:51-106 | a set equals itself if and only if it is rectangular |
| Compare.SameSymmetric | packages/eval/src/compare.ts:51-106 | the decided relation is symmetric |
| Compare.SameTransitive | packages/eval/src/compare.ts:51-106 | the decided relation is transitive |
| Compare.OrderedImpliesUnordered | packages/eval/src/compare.ts:77-105 | whatever is equal in order is equal out of order |
| CompareAccount.CellsMean | packages/eval/src/compare.ts:8-35 | two cells count as the same if and only if both are read as numbers and are the same number, or two that print alike, or neither is and they are equal |
| CompareAccount.SameMeans | packages/eval/src/compare.ts:54-106 | two result sets are the same if and only if they have the same shape and their rows agree cell by cell, as they stand or after some pairing of the rows |
| Runner.RunCase | packages/eval/src/runner.ts:30-66 | at most maxAttempts attempts; every attempt but the last met a transient error; the last decides the result, which reports its verdict, cost and text or its error; the back-offs are 600 ms and then double |
| Runner.Corpus.Loop | packages/eval/src/runner.ts:91-105 | a worker's turn as one step of the interleaving: it skips what the abort forbids, claims one case, or ends |
| Runner.Corpus.OnSettled | packages/eval/src/runner.ts:98-105 | a settled case is recorded at its index, the costUsd it reports is added to the total, the cap is tested, and the worker takes its next turn: over a run `Runner.RunTotal` |
| Runner.EveryScheduleKeeps | packages/eval/src/runner.ts:79-110 | under every schedule each claimed case is in one worker's hands or recorded at its own index, unclaimed ones nowhere, and the total is the sum of the recorded costs |
| Runner.FinishedRun | packages/eval/src/runner.ts:79-111 | a finished run has every result at its own index, skipped exactly when never started, each case started once, the total is the sum, and without an abort every case ran |
| Runner.ResultsAreDelivered | packages/eval/src/runner.ts:91-105 | in a finished run each index holds the very result that was reported for that claim, also where cases share an id, or the skip if none was |
| Runner.SchedulesAreFinite | packages/eval/src/runner.ts:79-110 | no schedule has more steps than workers to launch and cases to record |
| Runner.SomeStepIsEnabled | packages/eval/src/runner.ts:79-110 | until the run is over some worker can be launched or some case under way can settle |
| Runner.NothingStartsAfterAbort | packages/eval/src/runner.ts:91-105 | the abort is final and no case starts after it, in every schedule |
| Runner.CapBoundsTotal | packages/eval/src/runner.ts:79-110 | with a cap and costs in [0, M] the total stays below cap + workers * M, and the run aborts exactly when the cap is reached |
| Runner.RunTotal | packages/eval/src/runner.ts:84-111 | in every run the total is the sum of the costUsd the settled results report, nothing for those that report none; the run is aborted if and only if that sum had reached the cap after some case |
| Runner.WorkersLaunched | packages/eval/src/runner.ts:107-108 | there are as many workers as allowed, at least one, or as there are cases |
| Runner.NoAbortNoSkip | packages/eval/src/runner.ts:98-101 | no case is skipped as long as there is no abort |
| StreamStore.MemoryStreamStore.Drop | packages/server/src/store.ts:26-30 | the sweep removes exactly the expired records, in place and in order |
| StreamStore.MemoryStreamStore.Issue | packages/server/src/store.ts:33-46 | the whole state after issuing: sweep, the identity's oldest records evicted to its cap, then the oldest of all to the total, then the new record last |
| StreamStore.MemoryStreamStore.Get | packages/server/src/store.ts:48-56 | answers with the record unless it has expired, and drops it then |
| StreamStore.MemoryStreamStore.CountFor | packages/server/src/store.ts:62-67 | counts the identity's live records |
| StreamStore.StepRefines | packages/server/src/store.ts:23-73 | one operation on the lazy store and on one that expires at once: same answer, same live records, same evictions |
| StreamStore.LazyRefinesEager | packages/server/src/store.ts:23-73 | the same over every run whose clock does not go back |
| StreamStore.RunStaysBounded | packages/server/src/store.ts:33-46 | no run passes maxTotal records or maxPerIdentity per identity, expired ones included |
| StreamStore.EveryRun | packages/server/src/store.ts:23-73 | from the empty store both hold of every run |
| StreamStoreAccount.IssueKeeps | packages/server/src/store.ts:33-46 | after a token is issued: of the records not expired, less the identity's oldest when it has all it may have, the last maxTotal - 1 stay, in order, and the new one is put with them |
| StreamStoreAccount.GetMeans | packages/server/src/store.ts:48-56 | a get answers a record if and only if it is there under that token and has not expired |
| StreamStoreAccount.LiveKeepsOrder | packages/server/src/store.ts:26-30 | what a sweep keeps is what expires later, in its order |
| StreamStoreAccount.MineCounts | packages/server/src/store.ts:62-67 | the count of an identity is the number of its records |
| Limiter.SweepIsDetermined | packages/server/src/limits.ts:97-107 | dropping idle, unblocked, least recently seen entries until the map fits leaves one possible result |
| Limiter.Limiter.LeastRecentIdle | packages/server/src/limits.ts:99-105 | the loop finds the first idle entry seen longest ago, or there is none |
| Limiter.Limiter.SweepMap | packages/server/src/limits.ts:97-107 | the map after a sweep satisfies that description, and nothing else changes |
| Limiter.Limiter.EntryFor | packages/server/src/limits.ts:109-126 | finds the tracked entry or tracks a fresh full one, then sweeps |
| Limiter.Limiter.Admit | packages/server/src/limits.ts:135-174 | every admission is a step of the specification and keeps the books |
| Limiter.Limiter.Release | packages/server/src/limits.ts:165-172 | so is every release, the second call on one grant included |
| Limiter.Limiter.Strike | packages/server/src/limits.ts:176-184 | so is every strike; what it answers and blocks is stated by the lemmas of `LimiterAccount` |
| Limiter.EveryRunKeeps | packages/server/src/limits.ts:89-190 | in every run: active() is the number of unreleased grants and within maxConcurrent, each entry's counter is its own grants, tokens stay in [0, burst], and the map is within maxTrackedIdentities |
| Limiter.ReleaseKeeps | packages/server/src/limits.ts:165-172 | a release gives back exactly one slot, the floor at zero is never used, and a second release of the grant does nothing |
| Limiter.NextConserves | packages/server/src/limits.ts:128-174 | tokens held plus admissions granted is changed by nothing but the passing of time |
| Limiter.CreditConserved | packages/server/src/limits.ts:128-174 | over a window of any run that sum grows by no more than the burst and what the window earns |
| Limiter.AdmissionRate | packages/server/src/limits.ts:128-174 | an entry is admitted at most burst + T * questionsPerMinute / 60000 times in any window of T ms |
| Limiter.TrackedIdentityRate | packages/server/src/limits.ts:128-174 | the same for an identity that holds one entry through the window, counted in what callers were answered |
| Limiter.NextMaps | packages/server/src/limits.ts:109-126 | an entry is only ever on the map under the identity it was created for, and once dropped does not come back |
| Limiter.CooldownRunsItsCourse | packages/server/src/limits.ts:97-107 | a tracked cooldown is never swept early, and every admission asked for before its end is refused by it |
| Limiter.WaitingClearsTokens | packages/server/src/limits.ts:151-162 | waiting the advertised seconds, with no call between, admits the identity if and only if burst is at least one |
| Limiter.WaitingClearsCooldown | packages/server/src/limits.ts:135-144 | after the advertised wait the cooldown no longer refuses |
| Limiter.PruningDecidesAlike | packages/server/src/limits.ts:176-184 | the pruned strike list trips exactly when the full history would, at every later strike |
| Limiter.StrikesFollowHistory | packages/server/src/limits.ts:176-184 | in every run each strike's answer is what all strikes on its entry since its last cooldown give |
| Limiter.StrikesOnlyByStrike | packages/server/src/limits.ts:176-184 | only a strike on the entry touches its list, and it does so as that list says |
| Limiter.NewIdentityIsKept | packages/server/src/limits.ts:119-125 | a new identity stays tracked if and only if there is room or an idle entry to drop |
| LimiterAccount.TrippedBlocks | packages/server/src/limits.ts:176-184 | in every run: once a strike has tripped and its identity is tracked, every admission of it asked for within blockMs is refused for the cooldown |
| LimiterAccount.CooldownHasCause | packages/server/src/limits.ts:135-144 | in every run an admission is refused for a cooldown only if a strike of the same identity tripped less than blockMs before |
| LimiterAccount.TripsOnCount | packages/server/src/limits.ts:176-184 | in every run a strike trips if and only if it is at least the securityStrikes-th on its entry inside the window and since the last that tripped |
| LimiterAccount.AdmissionDecided | packages/server/src/limits.ts:135-174 | an admission is granted if and only if no cooldown is on, fewer than maxConcurrent grants are unreleased, fewer than maxConcurrentPerIdentity of its entry, and the bucket holds a token; the first of these that fails is the reason |
| LimiterAccount.TokensNotSooner | packages/server/src/limits.ts:151-162 | no admission is granted a whole second or more before the advertised time |
| LimiterAccount.CooldownNotSooner | packages/server/src/limits.ts:135-144 | nor is a cooldown over so early |
| LimiterAccount.SeenWhenLastNamed | packages/server/src/limits.ts:109-126 | in every run the time a sweep goes by is that of the last call that named the identity |
| LimiterAccount.BusyStaysOnMap | packages/server/src/limits.ts:97-107 | an identity with an unreleased grant stays tracked whoever else arrives |
| LimiterWitness.FullAndBusyForgets | packages/server/src/limits.ts:119-125 | a run to a limiter full of callers at work, in which the next identity is off the map at once |
| LimiterWitness.SmallBurstNeverAdmits | packages/server/src/limits.ts:151-162 | with a burst under one, a run that is refused for want of a token, and again however long after the advertised wait |
| Streams.EveryInterleaving | packages/server/src/subscribe.ts:48-278 | in every interleaving of subscribes, ticks, read ends, aborts, cancels, displacement and shutdown: the registry holds exactly the started, unclosed streams, at most one per token, within maxTotal and maxPerIdentity; an open stream has exactly one of an armed timer and a running tick; at most one closed frame is sent and it is the last |
| Streams.SubscribeKeeps | packages/server/src/subscribe.ts:135-278 | the admission section keeps all of that, on every path through it |
| Streams.TakeKeeps | packages/server/src/subscribe.ts:51-56 | taking a token displaces its stream and registers the new one within both caps |
| Streams.DisplaceCommutes | packages/server/src/subscribe.ts:51-56 | displacing before the new stream exists and after come to the same |
| Streams.TickKeeps | packages/server/src/subscribe.ts:214-233 | a tick starts its read, re-arms or ends the stream, and leaves no stream without its one timer or tick |
| Streams.ResumeKeeps | packages/server/src/subscribe.ts:233-252 | so does the end of a read, however it ends |
| Streams.LateEventIsHarmless | packages/server/src/subscribe.ts:57-59 | a late event of a closed stream touches neither the registry nor any other stream: a displaced stream never removes its replacement |
| Streams.ClosedIsFinal | packages/server/src/subscribe.ts:160-210 | once closed, a stream sends nothing and starts no read, ever after |
| Streams.RejectionsClose | packages/server/src/subscribe.ts:244-250 | in every reachable state, a stream whose last maxConsecutiveErrors reads were rejected is closed |
| Streams.LastRejectionFails | packages/server/src/subscribe.ts:244-250 | the rejection that completes the run sends an error frame and closes the stream as failed |
| Streams.UnconvertibleDoesNotAccumulate | packages/server/src/subscribe.ts:235-250 | a result that cannot be converted closes the stream if and only if one error suffices |
| StreamsWitness.TwoInARowStayOpen | packages/server/src/subscribe.ts:235-250 | a trace with two such results in a row, where two errors in a row are one too many, after which the stream is open |
| Streams.ReadsAreBounded | packages/server/src/subscribe.ts:214-252 | with timers never early, a stream starts at most ceil(maxDurationMs / intervalMs) reads |
| Streams.ShutdownClosesAll | packages/server/src/subscribe.ts:66-69 | shutdown closes every stream, and the final clear finds the registry empty |
| Streams.ClampInterval | packages/server/src/config.ts:244-248 | the interval granted is at least 1 ms and within half a millisecond of the configured bounds, of the interval asked for where that is within them, and of the default where none is |
| Streams.Hub.CountFor | packages/server/src/subscribe.ts:60-64 | counts the identity's registered streams |
| Streams.Hub.TakeToken | packages/server/src/subscribe.ts:51-56 | the whole registry and all streams after a take |
| Streams.Hub.FinishStream | packages/server/src/subscribe.ts:186-210 | the whole state after a finish: once only, timer cleared, last frame, own registration released |
| Streams.Hub.OnTick | packages/server/src/subscribe.ts:214-233 | the whole state after a tick's synchronous part |
| Streams.Hub.OnRead | packages/server/src/subscribe.ts:233-252 | the whole state after a read ends |
| Streams.Hub.OnTimer | packages/server/src/subscribe.ts:212-233 | a timer that runs out is a step of the protocol |
| Streams.Hub.OnKeepalive | packages/server/src/subscribe.ts:267-270 | so is the keepalive interval |
| Streams.Hub.OnAbort | packages/server/src/subscribe.ts:184-210 | so is an abort of the request |
| Streams.Hub.OnCancel | packages/server/src/subscribe.ts:273-275 | so is the consumer's cancelling |
| Streams.Hub.OnStart | packages/server/src/subscribe.ts:254-273 | the start callback: registers, then finishes at once if aborted, and otherwise opens, arms the keepalive and ticks |
| Streams.Hub.HandleSubscribe | packages/server/src/subscribe.ts:135-278 | one subscribe request, the state it leaves, invariant kept, and its answer: opened if and only if there is room for all and for this identity and the token is its own, and otherwise nothing changes |
| Streams.Hub.Shutdown | packages/server/src/subscribe.ts:66-69 | shutdown leaves the registry empty and every stream closed |
| Streams.SubscribeAnswers | packages/server/src/subscribe.ts:135-147 | the answer to a request: busy if and only if as many streams are open as there may be, too many if and only if there is room but not for this identity, opened if and only if there is room for both and the token is the identity's own, and otherwise expired; any answer but opened leaves everything as it was |
| StreamsAccount.OpenStreamsAreCapped | packages/server/src/subscribe.ts:135-142 | in every reachable state at most maxTotal streams are open, and at most maxPerIdentity of one identity, counted as streams and not as registrations |
| StreamsAccount.EveryStreamWasAskedFor | packages/server/src/subscribe.ts:144-151 | every stream in every reachable state was opened by a request for its token by its identity, to whom the token belongs, made when there was room |
| StreamsAccount.StepOpens | packages/server/src/subscribe.ts:254-273 | a request that is answered with a stream opens exactly that one, sent what its start calls for; no other event opens any |
| StreamsAccount.StepOnOne | packages/server/src/subscribe.ts:160-275 | what any event does to any open stream, from the event alone: whether it ends, what the client is sent and with which reason, and what it then waits for and until when |
| StreamsAccount.EveryStreamIsAccounted | packages/server/src/subscribe.ts:160-252 | in every reachable state a client that is there has been sent the opening and then, in order, one snapshot or error for each read that ended with one; a client that has left, the first of them |
| SqlGuard.VisitAllMeaning | packages/sql-guard/src/guard.ts:42-84 | the stateful scan ends without denial if and only if every site passes; then tables is the pre-order list of table references and cteNames every CTE name; otherwise it reports the first fault |
| SqlGuard.Scan.Walk | packages/sql-guard/src/guard.ts:42-84 | the recursive walk with its early exits and mutable record is that scan over all sites of the tree, which by `GuardPaths.SitesAreReached` are those at its paths |
| SqlGuard.Scan.CheckFunction | packages/sql-guard/src/guard.ts:25-40 | denies exactly the functions whose name is not allowed |
| SqlGuard.ApplyPolicy | packages/sql-guard/src/guard.ts:86-101 | no denial if and only if every table that is not a CTE is in an allowed schema and not a denied table |
| SqlGuard.InspectionMeans | packages/sql-guard/src/guard.ts:103-147 | a tree passes if and only if it is one SELECT all of whose sites pass and whose tables the policy allows |
| SqlGuard.Inspect | packages/sql-guard/src/guard.ts:103-147 | text, parse failures and each denial in the order they are tested |
| SqlGuard.SelectNode.ApplyRowCap | packages/sql-guard/src/rowcap.ts:37-64 | the in-place clamp: what it answers and every field it leaves |
| SqlGuard.CapIsPresent | packages/sql-guard/src/rowcap.ts:10-64 | after the clamp the static limit read back is the one answered, at most maxRows, and clamping again changes nothing |
| SqlGuard.ClampKeepsAcceptance | packages/sql-guard/src/rowcap.ts:61-63 | an accepted tree stays accepted if and only if maxDepth is at least 5, with the same tables if and only if the overwritten limit named none |
| SqlGuard.SourceListsKnowLimits | packages/sql-guard/src/allowlist.ts:1-171 | the allowlists admit the nodes the clamp inserts |
| GuardWitness.ShallowPolicyRefusesItsOwnClamp | packages/sql-guard/src/rowcap.ts:37-64 | a bare SELECT that passes under a depth limit of two to four, is clamped, and passes no more |
| GuardWitness.ClampCanLoseATable | packages/sql-guard/src/rowcap.ts:10-64 | an accepted tree whose overwritten limit names a table, which is gone after the clamp |
| GuardWitness.SourceListsShowBoth | packages/sql-guard/src/rowcap.ts:10-64 | both happen with the allowlists the guard comes with |
| SqlGuard.GuardWith | packages/sql-guard/src/guard.ts:155-193 | the whole verdict, for arbitrary parse and deparse |
| SqlGuard.AllowedMeans | packages/sql-guard/src/guard.ts:155-193 | whatever parse and deparse do, an ok verdict's SQL parses to one SELECT that passes every check and the policy, with those tables and a static limit of at most maxRows |
| SqlGuard.GuardIsStable | packages/sql-guard/src/guard.ts:155-193 | if parsing undoes deparsing, guarding the emitted SQL returns the identical verdict |
| SqlGuard.SecondPassAgrees | packages/sql-guard/src/guard.ts:155-193 | if parsing undoes deparsing, the second inspection refuses a clamped tree exactly when the depth limit is under 5 |
| GuardPaths.SitesAreReached | packages/sql-guard/src/guard.ts:42-84 | the sites of a tree are exactly those at its paths, a path going through any items of arrays and any properties |
| GuardPaths.InspectionReaches | packages/sql-guard/src/guard.ts:103-147 | a tree passes if and only if it is one SELECT, along every path the nesting is within the limit, each capitalised key an allowed node, each other key allowed on the node above it and each function name allowed, and every table reference at any path allowed; the tables reported are those references in the order of their paths |
| GuardPaths.AllowedReaches | packages/sql-guard/src/guard.ts:155-193 | the SQL of an ok verdict parses to such a tree, with a literal limit of at most maxRows |
| GuardPaths.RefusalHasCause | packages/sql-guard/src/guard.ts:42-147 | each denial of an inspection has its reason at some path of the tree, or in what is not a single SELECT |
| GuardPaths.CapDecides | packages/sql-guard/src/rowcap.ts:12-64 | a literal limit within the cap is left alone; a greater one, and none, become the cap; anything else is refused |
| Terms.TermsOfGivesTerms | packages/core/src/plan/retrieve.ts:82-97 | every term is a non-empty word of lower-case letters and digits, after stemming too |
| Terms.JoinedInjective | packages/core/src/semantic/glossary.ts:15-16 | a phrase key stands for one list of words |
| Terms.PiecesOfJoined | packages/core/src/semantic/glossary.ts:22-34 | splitting a phrase key gives back as many words as went in |
| TermsAccount.WordsAreStretches | packages/core/src/plan/retrieve.ts:89-96 | the words of a text are its stretches of letters and digits, cut where a capital follows a small letter or a digit, in order |
| TermsAccount.KeptAreTerms | packages/core/src/plan/retrieve.ts:89-97 | every word but a stopword gives the stem of its lower case, in order |
| TermsAccount.LowerMeans | packages/core/src/plan/retrieve.ts:89-97 | lower case changes capital letters and nothing else |
| TermsAccount.PluralsMeet | packages/core/src/plan/retrieve.ts:82-87 | singular and plural are one term by the endings -ies, -sses and -s, and a word without them is left alone |
| Tiling.LeftmostLongestIsUnique | packages/core/src/semantic/expand.ts:15-51 | a row of words has only one leftmost-longest tiling |
| Tiling.ScanIsLeftmostLongest | packages/core/src/semantic/expand.ts:26-51 | taking the longest match at each word and jumping over it computes that tiling |
| Glossary.DefineGlossary | packages/core/src/semantic/glossary.ts:22-34 | each phrase goes to the first entry that claims it, every claimed phrase is there, and longestPhrase is their maximum |
| Glossary.WindowSuffices | packages/core/src/semantic/expand.ts:30-31 | no claimed phrase is longer than the window, so bounding it loses nothing |
| Glossary.TileIsLongest | packages/core/src/semantic/expand.ts:28-36 | the descending search finds the longest phrase at a word, or no phrase starts there |
| Glossary.TilesAreLeftmostLongest | packages/core/src/semantic/expand.ts:26-51 | matches are ordered and disjoint, none could be longer, and none starts at a skipped word |
| Glossary.ScanIsTheTiling | packages/core/src/semantic/expand.ts:19-51 | the matches are the one leftmost-longest tiling of the question, and nothing else is |
| Glossary.ServerScanIsTheTiling | packages/core/src/semantic/expand.ts:19-51 | the same for the normaliser the server uses |
| GlossaryAccount.PhrasesGoToFirst | packages/core/src/semantic/glossary.ts:22-34 | a phrase is in the index if and only if some text of some entry reduces to it, and it goes to the first such entry |
| GlossaryAccount.ExpansionAdds | packages/core/src/semantic/expand.ts:5-57 | what is added are words of what the matched entries name, their texts, tables and columns, none that the question has, each once; and all of them unless maxTerms is reached |
| Glossary.MatchAt | packages/core/src/semantic/expand.ts:28-36 | the inner loop computes the tile at a word |
| Glossary.ExpandQuestion | packages/core/src/semantic/expand.ts:19-58 | matches, added terms and search text together |
| Glossary.AddingIsLimit | packages/core/src/semantic/expand.ts:45-49 | offering terms one at a time keeps the first maxTerms of the unseen ones |
| Glossary.AddedTermsAreNew | packages/core/src/semantic/expand.ts:45-49 | added terms are distinct, absent from the question, from matched entries and at most maxTerms |
| Ranking.TableKeyInjective | packages/core/src/plan/render.ts:9-11 | a table key determines schema and name |
| Ranking.Index | packages/core/src/plan/retrieve.ts:102-118 | each word carries the greatest weight of any place it occurs in |
| Retrieve.Links | packages/core/src/plan/retrieve.ts:149-165 | one pass counts the ends of foreign keys at each table and makes two tables neighbours if and only if a foreign key joins them, either way, self-links apart |
| Ranking.DegreesCount | packages/core/src/plan/retrieve.ts:149-156 | the degree map counts the ends of foreign keys at each table, both ends of a self-link included |
| Retrieve.QueuedMeans | packages/core/src/plan/retrieve.ts:184-204 | after n hops exactly the direct tables and those a path of at most n links from a root is queued |
| Retrieve.FollowLinks | packages/core/src/plan/retrieve.ts:184-204 | the frontier loop queues exactly those, each once, direct ones first |
| Retrieve.ChooseIsSubsequence | packages/core/src/plan/retrieve.ts:206-222 | the budget keeps the order, at most maxTables, and within maxTokens whenever two or more are chosen |
| Retrieve.Budget | packages/core/src/plan/retrieve.ts:206-222 | the loop's sql is the rendering of what it chose, and chosen plus omitted is everything queued; what it leaves out had no room (`RetrieveAccount.SelectionIsFull`) |
| Retrieve.SelectTables | packages/core/src/plan/retrieve.ts:139-236 | the selection as a whole, for any sort by score, degree and name |
| Ranking.DirectTables | packages/core/src/plan/retrieve.ts:181-182 | direct tables are listed once each if the schema does |
| Retrieve.DrawnIsBetween | packages/core/src/plan/render.ts:68-90 | the foreign keys drawn are those between chosen tables, each once |
| Ranking.DirectIsBest | packages/core/src/plan/retrieve.ts:172-182 | the question matches if and only if some table scores at all; the direct tables are then those that score and otherwise all; and the first is outscored by none and, among equals, the most connected: the hub when nothing matches |
| Retrieve.SelectionMeans | packages/core/src/plan/retrieve.ts:181-235 | the foremost table first, tables of the schema within both caps, never nothing from something, each direct or at most linkDepth links from one of the first maxTables direct ones; where the schema lists each table once, all distinct, chosen and omitted together all that was queued, and the foreign keys returned exactly those drawn |
| RetrieveAccount.SelectionIsFull | packages/core/src/plan/retrieve.ts:206-222 | of any selection, from its queue: each table chosen had room when its turn came, and each left out had none, there being maxTables before it or no more than maxTokens to put it in |
| RetrieveAccount.WholeQueueShown | packages/core/src/plan/retrieve.ts:206-222 | when the whole queue keeps to both caps nothing is omitted |
| RetrieveAccount.QueueIsNearestFirst | packages/core/src/plan/retrieve.ts:184-204 | the queue opens with the direct tables; it holds exactly those and the tables at the end of a way of at most linkDepth foreign keys from one of the first maxTables; and the nearer come first |
| TableLayout.LayoutSays | packages/core/src/plan/render.ts:28-61 | the text of a table, line by line: its comment and rows where shown, its name, every column in order, its primary key and the foreign keys it is drawn with, a comma behind each definition but the last |
| TableLayout.IdentEnds | packages/core/src/plan/render.ts:3-5 | a written name is told from whatever may follow it, and no two names are written alike |
| TableLayout.QualifiedInjective | packages/core/src/plan/render.ts:5-7 | the written name of a table names one table |
| TableLayout.CommentIsOneLine | packages/core/src/plan/render.ts:26-31 | a comment cannot leave the line it is on |
| TableLayout.LayoutGrows | packages/core/src/plan/render.ts:28-90 | a table is drawn no shorter when more tables are shown |
| TableLayout.EverythingShown | packages/core/src/plan/retrieve.ts:206-222 | so with this layout nothing is omitted when the whole queue keeps to both caps |
| RetrieveAccount.RenderedIsJoin | packages/core/src/plan/render.ts:68-90 | the text is that of each table, in order, with the foreign keys it has to tables shown |
| RetrieveAccount.BetweenMeans | packages/core/src/plan/retrieve.ts:224-231 | the foreign keys returned are those of the schema with both ends shown |
| RetrieveAccount.LinksAreForeignKeys | packages/core/src/plan/retrieve.ts:149-165 | two tables are linked if and only if some foreign key joins them, either way |
| RetrieveAccount.WeightIsBest | packages/core/src/plan/retrieve.ts:102-118 | a word counts for the best place it occurs in, 10 for the table's name, 3, 2 and 1 for a column's name, the comment and a column's comment, and for nothing elsewhere |
| RetrieveAccount.RelevanceIsSum | packages/core/src/plan/retrieve.ts:167-170 | a table scores the weights of the words of the question, each once, in whatever order |
| RetrieveAccount.DirectInOrder | packages/core/src/plan/retrieve.ts:172-182 | the direct tables come by relevance, then by how connected they are, then by name |
| Planner.PlanQuery | packages/core/src/plan/planner.ts:31-161 | every run makes at least one and at most maxAttempts calls, usage is the sum over attempts, and the result is what its last attempt concludes; a security event exactly for an attack-shaped refusal |
| Planner.RunIsDetermined | packages/core/src/plan/planner.ts:31-161 | that description admits one conversation and one result |
| Planner.SidesAlternate | packages/core/src/plan/planner.ts:46-157 | every call's conversation opens with the question and alternates user and assistant |
| Planner.EarlierTalkIsKept | packages/core/src/plan/planner.ts:154-157 | each call repeats the earlier conversation, then the model's own reply verbatim and a correction |
| Planner.AttackEndsTheRun | packages/core/src/plan/planner.ts:143-149 | no call follows a denial no honest mistake produces |
| Planner.PlansAreGuarded | packages/core/src/plan/planner.ts:109-131 | a planned query is the guard's text for the SQL in the model's last answer, which is the last attempt's, with the guard's tables and limit and the chart proposed with it |
| Planner.StrIsTrimmed | packages/core/src/plan/schema.ts:50-50 | a text field counts if and only if trimming does not empty it |
| Planner.TwoWaysToSeeADenial | packages/core/src/plan/planner.ts:48-153 | for unanswerable results the sawVerdict flag is what narrowing finds among the attempts |
| Planner.RunsOutExactlyForFractions | packages/core/src/plan/planner.ts:67-160 | for a cap of at least one, some run reaches the fall-through failure if and only if the cap is not whole |
| Planner.WholeCapsReportACode | packages/core/src/plan/planner.ts:67-160 | with a whole cap no run reaches it |
| PlannerAccount.AttemptsRecordReplies | packages/core/src/plan/planner.ts:67-143 | every attempt records the reply to its call: what was said, what the guard said to it, and what it cost |
| PlannerAccount.UsageIsCounted | packages/core/src/plan/planner.ts:69-82 | each of the four token counts reported is the sum of what the replies report |
| PlannerAccount.AskedAgain | packages/core/src/plan/planner.ts:143-157 | the model is asked again if and only if it proposed a statement denied with a code to mend and the cap leaves a call |
| PlannerAccount.RepliesAreQuoted | packages/core/src/plan/planner.ts:154-157 | every later call quotes each such reply whole, then the denial's code and the guard's words about that statement |
| PlannerAccount.ResultFollowsLastReply | packages/core/src/plan/planner.ts:67-160 | the result of a run, its reason, code and detail, from the last reply |
| PlannerAccount.ChartIsProposed | packages/core/src/plan/schema.ts:50-90 | the chart is the one proposed, of one of five kinds or a table |
| Narrow.StrippedHasNoCode | packages/server/src/narrow.ts:22-24 | stripping deny codes leaves none, not even one formed across a deletion |
| Narrow.SanitiseMessage | packages/server/src/narrow.ts:27-36 | the loop over characters, with the collapse, cut, trim and fallback after it |
| Narrow.SanitisedIsTidy | packages/protocol/src/text.ts:14-20 | whatever the text, the message passes the wire's prose rule |
| Narrow.TidyIsLeftAlone | packages/server/src/narrow.ts:27-36 | a message already fit is left alone |
| Narrow.SanitisedHasNoCode | packages/server/src/narrow.ts:27-36 | sanitising forms no deny code that was not there |
| Narrow.ErrorsSayNothing | packages/server/src/narrow.ts:123-137 | an internal failure crosses as one fixed sentence |
| Narrow.DenialsSilenceTheModel | packages/server/src/narrow.ts:123-137 | once a denial is on record the model's prose is replaced |
| Narrow.ProseIsScrubbed | packages/server/src/narrow.ts:123-137 | prose that does cross fits the wire and carries no deny code |
| Narrow.ResponseRevealsNoMore | packages/server/src/narrow.ts:123-137 | over any two planner runs, the response depends on nothing but the reason and the clean model prose |
| NarrowAccount.StripSplits | packages/server/src/narrow.ts:22-24 | what is stripped is each deny code in full, wherever no word runs into it, and nothing else |
| NarrowAccount.SanitisedKeeps | packages/server/src/narrow.ts:27-36 | a message keeps all that is visible, in order, or is cut where it no longer fits; only when nothing is left does the fallback stand in |
| NarrowAccount.ResponsesMean | packages/server/src/narrow.ts:123-137 | the one response to each kind of failure |
| Pipeline.PlannedSqlIsOneAllowedSelect | packages/core/src/plan/planner.ts:109-131 | with this guard, what a planning run hands to execution parses to one SELECT allowed along every path, with the tables listed and a literal limit within the row cap |
| Fragment.ClosingOfDoubled | packages/core/src/semantic/fragment.ts:113-114 | a doubled quote never ends a quoted run, the closing one does |
| Fragment.QuotingReadsBack | packages/core/src/semantic/fragment.ts:113-129 | whatever a literal or a quoted name says, it is read as one unit and its content comes back |
| Fragment.QuotedNameJudgedAsWritten | packages/core/src/semantic/fragment.ts:124-129 | an expression that is one quoted name is judged under that name if and only if emptying literals leaves it alone |
| Pieces.ReadAsWrittenExactlyWhen | packages/core/src/semantic/fragment.ts:124-129 | for a whole expression of plain text, literals and quoted names that Postgres reads as they are written (no dollar quotes, escaped literals or comments): the names read are those written and words are looked for in the plain text alone if and only if emptying the literals changes nothing else |
| Pieces.WordsReadAreThePlainOnes | packages/core/src/semantic/fragment.ts:124-143 | the words then judged are those of the plain text, in order |
| Pieces.NamesWithoutApostrophes | packages/core/src/semantic/fragment.ts:124-129 | for such an expression it is enough that no quoted name has an apostrophe |
| Pieces.WrittenOnce | packages/core/src/semantic/fragment.ts:113-114 | a text is made of such pieces in one way only, so it is one expression |
| Misreading.TwoNamesReadAsOne | packages/core/src/semantic/fragment.ts:124-129 | two names with an apostrophe each, alone read as written, together are one name with neither |
| Misreading.TextBetweenIsHidden | packages/core/src/semantic/fragment.ts:124-129 | after a name that ends in an apostrophe no name is read, and the words looked at do not depend on the text up to the next literal |
| Misreading.UndeclaredNamePasses | packages/core/src/semantic/fragment.ts:124-145 | so an expression over a name nobody declared can have no unknown identifier |
| Misreading.QuotedNameMisread | packages/core/src/semantic/fragment.ts:124-129 | a quoted name with a literal anywhere in it is looked up without what the literal says |
| Misreading.DollarQuotesHide | packages/core/src/semantic/fragment.ts:124-145 | what stands between two dollar quotes around an apostrophe each is not looked at: nothing is reported, whatever it is |
| Misreading.EscapedQuoteHides | packages/core/src/semantic/fragment.ts:124-129 | an escaped apostrophe at the start of an E literal hides what follows the literal, up to the next apostrophe |
| Fragment.ScanFindsTheWords | packages/core/src/semantic/fragment.ts:134-143 | the scan finds exactly the maximal identifier words |
| Fragment.UnknownIdentifiers | packages/core/src/semantic/fragment.ts:124-145 | the loops list each undeclared name once, in order of first appearance |
| Fragment.UnknownMeans | packages/core/src/semantic/fragment.ts:124-145 | a name is reported if and only if it is quoted or a word, not allowed, and, for a word, neither keyword nor call |
| Fragment.NoIssuesMeansFit | packages/core/src/semantic/fragment.ts:151-175 | no issue if and only if the fragment has no hazard, fits the length and names only what is allowed |
| FragmentAccount.HarmlessMeans | packages/core/src/semantic/fragment.ts:151-165 | harmless means no NUL, no semicolon, no start of a comment and no end of one |
| FragmentAccount.ReportedMeans | packages/core/src/semantic/fragment.ts:124-145 | a word is reported if and only if it is not allowed, not a keyword, and no open parenthesis comes next after white space |
| FragmentAccount.TidiedIsTight | packages/core/src/semantic/fragment.ts:151-175 | tidying a text changes its white space and nothing else, and leaves single blanks between words only |
| GlossaryRender.LocateEntry | packages/core/src/semantic/render.ts:26-57 | the nested loops over references, tables and columns, with what they name, allow and miss |
| GlossaryRender.NamesAreOnSelectedTables | packages/core/src/semantic/render.ts:26-57 | a name is emitted if and only if it names a referenced, selected table or a wanted column present on one |
| GlossaryRender.RenderEntry | packages/core/src/semantic/render.ts:59-80 | the line of an entry, or none |
| GlossaryRender.ShownSqlIsFit | packages/core/src/semantic/render.ts:59-80 | SQL is shown if and only if every reference resolves on selected tables and it is fit with the names those grant |
| GlossaryRender.FillSection | packages/core/src/semantic/render.ts:103-116 | the budget loop's text, list of terms and count of the omitted |
| GlossaryRender.RenderGlossary | packages/core/src/semantic/render.ts:87-119 | the section as a whole |
| GlossaryRender.SectionKeepsToItsBudget | packages/core/src/semantic/render.ts:103-116 | within both caps, and a subsequence of the candidates in their order |
| GlossaryRender.NothingDroppedWithoutCause | packages/core/src/semantic/render.ts:103-116 | when all candidates fit together none is dropped |
| GlossaryRenderAccount.SectionIsFair | packages/core/src/semantic/render.ts:103-116 | each candidate in its turn is kept if and only if there are lines and tokens left for it |
| GlossaryRenderAccount.CandidatesMean | packages/core/src/semantic/render.ts:87-101 | the candidates are the lines of the entries that are about no table or about one that is shown, and have something to say |
| GlossaryRenderAccount.LineSays | packages/core/src/semantic/render.ts:59-80 | a line holds the term, the synonyms, the definition, every name and the expression that is shown |
| GlossaryCheck.CheckRefsMeans | packages/core/src/semantic/validate.ts:92-145 | references are clean if and only if each resolves, and they allow exactly the names of what they resolve to |
| GlossaryCheck.SqlErrorsMean | packages/core/src/semantic/validate.ts:147-162 | an entry's expression draws an error if and only if it is unsound |
| GlossaryCheck.CheckTerms | packages/core/src/semantic/validate.ts:74-90 | problems of terms and synonyms, in order |
| GlossaryCheck.ValidateGlossary | packages/core/src/semantic/validate.ts:39-70 | the loops through the report callback produce the numbered problems in order, and ok |
| GlossaryCheck.ErrorsMean | packages/core/src/semantic/validate.ts:39-162 | an entry has an error if and only if it is not sound, and the report is ok if and only if all are |
| GlossaryCheckAccount.ReportHolds | packages/core/src/semantic/validate.ts:39-162 | the report holds exactly the problems there are, code by code: of terms, of references that mean nothing, too much or a missing column, of empty entries, of expressions, and of the whole |
| GlossaryCheck.WarnedIsLeftOut | packages/core/src/semantic/fragment.ts:147-150 | validation and rendering agree: with its tables selected and no reference that could mean two tables, an entry's SQL is shown if and only if validation had nothing to report on its references or its SQL |
| GlossaryCheck.CleanEntryKeepsItsSql | packages/core/src/semantic/fragment.ts:147-150 | an entry with references that validation finds clean keeps its SQL whenever its tables are selected |
| GlossaryCheck.CleanEntryReachesThePrompt | packages/core/src/semantic/render.ts:87-119 | and when all candidates fit, the section's text holds that SQL |
| GlossaryGate.Vet | packages/server/src/config.ts:138-149 | the vetted glossary holds the sound entries in their order, indexed afresh |
| GlossaryGate.VettedIsClean | packages/server/src/config.ts:121-149 | a vetted glossary validates with no error |
| GlossaryGate.VettingTwice | packages/server/src/config.ts:138-149 | vetting again changes nothing |
| GlossaryGate.Gate.Run | packages/server/src/config.ts:138-149 | the remembered report is the report of the schema asked about, and problems are raised when found, not when remembered |
| GlossaryGate.Gate.Use | packages/server/src/config.ts:151-155 | whatever was asked before, the glossary handed out is the vetted one for this schema, and clean |
| AxisScale.NiceStepIsClose | packages/react/src/scale.ts:7-14 | the step is 1, 2 or 5 times a power of ten and lies in [rough, 2.5 rough) |
| AxisScale.NiceStepIsLeast | packages/react/src/scale.ts:7-14 | no such number that is large enough is smaller |
| AxisScale.LinearScale | packages/react/src/scale.ts:16-41 | finds the extent, pads a flat one, and builds the scale of that extent and step; no data and all zeros have scales of their own |
| AxisScale.ScaleEnclosesData | packages/react/src/scale.ts:30-41 | min and max enclose the padded data and overshoot it by less than a step |
| AxisScale.TicksRise | packages/react/src/scale.ts:35-41 | ticks run from min to max, rising by exactly one step |
| AxisScale.ScaleServesTheData | packages/react/src/scale.ts:16-41 | for any data, none and all zeros included: every value lies on the scale, there are two to tickCount + 2 ticks, rising from min to max, and zero is one when includeZero is set |
| AxisScale.ScaleIsFine | packages/react/src/scale.ts:16-41 | the ticks are the multiples, from the last not above the data to the first not below, of one nice step, which divides the range into tickCount parts or fewer but more than two fifths as many; a single value counts as the stretch half of it to either side |
| AxisScale.ProjectMeetsTheEnds | packages/react/src/scale.ts:43-47 | the ends of the scale go to the ends of the plot |
| AxisScale.ProjectIsMonotone | packages/react/src/scale.ts:43-47 | projection keeps the order, or turns it round on a plot that runs downwards |
| AxisScale.ProjectLandsOnThePlot | packages/react/src/scale.ts:43-47 | every value on the scale lands on the plot |
| Transactions.RunGuardedRead | packages/core/src/execute.ts:134-183 | whatever fails after connecting: the statements sent are a prefix of the script and then ROLLBACK, the connection is released once, destroyed exactly when ROLLBACK failed, and a result comes only from the whole script |
| Transactions.SqlOnlyAfterProof | packages/core/src/execute.ts:134-183 | the guarded SQL is sent only after BEGIN, every statement of the preamble and a SHOW answered on |
| Transactions.ReadStopsOnce | packages/core/src/execute.ts:134-183 | how far a read gets is decided by the server alone, so that account of it is unambiguous |
| Transactions.InWriteTransaction | packages/core/src/store/write.ts:108-147 | for any body that ends: the last statement is COMMIT on success and ROLLBACK otherwise, and the connection is kept if and only if that last statement succeeded |
| Transactions.TurnsDoNotMatter | packages/core/src/store/write.ts:108-147 | how many statements a body is given to end in is no part of what it does |
| Transactions.CommitOnlyAfterSuccess | packages/core/src/store/write.ts:108-147 | if nothing the body gets past run strays, COMMIT is sent if and only if the whole opening was answered and the body returned; it comes last and is the only thing after BEGIN that strays; a value comes back if and only if it was sent and succeeded |
| Transactions.FailureCanBeSwallowed | packages/core/src/store/write.ts:120-133 | a body that does not look at the answer gets COMMIT and its value though its statement failed |
| Transactions.BodyNeverCommits | packages/core/src/store/write.ts:108-147 | whatever such a body does with what the server answers, nothing it sends strays |
| Statements.StraysExactlyWhen | packages/core/src/store/write.ts:58-76 | a plainly written text has one reading, and that decides whether it strays and whether it is one command |
| Statements.StatementsLeaveTheTransaction | packages/core/src/store/write.ts:31-76 | a composed statement that is plainly written and has no semicolon outside its literals and quoted names does not stray: its one command opens with an allowed verb |
| Statements.AnyStatementCanCarryCommit | packages/core/src/store/write.ts:58-76 | any plainly written statement with a COMMIT behind a semicolon is composed as well, plainly written, and strays |
| Statements.ApostrophesHideCommit | packages/core/src/store/write.ts:58-76 | a statement that strays though nothing outside its apostrophes is a semicolon, one apostrophe being part of a quoted name and one of a comment |
| Statements.SealedWrite | packages/core/src/store/write.ts:108-147 | with real statements of one command each, COMMIT is the only thing after BEGIN that strays, sent exactly when the opening was answered and the body returned |
| StoreSql.SaveSays | packages/core/src/store/store.ts:203-235 | whatever question, SQL, chart, tables, keys and tenant say, saving them is one composed command whose literals say just that |
| StoreSql.LookupSays | packages/core/src/store/store.ts:242-249 | looking a key up, touching it or not, is one command whose one literal is the key; only a NUL byte is refused |
| StoreSql.InvalidateSays | packages/core/src/store/store.ts:255-259 | so is invalidating a key |
| StoreSql.SweepsSay | packages/core/src/store/store.ts:263-274 | the two sweeps are one command each, without literals |
| StoreSql.SaysOneThing | packages/core/src/sql.ts:14-17 | what the literals of such a statement say is determined by its text |
| StoreSql.PreambleSets | packages/core/src/store/write.ts:91-106 | for any timeouts in range and any schema name that passes, every statement of the preamble is one SET LOCAL |
| StoreSql.StoreTransaction | packages/core/src/store/store.ts:133-152 | a store operation sends opening, statement and COMMIT up to the first that fails; its rows come back if and only if none did; COMMIT is the only one that strays |
| SessionPreamble.ScopeStatements | packages/core/src/execute.ts:93-103 | succeeds if and only if every setting is well formed and no name occurs twice, and makes every setting |
| SessionPreamble.SettingsAccepted | packages/core/src/execute.ts:60-91 | which names and values are accepted, both ways |
| SessionPreamble.ValueStaysInItsLiteral | packages/core/src/execute.ts:87-91 | the value of a setting is one literal that ends the statement and reads back as the value |
| SessionPreamble.SetLocalInjective | packages/core/src/execute.ts:87-91 | one statement makes one setting |

## Left out

What is a parameter of the model:

- The Postgres parser and deparser, sha256, Unicode NFC normalisation and number parsing are arbitrary functions; a law one of them must obey is a hypothesis of the lemma that uses it.
- How `localeCompare` compares two names, how a sort orders elements that compare equal, and how a row count is written in the DDL. Retrieval is proved for any layout of a table; that a whole queue is shown when it fits is for layouts in which another foreign key makes no table shorter (`RetrieveAccount.WholeQueueShown`), as it is with the one of `TableLayout`.
- The names of the settings a write opens with and the fixed wording of the store's statements, in which no quote, dollar sign, semicolon, dash, slash or NUL occurs.
- The keyword list and the heading of the glossary section, the fixed sentences of corrections and the detail strings of denials.
- The quantisation of numbers in the comparator (`toPrecision`) and the canonical text of nested JSON: the comparator is proved for any such texts. What a cell means (`CompareAccount`) is for a `toPrecision` that prints no finite number like zero, NaN or an infinity.

What is idealised:

- Text is well-formed Unicode: lone surrogates, and a message cut inside a surrogate pair, are not modelled.
- NaN and the infinities occur in the comparator only. Times, token counts and axis values are reals; rounding of ticks and their formatting are not modelled, and the tick count is a whole number.
- The clock never goes back, and callers pass caps of at least one. A fractional cap acts as its ceiling (`maxTrackedIdentities` as its floor), so caps compared with sizes are whole numbers.
- Guard trees hold text in function-name parts and numbers in `ival`.
- Stored limits that are huge or fractional are not written into a cache key in exponent or decimal form: `maxRows` is an integer there.
- The memo of the glossary gate compares schemas by number, one number for one schema object.
- A write body ends, and does not use `run` once it has ended. Statements it issues without waiting are answered in the order sent, as one connection answers them.
- An expression of a glossary closes its quotes. Postgres reads it, and the statements of a write, with `standard_conforming_strings` on. Results on expressions made of pieces, and on statements of one command, are about texts without dollar quotes, comments, `E'...'` literals and `U&"..."` names; a statement with any of them counts as one that strays.
- Row limits that are saved are whole numbers written in decimal.

What is not part of this model:

- The limiter's `reset`, which breaks the counter when grants are outstanding.
- The text of columns and foreign keys below a part of the cache-key preimage.
- Timeouts and search path of the read's session preamble: the sealed read is proved for any list of preamble statements. The brand checks made before connecting, and the cap on the size of a saved entry, are not modelled.
- Keepalive and SSE text, HTTP, headers, scope resolution, configuration defaults and the schema loader's memo.
- Successful responses and the conversion of cells, token usage beyond its four counts.
- The release gate and its thresholds, the ledger and DDL of the migrations, and how a stored cache row is read back and approved anew.
- React components, the command line, LLM providers, adapters, catalog queries, provisioning and doctor SQL.
