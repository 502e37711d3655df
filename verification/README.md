# Walera delivery, verified

A Dafny model of Walera's delivery pipeline and proofs about it. Committed PostgreSQL
transactions flow from the WAL reader through the router into one bounded queue per
subscriber, and from there to a stream loop that writes server-sent events; meanwhile
each subscriber's column grant is replaced, handlers are admitted and released, and
anyone may drop a subscriber. `dafny verify dfyconfig.toml` checks the whole project.

## How the project is laid out

Code that works in place is modelled in place and proved against a specification:
`Indexes` and `Router` (the router and its two indexes), `Subscribers`,
`Whitelists` (the filter), `Assembly` (the transaction builder and the relation cache),
`WalReader` (the receive loop), `ArrayLiteral` (the array splitter and parser),
`Framing` (the encoder), `StreamLoop` (one stream as its handler runs it),
`AuthRefresh` and the class in `Admission`. `Channels` holds the channel names and the
check a refreshed grant has to pass.

What several goroutines do together is a step machine, and a theorem speaks of every
run of it: `Delivery` (reader, hand-off channel, router, queues, stream loops, drops),
`GrantSwap` (a refresh, with any backend, against the router's filter calls; theorems
also in `GrantSplit` and `Revocation`), `Registration` (Register, Deregister, gauges and
Shutdown), and the second half of `Admission`. `Refinement` ties the methods to these
machines: what they do to a subscriber and its grants is what the steps do. `Standbys`
says of every turn of the receive loop what the server gets. "Left out" says which
neighbouring accesses share a step.

`EndToEnd` puts the pieces together: what is written to a client is a prefix of a scan
of all committed transactions that knows neither index nor queue, without a hole for
dropped clients either, and an event source built from sections 9.2.5 and 9.2.6 of the
WHATWG HTML Living Standard reads exactly those frames. `Disclosure` interleaves a run
of deliveries with a run of the refresh machine that filters its dispatches: nothing
outside grants for the client's user and table is ever written to it, and above the
boundary of a grant in use nothing under an older one. `Realization` shows that whatever
the refresh machine makes of a transaction reaches a client in some such run.

## Where a tempting claim is false

- The multi-root guard uses the empty string as "no key seen yet"
  (internal/router/router.go:286-293), so it differs from its comment exactly when empty
  keys come first and one non-empty key follows; and a row with an empty key can reach
  the subscriber of another row, exactly when the grants let one through
  (`Routing.GuardMeetsDocumentation`, `Routing.RootIsolation`,
  `Routing.EmptyKeyBreaksIsolation`).
- docs/architecture.md:79-82 says a new grant applies to transactions committed after
  the swap. The code compares with the last position recorded when the swap began. Once
  a swap has read that position, a transaction taken under the grant it replaces, with
  two changes left to tell apart, can be split between two grants exactly when it is not
  above the old boundary and at or below the new one: transactions newer than both
  grants can be, and so can those older than both (`GrantSplit.SplitsOutsideTheBoundaries`;
  `GrantSplit.SplitsExactly` and `GrantSplit.SplitsAfterPrevStored` for every other
  point of a swap). Both happen (`GrantSplit.SplitIsReachable`); in between, one grant
  filters all of it (`GrantSwap.OneGrant`).
- A refusal is not the last answer taken: when a tick is pending, the refresh loop's
  select may pick it over the closed Done, and an allowed answer is then stored
  (`Revocation.StoredAfterRefusal`), only then (`Revocation.StoredOnlyOnTick`). A
  transaction in flight may be filtered by it, none taken later is
  (`Revocation.NothingFilteredAfterDrop`). That nothing leaks after a revocation, as
  docs/architecture.md:79-86 promises, is due to the stream loop: once Done is closed
  only a batch already past its Done check is still written
  (`DeliveryTheorems.NothingWrittenAfterDrop`).
- The acknowledged position means received, not delivered
  (`AckSafety.AckedNotDelivered`).
- A rejected Relation message leaves the older entry in use
  (`Assembly.RejectedRelationIsIgnored`).
- An array element equal to NULL comes back as null even when it was quoted, and an
  unquoted element loses Unicode white space at its ends that the server does not quote
  (`ArrayLiteral.RoundTripServer`, `ArrayLiteral.QuotedNullIsLost`,
  `ArrayLiteral.NoBreakSpaceIsLost`).
- A user can be refused below the per-user cap while another handler is taking back its
  count (`Admission.RefusalIsExact`, `Admission.SpuriousRefusal`).
- Index keys do not identify rows (`WalTypes.KeyNotInjective`); routing is exact all the
  same, because the anchor test compares components.

## Assumptions

- Recorded positions never decrease: commits arrive in WAL order, and a new replication
  slot starts no lower than the positions recorded before it.
- For ack safety, the server sends no Commit below an earlier one or below a WAL end it
  reported while no transaction was open (`AckSafety.Honest`).
- JSON text from the encoder's library holds no line break. Value mapping of columns is
  a partial function of type OID and text.
- Strings are sequences of characters; lengths the program takes in bytes go through a
  size function where they matter.

## Model

| member | source | states |
|---|---|---|
| WalTypes.KeyNotInjective | internal/wal/types.go:35-41 | two changes of different tables and keys share one index key |
| Whitelists.CopyGranted | internal/auth/map.go:54-84 | the copy loop keeps exactly the key column and granted columns, and notices whether a granted non-key column was among them |
| Whitelists.Filter | internal/auth/map.go:39-92 | a change is kept exactly when its table is granted and it is an insert, a delete, or an update that changed a granted column other than the key; a kept one is its visible form |
| Whitelists.NothingIsWithheld | internal/auth/map.go:39-92 | the visible form exists under the same condition, for every grant and change |
| Whitelists.VisibleIsExact | internal/auth/map.go:27-92 | a visible change keeps its identity and shows precisely the allowed columns and the key column, unaltered |
| Whitelists.VisibleIgnoresUngranted | internal/auth/map.go:39-92 | changes that agree on granted columns look the same |
| Routing.AnchorImpliesKey | internal/router/router.go:157-190 | the string lookup finds every subscriber the component-wise anchor test would take |
| Routing.HasMultipleAnchorRoots | internal/router/router.go:285-300 | the loop answers true exactly when two rows of the table clash, the first with a non-empty key |
| Routing.GuardMeetsDocumentation | internal/router/router.go:281-300 | the guard reports more than one root, as documented, if and only if not: empty keys first, then exactly one non-empty key |
| Routing.SentinelHidesRoot | internal/router/router.go:285-300 | a concrete transaction with two roots the guard misses |
| Routing.UnmatchedIsSkipped | internal/router/router.go:128-190 | a transaction the indexes find nothing for means nothing to the subscriber under any grants |
| Routing.SurvivorsAreExact | internal/router/router.go:226-242 | the filtered list is, in transaction order, the visible form of every change of the schema let through, each once, and nothing else |
| Routing.OutcomeIsExact | internal/router/router.go:195-279 | a transaction is skipped exactly at or below the start, with two roots for a row subscriber, or with no own change granted; otherwise it is too large, by the number of granted changes or as a frame, or a frame of all of them in order |
| Routing.OwnInsertIsFramed | internal/router/router.go:195-279 | an insert of the channel's own row under grants that hold its table reaches a frame with its granted columns, unless the start, a clash or a limit forbids it |
| Routing.DecideUsesOwnSchema | internal/router/router.go:228-242 | the outcome depends only on grants used for changes of the subscriber's schema |
| Routing.UngrantedDataIsInvisible | internal/router/router.go:195-279 | two transactions that differ only outside the grants give the same outcome and the same frame |
| Routing.FrameHoldsOwnRow | internal/router/router.go:226-245 | every frame holds a surviving change of the subscriber's own row or table |
| Routing.RootIsolation | internal/router/router.go:178-300 | a row subscriber's frame holds no other row of its table if and only if the grants let through no change of the table with an empty key |
| Routing.RootIsolationNonEmptyKeys | internal/router/router.go:215-245 | with non-empty keys throughout, frames never mix rows of the subscribed table |
| Routing.EmptyKeyBreaksIsolation | internal/router/router.go:286-293 | for every row channel and grant of its table, a deleted row with an empty key reaches it in a frame |
| Indexes.Index.Add | internal/router/index.go:16-23 | adds to the bucket of the key and changes nothing else |
| Indexes.Index.Remove | internal/router/index.go:25-33 | removes from the bucket; an emptied bucket goes |
| Indexes.Index.Lookup | internal/router/index.go:35-47 | lists exactly the bucket's members |
| Indexes.Index.Len | internal/router/index.go:49-57 | counts the members of all buckets, in whatever order they are visited |
| Indexes.Index.Snapshot | internal/router/index.go:59-69 | lists exactly the members of all buckets |
| Indexes.WildcardIndex.Add | internal/router/wildcard.go:14-18 | appends to the bucket, in place or in a grown array, with no bucket sharing cells |
| Indexes.WildcardIndex.Remove | internal/router/wildcard.go:20-33 | the shift in place removes the first occurrence only; no empty bucket survives |
| Indexes.WildcardIndex.RemoveAt | internal/router/wildcard.go:25-29 | one position leaves the bucket and the rest keep their order |
| Indexes.ShiftLeft | internal/router/wildcard.go:25 | the cells after the removed one move down by one; those past the end stay |
| Indexes.WildcardIndex.Lookup | internal/router/wildcard.go:35-45 | a fresh copy of the bucket |
| Indexes.LookupCopyIsStable | internal/router/wildcard.go:35-45 | a looked-up copy keeps its contents through any later additions and removals |
| Indexes.WildcardIndex.Len | internal/router/wildcard.go:47-55 | counts entries, repeated ones included |
| Indexes.WildcardIndex.Snapshot | internal/router/wildcard.go:57-69 | lists exactly the members of all buckets |
| Indexes.SeqEditsOneBucket | internal/router/wildcard.go:14-33 | adding appends to one bucket, removing takes out its first occurrence and keeps the order, the key goes with the last, and no other bucket moves |
| Indexes.SetEditsOneBucket | internal/router/index.go:16-33 | the same for the sets of the row index |
| Indexes.SeqRemoveMembers | internal/router/wildcard.go:20-33 | removal takes a subscriber out of the index unless it was added twice |
| Indexes.SeqEditEffect | internal/router/wildcard.go:14-55 | the index length grows by one on Add and shrinks by one on Remove of a member |
| Subscribers.GrantCells.FilterWithLSN | internal/auth/subscriber.go:156-169 | above the boundary of the current grant a change is judged by it, at or below by the previous one; without one it is dropped |
| Refinement.CallIsFilterWithLSN | internal/auth/subscriber.go:156-169 | in every reachable shape of the pointers, a filter call of the grant machine uses the grant FilterWithLSN judges by |
| Subscribers.Subscriber.Send | internal/router/subscriber.go:105-111 | accepts exactly when a queue is wired and has room, appending at its end; never blocks |
| Subscribers.Subscriber.Drop | internal/router/subscriber.go:123-129 | the first reason stays |
| Router.FoundByKey | internal/router/router.go:148-168 | both lookups together find exactly the registered subscribers whose key matches |
| Router.Broadcaster.Register | internal/router/router.go:57-86 | the subscriber joins; it is dropped with shutdown if the router is closed; the gauge moves with its index length |
| Router.Broadcaster.Deregister | internal/router/router.go:88-112 | the subscriber leaves its index, a table subscriber added twice once; the gauge moves with its index length |
| Router.Broadcaster.MergeMatches | internal/router/router.go:159-168 | the eligibility set is exactly the registered subscribers whose key some change matches |
| Router.Broadcaster.FilterTx | internal/router/router.go:226-242 | the loop yields the survivors and whether an anchor survived |
| Router.Broadcaster.DispatchEvent | internal/router/router.go:195-279 | a frame is queued at the end, or where it is refused the subscriber is dropped with slow_consumer and the queue kept; a transaction over a limit drops it with tx_too_large; nothing else changes anything |
| Refinement.DispatchIsDelivery | internal/router/router.go:195-279 | the delivery machine, taking a dispatch from the Done check to its end, leaves the subscriber as the router's method does, and every other as it was |
| Router.Broadcaster.RouteTx | internal/router/router.go:128-146 | index-based routing refines a scan: every registered subscriber ends as if dispatched directly, for any visiting order |
| Router.Broadcaster.Shutdown | internal/router/router.go:321-330 | closed, and every registered subscriber dropped with shutdown unless it had a reason |
| Delivery.RunInv | internal/sse/stream.go:123-223 | every step of reader, router, streams and droppers keeps the delivery invariant, so every run does |
| DeliveryTheorems.FramesAreConserved | internal/router/router.go:195-279 | at every moment of every run the frames dispatch produced are, in commit order and once each, the written, discarded, held, queued, refused and in-hand ones; none is discarded or refused before the drop |
| DeliveryTheorems.LogOrigins | internal/router/router.go:195-245 | the dispatch history of a subscriber is, in order, the dispatches of the run made while it was not dropped |
| DeliveryTheorems.NothingIsMissed | internal/sse/stream.go:159-162 | until dropped, a subscriber has been dispatched every transaction taken after its Register, except those that find it in no index |
| DeliveryTheorems.NothingIsSkipped | internal/router/router.go:195-204 | dropped or not, between its Register and any transaction ever dispatched to it a subscriber misses none that finds it |
| DeliveryTheorems.StreamsEndInOrder | internal/sse/stream.go:169-222 | no Done without a reason; frames of at most one batch, of at most the queue's capacity, after it; at most one terminal frame, last, with the stored reason |
| DeliveryTheorems.NothingWrittenAfterDrop | internal/sse/stream.go:169-222 | once Done is closed, over any continuation, nothing queued, filtered or in the router's hand is written any more, only what is left of a batch already past its Done check |
| DeliveryTheorems.FirstReasonWins | internal/router/subscriber.go:115-129 | over any continuation of any run the first reason stays, and so does what was written |
| DeliveryTheorems.StartIsKept | internal/sse/handler.go:181-192 | a subscriber starts at since_lsn where it is given, else at the position recorded at its handshake, for good |
| DeliveryTheorems.StartCutoff | internal/sse/handler.go:181-192 | a subscriber without since_lsn gets no frame of a transaction recorded before its handshake read the position, even one still in the channel |
| DeliveryTheorems.RunLater | internal/router/subscriber.go:115-129 | outputs and dispatches only grow, reasons and Done are never taken back |
| GrantSwap.NoStaleGrant | internal/auth/subscriber.go:156-169 | from any moment at which swap k has stored its grant and no filter call is between its two loads, every filter call over any continuation, on a transaction above boundary k, uses grant k or newer |
| GrantSwap.NoStaleTx | internal/auth/subscriber.go:156-169 | a transaction routed after swap k has stored its grant is filtered, where it lies above boundary k, by grant k or newer ones throughout, over any further refreshes |
| GrantSwap.AtMostOneBehind | internal/auth/subscriber.go:156-169 | every filter call of every run used the grant it loaded first, on a transaction above its boundary, and otherwise one at most one older |
| GrantSwap.OneGrant | internal/auth/subscriber.go:283-295 | one transaction is filtered by one grant, wherever the stores of an overlapping swap fall between its filter loads |
| GrantSwap.OneGrantFromQuietStart | internal/wal/reader.go:370-378 | recording before hand-off gives the upper boundary, so a transaction started with no swap under way needs only the lower one |
| GrantSwap.FrameUnderOneGrant | internal/router/router.go:226-245 | the frame built from such calls is the frame under that one grant |
| GrantSplit.SplitsExactly | internal/auth/subscriber.go:156-295 | at any point of a swap and of filtering any transaction, some continuation without a further swap splits it between two grants if and only if it is split already, a change left can be given another grant than a filtered one was, or two changes left can be given different ones |
| GrantSplit.SplitsOutsideTheBoundaries | internal/auth/subscriber.go:283-295 | once the swap has read its stamp, for a transaction taken under the grant it replaces, some continuation splits it if and only if it holds two changes of the schema, the later one still to come, and does not lie above the old boundary and at or below the new one |
| GrantSplit.SplitsAfterPrevStored | internal/auth/subscriber.go:283-295 | between the two stores a transaction at or below the old boundary is split by some continuation if and only if it is split already, or a filtered change used another grant than the one being replaced and one of the schema is left |
| GrantSplit.SplitIsReachable | internal/auth/subscriber.go:283-295 | from the start, every transaction with two changes of the schema can end up split, by a run that takes it above the boundary of the current grant and by one that takes it at or below |
| Revocation.OnlyTrustedGrants | internal/auth/subscriber.go:156-295 | whatever the backend answers, in every interleaving every grant stored or used is for the handshake's user and holds the channel's table |
| Revocation.RefusalDrops | internal/auth/subscriber.go:211-228 | a refused answer stores nothing and drops the subscriber for good |
| Revocation.StoredOnlyOnTick | internal/auth/subscriber.go:188-198 | from the select of the refresh loop, after a refusal or not, every run that stores a further grant takes a tick, and for every allowed answer some run that takes one stores it |
| Revocation.StoredAfterRefusal | internal/auth/subscriber.go:188-198 | a run from the start in which, after a refusal, the stores of a swap are made and filter calls load the grant given after it |
| Revocation.NothingFilteredAfterDrop | internal/router/router.go:199-204 | no transaction taken after the drop is filtered, over any further steps |
| Registration.NobodySurvivesShutdown | internal/router/router.go:57-86 | once Register and Shutdown have both returned the subscriber is dropped, for any number of handlers in any interleaving; it leaves its index only after a drop |
| Registration.GaugesMatchIndexes | internal/router/router.go:57-112 | in every interleaving a gauge is its index length less the subscribers added and not counted plus those removed and not uncounted, hence equal when no call is between its two accesses |
| Channels.TableIsRecovered | internal/auth/subscriber.go:272-281 | the table is recovered from a channel if and only if its name holds no ':' and no '.', for every key text |
| Channels.ChannelsAreDistinct | internal/sse/handler.go:110-152 | channel strings name the table checked at the handshake, tell rows apart, and rows from whole tables |
| Channels.AdmittedGrantIsAllowed | internal/sse/auth.go:161-172 | a grant the handshake admits is one a refresh would accept for that user and channel |
| AuthRefresh.AuthSubscriber.constructor | internal/auth/subscriber.go:94-138 | the stored grant is the handshake's, for the given user or else the grant's own; three backoffs by default; the grant sets the interval only where the operator turned refresh on; loadable grants are allowed exactly when this one is |
| AuthRefresh.AuthSubscriber.SwapMap | internal/auth/subscriber.go:283-295 | the new grant is stored stamped and without startup payload, the old one becomes the previous; a missing grant changes nothing |
| AuthRefresh.AuthSubscriber.FilterAfterSwap | internal/auth/subscriber.go:156-295 | after a swap, changes above its position are filtered as the new grant filters them, the others as the grant before it, whatever that one's boundary |
| Refinement.AnswerIsApplied | internal/auth/subscriber.go:211-261 | an answer in the grant machine, with the swap it leads to, stores exactly an allowed grant with the old one behind it, and drops exactly for a refusal, a failure or the last unavailable answer |
| Channels.RefusalIsExact | internal/auth/subscriber.go:211-281 | an answer is refused exactly when the backend denies, grants nothing, or grants to another user or without the table the stream was opened on |
| AuthRefresh.AuthSubscriber.ApplyFetched | internal/auth/subscriber.go:211-228 | swaps only an allowed grant, drops on a refusal or a grant for another user or without the table, and leaves transient errors to the caller |
| AuthRefresh.AuthSubscriber.TryRefresh | internal/auth/subscriber.go:232-261 | a call is retried exactly when the backend is unavailable, a backoff is left and the wait runs out; the last swaps or drops with the right reason unless the stream is ending |
| AuthRefresh.AuthSubscriber.RefreshLoop | internal/auth/subscriber.go:171-199 | one refresh with each tick up to the first other wake-up and nothing in between; both loadable grants stay allowed for user and channel throughout; no refresh without a positive TTL |
| Assembly.RelationCache.Update | internal/wal/relation.go:44-85 | accepts exactly one key column of an allowed type; a rejected message leaves the cache as it is |
| Assembly.BuildDataMap | internal/wal/decode.go:154-184 | the loop builds the row of the tuple or fails on an unmappable cell |
| Assembly.BuildChangedMap | internal/wal/decode.go:186-220 | the same without unchanged out-of-line cells |
| Assembly.RowIsExact | internal/wal/decode.go:154-220 | with distinct names a row holds every used cell under its name, fails exactly when one cannot be mapped, and takes its key from the key column |
| Assembly.ExtractPKFromTuple | internal/wal/decode.go:222-238 | the loop finds the key of an old row |
| Assembly.KeyIsFirst | internal/wal/decode.go:222-249 | that key is the text of the first cell of the key column, and there is none exactly when the tuple has no such cell |
| Assembly.TxBuilder.HandleInsert | internal/wal/decode.go:48-74 | appends to the open transaction, or nothing; under a known relation the change appended is an insert of its table, every cell under its column in data, the key from the key column |
| Assembly.TxBuilder.HandleUpdate | internal/wal/decode.go:76-110 | the same for an update, with the cells it changed in changed and none in data, and the old row's key where the new row shows none |
| Assembly.TxBuilder.HandleDelete | internal/wal/decode.go:112-138 | the same for a delete, without columns, and with an empty key when the old row shows none |
| Assembly.AcceptedIsExact | internal/wal/relation.go:44-85 | a Relation is accepted exactly with one key column, of type int2, int4, int8, uuid or text, and is kept with its names, columns and that key |
| Assembly.ChangeIsExact | internal/wal/decode.go:48-249 | a row message under an accepted Relation becomes the change of its own kind with exactly the cells there, mapped by type, and the key; it is skipped exactly for a cell that cannot be mapped |
| Assembly.TxBuilder.HandleCommit | internal/wal/decode.go:140-152 | yields the open transaction, if any, and closes it |
| Assembly.TracksAll | internal/wal/decode.go:28-152 | after any messages the builder holds the open Begin and the changes since it, and the cache the last accepted Relations |
| Assembly.AssemblyIsExact | internal/wal/decode.go:28-152 | the emitted transactions are exactly one per Commit with an open Begin, in order, holding the decodable changes since that Begin under the last accepted Relation |
| Assembly.NothingLeaks | internal/wal/decode.go:37-42 | of what came before its Begin a transaction depends only on the relations known then |
| Assembly.RejectedRelationIsIgnored | internal/wal/relation.go:53-67 | a rejected Relation is as if never sent, for the builder and for every emitted transaction |
| WalReader.Reader.Deliver | internal/wal/reader.go:308-321 | standby updates go out while waiting; the transaction enters the channel exactly when it is handed off |
| WalReader.Reader.ProcessWALMessage | internal/wal/reader.go:331-397 | one message does to builder, cache, positions and channel what the step function says: record, acknowledge, then deliver |
| Standbys.TurnsAreAnswered | internal/wal/reader.go:211-397 | every turn on a live connection sends one update before the receive exactly when the timer is due, and after it one exactly when asked, or the record, the updates of the wait and the hand-over of a Commit, or nothing; it ends exactly with a broken receive or a delivery cut short |
| Standbys.OwedIsSent | internal/wal/reader.go:211-329 | over a whole connection as many updates go out as timers, requests and waits call for |
| WalReader.Reader.RunLoop | internal/wal/reader.go:211-274 | a connection starts from position zero with nothing open or known, and ends as the fold of its turns says |
| AckSafety.AckIsHighest | internal/wal/reader.go:282-286 | the acknowledged position is the highest Commit or idle WAL end received, or zero |
| AckSafety.AckIsSafe | internal/wal/reader.go:211-303 | with an honest server no standby update exceeds a Commit not received when it was sent |
| AckSafety.PositionsGrow | internal/wal/reader.go:251-259 | positions never decrease and are frozen while a transaction is open |
| AckSafety.HandsOverEmitted | internal/wal/reader.go:370-378 | the router is handed exactly the assembled transactions in order, each recorded before, with no other recorded in between |
| AckSafety.AckedNotDelivered | internal/wal/reader.go:373-377 | on cancellation during delivery a transaction is recorded and acknowledged but never handed over |
| ArrayLiteral.SplitArrayElements | internal/wal/mapper.go:413-464 | terminates in bounds on every input and computes the recursive split |
| ArrayLiteral.MapElements | internal/wal/mapper.go:398-409 | the loop maps every element in order, an element spelling NULL to null, and fails exactly when one of the others cannot be mapped |
| ArrayLiteral.ParseArray | internal/wal/mapper.go:375-411 | passes other texts through, gives the empty list for a blank inside, else the mapped elements or the failure |
| ArrayLiteral.SplitsQuoted | internal/wal/mapper.go:413-464 | on any text, a quoted piece with its escapes undone is one element and the rest goes on after spaces and one comma |
| ArrayLiteral.SplitsOpenQuote | internal/wal/mapper.go:425-442 | a quote never closed takes in all the rest, a backslash at the very end included |
| ArrayLiteral.SplitsBare | internal/wal/mapper.go:449-460 | any other text up to a comma or the end is one trimmed element |
| ArrayLiteral.SplitsSpaces | internal/wal/mapper.go:416-423 | spaces before an element are nothing, and nothing has no elements |
| ArrayLiteral.TrimIsExact | internal/wal/mapper.go:376-383 | trimming takes white space off both ends, all of it and nothing else |
| ArrayLiteral.SplitPrinted | internal/wal/mapper.go:413-464 | splitting a printed list yields each element, unquoted ones trimmed |
| ArrayLiteral.RoundTrip | internal/wal/mapper.go:375-464 | under any rule that quotes what must be quoted, printing then parsing gives the list back if and only if no string is the word NULL and none loses white space |
| ArrayLiteral.RoundTripUnicode | internal/wal/mapper.go:375-464 | were all Unicode white space quoted, exactly the word NULL would be lost |
| ArrayLiteral.RoundTripServer | internal/wal/mapper.go:375-464 | the exact condition under the server's own quoting rule |
| ArrayLiteral.QuotedNullIsLost | internal/wal/mapper.go:399-403 | every spelling of NULL comes back as null although printed in quotes |
| ArrayLiteral.NoBreakSpaceIsLost | internal/wal/mapper.go:383-392 | a list of one no-break space comes back empty |
| Framing.TxToEvent | internal/sse/encoder.go:44-65 | the event shows the matched changes in range, or all of them without a match list |
| Framing.RouterIndicesPickAll | internal/router/router.go:254-258 | the router's index list picks every filtered change once, in order, showing what its filtered form shows |
| Framing.DecimalIsNumber | internal/sse/encoder.go:81-108 | the digits of the id line are the number, without leading zeros |
| Framing.Encoder.Encode | internal/sse/encoder.go:81-108 | one event block of type tx with the transaction's id, or nothing above the payload limit |
| Framing.Encoder.EncodeError | internal/sse/encoder.go:110-130 | one event block of type error carrying the reason |
| Framing.Encoder.EncodeInitialData | internal/sse/encoder.go:138-166 | a block exactly for a present, non-null, valid payload within the limit; overflow exactly above it |
| Framing.Encoder.EncodeHeartbeat | internal/sse/encoder.go:168-170 | a comment block |
| Framing.Encoder.EncodeShutdown | internal/sse/encoder.go:172-174 | one event block of type shutdown |
| Framing.PreludeBytes | internal/sse/stream.go:31 | the prelude constant is one block setting the reconnection time |
| EventStream.RoundTrip | internal/sse/encoder.go:81-174 | an event source reads from any frame sequence exactly the messages of the non-heartbeat, non-prelude frames, tagged with the latest transaction id |
| EventStream.CutStream | internal/sse/stream.go:141-154 | when the connection breaks inside a frame the client gets the frames before it and nothing of that one |
| StreamLoop.Response.Write | internal/sse/stream.go:141-154 | writes the frames in order and stops at the first failure |
| StreamLoop.Stream.TakeBatch | internal/sse/stream.go:185-195 | takes frames in order, at least one, at most the queue's capacity, and as many as are there when it looks, whatever arrives meanwhile |
| StreamLoop.Stream.Finish | internal/sse/stream.go:169-179 | one terminal frame with the stored reason, none for a gone client or a broken connection; queued frames are not written |
| StreamLoop.Stream.Others | internal/router/router.go:271-278 | frames offered while the loop waits are queued in order until one is refused, which drops the subscriber; later ones are not offered |
| StreamLoop.Stream.BatchTurn | internal/sse/stream.go:185-208 | a whole batch is written, extending what was written along what was accepted, or the stream ends dropped; nothing is written of a batch taken from a dropped subscriber |
| StreamLoop.Stream.TakeTurn | internal/sse/stream.go:183-222 | each case writes what it calls for, a heartbeat, a batch, a terminal frame or nothing, and ends the stream exactly on a seen drop, a gone client or a broken write, with the right reason; nothing accepted is lost, doubled or reordered |
| StreamLoop.Stream.Run | internal/sse/stream.go:123-223 | with others acting before each of its accesses and around each write: while it runs, written frames and queue are what was accepted; when it ends the subscriber is dropped, the written frames are a prefix, and a terminal frame comes last; the response is the preamble and then what each turn, up to the one that ends the stream, calls for |
| Refinement.EndIsFinish | internal/sse/stream.go:169-179 | where the loop sees a drop, the delivery machine's end of a stream writes what the handler does |
| Admission.Limits.AcquireGlobal | internal/limits/limits.go:31-38 | takes a token exactly when one is free |
| Admission.Limits.AcquirePerUser | internal/limits/limits.go:48-57 | counts the user exactly below the cap; a refusal leaves every count as it was |
| Admission.Limits.ReleasePerUser | internal/limits/limits.go:59-66 | uncounts this user once and nobody else |
| Admission.RunHandshake | internal/sse/auth.go:145-174 | succeeds exactly when every gate passes; its flags say which slots it holds |
| Admission.RunHandshakeAndWriter | internal/sse/handler.go:154-179 | it streams exactly when every gate passes, and every exit path gives back exactly the slots it took |
| Admission.StreamsWithinCaps | internal/limits/limits.go:31-66 | in every interleaving streams stay within the global and the per-user cap |
| Admission.SlotsAreConserved | internal/sse/handler.go:154-179 | counters equal the handlers behind them, and are zero when no handler is left |
| Admission.RefusalIsExact | internal/limits/limits.go:48-57 | a user is refused if and only if admitted handlers and those backing out reach the cap |
| Admission.SpuriousRefusal | internal/limits/limits.go:48-57 | a concrete run refuses a user who holds no slot |
| EndToEnd.RouterRespectsStart | internal/router/router.go:195-198 | the router's decision has the cutoff the start theorem asks for |
| EndToEnd.ClientGetsTheScan | internal/router/router.go:128-279 | in every run the written frames are a prefix of a scan of all committed transactions; until the drop nothing of the scan is missing, and for every client, dropped or not, every transaction from Register to its last dispatch was dispatched under the grants shown or means nothing under any grant |
| EndToEnd.ClientStartCutoff | internal/sse/handler.go:181-192 | a client without since_lsn is written nothing but a prefix of the frames of transactions recorded after its handshake read the position |
| EndToEnd.FrameText | internal/sse/encoder.go:81-108 | a frame is one event block for exactly the kept changes |
| EndToEnd.ClientReadsTheOutput | internal/sse/stream.go:123-223 | given at Register what the encoder yields for initial data, an event source reads from the output of any run exactly the messages of its blocks, in order |
| Disclosure.WrittenShowsOnlyGranted | internal/router/router.go:226-279 | in every interleaving of deliveries with a run of the refresh machine, every frame ever written is the block of the changes of one committed transaction that its grants let through, each shown unaltered with its key column and columns that a grant for the client's user and table allows, and nothing else |
| Disclosure.WrittenUnderOneGrant | internal/auth/subscriber.go:283-295 | every frame written is what a dispatch made of its transaction by its filter calls, and at whatever moment those are over, if the transaction lies between the boundaries of the grants around it, the frame is the one that the grant it began under gives alone |
| Disclosure.NothingStaleIsWritten | internal/auth/subscriber.go:156-169 | what is written are the frames of the dispatches in order, and once Auth points at grant k, every dispatch of a transaction the router takes from then on, above boundary k, shows each change of the schema under grant k or a newer one |
| Disclosure.GrantsNeverGoBack | internal/auth/subscriber.go:156-295 | where a dispatch used grant v, every later dispatch filters a transaction above boundary v by grant v or newer ones throughout |
| Realization.FilteredIsWritten | internal/sse/stream.go:123-223 | for every run of the refresh machine, and any filter calls in it that yield a frame, some interleaving with a delivery writes exactly that frame to the client |

## Left out

- Router.Broadcaster.RouteTx: assumes that no refresh stores a pointer and nobody else touches a subscriber during the call; interleaved refreshes are modelled in `GrantSwap`, interleaved drops and streams in `Delivery`, whose dispatches carry the grant of each filter call.
- StreamLoop: Drop is one access there, storing the reason and closing Done; they are two steps in `Delivery`.
- Router.Broadcaster.Register: the gauge clause is for calls that do not overlap; overlapping calls are in `Registration`.
- Router.Broadcaster.Deregister: the same.
- Delivery: the filter loop, the encoder and the storing of a tx_too_large reason are one step with the Done check before them, and so is the end of a stream in finish; the reason store and the closing of Done are two.
- Disclosure: the two machines share the dispatched transactions, the grants used for them and the order of their steps; drops and recorded positions of one are not tied to those of the other, so the theorems speak of more interleavings than the program has.
- GrantSwap: the load of Auth inside StorePrev is one step with the store, since only the refresher stores Auth; the answer check and the read of the stamp are one, since the check touches nothing shared.
- Sockets, HTTP, TLS, CORS, write deadlines and parsing of replication messages: messages, write success and failure are inputs.
- JSON, hex, base64, time and number formatting, intervals and timestamps: value mapping and encoding are functions of their text.
- Parsing of the backend's grant (`ParseWhitelist`): its JSON part is library-bound and its loop copies lists into sets.
- Real time: tickers, TTL, backoff durations and jitter leave only the order of steps and the number of attempts.
- Slot creation, except that positions never decrease; transactions committed while the replication connection is down.
- A panic inside the handshake, before the acquired flags reach the deferred releases.
- The auth backend and its HTTP client: an oracle that grants, denies, is unavailable or fails.
- Configuration, publication bootstrap, health, metrics other than the active gauges, logging, process lifecycle: plumbing.
- Nested and multi-dimensional arrays pass through as text, as in the program; element types other than the text ones are a parameter.
