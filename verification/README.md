# Richat: verified model

Richat carries validator events through bounded rings, splits them into three commitment streams
(processed, confirmed, finalized), joins disk replay to live memory, and re-encodes protobuf by hand.
This project models the parts of it where an error would be silent — an event lost, delivered twice,
delivered from the wrong bank, or encoded with a wrong length — and proves what those parts promise
over every input, every run and every interleaving.

`dafny verify dfyconfig.toml` checks the whole project.

## Layout

| files | component |
|---|---|
| `Basics`, `RingCore` | ring arithmetic; the cells of a ring, its window, its byte count and its journal floor |
| `CommitmentRing` | `SenderShared`, `SharedChannel`, the two receivers and the replay cursor |
| `PluginRing`, `Wakeup` | the plugin's ring: publication with status back-fill, and the two-lock receive/park protocol |
| `Messages`, `BlockAssembly`, `Dedup`, `DedupLaws` | one bank: its block, and the removal of duplicates |
| `SlotTracking`, `Sender`, `SenderAdmission`, `SenderDelivery`, `SenderContents`, `SenderJournal`, `SenderStreams`, `SenderRetention`, `SenderLog`, `SenderInvariant`, `SenderBounds`, `SenderCleared`, `SenderRuns`, `SenderDivergence`, `SenderClass`, `SenderRings` | `Sender` as a state machine, its invariants, its runs, the object that refines it, and the rings it feeds |
| `Recovery` | `GlobalReplayFromSlot`, the source protocol and the merged stream |
| `Wire`, `AccountDecode`, `AccountMeaning`, `AccountMoves`, `AccountSplice`, `AccountRoundTrip`, `Encode`, `EncodeRoundTrip`, `EncodeCache`, `FilteredReads` | the protobuf code |
| `QuicReorder` | the QUIC reorder buffer |

Where the source mutates an object, the model has a class with the same fields and a pure function or
datatype that its methods are proved to compute; the laws are lemmas about those values. Protocols with
several actors (wakeups, recovery, the sender over its events) are transition systems.

## Conventions

* Integers are unbounded. Bounds that the wire format imposes are written out (`U64_LIMIT`, `ISIZE_LIMIT`);
  what is read back from encoded bytes has numbers and lengths below 2^64, as in memory.
* The storage is an abstract append-only journal with increasing indices; its calls show as journal
  indices and as a list of trims.
* A bank id of zero has already been read as "no bank", as the source does at every use.
* `ParsedMessage::get_id` is taken before hashing, so two different events never share an identity.
* Names of sources are distinct, which the configuration enforces (`richat/src/config.rs:101-105`).
* A source never delivers a `Block`; the source code calls that case unreachable.

## Where the code and the promise differ

Each of these has a lemma that names the input and one that gives the exact condition under which the
promise holds.

* The entry bitmap has no room for an index that is a power of two and at least twice its length;
  the first entry of a bank with index 512 is out of range (`Dedup.EntryOutOfRange`, `Dedup.GrownCovers`).
* The bound on dedup records holds only after a push that publishes something: accounts whose
  transactions never come grow the map without limit (`SenderBounds.DedupGrows`, `SenderBounds.DedupIsBounded`).
* A slot confirmed without a bank and finalized without a bank can have messages on finalized that are not on
  confirmed; finalized is within confirmed exactly if the bank selected for it is the confirmed one or stores
  nothing (`SenderDivergence.FinalizedCanDiverge`, `SenderStreams.FinalizedWithinConfirmed`).
* The receiver of the commitment ring can sleep on a published event, exactly if a whole push fell between its
  read of the tail and its registration (`Wakeup.AsyncCanMissAWakeup`, `Wakeup.AsyncSleepsOnWork`); the
  plugin's receiver cannot (`Wakeup.NoLostWakeup`).
* The startup flag of an account does not survive the round trip exactly if it is set, because it is written
  only when it is not (`AccountRoundTrip.DecodeEncodedAccount`).
* A slot that is its own parent makes the back-fill walk endless; the walk ends exactly if it visits no slot
  twice (`PluginRing.SelfParentNeverEnds`, `PluginRing.WalkEndsIff`).
* An account without a write version keeps offset zero, where the first key of the message is; the edit can
  start exactly if the field is there (`AccountSplice.MissingVersionReadsKey`,
  `AccountSplice.FirstMoveNeedsVersion`).

## Model

| member | source | states |
|---|---|---|
| RingCore.RetainedIsLeast | richat/src/channel.rs:1163-1205 | the retention rule keeps at least the newest event, keeps at most N events and less than the byte limit or only the newest, and drops nothing that could have stayed |
| RingCore.CountedWrote | richat/src/channel.rs:1163-1184 | writing the next position keeps the window: live data are exactly head..=tail, at most N, bytes are their sum, the journal floor is above every evicted index |
| RingCore.CountedDropped | richat/src/channel.rs:1186-1205 | while more than one event is live the oldest cell holds data, so the "nothing to remove" panic is unreachable, and dropping it keeps the window |
| RingCore.Buffer.WriteNewest | richat/src/channel.rs:1163-1184 | the in-place write is that step; the evicted slot is reported |
| RingCore.Buffer.DropOldest | richat/src/channel.rs:1188-1204 | the in-place drop of the oldest event |
| RingCore.Buffer.DropByBytes | richat/src/channel.rs:1186-1205 | the eviction loop ends at the least start that fits, and reports the greatest slot that lost an event |
| RingCore.Buffer.Append | richat/src/channel.rs:1163-1205 | one push as a whole: the new history is live from the least start that fits |
| CommitmentRing.IndexedPush | richat/src/channel.rs:1211-1234 | after a push the indexed slots are exactly the slots published in this epoch above `incomplete_through`, each with its first position |
| CommitmentRing.SenderShared.constructor | richat/src/channel.rs:1109-1124 | a new ring is empty and valid |
| CommitmentRing.SenderShared.UpdateIndex | richat/src/channel.rs:1211-1234 | the slot index and `incomplete_through` after a push |
| CommitmentRing.SenderShared.Push | richat/src/channel.rs:1158-1235 | the event is appended to the history, the retained part is the one the rule gives, and window, byte count, floor and slot index stay valid |
| CommitmentRing.SenderShared.BeginLiveEpoch | richat/src/channel.rs:710-720 | a recovery epoch empties the slot index and raises the floor to the next journal index |
| CommitmentRing.SenderShared.HeadByReplayIndex | richat/src/channel.rs:1392-1411 | disk-to-memory handoff: the position returned splits the whole history into what has a smaller journal index and what has not, and everything after it is live; None exactly below the floor, and only if something wanted is gone or the epoch began later |
| CommitmentRing.CursorIsComplete | richat/src/channel.rs:526-536 | reading from the least head of the wanted slots yields every event of those slots published in the epoch, in order, and none of them was evicted |
| CommitmentRing.NothingFrom | richat/src/channel.rs:537-543 | above the newest slot the end of the ring is a complete cursor |
| CommitmentRing.CursorIsRight | richat/src/channel.rs:516-582 | every memory cursor handed out is live and complete |
| CommitmentRing.CursorPrefersMemory | richat/src/channel.rs:516-582 | a slot in the memory index is always served from memory, and a storage cursor is at or below the first record of every wanted slot |
| CommitmentRing.CursorOutcome | richat/src/channel.rs:516-582 | each outcome of a replay request if and only if: memory exactly if it spans the slot or nothing is known of it yet, at the least head; "first available" exactly if there is storage and the slot is older than every retained one, with the oldest of them; storage exactly if the retained slots span it, replay is enabled and reaches back to their least record; the other rejections in the cases that are left |
| CommitmentRing.FromSlotIsFilter | richat/src/channel.rs:526-536 | the events of the wanted slots are a filter of the history: events of older slots are skipped and the rest keep their order |
| CommitmentRing.SenderShared.TryRecv | richat/src/channel.rs:1323-1348 | with tail and cell read separately, a reader of position p gets the message pushed at p, or lagged exactly if p left the window |
| CommitmentRing.ReaderStepKeeps | richat/src/channel.rs:1251-1286 | one receive, with any pushes before it, extends the contiguous run or reports the lag |
| CommitmentRing.ReaderSeesContiguousRun | richat/src/channel.rs:1251-1286 | over any interleaving with pushes the output is the enabled-type filter of one contiguous run |
| CommitmentRing.SenderShared.RecvRef | richat/src/channel.rs:1251-1290 | the receive loop stops at the first enabled message, at the end or at a lag, and keeps the run contiguous |
| PluginRing.PushMsgKeeps | plugin-agave/src/channel.rs:139-224 | every advertised slot head is a live event of that slot, whatever was evicted for the new one |
| PluginRing.PluginSender.PushMsg | plugin-agave/src/channel.rs:139-224 | one message is appended and retention follows the rule; a slot stays advertised exactly if every evicted event is of an older one; the head of a known slot stays and that of a new one is the position just written; parent and flags change only by a status of the slot; a message without a slot goes with the latest one |
| PluginRing.PushFields | plugin-agave/src/channel.rs:153-178 | the same of the slot map, field by field, for any evicted events |
| PluginRing.HeadStaysFirst | plugin-agave/src/channel.rs:153-161 | the head of an advertised slot stays its first event since it was last not advertised |
| PluginRing.MissedIsMaximal | plugin-agave/src/channel.rs:85-117 | whenever the walk ends, the chain of ancestors lacking the status follows parent links, repeats no slot and cannot be extended |
| PluginRing.WalksArePrefixes | plugin-agave/src/channel.rs:85-117 | any other walk is a prefix of it |
| PluginRing.WalkEndsIff | plugin-agave/src/channel.rs:89-116 | the walk ends, that is, the length of walks is bounded, if and only if no walk visits a slot twice |
| PluginRing.OlderParentsEnd | plugin-agave/src/channel.rs:89-116 | with parents older than their slots it always ends, and goes to older and older slots |
| PluginRing.SelfParentNeverEnds | plugin-agave/src/channel.rs:89-94 | one status that names its slot as its own parent makes the walk for the next commitment endless |
| PluginRing.PluginSender.CollectMissed | plugin-agave/src/channel.rs:82-117 | if the walk ends, the stack loop ends and collects that chain |
| PluginRing.CollectedIsBackfill | plugin-agave/src/channel.rs:82-117 | what is collected, read backwards, is the back-fill: one status for each ancestor that missed it, then the message |
| PluginRing.PluginSender.PushBatch | plugin-agave/src/channel.rs:119-123 | the batch is published last message first and every slot of it that is still advertised is flagged; parent links stay older if they were |
| PluginRing.PluginSender.Push | plugin-agave/src/channel.rs:66-137 | the ring gains exactly the events of the missed statuses, oldest ancestor first, each with the status of the message and the parent that is known of its slot, then the message; all of these slots that are still present are flagged |
| PluginRing.PluginSender.Subscribe | plugin-agave/src/channel.rs:261-296 | a replay is answered with a position exactly if its slot is advertised; it is the live event of the slot before which there is none since the slot was entered; otherwise the first available slot or "not initialized" |
| Wakeup.StepKeepsInv | plugin-agave/src/channel.rs:66-137 | push, close and the peek-then-recheck receive, lock by lock, keep the invariant for every sleeping receiver |
| Wakeup.StepKeepsShown | plugin-agave/src/channel.rs:181-194 | a published position is in its own cell until a later one takes the cell, and those of the last lap are there |
| Wakeup.NoLostWakeup | plugin-agave/src/channel.rs:319-373 | over all interleavings a sleeping receiver whose next position is published, or whose cell is closed, is about to be woken by a running call; when no call is running there is none, and its waker is registered |
| Wakeup.PublishedIsReceived | plugin-agave/src/channel.rs:319-373 | in every reachable state a receiver that polls a live published position gets it and moves on; one whose position left the window ends |
| Wakeup.WakerStaysRegistered | plugin-agave/src/channel.rs:248-257 | a waker leaves the registry only to a push that wrote something or to a close |
| Wakeup.WokenAsRegistered | plugin-agave/src/channel.rs:125-136 | over any execution a receiver is woken at most once for each time it went to sleep |
| Wakeup.SleepsIff | plugin-agave/src/channel.rs:340-373 | a receiver goes to sleep exactly if its cell is open and holds an older position, and then it is registered |
| Wakeup.SleepEnds | plugin-agave/src/channel.rs:125-136 | its sleep ends only by being woken or polled again |
| Wakeup.CloseIsComplete | plugin-agave/src/channel.rs:248-257 | over any execution: when a close ends every cell is closed and everybody who was registered is woken |
| Wakeup.OwedIsDelivered | plugin-agave/src/channel.rs:125-136 | a push that owes a wakeup delivers it by its next step; a close delivers it once it has closed the cells it has left |
| Wakeup.AsyncSleepsOnWork | richat/src/channel.rs:1251-1290 | over every run, while no push is under way: a sleeping receiver of the commitment ring has a published message waiting if and only if a whole push, publication and drain, fell between its last read of the tail and its registration |
| Wakeup.AsyncCanMissAWakeup | richat/src/channel.rs:1251-1290 | a run from the start of a receiver that ends so |
| BlockAssembly.AbsorbIsRight | richat/src/channel.rs:1632-1744 | one arrival keeps the record exact, or creates the exact block: slot and bank of its meta, all transactions and entries in order, the surviving accounts, counts as announced |
| BlockAssembly.BlockWhenComplete | richat/src/channel.rs:1709-1714 | a block is created exactly if the counts of the latest meta are reached |
| BlockAssembly.SurvivorIsBest | richat/src/channel.rs:1669-1687 | a surviving account has the maximal write version of its pubkey, is the first with it and the only one |
| BlockAssembly.EveryPubkeySurvives | richat/src/channel.rs:1669-1687 | every updated pubkey has a survivor |
| BlockAssembly.AtMostOneBlock | richat/src/channel.rs:1632-1744 | over any arrivals a bank yields at most one block, made of exactly the arrivals up to then |
| BlockAssembly.StoredAre | richat/src/channel.rs:1632-1744 | over any arrivals: without a block a bank stores the arrivals that are not superseded, each in its place; with one, the block behind the arrivals it was made from, and of what comes later only footers |
| BlockAssembly.Bank.Collect | richat/src/channel.rs:1715-1730 | the pass over the stored messages yields those of one kind in order |
| BlockAssembly.Bank.StoreMessage | richat/src/channel.rs:1667-1707 | in place, one message is stored and replaces the account update it beats |
| BlockAssembly.Bank.GetBlockMessage | richat/src/channel.rs:1632-1744 | the method as written keeps the record exact or returns the exact block; afterwards no second one |
| Dedup.NextPowerOfTwoIsLeast | richat/src/channel.rs:825-828 | the growth target is the least power of two at or above the index |
| Dedup.GrownCovers | richat/src/channel.rs:824-829 | growing makes room for the index if and only if it is not a power of two at least twice the length |
| Dedup.EntryOutOfRange | richat/src/channel.rs:822-833 | the first entry of a bank, with index 512, is out of range |
| Dedup.AcceptPanics | richat/src/channel.rs:769-858 | exactly which messages panic |
| Dedup.AcceptIsRight | richat/src/channel.rs:769-858 | every arrival publishes exactly what became due by it, and the record knows all arrivals |
| Dedup.RunPublishes | richat/src/channel.rs:769-858 | over any arrivals each message that is due is published exactly once and nothing else is; accounts carry transaction index + 1000, unsigned accounts their rank |
| DedupLaws.RunOfSignedAccounts | richat/src/channel.rs:773-821 | on the fields of the messages: over any arrivals, once a transaction has arrived, exactly one account is published for each signature and pubkey that arrived with it: the first such arrival, with the index of the first such transaction + 1000; none before |
| DedupLaws.ReleasedInOrder | richat/src/channel.rs:800-821 | the accounts of a transaction are published right before it, in the order in which they first arrived |
| DedupLaws.SignedAccountIsPublished | richat/src/channel.rs:773-821 | the same of any log that holds what is due |
| DedupLaws.SignedAccountIsHeldBack | richat/src/channel.rs:777-791 | without the account or without its transaction none is published |
| DedupLaws.RunOfUnsignedAccounts | richat/src/channel.rs:792-797 | over any arrivals exactly one unsigned account is published for each pubkey: the first, with the number of unsigned pubkeys before it |
| DedupLaws.TransactionIsPublished | richat/src/channel.rs:800-821 | a transaction is published once per signature, as it first arrived |
| DedupLaws.EntryIsPublished | richat/src/channel.rs:822-833 | an entry once per index |
| DedupLaws.OnceEachIsPublished | richat/src/channel.rs:834-857 | block meta, footer and parent update once each |
| Dedup.BufferedAreWaiting | richat/src/channel.rs:777-791 | buffered accounts are exactly the first arrivals whose transaction has not arrived |
| Dedup.Confluent | richat/src/channel.rs:769-858 | whatever the order, the duplication and the sources' own write versions, the same messages are published |
| Dedup.ConfluentUnsigned | richat/src/channel.rs:792-797 | so are unsigned accounts, up to the write version, which is their rank in the run |
| Dedup.RanksDiffer | richat/src/channel.rs:792-797 | unsigned accounts get different ranks, all below their number |
| Dedup.DedupInfoBank.Offer | richat/src/channel.rs:769-858 | the mutated record publishes what the specification says and keeps the exactly-once log |
| Dedup.DedupInfoBank.FilterAccount | richat/src/channel.rs:773-799 | an account is published, buffered or dropped |
| Dedup.DedupInfoBank.FilterTransaction | richat/src/channel.rs:800-821 | the drain loop gives each waiting account the transaction's index and publishes the transaction last |
| SlotTracking.AbsorbMessageHolds | richat/src/channel.rs:1535-1551 | a slot stores nothing but what arrives and the block made of it, in the bank it belongs to |
| SlotTracking.AbsorbMessageBelongs | richat/src/channel.rs:1535-1551 | stored messages belong to the slot and the bank they are stored under |
| SlotTracking.CommitHolds | richat/src/channel.rs:1511-1525 | committing a slot changes nothing that is stored |
| SlotTracking.KeptInOrder | richat/src/channel.rs:1553-1573 | the stored messages come out in the order in which they were stored, blanks skipped |
| SlotTracking.SelectBankIsRight | richat/src/channel.rs:1527-1533 | the bank of a status is the one it names, else the confirmed one, else the greatest candidate; none only if no candidate has an id |
| SlotTracking.CommitFixesBank | richat/src/channel.rs:1511-1525 | only the first confirmed status sets the confirmed bank; cleared banks and candidates stay, and of them only the selected one is marked as landed |
| SenderAdmission.AdmitIsBatch | richat/src/channel.rs:746-858 | whatever passes dedup is of the slot and bank of the arrival and can be published; a status or a parent update passes alone |
| SenderDelivery.StatusPassesIff | richat/src/channel.rs:752-768 | over any run, while the dedup record of the slot is kept: a status that is not ignored is received if and only if it names no bank or comes from the first source that named one, and no earlier delivery of that bank and status was received |
| SenderDelivery.BankReceivesExactly | richat/src/channel.rs:752-858 | likewise for everything else of a bank: what was received is exactly what is due of what the allowed source delivered |
| SenderDelivery.AccountIsReceived | richat/src/channel.rs:773-821 | so an account that was brought is received exactly once when its transaction was brought too, with the version that the transaction gives it |
| SenderDelivery.OthersAreUnheard | richat/src/channel.rs:752-760 | nothing is received from another source |
| SenderDelivery.WithoutDedup | richat/src/channel.rs:746-751 | without dedup a delivery is received as it is, unless it is ignored |
| SenderDelivery.RecordIsExact | richat/src/channel.rs:752-858 | the record of a slot knows exactly the source, the statuses and the messages of each bank since it was made |
| SenderContents.BankIsItsArrivals | richat/src/channel.rs:1535-1744 | over any run, for every open slot: each bank is exactly what block assembly makes of the messages of it that were received, in order, its blocks are the blocks received, and a replaced bank is gone |
| SenderContents.IgnoredIff | richat/src/channel.rs:729-744 | over any run a delivery is ignored if and only if its slot is finalized or dropped, or its own bank was replaced by a parent update received in this epoch |
| SenderJournal.KnownIff | richat/src/channel.rs:893-903 | over any run a message counts as journaled exactly if its slot was read back at the start and is still retained, and the same event was read back or received since |
| SenderJournal.IdentIff | richat/src/channel.rs:247-300 | two messages have the same identity exactly if they are the same event, by its fields |
| SenderStreams.PublishOtherKeeps | richat/src/channel.rs:989-1017 | a message and its block keep the books of the slot: nothing confirmed more often than received, only the confirmed bank on confirmed, everything that bank stores already there |
| SenderStreams.PublishStatusTally | richat/src/channel.rs:932-987 | after a status each stream gains exactly what the selected bank stores |
| SenderStreams.PublishStatusKeeps | richat/src/channel.rs:932-968 | the first confirmed status fixes the bank and the books still balance |
| SenderStreams.FinalizedWithinConfirmed | richat/src/channel.rs:969-987 | the finalized messages of the slot are a sub-multiset of the confirmed ones if and only if the selected bank is the confirmed one or stores nothing |
| SenderStreams.FinalizedFollowsConfirmed | richat/src/channel.rs:1527-1533 | so it is when the confirmed bank is a real id and finalized names no other |
| SenderStreams.FinalizedDiverges | richat/src/channel.rs:1527-1533 | and it is not when a slot confirmed without a bank has a candidate with stored messages |
| SenderInvariant.PublishAllKeeps | richat/src/channel.rs:870-1018 | a batch keeps the books of its slot and leaves every other slot, epoch and stream alone |
| SenderInvariant.StepKeepsInv | richat/src/channel.rs:697-1095 | every delivery and every recovery epoch keeps the invariant of all streams |
| SenderRetention.DropExcessKeeps | richat/src/channel.rs:1039-1055 | dropping leaves exactly the limit if there were more, only the newest slots, and the mark is the newest dropped |
| SenderRetention.DropDedupKeeps | richat/src/channel.rs:860-862 | likewise for the dedup records |
| SenderRetention.TrimReplayKeeps | richat/src/channel.rs:1060-1079 | exactly the slots below the first retained are trimmed, each trim bound is at or below every retained head, and the last one is the least of them |
| SenderLog.PublishOneGrows | richat/src/channel.rs:870-1018 | the records one message adds: its own slot and epoch, itself, its block or the selected bank, with journal indices that only grow |
| SenderLog.StatusEmits | richat/src/channel.rs:932-1017 | in order: a new status goes to every stream there is, and behind it the stored messages of the selected bank, oldest first, to the stream of the commitment |
| SenderLog.OtherEmits | richat/src/channel.rs:989-1017 | any other new message goes to processed, and to confirmed exactly if its bank is the confirmed one and it is no parent update |
| SenderLog.KnownEmitsNothing | richat/src/channel.rs:894-903 | what the journal of an earlier run already has goes to no stream |
| SenderBounds.StepNumbered | richat/src/channel.rs:1126-1156 | journal indices strictly increase over all streams together |
| SenderBounds.StepBounds | richat/src/channel.rs:1020-1055 | tracked slots never exceed the limit and lie above what is finalized or dropped; finalized slots strictly increase; records are added only above the bound |
| SenderBounds.StepJournal | richat/src/channel.rs:1060-1082 | with storage every record of the epoch is at or behind its slot's head or older than what is retained; a push that publishes leaves the map within `max_slots` numbers; every trim is safe |
| SenderBounds.TrimLosesNothing | richat/src/channel.rs:1073-1077 | a trim never removes a record of a retained slot |
| SenderBounds.PublishRetains | richat/src/channel.rs:1060-1082 | after a push exactly the slots among the `max_slots` newest numbers are retained, and the last trim goes up to the least head of them |
| SenderBounds.NewestIsKnown | richat/src/channel.rs:537-543 | the newest slot of the replay map is the newest published in the epoch, which the cursor relies on |
| SenderBounds.DedupIsBounded | richat/src/channel.rs:860-862 | the dedup map is within the limit after a push exactly if it published something or there was room for the slot of the message |
| SenderBounds.DedupGrows | richat/src/channel.rs:860-862 | a run of any length n whose dedup map has n records |
| SenderCleared.UpdateParentClears | richat/src/channel.rs:1535-1543 | an accepted `EntryUpdateParent` clears its bank |
| SenderCleared.ClearedIsSilent | richat/src/channel.rs:734-744 | no event of the same epoch puts a message of a cleared bank on any stream: not buffered accounts, not a status without a bank, not finalization, not the dropping of slots |
| SenderRuns.RunKeepsInv | richat/src/channel.rs:697-1095 | every reachable state satisfies the invariant and the bounds |
| SenderRuns.StreamsAreSound | richat/src/channel.rs:870-1018 | over any run, in every epoch: one bank per slot on confirmed and on finalized, and nothing more often than it was received |
| SenderRuns.SettledForever | richat/src/channel.rs:729-732 | over any run: a slot that is finalized or dropped is never tracked or published again |
| SenderRuns.SilentForever | richat/src/channel.rs:734-744 | over any run: a cleared bank stays silent to the end of the epoch |
| SenderRuns.RunKeepsJournal | richat/src/channel.rs:1060-1082 | over any run with storage the journal keeps every record of the slots it retains, and from the first publication on the map spans at most `max_slots` slot numbers |
| SenderRuns.RunTrimsAreSafe | richat/src/channel.rs:1073-1077 | over any run each trim is of a slot older than what is retained, at or below every retained head, and above no journal record of a retained slot |
| SenderRuns.FinalizedStaysWithinConfirmed | richat/src/channel.rs:969-987 | over any run: finalized is within confirmed for ever after the finalizing status, exactly if the selected bank agrees |
| SenderRuns.BooksBalance | richat/src/channel.rs:932-1017 | over any run, for every open slot: only the confirmed bank is on confirmed, everything received is on processed and everything the confirmed bank stores is on confirmed (unless the slot was read back from the journal) |
| SenderRuns.ConfirmedBankStays | richat/src/channel.rs:1511-1525 | the bank fixed by the first confirmed status stays fixed while the slot is tracked |
| SenderRuns.RunIsNumbered | richat/src/channel.rs:1126-1156 | over any run the indices given to a ring are increasing, as the ring requires |
| SenderRuns.OneSourceWhileKept | richat/src/channel.rs:752-760 | over any run, while the dedup record of a slot is kept, all bank-scoped messages that pass come from one source |
| SenderRuns.StatusOnceWhileKept | richat/src/channel.rs:762-768 | likewise each status passes once per bank, whoever repeats it and however much later |
| SenderDivergence.FinalizedCanDiverge | richat/src/channel.rs:1527-1533 | from any start of the sender, the run confirmed status without bank, entry of a candidate, finalized status without bank, after which finalized is not within confirmed |
| SenderRings.FedPush | richat/src/channel.rs:1126-1156 | a ring that is given the records of its stream keeps the sender's history of it |
| SenderRings.FedIndex | richat/src/channel.rs:1126-1156 | over any run the next journal index is one that the ring accepts |
| SenderRings.FedCursorIsRight | richat/src/channel.rs:516-582 | over any run with storage a memory cursor is live, and reading from it yields every event of the wanted slots that the sender put on the stream in this epoch, in order |
| SenderRuns.StepExists | richat/src/channel.rs:726-862 | only a panic in dedup stops the sender |
| SenderObject.Sender.constructor | richat/src/channel.rs:363-486 | a sender starts in the initial state, whatever the journal holds |
| SenderObject.Sender.PushRecords | richat/src/channel.rs:1126-1156 | each message gets one record and, if journaled, the next index |
| SenderObject.Sender.HandleMessage | richat/src/channel.rs:893-1017 | the inner loop of `push`, including events that the journal already has |
| SenderObject.Sender.PublishMessages | richat/src/channel.rs:870-1018 | the outer loop of `push` |
| SenderObject.Sender.DropSlots | richat/src/channel.rs:1039-1055 | the loop that drops the oldest slots |
| SenderObject.Sender.TrimJournal | richat/src/channel.rs:1060-1082 | the loop that trims the journal |
| SenderObject.Sender.Push | richat/src/channel.rs:726-1095 | the method is a step of the transition system, so every theorem about runs holds of the object; a panic changes nothing that was published |
| SenderObject.Sender.BeginLive | richat/src/channel.rs:697-724 | so is the start of a recovery epoch |
| Recovery.GlobalReplayFromSlot.StoreSlot | richat/src/channel.rs:79-85 | the position never falls; a later one clears the failures |
| Recovery.GlobalReplayFromSlot.Fallback | richat/src/channel.rs:96-115 | the guarded method computes the specification and advances the epoch by one or not at all |
| Recovery.GlobalReplayFromSlot.SetSources | richat/src/channel.rs:118-122 | a new number of sources clears the failures |
| Recovery.FallbackIsRight | richat/src/channel.rs:96-115 | a stale failure changes nothing; a current one advances the epoch if and only if it is that of the last source missing |
| Recovery.StepKeepsInv | richat/src/source.rs:236-327 | every step of every source, of the position and of the set of sources keeps the protocol invariant |
| Recovery.AdvanceNeedsAll | richat/src/source.rs:293-299 | an epoch advances only together with one gap and only after every configured source reported the current slot in the current epoch |
| Recovery.SubscriptionAsksForCurrent | richat/src/source.rs:282-288 | a new subscription asks for the current position, in the current epoch |
| Recovery.FailureIsHandled | richat/src/source.rs:289-324 | exactly when a failed attempt ends its source, when it shows in the output, and when it can move the shared position |
| Recovery.ReloadIs | richat/src/source.rs:611-627 | a reload leaves the sources that stay as they are, starts the new ones afresh, clears the failures and counts the sources; nothing is delivered |
| Recovery.OutputIsFenced | richat/src/source.rs:261-281 | over any run every message comes from a subscription opened after the last gap before it, and the gaps are as many as the epoch says |
| Recovery.OneGapBetween | richat/src/source.rs:293-299 | messages of equal epochs have no gap between them, those of consecutive epochs exactly one |
| Recovery.NextToAnswer | richat/src/source.rs:637-661 | one turn over the sources finds one that answers, or all of them wait |
| Recovery.Subscriptions.PollNext | richat/src/source.rs:632-665 | pending means that every remaining source waits; only sources that ended and may leave do leave, and the shared total follows |
| Recovery.Subscriptions.ApplyReload | richat/src/source.rs:611-627 | the sources that stay keep their order and the new ones follow |
| Recovery.StayingCounts | richat/src/source.rs:611-615 | of the old sources exactly the removed names are gone, and nothing is doubled |
| Wire.DecodeEncoded | filter/src/message.rs:890-903 | a varint is read back, with its width |
| Wire.EncodingIsShortest | filter/src/message.rs:895-903 | no encoding of the value is shorter than the one that is written |
| Wire.DecodedIff | filter/src/message.rs:890-903 | which bytes are read as a varint, with which width, and the number they stand for |
| Wire.FieldReadsIff | filter/src/protobuf/decode.rs:58-66 | which bytes are read as a field: a 32-bit key with a tag and a known wire type, and contents of that type in full |
| Wire.FieldMoves | filter/src/protobuf/decode.rs:58-66 | a field reads the same wherever its bytes stand |
| AccountDecode.MergeAccount | filter/src/protobuf/decode.rs:354-371 | the loop over the nested account merges its fields in order |
| AccountDecode.DecodeAccount | filter/src/protobuf/decode.rs:58-66 | the outer loop refines the recursive decoder |
| AccountMeaning.DecodeMeans | filter/src/protobuf/decode.rs:302-455 | of any bytes: they decode exactly if they are a sequence of fields, each nested account too, with the wire types and lengths the format asks for, other fields being skipped; every value and offset is that of the last field with its tag |
| AccountMeaning.LastOfIsLast | filter/src/protobuf/decode.rs:58-66 | of several fields with one tag the last one counts |
| AccountMeaning.FixedIsRead | filter/src/protobuf/decode.rs:58-66 | an unknown field of fixed width takes its key and eight or four bytes |
| AccountDecode.OuterLoopPlaced | filter/src/protobuf/decode.rs:302-455 | offsets of one account field lie inside it, clear of each other, and point at what they name |
| AccountMoves.DecodeSpliced | filter/src/protobuf/decode.rs:354-455 | decoding the spliced bytes gives the same fields, with every offset moved by what was inserted before it |
| AccountSplice.UpdateIsRight | filter/src/message.rs:879-966 | after the edit the adjusted offsets are those of a fresh decoding; data and signature read the same, the write version is the new one |
| AccountSplice.MissingVersionReadsKey | filter/src/message.rs:343-343 | without the field the accessor does not read a version but the key of the first field |
| AccountSplice.FirstMoveNeedsVersion | filter/src/message.rs:912-921 | the first move of the edit has a length that is not negative if and only if the account has a write version |
| AccountSplice.CopyWithin | filter/src/message.rs:913-921 | an overlapping move in place |
| AccountSplice.EditInPlace | filter/src/message.rs:905-940 | the two moves and two writes leave the pieces of the old bytes around the new length and the new version, for any widths |
| AccountSplice.LimitedAccount.constructor | filter/src/message.rs:320-352 | parsing rebases every offset to the buffer |
| AccountSplice.LimitedAccount.WriteVersion | filter/src/message.rs:844-856 | the accessor reads the stored varint |
| AccountSplice.LimitedAccount.EditBuffer | filter/src/message.rs:890-943 | the bytes become exactly the splice of the old ones |
| AccountSplice.LimitedAccount.UpdateWriteVersion | filter/src/message.rs:879-966 | the whole update, after which another update is possible |
| AccountRoundTrip.DecodeEncodedAccount | filter/src/protobuf/encode.rs:132-185 | decoding an encoded account returns every value and offsets to the bytes written; the startup flag survives exactly if it is not set, the write version exactly if it is not zero |
| EncodeRoundTrip.FieldsAreRead | filter/src/protobuf/mod.rs:10-20 | fields written one after the other are read back, all of them and in order |
| EncodeRoundTrip.TransactionStatusIsRead | filter/src/protobuf/encode.rs:303-350 | a reader gets every field of a transaction status back |
| EncodeRoundTrip.BlockIsRead | filter/src/protobuf/encode.rs:389-505 | and every field of a block, the repeated ones in order, its accounts as encoded accounts |
| FilteredReads.NestedAccountIsRead | filter/src/protobuf/encode.rs:217-273 | which decode to the accounts that were encoded |
| Encode.FieldBytes | filter/src/protobuf/mod.rs:10-20 | a field takes exactly the bytes its length function says |
| Encode.AccountUpdateBytes | filter/src/protobuf/encode.rs:132-185 | so does an account update, nested length included |
| Encode.TransactionStatusBytes | filter/src/protobuf/encode.rs:303-350 | so does a transaction status |
| Encode.BlockLength | filter/src/protobuf/encode.rs:389-505 | so does a block with all its nested messages |
| Encode.EncodeBlock | filter/src/protobuf/encode.rs:390-437 | the appending loops write exactly those bytes |
| Encode.UpdateIsField | filter/src/protobuf/encode.rs:100-117 | the length announced before an update is the real one |
| Encode.MessageLength | filter/src/protobuf/encode.rs:26-45 | the whole message takes exactly the bytes reserved for it |
| EncodeCache.GetSlice | filter/src/filter.rs:476-494 | the selected bytes, with the special cases equal to the general one |
| EncodeCache.FiltersThenBody | filter/src/encode_cache.rs:36-43 | filters followed by the body encoded for nobody equal the update encoded in one piece |
| FilteredReads.PassedOnIsRead | filter/src/filter.rs:841-1079 | a reader of the update finds the filters in order, the message under the field number of its kind, unchanged, then the time |
| FilteredReads.SlicedAccountIsRead | filter/src/filter.rs:877-955 | a sliced account decodes to the account with just the selected data |
| FilteredReads.StatusOnlyIsRead | filter/src/filter.rs:987-1031 | the status of a transaction is under its own field number, with all its fields |
| FilteredReads.FilteredBlockIsRead | filter/src/filter.rs:1080-1234 | a filtered block holds the wanted transactions in the wanted order, entries only if wanted, the wanted accounts sliced, and the number of all updated accounts |
| FilteredReads.ProstIsRead | filter/src/filter.rs:1235-1262 | a footer comes with or without its certificates as asked, a parent update as it is |
| EncodeCache.MatchIsKey | filter/src/encode_cache.rs:113-193 | a key matches exactly the updates it could have been made from |
| EncodeCache.EncodeCache.Find | filter/src/encode_cache.rs:222-226 | the position of the one entry with the key |
| EncodeCache.EncodeCache.MarkSeen | filter/src/encode_cache.rs:235-245 | a new shape is remembered if there is room for eight |
| EncodeCache.EncodeCache.Insert | filter/src/encode_cache.rs:247-265 | a body is replaced or added, keys stay pairwise different, `encoded_bytes` stays the sum |
| EncodeCache.EncodeCache.GetOrEncode | filter/src/encode_cache.rs:267-277 | whatever the cache holds, the client gets the bytes of `encode_to_vec`; the body of a shape is kept from its second request on, the first leaves a mark if fewer than eight are known, and other shapes are not touched |
| EncodeCache.FaithfulAfter | filter/src/encode_cache.rs:247-265 | adding one right body keeps every cached body right for every update of the message |
| QuicReorder.BufferKeeps | client/src/quic.rs:540-546 | buffering a frame loses nothing and keeps ids unique |
| QuicReorder.DeliverKeeps | client/src/quic.rs:526-529 | delivering the due message keeps the books |
| QuicReorder.NextIdIsUnread | client/src/quic.rs:532-556 | the due id is the first unread frame of its stream |
| QuicReorder.DeliveredIsTheMessage | client/src/quic.rs:523-556 | ids come out as 0, 1, 2, ... with no loss and no duplicate |
| QuicReorder.PassMeans | client/src/quic.rs:531-556 | a pass ends only if a reader ended, fails only if a reader failed; without either it has the due message exactly if that is the first frame of a reader, and is pending otherwise |
| QuicReorder.QuicClientStream.PollAll | client/src/quic.rs:531-556 | the round-robin pass, exactly: it polls in turn until a reader decides, the readers before that advance, and each other is left alone |
| QuicReorder.QuicClientStream.PollNext | client/src/quic.rs:523-556 | one message at most; the end only if a reader ended, an error only if one failed, and otherwise ready exactly if the due id is buffered or in front of a reader; pending only if the reader that holds the due id was itself pending |

## Left out

- Transports and clients: gRPC, TLS, connection set-up, command lines.
- Storage internals: the journal is abstract; `restore_payload`, disk formats and compaction are not modelled.
- The gRPC and pubsub servers, per-filter predicates, configuration, limits and metrics (including warnings about dropped slots and failed blocks): each is settled by reading one branch.
- Prost-backed message variants: the bytes of what prost encodes are parameters.
- Messages other than accounts on the decoding side, and the envelope around an update: they repeat the account's scheme with fewer offsets.
- Wire types 3 and 4 (groups): the decoder rejects them here; prost skips them.
- `dead_error`: it is not rebased by the source, so no offset theorem speaks of it.
- 64-bit wrap-around of positions and journal indices, and collisions of 64-bit identities.
- The initial position of a live subscription: it is the tail, which is never written before the first push; readers are modelled from written positions.
- The report of a finalized slot to the shared replay position (`richat/src/channel.rs:973`): in `Recovery` it is a step that may happen at any time with any slot.
- Backoff and sleeping in the source loop: they decide when a step happens, not which.
- AccountSplice.LimitedAccount.constructor: validity is stated for messages with one account field, a write version and, if there is no data field, a length that is not padded beyond the bytes in front of the message; an account field that occurs twice is outside the splice theorem.
- SenderStreams.FinalizedWithinConfirmed: excludes slots that a restart read back from the journal: what the earlier run has put on confirmed is not published again, so in this run finalized may be ahead of confirmed.
- SenderStreams.FinalizedFollowsConfirmed: excludes the same slots, for the same reason.
- SenderRuns.FinalizedStaysWithinConfirmed: excludes the same slots, for the same reason.
- SenderObject.Sender.constructor: takes what the journal holds at start (finalized slot, next index, heads and identities) as parameters; reading it from disk is not modelled.
- CommitmentRing.SenderShared.RecvRef: is about one call during which no push happens; receives interleaved with pushes are `CommitmentRing.ReaderSeesContiguousRun`.
- Dedup.Confluent: is about everything but unsigned accounts, whose write version is their order of arrival; those are `Dedup.ConfluentUnsigned`.
- PluginRing.PluginSender.Push: requires that the walk along parent links ends, exactly when the source returns.
- SenderRings.FedCursorIsRight: is about a ring that was given each record as `push_stored` gives it; the calls from the sender object to ring objects are not modelled, only that every one of them is one the ring accepts.
