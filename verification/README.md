# OpenLI collector: a Dafny model

OpenLI intercepts traffic on behalf of law enforcement agencies. A provisioner tells collectors
what to intercept; a collector encodes what it sees as ETSI records, numbers them, and passes
them to mediators. This project models the parts of the collector in which state, loops and
arithmetic interact most, and proves what they keep over every run.

| file | what it models |
|---|---|
| Patricia.dfy | the compressed binary trie of IP prefixes, its nodes on the heap with parent links and glue nodes |
| StaticRanges.dfy, Sessions.dfy, RefCounts.dfy, Keys.dfy | a collector thread's static IP ranges: LIID sets on trie nodes and reference-counted sessions keyed by "LIID-CIN", with who owns each key |
| SeqTracker.dfy, Reorder.dfy, Forwarder.dfy | numbering of records, how long the arrays of pre-encoded fields last, and the forwarder that restores the order of records |
| Flows.dfy, Lives.dfy, Pipeline.dfy | tracker and forwarder with the encoders between them as an unordered bag: one life of a stream, its lives across withdrawals, and whole runs of the system |
| ExportBuffer.dfy | the growing, sliding and shrinking queue of bytes for a mediator, with partial sends and a sparse index of record starts |
| BigEndian.dfy, NetBuffer.dfy, Wire.dfy | the internal protocol: framed messages over compacting buffers, and intercepts as type-length-value fields |
| Resync.dfy | the sync thread's tables and their confirmation after the provisioner was lost |
| VoipSessions.dfy, VoipIris.dfy | the shared call objects of a VoIP intercept, and the IRI types requested for a call |
| HeaderTemplate.dfy | patching an encoded PS header in place |
| Common.dfy | options, bytes, memmove, memcpy and realloc |

`dafny verify dfyconfig.toml` verifies the whole project.

Objects that the original updates in place are classes, its loops are loops, and each such method
is proved against a function of the old state or states its new state outright; the theorems
about whole runs are then about those functions. Sockets, message queues and the encoders are
not run: a send takes any number of the offered bytes, a receive gives any number of the bytes
under way, and encoded records may arrive in any order. Hash tables and Judy arrays are maps and
sets. Lists of table entries are walked in any order.

Where freed memory is read again, what it holds is a parameter (`intact`, `alike`).

What turned out not to hold has a concrete case, reached from the initial state where there is
one, and an exact condition:

| what fails | case | condition |
|---|---|---|
| the longest match of a short query | `Patricia.ShortQuery` | `Patricia.Tree.SearchBest` |
| a session's key after its entry changes or goes | `StaticRanges.BorrowedKeyFreed`, `StaticRanges.SharedKeyFreed` | `StaticRanges.MessageExact`, `StaticRanges.RunExact` |
| reference counts after a remove with another CIN | `StaticRanges.WrongCinRemoved` | `StaticRanges.MessageExact`, `StaticRanges.RunExact` |
| the order after a VoIP withdrawal, told to tracker and forwarder by separate messages | `Pipeline.ForwarderToldFirst`, `Pipeline.TrackerToldFirst`, `Pipeline.WithdrawnUnderWay` | `Lives.StepInv`, `Pipeline.OrderExactly`, `Pipeline.TrackerThenForwarder`, `Pipeline.ForwarderThenTracker` |
| delivery after an IP intercept is announced again | `Pipeline.IpRecordHeld` | `Lives.WithdrawIpInv`, `Lives.FirstThrough`, `Lives.IpNextLife` |
| marks at record starts | `ExportBuffers.MisplacedMark` | `ExportBuffers.MarkExact`, `ExportBuffers.AppendKeepsIndex` |
| batches of whole records after a reconnection | `ExportBuffers.ResumedMidRecord` | `ExportBuffers.ExportBuffer.Reconnect` |
| sending a record longer than a batch | `ExportBuffers.LongRecord` | `ExportBuffers.StuckExactly` |
| strings of 65536 bytes | `Wire.LongNameLost` | `Wire.RoundTrip` |
| the header's length | `Wire.WrongLength` | `Wire.HeaderLength`, `Wire.ReceivedBody` |
| confirmation by a modification | `Resync.ModifyDoesNotConfirm` | `Resync.StepInStep`, `Resync.RunInStep` |
| the stored name of a changed target | `Resync.ChangedNameLost` | `Resync.StepInStep`, `Resync.RunInStep` |
| freeing a target's name once | `Resync.NameFreedTwice` | `Resync.StepFrees`, `Resync.RunFrees` |
| the CIN of a range announced again | `Resync.OldCinKept` | `Resync.LatestCin` |
| ranges announced before their intercept | `Resync.EarlyRangeLost` | `Resync.EarlyRange` |
| freeing a withdrawn VoIP intercept's calls once | `VoipSessions.FreedTwice` | `VoipSessions.FreedOnce` |
| BEGIN CONTINUE* (END REPORT*)? | `VoipIris.TakenUpAgain`, `VoipIris.BegunTwice` | `VoipIris.IrisWellFormed` |
| an intercept's own IRI type | `VoipIris.TypeLeaks` | `VoipIris.TurnsOwn` |

`Wire.WrongLength` is a case for the functions that push an intercept; the parsers of the
provisioner always keep the lengths that agree. A comment at
src/collector/collector_forwarder.c:570-573 says that a partly sent record is sent again whole;
the code sends only as many of its bytes as were left, and the model follows the code.

## Model

| member | source | states |
|---|---|---|
| Patricia.CompWithMask | extlib/libpatricia/patricia.c:48-59 | comparing whole bytes and then the leading bits of the next is equality of the first `mask` bits |
| Patricia.FirstDifference | extlib/libpatricia/patricia.c:738-758 | the bytewise search with its clamp finds the first bit in which two addresses differ, or the number of bits compared |
| Patricia.Tree.constructor | extlib/libpatricia/patricia.c:387-397 | a new trie satisfies the invariant and holds no prefix |
| Patricia.Tree.SearchExact | extlib/libpatricia/patricia.c:497-563 | a node is found if and only if the masked prefix is stored, and it is that prefix's node |
| Patricia.Tree.DescendBest | extlib/libpatricia/patricia.c:582-625 | the descent stacks at most PATRICIA_MAXBITS nodes, so that one more fits, and every node covering the address is stacked or still ahead |
| Patricia.Tree.SearchBest2 | extlib/libpatricia/patricia.c:568-659 | the deepest eligible node is returned, or none exactly when no node is eligible |
| Patricia.Tree.SearchBest | extlib/libpatricia/patricia.c:663-666 | the answer is the longest stored prefix covering the query, or none when none covers it, if and only if the query does not overshoot; full-length queries never do |
| Patricia.Tree.AddressNeverOvershoots | extlib/libpatricia/patricia.c:583-625 | a query of full length meets no longer stored prefix on its way |
| Patricia.ShortQuery | extlib/libpatricia/patricia.c:620-666 | a query of length 0 in a trie with one host route is answered with the host route, which does not cover it |
| Patricia.Tree.Lookup | extlib/libpatricia/patricia.c:670-879 | exactly the given prefix is added, or the node that had it is returned; all other nodes keep their bit, path, prefix and data, and the invariant holds (bits grow downwards, parents are exact, subtrees share their first bits, glue has two children, the node count is exact) |
| Patricia.Tree.Locate | extlib/libpatricia/patricia.c:697-774 | descent, first differing bit and climb end at the place where the prefix belongs |
| Patricia.Tree.Place | extlib/libpatricia/patricia.c:776-879 | the four ways of placing a new node (filling glue, below, above, beside with new glue) each add exactly the prefix |
| Patricia.Tree.Remove | extlib/libpatricia/patricia.c:883-985 | exactly the node's prefix is deleted, collapsing glue where needed; the other nodes keep prefix and data, and the invariant holds |
| Patricia.Tree.Clear | extlib/libpatricia/patricia.c:406-446 | the walk frees every node exactly once and the node count comes out as zero |
| Patricia.Tree.Run | extlib/libpatricia/patricia.c:669-985 | after any run of insertions and removals from the empty trie the invariant holds and the stored prefixes are those of a plain set |
| Keys.SessionKeyInjective | src/collector/collector_seqtracker.c:350-371 | "LIID-CIN" strings are equal only for equal LIID and CIN, although LIIDs may contain dashes and digits |
| StaticRanges.AddToTree | src/collector/collector_push_messaging.c:77-133 | the LIID is entered in the set of the prefix unless it is there, and no other set of the trie changes |
| StaticRanges.RemoveFromTree | src/collector/collector_push_messaging.c:135-186 | exactly the LIID leaves the set of the prefix, and the prefix the trie when it was the last |
| StaticRanges.ColThread.HandleRange | src/collector/collector_push_messaging.c:652-681 | a well-formed range not yet held gets one entry and one reference, any other changes nothing; entries are named by prefix and LIID |
| StaticRanges.ColThread.HandleModify | src/collector/collector_push_messaging.c:683-763 | a held range's entry moves to the session of the new CIN, to which it lends its key string if that session is new, and its old key is freed; any other changes nothing |
| StaticRanges.ColThread.HandleRemove | src/collector/collector_push_messaging.c:765-795 | a held range's entry goes and its key string is freed before the session of the message's CIN is looked up and released, which happens whether or not there was an entry |
| StaticRanges.ColThread.Run | src/collector/collector_push_messaging.c:652-795 | after any run of the three messages, entries and sessions are what `HandledAll` computes from the messages alone, however the trie has been reshaped |
| StaticRanges.MessageExact | src/collector/collector_push_messaging.c:652-795 | counts, keys and reachability stay exact under a message if and only if a changed entry does not lend its key to a session that others refer to; a removed one comes with its own CIN and lends its key to nobody, or is its session's only one and the freed bytes are still there; and a remove that finds no entry finds no session |
| StaticRanges.RunExact | src/collector/collector_push_messaging.c:652-795 | they are exact all through a run of messages if and only if each of the messages is one of those |
| StaticRanges.RunEntries | src/collector/collector_push_messaging.c:652-795 | over every run of messages the entries are the ranges announced and not withdrawn, each under the key of its LIID and of the CIN of its announcement or latest change |
| Sessions.MoveExact | src/collector/collector_push_messaging.c:725-752 | moving an entry keeps counts, keys and reachability exact, whatever freed memory holds, if and only if it does not lend its key to a session that others refer to |
| Sessions.RemoveExact | src/collector/collector_push_messaging.c:765-795 | removing an entry and then releasing a session keeps them exact if and only if both name the same session and the entry did not lend it the key, or lent it as its only entry and the freed bytes are still there |
| StaticRanges.BorrowedKeyFreed | src/collector/collector_push_messaging.c:725-795 | a range added, changed to another CIN and removed with that CIN leaves its session behind, keyed by freed memory, unless the freed bytes are still there |
| StaticRanges.SharedKeyFreed | src/collector/collector_push_messaging.c:725-752 | changing the entry that lends its key to a session of two entries leaves the other without a valid key, whatever freed memory holds |
| StaticRanges.WrongCinRemoved | src/collector/collector_push_messaging.c:765-795 | a range removed with another CIN leaves its session behind |
| RefCounts.RemoveEntry | src/collector/collector_push_messaging.c:765-795 | dropping an entry and a reference keeps the counts exact if and only if both name the same session |
| RefCounts.ChangeEntry | src/collector/collector_push_messaging.c:725-752 | moving an entry from one session to another, with a release and a retain, keeps the counts exact |
| SeqTracker.Tracker.RunEncodingJob | src/collector/collector_seqtracker.c:328-414 | a job of a known LIID gets the next number of its CIN, CC and IRI apart, and the array and version of its own intercept; an unknown LIID's job is dropped |
| SeqTracker.Tracker.TrackNewIntercept | src/collector/collector_seqtracker.c:184-229 | a known LIID keeps its counters and has its array retired, dated now, and renewed; a new one starts without counters; every array is current once, retired once or freed |
| SeqTracker.Tracker.ModifyTrackedIntercept | src/collector/collector_seqtracker.c:255-294 | counters stay, the array is retired, dated now, and renewed, and an unknown LIID changes nothing |
| SeqTracker.Tracker.RemoveTrackedIntercept | src/collector/collector_seqtracker.c:296-326 | exactly that LIID goes and its array is retired, dated now |
| SeqTracker.Tracker.ReconfigureIntercepts | src/collector/collector_seqtracker.c:231-243 | every intercept, in the order of the table, has its array retired, dated now, and gets a newer one and the next version; no counter changes |
| SeqTracker.Tracker.PurgeRemoved | src/collector/collector_seqtracker.c:113-141 | the entries retired less than 15 seconds ago stay in their order, and exactly the others' arrays are freed |
| SeqTracker.Tracker.Run | src/collector/collector_seqtracker.c:184-414 | after any run of jobs, announcements, changes, withdrawals, reconfigurations and purges the thread is in the state that `CalledAll` gives |
| SeqTracker.RunSound | src/collector/collector_seqtracker.c:113-326 | over every run each array is current in exactly one intercept, retired exactly once, or freed |
| SeqTracker.KeptInUse | src/collector/collector_seqtracker.c:113-163 | with a clock that never goes back, an array is not freed until 15 seconds after it was last current, whatever happens in between |
| SeqTracker.FreedInTime | src/collector/collector_seqtracker.c:113-163 | an array that is no longer current is freed by the first purge 15 seconds later |
| SeqTracker.JobKept | src/collector/collector_seqtracker.c:328-414 | over every run a job is sent exactly for a known LIID, carries the array and version of its own intercept at that moment, and its array is not freed for 15 seconds |
| SeqTracker.SameArray | src/collector/collector_seqtracker.c:184-414 | two jobs of a run carry the same array if and only if they are of one LIID that nothing has announced, changed, withdrawn or reconfigured in between, and then the same version |
| SeqTracker.VersionCounts | src/collector/collector_seqtracker.c:184-326 | over every run the thread knows the LIIDs announced and not withdrawn since, and a version counts the changes since, modulo 256 |
| SeqTracker.CounterByKind | src/collector/collector_seqtracker.c:387-396 | for each of the nine kinds of job by name, which counter gives its number and is stepped, modulo 2^32, and that the other stays |
| SeqTracker.RenewOwned | src/collector/collector_seqtracker.c:143-163 | retiring an array and allotting another keeps each array current in exactly one intercept, retired exactly once, or freed |
| SeqTracker.FreeOwned | src/collector/collector_seqtracker.c:128-139 | freeing a retired array keeps each array in exactly one of the three places |
| SeqTracker.YoungMembers | src/collector/collector_seqtracker.c:113-141 | what stays in the list are exactly the entries younger than 15 seconds |
| SeqTracker.YoungConcat | src/collector/collector_seqtracker.c:113-141 | what stays keeps its order |
| SeqTracker.AgedMembers | src/collector/collector_seqtracker.c:113-141 | the arrays freed are exactly those retired at least 15 seconds ago |
| Forwarder.ForwardingThread.Enqueue | src/collector/collector_forwarder.c:398-443 | a record out of turn waits; one in turn is appended with all that can follow it, and the drain loop ends |
| Forwarder.ForwardingThread.HandleEncodedResult | src/collector/collector_forwarder.c:354-500 | a record goes to the reorderer of its key and kind and to its own destination, and to no other |
| Forwarder.TableByKind | src/collector/collector_forwarder.c:354-396 | for each of the nine kinds of record by name, the table whose reorderer takes it, and that the other table stays |
| Forwarder.ForwardingThread.InterceptOver | src/collector/collector_forwarder.c:318-324 | exactly the reorderers of the LIID are forgotten, of both kinds |
| Forwarder.RemoveReorderers | src/collector/collector_forwarder.c:249-287 | the loop removes the reorderers of one LIID, or all when none is given |
| Reorder.AcceptTracks | src/collector/collector_forwarder.c:398-443 | with fewer than 2^32 records under way, a reorderer lets go exactly the next gap-free stretch of the assigned order and holds the rest, across wrap-around |
| Reorder.OrderIndependent | src/collector/collector_forwarder.c:398-443 | state and delivered sequence depend only on which numbers have arrived, not on their order |
| Reorder.ExpectedNotPending | src/collector/collector_forwarder.c:398-443 | between calls the expected number is never pending, whatever has arrived |
| Reorder.FeedFrom | src/collector/collector_forwarder.c:398-443 | a reorderer that starts out expecting number e, with nothing waiting, lets go exactly the records from index e on as far as they have arrived without a gap, and holds all others |
| Flows.WholePublish | src/collector/collector_seqtracker.c:328-414 | numbering one more record of a life keeps its flow: a gap-free part let go, the rest under way or held, also past 2^32 records |
| Flows.WholeDeliver | src/collector/collector_forwarder.c:354-500 | handling any of the records under way keeps it |
| Flows.WholeGone | src/collector/collector_forwarder.c:398-443 | nothing is under way exactly when all of the life has been let go, and then nothing waits |
| Lives.PublishLast | src/collector/collector_seqtracker.c:328-414 | a record numbered in the life the forwarder is at keeps the order |
| Lives.PublishLater | src/collector/collector_seqtracker.c:328-414 | so does one numbered in a life the forwarder has not come to |
| Lives.PublishLate | src/collector/collector_seqtracker.c:328-414 | one numbered in a life that is over for the forwarder breaks it |
| Lives.DeliverInv | src/collector/collector_forwarder.c:354-500 | delivering a record keeps the order if and only if the record is of the life the forwarder is at |
| Lives.ForwarderInv | src/collector/collector_forwarder.c:318-324 | the forwarder forgetting keeps it if and only if nothing of that life is under way |
| Lives.WithdrawIpInv | src/collector/collector_sync.c:1278-1314 | a withdrawal that only the tracker is told of keeps it if and only if moreover the life had a multiple of 2^32 records |
| Lives.StepInv | src/collector/collector_seqtracker.c:184-414 | for a stream with any number of lives, exactly which announcements, changes, jobs, deliveries, withdrawals at the tracker and withdrawals at the forwarder keep the order |
| Lives.RunExactly | src/collector/collector_seqtracker.c:184-414 | the order holds at every point of a run if and only if each of its steps keeps it |
| Lives.TrackerFirst | src/collector/collector_sync_voip.c:1731-1765 | the tracker is told first, then come any steps, then the forwarder is told: the order holds again if what the tracker has numbered in between is all still under way, and only if, unless that is 2^32 records or more |
| Lives.ForwarderFirst | src/collector/collector_sync_voip.c:1731-1765 | the forwarder is told first: the order holds again if nothing was under way and nothing is numbered in between, and only if, unless 2^32 records or more are |
| Lives.HeldBack | src/collector/collector_sync.c:1278-1314 | after a withdrawal told to the tracker only, nothing of the new life is let go until a record bears the number at which the old one stopped |
| Lives.FirstThrough | src/collector/collector_sync.c:1278-1314 | the first record of the new life gets through if and only if the old one had a multiple of 2^32 records |
| Lives.IpNextLife | src/collector/collector_sync.c:1278-1314 | of the first 2^32 - 1 records of the new life exactly those from the number at which the old one stopped get through, as far as they have arrived without a gap |
| Lives.NumberedOn | src/collector/collector_sync.c:1278-1314 | however long the new life lasts and whatever arrives, what gets through is numbered consecutively from there, modulo 2^32 |
| Pipeline.SeenRun | src/collector/collector_seqtracker.c:184-414 | in every legal run of the tracker, the bag of records under way and the forwarder, over all LIIDs, CINs and kinds at once, each stream sees exactly its own history: counter, records under way, reorderer and what its destination was given |
| Pipeline.OrderExactly | src/collector/collector_seqtracker.c:184-414 | in every legal run, whatever happens to the other streams, the order of a stream holds at every point if and only if each step keeps it |
| Pipeline.DeliveredInOrder | src/collector/collector_forwarder.c:354-500 | at every point of such a run what a stream's destination was given are the lives over for the forwarder and then a gap-free, duplicate-free prefix of the one it is at, in the order the tracker assigned, and everything once nothing is under way |
| Pipeline.TrackerThenForwarder | src/collector/collector_sync_voip.c:1731-1765 | in a run in which the tracker is told first, with any steps before the forwarder is, the order of a stream holds again after the second message if exactly the records numbered since the first are under way then, and only if, unless those are 2^32 or more |
| Pipeline.ForwarderThenTracker | src/collector/collector_sync_voip.c:1731-1765 | in one in which the forwarder is told first, if nothing of the stream was under way at the first message and nothing of it is numbered until the second, and only if, unless both together are 2^32 or more |
| Pipeline.ForwarderToldFirst | src/collector/collector_sync_voip.c:1731-1765 | a run from the start with nothing under way at either message: a record numbered between the two is let go in the next life in the place of that life's second, which waits for good |
| Pipeline.TrackerToldFirst | src/collector/collector_sync_voip.c:1731-1765 | a run from the start: a record of the new life that arrives before the forwarder is told waits and is forgotten, and the next one waits for it |
| Pipeline.WithdrawnUnderWay | src/collector/collector_sync_voip.c:1731-1765 | a run from the start: of two records the second is under way when both are told; after the next announcement the destination is given first, new first, old second, and the new second waits although nothing is under way |
| Pipeline.IpRecordHeld | src/collector/collector_sync.c:1278-1314 | a run from the start: an IP intercept is withdrawn with nothing under way and announced again, and its next record waits |
| ExportBuffers.ExportBuffer.Slide | src/export_buffer.c:89-112 | the moved bytes match their old places and the index is exactly the kept offsets lowered, or empty when nothing remains |
| ExportBuffers.ExportBuffer.SlideOffsets | src/export_buffer.c:102-110 | the loop that deletes and re-inserts offsets while it walks them ends with exactly the lowered offsets |
| ExportBuffers.ExportBuffer.Extend | src/export_buffer.c:114-148 | the unsent bytes come to the front of a buffer 50 MiB longer |
| ExportBuffers.ExportBuffer.AppendPdu | src/export_buffer.c:150-179 | the PDU's bytes are appended, nothing else of the bytes changes, and the index is updated with the offset from before any slide |
| ExportBuffers.ExportBuffer.AppendMessage | src/export_buffer.c:181-223 | header, encoded part and IP contents are appended in this order as one record |
| ExportBuffers.ExportBuffer.PostTransmit | src/export_buffer.c:270-301 | when the buffer shrinks, to what length, and when it slides in place; the unsent bytes stay, the index is lowered with them, and neither assertion fails |
| ExportBuffers.PostTidy | src/export_buffer.c:270-301 | after a send what is unsent is still there, no more than 500 MiB are held unless half is in use, and not both too little room at the end and a quarter dead at the front; when a buffer is made smaller it was larger than that and half empty, and it is moved in place only when that is needed |
| ExportBuffers.SlidesExactly | src/export_buffer.c:114-176 | an append moves the unsent bytes to the front exactly if they and the record do not fit behind what is dead |
| ExportBuffers.ReservedLeast | src/export_buffer.c:114-168 | an append grows the buffer only if it has to, and by the least number of blocks, at least one |
| ExportBuffers.Choose | src/export_buffer.c:303-327 | the batch is the rest of the last one, or all that waits, or ends at the greatest mark within the limit; there is none exactly when no mark is within the limit, or the greatest lies before the unsent bytes |
| ExportBuffers.ExportBuffer.ChooseBatch | src/export_buffer.c:303-327 | the choice is that of `Choose`, for every buffer and limit, and a batch is remembered |
| ExportBuffers.ExportBuffer.Transmit | src/export_buffer.c:303-368 | it returns an error if and only if there was a batch and the connection refused it, and else the number of bytes the connection took, which are exactly the next ones; the rest of the buffer is as `Offered` says |
| ExportBuffers.ExportBuffer.Publish | src/export_buffer.c:370-417 | exactly the next bytes up to the limit are published, or none on failure; an index in order stays so if and only if they end at a record boundary |
| ExportBuffers.ExportBuffer.AdvanceHead | src/export_buffer.c:419-430 | exactly the given number of bytes, or all, are taken off; an index in order stays so if and only if they end at a record boundary |
| ExportBuffers.ExportBuffer.Reset | src/export_buffer.c:70-73 | a new connection starts with the whole of a partly sent batch |
| ExportBuffers.ExportBuffer.Reconnect | src/collector/collector_forwarder.c:570-574 | a new connection starts at the first byte not wholly sent and is first offered as many bytes as were left of the batch; that is whole records if and only if a record ends there |
| ExportBuffers.ExportBuffer.Conservation | src/export_buffer.c:89-430 | in every valid state the bytes accepted by the connection followed by those unsent are what was appended from the connection's first byte on |
| ExportBuffers.ExportBuffer.Run | src/export_buffer.c:89-430 | every run of appends, sends, refusals and reconnections keeps the bytes in order without loss or duplication, follows the steps of the index and goes on exactly as long as they do; it returns errors exactly where a batch was refused, and its other answers add up to the bytes the connection took; with records under 256 KiB, limits of at least that and no append that slips, it never lacks a place to cut |
| ExportBuffers.BatchExists | src/export_buffer.c:315-323 | with an index in order and a limit of at least 256 KiB there is a batch, and it is not empty while something waits |
| ExportBuffers.AppendedDense | src/export_buffer.c:170-176 | with records under 256 KiB, marks stay less than 256 KiB apart |
| ExportBuffers.MarkExact | src/export_buffer.c:150-176 | all marks are record boundaries after an append if and only if it does not both mark and slide out a number of bytes other than its own length |
| ExportBuffers.AppendKeepsIndex | src/export_buffer.c:114-176 | an append keeps the index in order if and only if the record is under 256 KiB and the append does not mark and slide at once, unless the mark falls on its end and its start needs none or has one |
| ExportBuffers.SendKeepsIndex | src/export_buffer.c:270-368 | sending n bytes, with the shrink or slide that follows, keeps it if and only if they end at a record boundary |
| ExportBuffers.StepGood | src/export_buffer.c:70-368 | exactly which appends, sends and reconnections keep it |
| ExportBuffers.RunGood | src/export_buffer.c:70-368 | a run never stops and cuts all its batches at record boundaries if and only if each of its steps keeps the index in order |
| ExportBuffers.BoundedRun | src/export_buffer.c:70-368 | with records under 256 KiB, limits of at least that and resets at reconnections, if and only if no append slips |
| ExportBuffers.PubGood | src/export_buffer.c:150-417 | a run of appends and publications begins and ends its messages at record boundaries if and only if each append keeps the index and each limit falls on a boundary |
| ExportBuffers.ExportBuffer.RunPub | src/export_buffer.c:150-417 | every run of appends and publications, successful or not, keeps the bytes in order without loss or duplication and follows the steps of the index |
| ExportBuffers.MisplacedMark | src/export_buffer.c:114-176 | a bounded run from the empty buffer (five bytes sent, then 201 records just short of 256 KiB) after which a mark lies five bytes past the start of a record |
| ExportBuffers.Misplaced | src/export_buffer.c:114-176 | the same on a buffer made by the constructor |
| ExportBuffers.ResumedMidRecord | src/collector/collector_forwarder.c:570-574 | of a record of five bytes two are sent, and after the reconnection its first three are offered |
| ExportBuffers.StuckExactly | src/export_buffer.c:303-327 | an empty batch is chosen while something waits if and only if the greatest mark within the limit is where the unsent bytes begin |
| ExportBuffers.StuckForever | src/export_buffer.c:303-368 | from then on nothing is ever sent with that limit, whatever is appended and however often it is tried |
| ExportBuffers.LongRecord | src/export_buffer.c:150-327 | one record longer than the limit, in an empty buffer, is enough |
| NetBuffers.ParseWhole | src/netcomms.c:1458-1488 | a whole frame at the front of the buffer is parsed as the message it was made of, whatever follows |
| NetBuffers.ParsePart | src/netcomms.c:1463-1476 | any proper part of a frame is no message yet, and nothing is consumed |
| NetBuffers.GotExactly | src/netcomms.c:1458-1488 | a message is returned if and only if its frame is at the front of the contents |
| NetBuffers.InvalidExactly | src/netcomms.c:1458-1488 | the contents are found invalid if and only if there is a whole header that does not begin with the magic number |
| NetBuffers.NetBuffer.Extend | src/netcomms.c:92-122 | when the contents move to the front and when the buffer grows by 10 MiB; the contents stay, and the room needed is there or 10 MiB more is |
| NetBuffers.NetBuffer.PushGeneric | src/netcomms.c:124-140 | the data is appended to the contents, whatever growing or compaction it takes |
| NetBuffers.NetBuffer.TransmitBuffer | src/netcomms.c:1400-1456 | an error is returned if and only if there was something to send and the socket refused it, 0 if and only if nothing is left; exactly the bytes the socket accepted leave the front of the contents, which move to the front of the buffer when more than 10 MiB are free there |
| NetBuffers.NetBuffer.ParseMessage | src/netcomms.c:1458-1488 | result and consumed bytes are those of the parsing function on the contents |
| NetBuffers.NetBuffer.ReceiveBuffer | src/netcomms.c:2261-2309 | a message already there is returned without reading; otherwise bytes are read if there are any and the contents parsed again; the end of the stream and a failed read are told of exactly when no message was there |
| NetBuffers.ReturnedInOrder | src/netcomms.c:1400-2309 | however the stream is cut into sends and receives, the receiver returns the pushed (type, id, body) sequence in order and never finds an invalid message, and all of it once nothing is under way |
| NetBuffers.ReadProgress | src/netcomms.c:2283-2308 | each receive that finds bytes takes some or returns a message |
| Wire.PushTlv | src/netcomms.c:175-200 | a value of up to 4092 bytes is pushed as one field, a longer one is refused without a trace |
| Wire.PushIntercept | src/netcomms.c:436-1097 | a push succeeds if and only if no field is too long and, for new IP and VoIP intercepts, the body length fits; then header and fields are appended. A failed one leaves nothing if the length was too large, and else the header and the fields before the first that is too long |
| Wire.BodyFits | src/netcomms.c:373-1097 | at most 14 fields of at most 4096 bytes fit a 16-bit length |
| Wire.HeaderLength | src/netcomms.c:356-371 | the header's length is the exact length of the fields if and only if the lengths kept beside LIID, authCC and delivCC agree with the strings, modulo 2^16 |
| Wire.ReceivedBody | src/netcomms.c:1458-1488 | the receiver takes as many bytes for the body as the header says, and they are the pushed fields if and only if those lengths agree |
| Wire.WrongLength | src/netcomms.c:356-371 | an email intercept that keeps length 0 for a LIID of one byte arrives with a body a byte short |
| Wire.Decode | src/netcomms.c:1490-1786 | the decoding loop computes the decoding function, errors included; integers in fields too short for them take their other bytes from what follows, past the body if need be |
| Wire.DecodeTlvs | src/netcomms.c:1490-1517 | decoding a sequence of well-sized fields whose last value is not empty applies them in order |
| Wire.DecodesExactly | src/netcomms.c:1490-1786 | a body is decoded if and only if it is a sequence of whole fields that the decoder knows, the last of them not empty |
| Wire.EmptyBody | src/netcomms.c:1526-1786 | what each decoder gives for fields that are missing |
| Wire.InternalId | src/netcomms.c:1605-1680 | an internal id in a VoIP intercept is read back, though none is pushed with one |
| Wire.DecodePushed | src/netcomms.c:1526-1786 | whatever follows in memory, decoding the fields of an IP, VoIP or email intercept gives what arrives of it, with or without key and mirror id |
| Wire.RoundTrip | src/netcomms.c:373-1786 | decoding restores every wire field if and only if no string has 2^16 bytes or more |
| Wire.LongNameLost | src/netcomms.c:175-200 | an agency name of 65536 bytes is pushed as an empty one |
| Wire.EndToEnd | src/collector/collector_sync.c:1679-1861 | whatever follows in the stream, a pushed intercept is found by the receiver, goes to the thread for its kind (sync, VoIP or email), and is taken there as new or changed as it was pushed, with its wire fields if and only if no string is cut off |
| Resync.CollectorSync.DisconnectProvisioner | src/collector/collector_sync.c:1933-1990 | every intercept, range, server and user is flagged and none is lost |
| Resync.CollectorSync.NewIpIntercept | src/collector/collector_sync.c:1585-1635 | a known intercept is confirmed; if its name compares as changed it loses its ranges, the stored name is freed, again if it had been, and the one stored in its place is freed at once; an unknown one is inserted |
| Resync.CollectorSync.ModifyIpIntercept | src/collector/collector_sync.c:1424-1447 | a known intercept is changed in the same way, with the same frees, but not confirmed; an unknown one is inserted |
| Resync.CollectorSync.UpdateModified | src/collector/collector_sync.c:1316-1422 | a new target ends all static ranges, frees the name stored before, again if it had been freed, and its own name is freed with the message it came in |
| Resync.CollectorSync.HaltIpIntercept | src/collector/collector_sync.c:1278-1478 | a known intercept goes with its ranges and its name, which is freed again if it had been; an unknown one is an error |
| Resync.CollectorSync.NewStaticRange | src/collector/collector_sync.c:664-729 | a known range is confirmed, a new one added, and an unknown LIID is an error |
| Resync.CollectorSync.ModifyStaticRange | src/collector/collector_sync.c:731-762 | a known range gets the CIN and keeps its flag |
| Resync.CollectorSync.RemoveStaticRange | src/collector/collector_sync.c:789-832 | exactly the range is removed, and an unknown LIID is an error |
| Resync.CollectorSync.NewCoreServer | src/collector/collector_sync.c:1075-1105 | the server is there and confirmed, and every other is as before |
| Resync.CollectorSync.RemoveCoreServer | src/collector/collector_sync.c:1107-1138 | the server is not there, and every other is as before |
| Resync.CollectorSync.NewDefaultRadius | src/collector/collector_sync.c:1508-1539 | the user is there and confirmed, and every other is as before |
| Resync.CollectorSync.WithdrawDefaultRadius | src/collector/collector_sync.c:1541-1583 | the user is not there, and every other is as before |
| Resync.CollectorSync.DisableUnconfirmed | src/collector/collector_sync.c:1637-1677 | exactly the flagged intercepts, ranges, servers and users are removed, and the names freed again are those of flagged intercepts whose name had been freed |
| Resync.CollectorSync.Receive | src/collector/collector_sync.c:1679-1861 | each message is handled by its handler, and one that is not handled costs the connection |
| Resync.ConfirmedExactly | src/collector/collector_sync.c:1585-1990 | right after the end of the list, intercepts, targets, ranges, servers and users are exactly those announced and not withdrawn since the last disconnection, if and only if no announced intercept still waits then (one only modified does, one announced afterwards does not), over every sequence of events that keep tables and announcements in step; ranges may come before their intercept. The end of the list frees a name twice if and only if an intercept with a changed target waits |
| Resync.StepInStep | src/collector/collector_sync.c:1316-1861 | an event keeps tables and announcements in step and frees no name twice if and only if it does not end the list while an announced intercept still waits and, where it is about one whose target was changed, it does not withdraw or purge it, freed memory compares as equal, and it names the same target or there are no ranges |
| Resync.RunInStep | src/collector/collector_sync.c:1316-1990 | they are in step with no name freed twice all through a run from the empty tables if and only if each of its events is one of those |
| Resync.StepFrees | src/collector/collector_sync.c:1278-1677 | in every state that goes with the history of events, an event leads to one that does, and frees a name again if and only if it withdraws an intercept with a changed target, ends the list while one waits for confirmation, or names one while freed memory compares as different |
| Resync.RunFrees | src/collector/collector_sync.c:1278-1990 | over every run from the empty tables no name is freed twice if and only if no event is one of those |
| Resync.EarlyRange | src/collector/collector_sync.c:1316-1677 | after any run, a range announced before its waiting intercept survives the end of the list if and only if the intercept is announced again with the target it had or, if its name was freed, freed memory compares as equal |
| Resync.CinStored | src/collector/collector_sync.c:664-762 | over every run, the CIN stored for a range is that of its first announcement or latest modification since it was last away |
| Resync.LatestCin | src/collector/collector_sync.c:664-762 | the CIN told last for a range is the one stored if and only if it came with a modification, or the range was not there, or had that CIN already |
| Resync.ModifyDoesNotConfirm | src/collector/collector_sync.c:1424-1447 | an intercept that is only modified after a disconnection is removed at the end of the list |
| Resync.EarlyRangeLost | src/collector/collector_sync.c:1316-1333 | a range announced before its intercept is lost when the target turns out to have changed |
| Resync.OldCinKept | src/collector/collector_sync.c:695-699 | a range announced again after a disconnection with another CIN keeps the one it had |
| Resync.NameFreedTwice | src/intercept.c:309-322 | an intercept announced, announced with another target and withdrawn, or announced with a third; or announced, held over a disconnection, modified to another target and purged at the end of the list: its name is freed twice |
| Resync.ChangedNameLost | src/collector/collector_sync.c:1316-1422 | an intercept with a changed target and a range, announced once more unchanged, loses the range, and its name is freed again, when the freed name no longer compares equal |
| VoipSessions.VoipIntercept.UpdateCallIdMap | src/collector/collector_sync_voip.c:564-598 | a new call id adds one entry and one reference, a known one nothing |
| VoipSessions.VoipIntercept.UpdateSdpMap | src/collector/collector_sync_voip.c:600-636 | one more SDP entry and one more reference, also for a key seen before |
| VoipSessions.VoipIntercept.CreateSession | src/collector/collector_sync_voip.c:746-790 | a new call object with a call-id and an SDP entry and two references |
| VoipSessions.VoipIntercept.ProcessInvite | src/collector/collector_sync_voip.c:1337-1423 | which of the five outcomes an INVITE has (a mismatch only for a session of another CIN) and exactly what each does to entries and counts; counts equal entries afterwards |
| VoipSessions.VoipIntercept.PurgeTarget | src/collector/collector_sync_voip.c:495-562 | exactly the entries made for the target go; counts equal entries afterwards |
| VoipSessions.VoipIntercept.HaltStream | src/collector/collector_sync_voip.c:1826-1870 | of the entries with this CIN exactly those go that come first in the order of each table, up to and including the first with which its loop leaves a call without entries; of the calls with this CIN, if there are any, at least one and at most two are freed, and the only one if there is one; counts equal entries in spite of the early breaks |
| VoipSessions.Live | src/collector/collector_sync_voip.c:495-562 | no entry points to a freed call object |
| VoipSessions.Pointed | src/collector/collector_sync_voip.c:495-562 | a call object is alive exactly as long as some entry points to it |
| VoipSessions.FreeCallIds | src/intercept.c:342-377 | freeing a withdrawn intercept frees each call as often as call ids point to it |
| VoipSessions.FreedOnce | src/intercept.c:342-377 | no call is freed twice if and only if no two call ids share one |
| VoipSessions.FreedAtAll | src/intercept.c:342-377 | a call is freed at all if and only if a call id points to it |
| VoipSessions.FreedTwice | src/intercept.c:342-360 | two INVITEs with different call ids for one session, and the withdrawal frees its call twice |
| VoipIris.RtpStream.Process200Ok | src/collector/collector_sync_voip.c:952-1015 | END is requested exactly when the answer matches the BYE and not the INVITE, for the first time |
| VoipIris.RtpStream.ProcessMessage | src/collector/collector_sync_voip.c:1143-1180 | state and IRI type after one message, given the type carried into the turn |
| VoipIris.ProcessOther | src/collector/collector_sync_voip.c:1067-1185 | the loop carries one IRI type through the turns of all intercepts that know the call |
| VoipIris.IrisWellFormed | src/collector/collector_sync_voip.c:952-1470 | for a call of a single intercept the requested types are BEGIN CONTINUE* (END REPORT*)? if and only if no INVITE comes after the answered BYE, or after the call was purged with its target |
| VoipIris.TakenUpAgain | src/collector/collector_sync_voip.c:952-1470 | INVITE, BYE, its answer and another INVITE give BEGIN CONTINUE END CONTINUE |
| VoipIris.BegunTwice | src/collector/collector_sync_voip.c:495-562 | INVITE, purge of the target and an INVITE that matches another target give BEGIN BEGIN |
| VoipIris.OneEnd | src/collector/collector_sync_voip.c:952-1015 | such a sequence has at most one END |
| VoipIris.Remembered | src/collector/collector_sync_voip.c:952-1470 | over every run of messages, the CSeq kept of an INVITE is that of the latest one whose media have not been announced since, and the one kept of a BYE that of the call's latest |
| VoipIris.EndsExactly | src/collector/collector_sync_voip.c:952-1015 | a message ends a call that goes on if and only if it is a 200 OK for the latest BYE and not for an INVITE whose media are still awaited |
| VoipIris.TurnsOwn | src/collector/collector_sync_voip.c:1067-1185 | over the whole loop, for any intercepts and any message, each is given the type it would get alone if and only if, from each to the next, a call that this message ends is followed by one it ends, and a call that has ended by one that has or is ended now |
| VoipIris.TypeLeaks | src/collector/collector_sync_voip.c:1076-1176 | of two intercepts that know a call since its first INVITE and since a later one, the second is given REPORT or END because the call is over for the first, though alone it would be given CONTINUE |
| HeaderTemplates.WriteLow | src/etsili_core.c:1605-1608 | the countdown loop fills a window with the big-endian low bytes of the value, shifting it out, and touches no other byte |
| HeaderTemplates.Template.Update | src/etsili_core.c:1594-1621 | each of three disjoint windows holds the low bytes of its value, every other byte is as before, and the timestamp is left shifted |
| HeaderTemplates.PatchedIsFresh | src/etsili_core.c:1594-1621 | with values that fit, the patched header is the only one that means those values (section 8.3 of ITU-T X.690) and agrees with the template elsewhere |
| HeaderTemplates.PatchedMeans | src/etsili_core.c:1594-1621 | with values that fit, the windows of the patched header mean those values |
| BigEndian.SignedUnique | src/etsili_core.c:1605-1618 | the contents octets of a width that have a given two's-complement value are unique |
| BigEndian.BytesRoundTrip | src/netcomms.c:142-149 | an unsigned value that fits its width is read back from its network-order bytes |

## Left out

- Sockets, TLS, ZeroMQ, RabbitMQ, timers, logging and statistics: sends and receives are nondeterministic, the rest has no counterpart.
- Out-of-memory paths, reference counts of prefix objects, and freed memory other than session keys, target names and shared calls.
- snprintf truncation of over-long keys, and strings with embedded zero bytes.
- libwandder, libtrace, Judy, uthash and osip: values, maps and sets stand for them.
- Duplicate or lost records between tracker and forwarder, more than one destination for a stream, and 2^32 or more records of a stream under way.
- SeqTracker.KeptInUse: nothing for a clock that is set back between two calls; the original reads the time of day.
- When the tracker purges: at any time here, after every 10000 jobs in the original.
- Lives.IpNextLife: which of the records from the 2^32-th on get through, when waiting numbers come round again; Lives.NumberedOn says how what gets through is numbered.
- Pipeline.TrackerThenForwarder: the converse, for 2^32 or more records numbered between the two messages; the same for Lives.TrackerFirst.
- Pipeline.ForwarderThenTracker: the converse, for 2^32 or more records numbered between the two messages or under way at the first; the same for Lives.ForwarderFirst.
- `beensent` values other than 0 in the append functions, and buffers of 4 GiB or more, where the 32-bit offsets wrap around.
- Buffers that are both sent over a socket and published or consumed otherwise: each is used in one way.
- ExportBuffers.ExportBuffer.ChooseBatch: where there is no batch the model stops; if the greatest mark lies before the unsent bytes, the original remembers a size that has wrapped around.
- ExportBuffers.ExportBuffer.Transmit: where there is no batch the model stops; the original fails an assertion, or goes on to offer that wrapped size.
- Memory that ends less than eight bytes after a message body: an integer that reaches there is cut short.
- Wire.PushFields: the straight-line pushes of the original are a loop over the list of fields.
- Static ranges pushed after an IP intercept, and the other message kinds of the protocol: their fields are of the same kinds.
- Intercepts without a user name in Resync.dfy: the original compares the names with strcmp.
- The user index, time events, vendor mirroring and IRIs in the sync thread's handlers, and the stale length of a changed user name.
- Confirmation of mediators, VoIP and email intercepts: other threads' tables.
- The table of known call ids and SIP registrations, matching of SIP identities against targets, and media descriptions: a matched target is a parameter.
- VoipIris.IrisWellFormed: malformed media descriptions are not modelled; an INVITE with one leaves the call without its IRI and the stored CSeq freed.
- Encoding of IRI and CC bodies, configuration, the mediator and the provisioner.
