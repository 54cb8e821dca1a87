# SimpleCC daemon: a verified model

The SimpleCC daemon sits between Vim and language servers. It reads one JSON
request per line from the editor, speaks `Content-Length` framed JSON-RPC to the
servers, remembers replies that the editor refers to later, installs servers, and
starts remote ones. This project models the parts of the daemon where order,
interleaving or byte counting decides correctness, and proves what those parts
are for.

`dafny verify dfyconfig.toml` checks everything. Each component is one module in
the file of the same name:

| component | modules |
|---|---|
| JSON-RPC client, as a protocol whose steps interleave freely | `ClientProtocol` (state and steps), `ClientSafety` and `ClientReplies` (invariants), `ClientTheorems` and `ClientDelivery` (results over all runs), `ClientObject` (the client itself), `ReplyCache` (code-lens and code-action caches) |
| semantic tokens | `TokenEdits`, `TokenDecoding`, `TokenCache` |
| stream readers | `ByteSource`, `Framing`, `HeaderLaws` (what header texts mean), `JsonlReader`, `Sequences`, `Utf8`, `Decimal` |
| crash-safe installation | `Installer`, `SiblingNames` |
| request scheduling | `Scheduler` |
| remote command lines | `ShellQuoting` |
| signature help | `SignatureHelp` |
| completion | `Completion`, `StableSort`, `Lexicographic` |
| watched files | `WatchedFiles` |
| settings and server choice | `Configuration` |

## How the model reads

*Steps.* In `ClientProtocol` a step is the code between two lock acquisitions or
awaits. A run is any sequence of enabled steps of any number of calls, of the
response dispatcher and of whoever else marks the client dead, with timeouts,
write failures and callers that drop a call's future at any moment.
`ClientObject.LspClient` is the client in imperative form, its methods being the
critical sections of the source and the stretches between awaits. `LspClient.Step` is proved to take the object from one state of
the protocol to the next for every action, and `LspClient.Drive` to take it along a
run for every schedule, so the results of `ClientTheorems` and `ClientDelivery` are
results about the object. `Scheduler`, `TokenCache` and `Completion` tie their
objects to their runs in the same way.

*Streams.* The readers are methods over a `Reader` that hands out a byte stream in
arbitrary non-empty chunks. Their specification is a function of the whole stream,
so independence of chunking is part of each contract, and the round trips are
proved about that function.

*Disks.* `Installer` keeps a trail of every state the disk passed through; a crash
may resume from any of them, and a recursive removal may stop half way. It also
records the disks that recoveries have found and which operations have failed, so that
contracts can say what happens when none does, or just one. Clock readings
(installation stamps, cache ages, watcher times), process liveness, the outcome of
every rename, download and write, and the JSON parser are parameters or
nondeterministic choices.

## What the code does where its comments say otherwise

* `didChange` invalidates the caches and releases them before it takes the
  transport, so the guarantee about stale commands is relative to the invalidation
  step, not to the `didChange` bytes on the wire.
* A call's future can be dropped at any await, and then its id stays in `pending` and
  its key keeps pointing at it. Lifecycle barriers abort feature tasks
  (src/simplecc/simplecc_daemon.rs:906), and the same clients live on if the
  `initialize` then fails to load its configuration (1040-1065); renames put a
  shorter timeout of their own around a request (1689). Two comments do not hold
  then. "Never cancel-before-send" (src/simplecc/lsp/client.rs:718-720):
  `ClientTheorems.CancelWithoutRequest` is a run in which the server is told to
  cancel a request it never got, and `CancelDiscipline` with `AbandonedExactly` says
  that this happens to just the calls dropped while they held the lock of the key
  map. "Removed from the pending map and cancelled" (581-583):
  `DroppedStaysPending` is a run that leaves an id behind, and `EndedInPending` says
  for which ended calls that is so.
* Clearing a key forgets it, so "newest wins" holds among requests in flight.
  There is no lasting watermark for keys, unlike in the two reply caches.
* The ranking comment says that items sharing a `sortText` keep the server's order
  (src/simplecc/lsp/types.rs:480-483). The comparison breaks those ties by label.
  `Completion.GroupKeepsServerOrder` says exactly when the comment is right, and
  `Completion.SharedSortTextReordered` gives a list where it is not.
* A watched-file call reads the clock before it waits for the lock
  (src/simplecc/lsp/client.rs:1009-1011), so calls can reach the lock out of clock
  order. Forgetting after two seconds is then visible, and
  `WatchedFiles.PruningInvisible` says for exactly which clock readings it is not.
* Recovery is commented as bringing back the old active tree
  (src/simplecc/installer.rs:1129-1130). It skips backups whose owner is alive and
  puts back the newest of the others. If the newest backup of all belongs to a
  live daemon, whose own promotion and restore both failed, an older backup is put
  back, and one that a removal cut short has left is a partial tree that becomes
  active. `Installer.LiveOwnerBreaksRecovery` is such a disk. For which disks this
  happens is `Installer.Recoverable`; the contracts of recovery and installation
  say that just those disks are kept.
* Positions of semantic tokens are added in 32 bits. The model wraps, as a release
  build does (a debug build stops there); `TokenDecoding.AscendingIffNoWrap` says
  exactly when wrapping spoils the order.
* Of several delta edits with one start, only the first listed may delete; a later
  one is spliced in front of it. `TokenEdits.Acceptable` and `Joined` follow the
  code here. With distinct starts this does not arise.

## Model

| member | source | states |
|---|---|---|
| ReplyCache.Cache.Begin | src/simplecc/lsp/client.rs:49-57 | a request opens the cache only with a strictly newer generation and a non-empty document, and drops the old items at once |
| ReplyCache.Cache.Replace | src/simplecc/lsp/client.rs:117-128 | a reply is stored exactly when its identity is still the open one |
| ReplyCache.Cache.Invalidate | src/simplecc/lsp/client.rs:130-135 | document and items go, the generation stays |
| ReplyCache.Cache.InvalidateUri | src/simplecc/lsp/client.rs:137-141 | the same, only when the cache holds that document |
| ReplyCache.Cache.Item | src/simplecc/lsp/client.rs:143-156 | an item is handed out exactly for the open identity and an index inside the reply |
| ReplyCache.MatchesExactly | src/simplecc/lsp/client.rs:48-82 | after any history an identity is accepted if and only if the request that opened it is the newest ever begun and nothing has closed it since, and the items are then those of the last reply recorded for it |
| ReplyCache.Watermark | src/simplecc/lsp/client.rs:71-76 | the generation is the greatest ever begun, whatever was invalidated, and a closed cache is empty |
| ReplyCache.RetiredForGood | src/simplecc/lsp/client.rs:102-141 | no operation brings a retired identity back |
| ClientObject.LspClient.NextRequestId | src/simplecc/lsp/client.rs:557-559 | ids are handed out once each |
| ClientObject.LspClient.RemovePending | src/simplecc/lsp/client.rs:671-675 | an id is taken by whoever finds it, and only that one settles its channel |
| ClientObject.LspClient.TakeKey | src/simplecc/lsp/client.rs:722-736 | a request gives way exactly when a later editor request holds the key; otherwise it takes the key and learns whom to cancel |
| ClientObject.LspClient.ClearLatestRequest | src/simplecc/lsp/client.rs:687-694 | a key is cleared exactly when it still points at this call |
| ClientObject.LspClient.SendExecution | src/simplecc/lsp/client.rs:645-663 | with transport and cache both locked, the request is written exactly when its identity matches at that moment |
| ClientObject.LspClient.UseCache | src/simplecc/lsp/client.rs:48-82 | opening, filling and closing a reply cache are the protocol's own steps on it, and only an opening that succeeds may later fill it |
| ClientObject.LspClient.Advance | src/simplecc/lsp/client.rs:696-791 | from any await of a call to its next, the code does what the protocol plans for that call |
| ClientObject.LspClient.DropCall | src/simplecc/simplecc_daemon.rs:906-907 | a dropped call releases the key lock it may hold, and leaves `pending` and the keys as they are |
| ClientObject.LspClient.Step | src/simplecc/lsp/client.rs:464-791 | every action, of a call, the dispatcher, a timeout, a drop, a disconnect or a document edge, takes the object to the protocol's next state |
| ClientObject.LspClient.Drive | src/simplecc/lsp/client.rs:464-791 | under any schedule the object goes through a run of the protocol and ends with all its invariants |
| ClientSafety.StepKeys | src/simplecc/lsp/client.rs:722-745 | every step keeps: each entry of the latest-requests map belongs to a call for that key, with that sequence, that has not returned, though it may have been dropped |
| ClientSafety.StepBooks | src/simplecc/lsp/client.rs:696-791 | every step keeps the books that tie each call's position to `pending`, its channel, the key lock, the `alive` bit and what it has written |
| ClientSafety.OwnCancels | src/simplecc/lsp/client.rs:671-683 | every step of a call keeps the cancellation books: who may cancel whom, and that a key never points at an unsent request except its lock holder's or an abandoned one |
| ClientSafety.OutsideCancels | src/simplecc/lsp/client.rs:464-504 | so do the dispatcher, timeouts, drops, disconnects and document edges |
| ClientReplies.StepReplies | src/simplecc/lsp/client.rs:48-82 | every step keeps: an item read out of a cache is what its reply holds at that index for as long as the reply is open, and a reply still awaited has not filled the cache |
| ClientTheorems.StepInv | src/simplecc/lsp/client.rs:616-791 | one step from any state satisfying the four invariants satisfies them again |
| ClientTheorems.RunInv | src/simplecc/lsp/client.rs:616-791 | they hold in every state of every run |
| ClientTheorems.NoStaleExecution | src/simplecc/lsp/client.rs:637-669 | once (generation, document) has begun and been invalidated or overtaken, no execute command for it is written in the rest of the run, even if it was already waiting for the transport |
| ClientTheorems.ReplyHistory | src/simplecc/lsp/client.rs:2469-2519 | while an identity is accepted it has been open since its `begin`, and the cached items are those of the one reply recorded for it, none before that |
| ClientTheorems.ExecutedWhileOpen | src/simplecc/lsp/client.rs:2578-2623 | every command written for (generation, document, index) is the item at that index of the one reply recorded for that identity, begun earlier in the run with no retiring step in between |
| ClientTheorems.MovesOnwards | src/simplecc/lsp/client.rs:48-82 | over any stretch of a run a cache's generation never decreases and a retired identity stays retired |
| ClientTheorems.LatestWins | src/simplecc/lsp/client.rs:718-791 | a call delivers only if no other request for its key was registered between its registration and the clearing of its key |
| ClientTheorems.AtMostOneDelivers | src/simplecc/lsp/client.rs:600-614 | of two delivering calls for one key, one finished before the other registered |
| ClientTheorems.NoLaterRequestDisplaced | src/simplecc/lsp/client.rs:723-733 | a registration displaces only a call whose editor sequence is not greater and which has not returned: it is in flight, or was dropped |
| ClientTheorems.CancelDiscipline | src/simplecc/lsp/client.rs:671-683 | in every reachable state each cancellation on the wire is the only one for its id, was sent by whoever took the id out of `pending`, and if a replacement sent it, concerns the same key and precedes that replacement's own request; it follows its request if and only if that call was not abandoned |
| ClientTheorems.AbandonedExactly | src/simplecc/lsp/client.rs:718-745 | abandoned calls are exactly those dropped while they held the lock of the key map, between taking their key and writing |
| ClientTheorems.CancelledWhilePending | src/simplecc/lsp/client.rs:671-675 | whoever cancels an id took it out of `pending` itself, having taken over its key or timed out |
| ClientTheorems.TakeoverCancels | src/simplecc/lsp/client.rs:733-735 | when a call's key is taken over, abandoned or not, it is cancelled exactly if it is still in `pending` and the client is alive |
| ClientTheorems.CancelWithoutRequest | src/simplecc/lsp/client.rs:718-736 | a run whose wire holds a cancellation and no request |
| ClientTheorems.AnsweredNeverCancelled | src/simplecc/lsp/client.rs:487-492 | a request whose response was dispatched is never cancelled afterwards |
| ClientTheorems.NoStrandedCaller | src/simplecc/lsp/client.rs:501-504 | once `pending` was emptied after a disconnect, every id in it belongs to a call that has yet to fail its alive check or was dropped before it, and every waiting caller can proceed |
| ClientTheorems.HolderMoves | src/simplecc/lsp/client.rs:718-745 | whoever holds the key lock is never itself waiting for that lock or for a response |
| ClientTheorems.QuietMeansReturned | src/simplecc/lsp/client.rs:501-504 | after a disconnect no set of calls can wait for one another over the key lock and the response channels: when no call can take a step, every call has returned or was dropped |
| ClientTheorems.ReturnsWithin | src/simplecc/lsp/client.rs:696-791 | every call has returned or was dropped after at most 18 steps of its own, whatever everyone else does in between |
| ClientTheorems.DoomedFails | src/simplecc/lsp/client.rs:616-619 | such a call never writes its request and never delivers |
| ClientTheorems.ReturnedLeavesNothing | src/simplecc/lsp/client.rs:747-786 | a call that returned is not in `pending`, no key points at it, and it holds no lock |
| ClientTheorems.EndedInPending | src/simplecc/lsp/client.rs:715-786 | a call that has ended, by returning or by being dropped, is in `pending` if and only if it was dropped there and has been there ever since |
| ClientTheorems.LeavesPending | src/simplecc/lsp/client.rs:487-504 | only a late response, a disconnect or the call that takes over its key removes it |
| ClientTheorems.EntryStays | src/simplecc/lsp/client.rs:687-694 | and the key of a dropped call points at it until another call takes it over |
| ClientTheorems.DroppedStaysPending | src/simplecc/simplecc_daemon.rs:1687-1692 | a run that ends with a dropped call in `pending`, its request written and never cancelled |
| ClientDelivery.DeliversExactly | src/simplecc/lsp/client.rs:749-791 | in every run a call that returns has delivered if and only if its request was written, a response was dispatched while it was in `pending`, it did not time out, and no other call registered on its key between its own registration and its end |
| ClientDelivery.PlainCallSends | src/simplecc/lsp/client.rs:616-635 | from any state with a living client, a plain request, or an execute command of a reply still open, gets its request written and is then in `pending`, waiting |
| ClientDelivery.LatestCallSends | src/simplecc/lsp/client.rs:718-745 | so does a request with a key that no later editor request holds, having cancelled the previous holder if that was still in `pending` |
| ClientDelivery.WaitingDelivers | src/simplecc/lsp/client.rs:749-791 | a waiting call that holds its key, if it has one, delivers once its response comes, and gives the key up |
| ClientDelivery.OutrankedGivesWay | src/simplecc/lsp/client.rs:723-728 | a request outranked by a later editor request delivers nothing, writes nothing, and leaves `pending` and the keys as they were |
| ClientDelivery.TimedOutIsCancelled | src/simplecc/lsp/client.rs:769-773 | a request in `pending` when its time is up leaves it and is cancelled, if the client is alive |
| ClientDelivery.FailedWriteKills | src/simplecc/lsp/client.rs:565-569 | a failed write marks the client dead, fails every waiting call and closes the code-action cache |
| ClientDelivery.DeadForGood | src/simplecc/lsp/client.rs:501-504 | after the end of the server's output the client stays dead and no response is dispatched |
| TokenEdits.ApplySemanticTokenEdits | src/simplecc/lsp/client.rs:2824-2870 | edits are accepted exactly when aligned, in range, disjoint and with no later delete at a shared start; flattening the spliced tokens is then applying all edits at once to the flat array |
| TokenEdits.DistinctStarts | src/simplecc/lsp/client.rs:2833-2861 | with distinct starts, acceptance is exactly: multiples of five, in range, disjoint |
| TokenEdits.ListingOrderIrrelevant | src/simplecc/lsp/client.rs:2829-2829 | edits with distinct starts are accepted alike and mean the same in any listing order |
| TokenEdits.SameAcceptance | src/simplecc/lsp/client.rs:2829-2829 | sorting the edits changes nothing about their acceptance |
| TokenEdits.AddEdit | src/simplecc/lsp/client.rs:2866-2868 | splicing one more edit in front of those already applied is adding it to the simultaneous meaning |
| TokenEdits.EditsMean | src/simplecc/lsp/client.rs:2859-2869 | for any rewriting of a token list, piece by piece, the edits that describe it, listed in any order, turn the flat old list into the flat new one: kept tokens stay, the others are replaced by what is inserted, where nothing may be kept, deleted or inserted |
| TokenEdits.OneEdit | src/simplecc/lsp/client.rs:2859-2868 | one edit replaces just its stretch by its tokens, a pure insertion included, and by nothing if it carries none |
| TokenEdits.TwoEdits | src/simplecc/lsp/client.rs:2859-2868 | two edits of separate stretches, in either order, replace both |
| TokenDecoding.DecodeRawTokens | src/simplecc/lsp/client.rs:2257-2291 | the accumulating loop computes the relative decoding, sums taken modulo 2^32 |
| TokenDecoding.DecodeConcat | src/simplecc/lsp/client.rs:2265-2271 | decoding a concatenation is decoding the first part and then the second from the carried line and start |
| TokenDecoding.DecodeEncode | src/simplecc/lsp/client.rs:2257-2291 | decoding inverts the matching encoder on every ascending list of positions |
| TokenDecoding.EncodeDecode | src/simplecc/lsp/client.rs:2257-2291 | and where no sum wraps the encoder gives back the very same deltas and lengths |
| TokenDecoding.AscendingIffNoWrap | src/simplecc/lsp/client.rs:2263-2271 | decoded positions are lexicographically non-decreasing if and only if no 32-bit sum wraps |
| TokenDecoding.PositionsAreSums | src/simplecc/lsp/client.rs:2263-2271 | a token's line is the sum of all line deltas so far, its start the sum of the start deltas since its line began, both modulo 2^32 |
| TokenDecoding.FirstLine | src/simplecc/lsp/client.rs:2263-2271 | tokens before any line delta are on line 0 |
| TokenCache.SemanticTokens.StoreSemtokCache | src/simplecc/lsp/client.rs:2314-2339 | the entry goes in, at most 64 documents remain, and what was evicted is no more than needed and no younger than anything kept |
| TokenCache.SemanticTokens.Oldest | src/simplecc/lsp/client.rs:2330-2334 | an entry with the least last use |
| TokenCache.SemanticTokens.Previous | src/simplecc/lsp/client.rs:2374-2382 | a delta is requested exactly when an entry with a result id is cached, against that id and data |
| TokenCache.SemanticTokens.DeltaReplied | src/simplecc/lsp/client.rs:2395-2434 | what each kind of reply to a delta request does to the cache, and whether the tokens must be requested in full |
| TokenCache.SemanticTokens.FullReplied | src/simplecc/lsp/client.rs:2341-2365 | what each kind of reply to a full request does to the cache |
| TokenCache.SemanticTokens.DidClose | src/simplecc/lsp/client.rs:1043-1043 | closing forgets exactly that document |
| TokenCache.SemanticTokens.Answer | src/simplecc/lsp/client.rs:2384-2434 | a reply takes the waiting request one step of the model on, back to a full request if a delta could not be used |
| TokenCache.SemanticTokens.Drive | src/simplecc/lsp/client.rs:2314-2435 | any schedule of requests, replies and closings takes the object along a path of the model and delivers exactly that path's answers |
| TokenCache.StepCoherent | src/simplecc/lsp/client.rs:2367-2435 | against a truthful server one step keeps every cached pair and every waiting delta request in agreement with the server, and delivers what a full request would have |
| TokenCache.RunCoherent | src/simplecc/lsp/client.rs:2314-2435 | so in every interleaving of full, delta, close and eviction: all cached pairs agree, at most 64 documents are cached, every delivered answer is the full answer |
| TokenCache.ReadableIsAnswered | src/simplecc/lsp/client.rs:2341-2434 | null and full replies, and deltas that can be applied, are answered, full ones with the decoding of what they say; after anything else to a delta request the same request goes on as a full one and nothing stays cached for the document |
| TokenCache.AnswerIsCached | src/simplecc/lsp/client.rs:2314-2434 | an answer later than everything cached is what is cached for the document, under the server's id: the list itself, or the result of the delta |
| Utf8.DecodeEncode | src/simplecc/lsp/transport.rs:152-153 | reading UTF-8 back gives the string that was written |
| Utf8.EncodeDecode | src/simplecc/simplecc_daemon.rs:559-559 | only the encoding of the result is read as that result |
| Utf8.EncodingForms | src/simplecc/lsp/transport.rs:152-153 | the one to four bytes of a character, their ranges, and that their payload bits spell its code point |
| Utf8.Utf16Units | src/simplecc/lsp/types.rs:189-189 | a character counts as many units as its UTF-16 form has, one that is no surrogate or a pair that spells its code point |
| Decimal.ParsePrint | src/simplecc/lsp/transport.rs:164-164 | a printed length parses back to itself unless it exceeds the type |
| Decimal.ParseExactly | src/simplecc/lsp/transport.rs:164-164 | a number is read from digits, leading zeros and one plus sign allowed, and from nothing else |
| ByteSource.Reader.ReadExact | src/simplecc/lsp/transport.rs:175-176 | a body is read exactly when the stream still holds that many bytes, and nothing beyond it is consumed |
| Framing.ReadLimitedHeaderLine | src/simplecc/lsp/transport.rs:189-217 | for any chunking: the bytes through the first newline or the end, an error exactly above 8192 bytes, never more than 8192 buffered |
| Framing.ReadHeaderBlock | src/simplecc/lsp/transport.rs:138-170 | the header loop equals its specification on the whole stream: clean end, error, or announced length and the exact rest |
| Framing.ReadLoop | src/simplecc/lsp/transport.rs:129-185 | for any chunking the reader yields exactly the bodies and the ending that the whole stream determines |
| Framing.FrameHeaders | src/simplecc/lsp/transport.rs:93-95 | the headers `send` prints announce the body's length and consume nothing of it |
| Framing.FramesRoundTrip | src/simplecc/lsp/transport.rs:84-98 | concatenated frames of bodies within the limit read back as exactly those bodies, then a clean end |
| Framing.Deliver | src/simplecc/lsp/transport.rs:129-185 | the two ends together, across any cutting into non-empty chunks |
| HeaderLaws.TrimMeans | src/simplecc/lsp/transport.rs:152-154 | what is left after trimming starts and ends with no white space, and only white space was cut |
| HeaderLaws.AnyLetterCase | src/simplecc/lsp/transport.rs:158-159 | the length header is recognised in every spelling of its letters, small or capital, and in no other |
| HeaderLaws.OtherHeaderSkipped | src/simplecc/lsp/transport.rs:155-167 | a header of any other name changes neither the announced length nor what follows |
| HeaderLaws.LengthRead | src/simplecc/lsp/transport.rs:157-167 | a length header in any letter case and spacing announces the number it spells, up to 64 MiB; a repeated, unreadable or larger one is an error |
| HeaderLaws.LengthAnnounced | src/simplecc/lsp/transport.rs:157-167 | in particular every printed length |
| HeaderLaws.UnreadableHeader | src/simplecc/lsp/transport.rs:152-153 | a header that is not UTF-8 is an error |
| HeaderLaws.BlockRead | src/simplecc/lsp/transport.rs:138-170 | a header block with any other headers before and after the length header announces that length and ends at its blank line |
| HeaderLaws.MessageRead | src/simplecc/lsp/transport.rs:138-182 | such a message is read and the stream goes on behind its body; a body that is no JSON or is cut short anywhere is an error |
| HeaderLaws.LengthExactlyOnce | src/simplecc/lsp/transport.rs:161-170 | without a length header a message is an error, and with two |
| HeaderLaws.HeaderLimits | src/simplecc/lsp/transport.rs:146-150 | a header line above 8192 bytes is refused, and headers above 32768 in all |
| JsonlReader.FinishRequestLine | src/simplecc/simplecc_daemon.rs:552-560 | one trailing carriage return is framing; then too long, not UTF-8, or the text |
| JsonlReader.ReadRequestLine | src/simplecc/simplecc_daemon.rs:565-604 | for any chunking: the record the whole stream determines, the reader left just past its newline, never more than limit + 1 bytes buffered |
| JsonlReader.ReadAll | src/simplecc/simplecc_daemon.rs:837-848 | repeated reading yields exactly the records of the stream |
| JsonlReader.RecordIsolated | src/simplecc/simplecc_daemon.rs:562-564 | a record is refused exactly when its content exceeds the limit or is not UTF-8, and the records behind it are unaffected either way |
| JsonlReader.RecordContent | src/simplecc/simplecc_daemon.rs:552-560 | whether a newline, a carriage return and newline, or the end of the stream ends it, a record is the text that encodes to its bytes, exactly when those are within the limit; too long and not UTF-8 are told apart exactly |
| JsonlReader.LinesRoundTrip | src/simplecc/simplecc_daemon.rs:584-596 | lines written with either line ending are read back unchanged and in order |
| Installer.FileSystem.Rename | src/simplecc/installer.rs:1208-1214 | happens as a whole or not at all, and is recorded when it fails |
| Installer.FileSystem.RemovePath | src/simplecc/installer.rs:1192-1204 | may stop anywhere, leaving part of the tree, and is recorded when it fails |
| Installer.FileSystem.Crash | src/simplecc/installer.rs:1129-1131 | the process may die in any state the disk passed through |
| Installer.PromoteInstallation | src/simplecc/installer.rs:1208-1226 | at every moment the active tree is complete or recoverable; the promotion succeeds if and only if no operation failed, and then the staged tree is active, gone from its old place, and the old tree, if there was one, is the backup; if just one operation failed the disk is as before |
| Installer.SetAside | src/simplecc/installer.rs:1211-1214 | the first rename makes the active tree the newest backup, or changes nothing |
| Installer.ActivateOrRestore | src/simplecc/installer.rs:1217-1224 | the staged tree is active if and only if its rename did not fail; if only that failed, the backup is the active tree again |
| Installer.SetAsideKept | src/simplecc/installer.rs:1211-1214 | renaming the active tree away makes it the newest backup and keeps the disk serviceable |
| Installer.ActivateKept | src/simplecc/installer.rs:1217-1217 | activating a complete staged tree makes the disk serviceable |
| Installer.RestoreKept | src/simplecc/installer.rs:1158-1163 | renaming the newest backup back restores a complete tree |
| Installer.RemovalKept | src/simplecc/installer.rs:1192-1204 | a removal cut short anywhere, of a staging tree or of a backup beside an active tree, loses nothing |
| Installer.LastIsNewest | src/simplecc/installer.rs:1157-1161 | the last of the sorted backups is the newest of those whose owner is gone |
| Installer.CollectBackups | src/simplecc/installer.rs:1140-1156 | exactly the backups whose owner is gone are collected, nothing of a live owner and no backup is touched, and every other sibling whose owner is gone is removed unless its removal failed |
| Installer.RestoreExact | src/simplecc/installer.rs:1158-1163 | putting back the newest such backup keeps a sound disk if and only if that backup is complete |
| Installer.NewestOwnerGone | src/simplecc/installer.rs:1143-1163 | recovery is safe when the owner of the newest backup of all is gone |
| Installer.LiveOwnerBreaksRecovery | src/simplecc/installer.rs:1147-1163 | a serviceable disk on which recovery makes a partial tree active |
| Installer.StuckDiskReached | src/simplecc/installer.rs:1208-1226 | and operations that lead there from an empty disk: a removal cut short, then a promotion whose activation and restore both fail |
| Installer.RestoreNewest | src/simplecc/installer.rs:1158-1163 | the newest backup whose owner is gone is renamed into place, and the disk is sound afterwards exactly when it was recoverable |
| Installer.RecoverStaleInstallSiblings | src/simplecc/installer.rs:1131-1170 | for every disk and every judgement of owners: each moment of recovery keeps the disk if it is recoverable, and, when recovery succeeds, only then; the newest tree comes back if and only if its owner is gone; a destination that exists is left alone, and so are the siblings of live owners; recovery succeeds exactly if nothing but removals failed, and then every sibling whose owner is gone is gone or its removal failed |
| Installer.RemoveAll | src/simplecc/installer.rs:1165-1167 | removing leftover backups keeps the destination at every moment, and each is gone unless its removal failed |
| Installer.StagingGuard.Cleanup | src/simplecc/installer.rs:386-393 | nothing is removed after promotion or while a command may still write; otherwise the staging tree goes unless its removal fails |
| Installer.Stage | src/simplecc/installer.rs:457-497 | a staged tree is complete when staging succeeds, which it does unless an operation fails; failing keeps what was serviceable at every moment |
| Installer.DoInstall | src/simplecc/installer.rs:441-518 | installation succeeds if and only if nothing but removals failed, and activates exactly the new version, on every disk; then every sibling left is a live owner's from before or one whose removal failed; every moment of success or failure keeps a complete tree active or recoverable, and never activates a partial one, if the disk was recoverable, and, for a successful installation, only then |
| Installer.Lifetime | src/simplecc/installer.rs:1129-1170 | any number of daemons with any judgement of which owners are gone, each killed anywhere or living on: as long as each finds a recoverable disk, a complete tree once active is never lost, and one recovery that finds the newest owner gone makes the destination complete |
| Installer.AllGone | src/simplecc/installer.rs:1109-1127 | daemons that find every earlier owner gone always find a recoverable disk |
| SiblingNames.OwnerOfUnique | src/simplecc/installer.rs:1089-1107 | the hidden name gives back its owner and stamp under its own label, and nothing under the other two |
| SiblingNames.OwnerExactly | src/simplecc/installer.rs:1101-1107 | and a name has an owner exactly if it is a label, a dash, a process id, a dash and a stamp, both in range |
| Scheduler.Daemon.Read | src/simplecc/simplecc_daemon.rs:900-934 | which requests drain the tasks first, which run inline, which are spawned and into which set |
| Scheduler.Daemon.Serve | src/simplecc/simplecc_daemon.rs:837-934 | the daemon under any schedule does what the loop's transitions say and its log keeps all four promises |
| Scheduler.PromisesNow | src/simplecc/simplecc_daemon.rs:898-900 | what an event needs for the promises to survive it |
| Scheduler.MoveInv | src/simplecc/simplecc_daemon.rs:902-934 | every transition keeps the loop's invariant |
| Scheduler.EveryRun | src/simplecc/simplecc_daemon.rs:500-529 | for every input and schedule: ordered requests run one at a time in input order, acting only inside their handler; a spawned request acts only after all earlier ordered ones finished; no feature request read before a barrier acts once its handler has started |
| Scheduler.Accepted | src/simplecc/simplecc_daemon.rs:902-934 | each kind of request goes its own way: features and installations into their task sets, barriers to draining, all others to their handler at once |
| Scheduler.CanComplete | src/simplecc/simplecc_daemon.rs:837-934 | from any state that has not stopped, the run can go on until every request is read, every ordered one handled and every task ended: no barrier and no handler waits for what cannot happen |
| ShellQuoting.QuoteRoundTrip | src/simplecc/registry.rs:420-422 | a POSIX tokenizer reads the joined quoted words as exactly the original arguments, empty ones included, every character quoted |
| ShellQuoting.ScriptTokens | src/simplecc/registry.rs:445-453 | the remote script is the fixed commands around the verbatim root, command and arguments |
| ShellQuoting.PreambleSpelt | src/simplecc/registry.rs:449-452 | those fixed commands, word by word |
| ShellQuoting.AssignmentSpelt | src/simplecc/registry.rs:450-450 | the search path is assigned as one word, its parameters in double quotes, the project's own directory first |
| ShellQuoting.SshSurvivesBothShells | src/simplecc/registry.rs:455-465 | through ssh the login shell passes the script unchanged to a second shell, which reads the same root and arguments |
| ShellQuoting.DockerPassesScript | src/simplecc/registry.rs:465-476 | docker gets the script as one argument and starts the second shell itself |
| ShellQuoting.RuntimePassesWords | src/simplecc/registry.rs:429-443 | a runtime, whatever the transport, gets every word as it is |
| ShellQuoting.RefusedExactly | src/simplecc/registry.rs:477-477 | just the other transports without a runtime are refused |
| ShellQuoting.LexConcat | src/simplecc/registry.rs:445-453 | tokenizing pieces one after another is tokenizing their concatenation |
| SignatureHelp.ByteOffset | src/simplecc/lsp/types.rs:183-195 | a UTF-16 offset has a byte offset exactly when it falls between characters, and then that one |
| SignatureHelp.UnitsMeasureUtf16 | src/simplecc/lsp/types.rs:189-189 | offsets count the units of the text's UTF-16 form |
| SignatureHelp.SignatureLabelSlice | src/simplecc/lsp/types.rs:182-197 | a slice exists exactly when the offsets are in order and on character boundaries, and is exactly as many UTF-16 units long as they say |
| SignatureHelp.CutOutUnique | src/simplecc/lsp/types.rs:196-196 | two offsets cut out one text at one place |
| SignatureHelp.LocateOne | src/simplecc/lsp/types.rs:127-155 | each kind of label is looked up from where the previous one ended: a plain one at its first occurrence, an empty or missing one nowhere |
| SignatureHelp.LocateParameters | src/simplecc/lsp/types.rs:122-163 | all parameters are reported, in order, the search starting past the first parenthesis |
| SignatureHelp.SearchStartMeans | src/simplecc/lsp/types.rs:121-121 | the search starts just past the first opening parenthesis, or at the start if there is none |
| SignatureHelp.RangeCutsLabel | src/simplecc/lsp/types.rs:127-155 | every reported byte range cuts exactly the reported label out of the signature's UTF-8 bytes |
| SignatureHelp.PlainLabelsIncrease | src/simplecc/lsp/types.rs:129-142 | in a signature of plain labels the ranges increase and are disjoint |
| SignatureHelp.FromLspSignatureHelp | src/simplecc/lsp/types.rs:109-178 | `overload_index` is a bijection, each entry is built from the signature it names, the overload the server calls active comes first, the server's first one if it names none or none that exists, and the others follow in the server's order |
| Lexicographic.StrOrder | src/simplecc/lsp/types.rs:488-488 | byte order over UTF-8 is a total order on strings, equal only for equal strings |
| Lexicographic.FirstDifference | src/simplecc/lsp/types.rs:488-488 | what decides is the first byte in which two strings differ, the smaller one first, or else which is a prefix of the other |
| StableSort.SortPermutes | src/simplecc/lsp/types.rs:485-485 | sorting rearranges, with multiplicity |
| StableSort.SortSorted | src/simplecc/lsp/types.rs:485-485 | and puts in order |
| StableSort.SortIsTheStableOne | src/simplecc/lsp/types.rs:480-485 | the result is the one sequence in order that keeps every tie in the order it came in |
| StableSort.SortedUnique | src/simplecc/config.rs:246-251 | without ties, the one sequence in order with these elements |
| Completion.RankOrder | src/simplecc/lsp/types.rs:485-489 | the comparison is a total preorder |
| Completion.RankedBySortText | src/simplecc/lsp/types.rs:484-490 | ranked items follow their sort texts (or labels where omitted), equal ones their labels |
| Completion.NothingBetterDropped | src/simplecc/lsp/client.rs:1134-1140 | kept and dropped items are together a stable sorted permutation of the reply, cut at the limit, and no dropped item ranks strictly ahead of a kept one |
| Completion.KeptSize | src/simplecc/lsp/client.rs:1137-1140 | for every editor limit exactly how many items are delivered: never more than 500, never none of some; unsorted lists are a prefix of the reply |
| Completion.GroupKeepsServerOrder | src/simplecc/lsp/types.rs:480-489 | items sharing a sort key keep the server's order if and only if the server listed them by label |
| Completion.SharedSortTextReordered | src/simplecc/lsp/types.rs:480-489 | a list whose items share a sort text and are reordered |
| Completion.Completions.Start | src/simplecc/lsp/client.rs:1068-1070 | the generation is taken when the request starts |
| Completion.Completions.Deliver | src/simplecc/lsp/client.rs:1134-1148 | the reply is ranked, cut, and cached unless a newer one is |
| Completion.Completions.Resolve | src/simplecc/lsp/client.rs:2528-2541 | an item is used exactly for the cached generation and an index inside the list |
| Completion.Completions.Drive | src/simplecc/lsp/client.rs:1057-1156 | any schedule of requests, replies and resolves is a legal history of the object, and every resolve is answered from the history so far |
| Completion.NewestAlways | src/simplecc/lsp/client.rs:1142-1148 | in every interleaving the cache holds the newest delivered list and no generation is delivered twice |
| Completion.ResolveExact | src/simplecc/lsp/client.rs:2521-2541 | in every interleaving a resolve of (generation, index) succeeds if and only if that generation is the newest delivered, and then uses exactly the item delivered under that index |
| Completion.OneListPerGeneration | src/simplecc/lsp/client.rs:1068-1070 | a generation names one delivered list |
| Completion.AwaitedExactly | src/simplecc/lsp/client.rs:1068-1070 | the n-th request has generation n and is awaited until its reply is delivered or it is given up |
| WatchedFiles.Watcher.DidChangeWatchedFiles | src/simplecc/lsp/client.rs:996-1028 | the registered events of a call, pruned and debounced in order; without any the memory is not touched |
| WatchedFiles.RegisteredMeans | src/simplecc/lsp/client.rs:996-1007 | exactly the events a registration matches are looked at, as often as they come |
| WatchedFiles.RegisteredInOrder | src/simplecc/lsp/client.rs:996-1007 | and in the order they come |
| WatchedFiles.BatchCollapses | src/simplecc/lsp/client.rs:1012-1026 | in one batch exactly the registered, unsuppressed events are sent, once each, and remembered with this clock |
| WatchedFiles.BatchTracked | src/simplecc/lsp/client.rs:1012-1026 | a batch sends exactly the events whose last emission is at least 250 ms old, as a history that forgets nothing would |
| WatchedFiles.PruningInvisible | src/simplecc/lsp/client.rs:1009-1026 | over all batches, forgetting after two seconds never changes what is sent if and only if no call comes back to within 250 ms of a reading that an intermediate call saw go two seconds stale |
| WatchedFiles.SmallLagIsPunctual | src/simplecc/lsp/client.rs:1009-1026 | in particular for clock readings in lock order, or lagging by at most 1.75 s |
| WatchedFiles.LateCallResends | src/simplecc/lsp/client.rs:1009-1011 | for any other clock readings, calls for which it does change what is sent |
| Configuration.MergeJsonValue | src/simplecc/config.rs:100-113 | the in-place loop over the override's keys, in any order, computes the recursive merge |
| Configuration.MergeJson | src/simplecc/config.rs:92-98 | without overrides the defaults, if any; over null defaults the overrides themselves |
| Configuration.MergeIdempotent | src/simplecc/config.rs:100-113 | merging the same overrides twice changes nothing |
| Configuration.MergeLookup | src/simplecc/config.rs:100-113 | what any path finds in the merged settings, read off the two layers alone |
| Configuration.PathCases | src/simplecc/lsp/client.rs:3565-3569 | a path that finds nothing either leaves the object at a missing key or runs into a non-object |
| Configuration.SplitJoin | src/simplecc/lsp/client.rs:3566-3566 | a section is cut back into exactly the keys it was joined from |
| Configuration.ExactOrPath | src/simplecc/lsp/client.rs:3558-3570 | a section finds the exact dotted key of either layer first, then the nested path, else null |
| Configuration.UserValueWins | src/simplecc/lsp/client.rs:3558-3570 | a non-object value set by the user on a nested path is what the server is told, if and only if no exact dotted key says otherwise |
| Configuration.DefaultStays | src/simplecc/lsp/client.rs:3558-3570 | a section the user leaves alone, as key and as path, keeps its default |
| Configuration.NestedIsFound | src/simplecc/lsp/client.rs:3565-3569 | a value is found at the path it is nested under, and nothing beyond it |
| Configuration.SectionIsFound | src/simplecc/lsp/client.rs:3558-3570 | a section finds the value nested under its keys, an exact key before that, and null in what is no object |
| Configuration.ServersForFiletype | src/simplecc/config.rs:239-253 | each server for the file type once, by falling priority and then by name, whatever order the map is walked in |
| Configuration.SelectionUnique | src/simplecc/config.rs:234-253 | there is only one such sequence |
| Configuration.HigherFirst | src/simplecc/config.rs:239-253 | its members are exactly the servers that name the file type, higher priority numbers first, names in byte order among equals |

## Left out

- Why and when a caller drops a call: a drop may come at any point of it, also where the code has no await.
- The wait for the transport and for a full pipe, which no timeout covers: a write is one step that may come arbitrarily late. `HolderMoves` and `QuietMeansReturned` are about the key lock and the response channels only.
- Partial writes, `terminate_transport` and the transport's own terminated state: a message reaches the wire whole or the write fails.
- Wrap-around of the 64-bit request ids and completion generations.
- Early exits of a call before it has an id, and the contents of requests and responses; an error response counts as a delivery. What a resolve request adds to an item before its command is written is the server's.
- `Respond` to an id that was never issued has no effect; server requests and notifications only appear as other messages on the wire and as cache refreshes.
- JSON parsing and printing: `json` decides which bodies parse. Read errors other than the end of the stream, and the reader's exit when its receiver is gone.
- Token types and modifiers: decoding keeps positions and lengths.
- Mutual exclusion of the per-document token locks: closing a document drops its lock while others hold it. `TokenCache` does not rely on it.
- TokenEdits.ApplySemanticTokenEdits: does not tell the four kinds of refusal apart; each is an error that leads to a full request.
- Directory listing errors during recovery, process ids that are reused, several installations at once, clocks that go back between stamps or give two backups one stamp, symbolic links as destinations.
- Downloading, extracting, package managers and finding the binary in the staged tree. The Julia server goes through the same recovery, staging, promotion and removal of the backup (src/simplecc/installer.rs:795-850); what its package manager writes is left out.
- Finishing the accepted tasks after the end of input, and the deadlines there; the retry of a request line that is not valid JSON.
- Scheduler.EveryRun: says nothing about fairness; a schedule may leave a task waiting for ever, though by `CanComplete` it never has to.
- Shell expansions: the tokenizer marks parameters in double quotes and stops at a substitution. Arguments with a NUL character cannot be passed to a process at all.
- SignatureHelp.LocateOne: keeps the search position as a character position, not as a byte offset; all reported offsets are bytes.
- Filling omitted fields of a resolved completion item from the original, trigger kinds, and the remaining fields of an item.
- Glob matching of watched files: the registrations are the predicate `matches`.
- The table of default settings for the Julia server, configuration files and their validation, and the list form of a configuration request, which looks up each section on its own.
- The Vim side, process handling, the workspace watcher, and the features that send one request and reshape one reply.
