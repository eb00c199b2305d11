# Verification models

Dafny models of the stateful engines of Brunomnia, with proofs of what they promise over whole runs.
`dafny verify dfyconfig.toml` checks the whole project. Source lines below are those of the repository.

## What is modelled

- **gRPC streaming sessions** (`GrpcTask`, `GrpcSessions`, `GrpcRuns`, `GrpcReplies`, `GrpcDraining`, `GrpcHost`). A transition system of
  the session registry, one bounded command channel and one background task per session, and every
  atomic step that touches them: both halves of a start, sends, commits, both halves of a cancel and of
  close-all, and each outcome of a select. `Inv` is kept by every step, so it holds after any
  interleaving. `GrpcHost.SessionHost` is the registry as an object whose methods refine those steps.
- **Request examples** (`GrpcExamples`). The mutual recursion over possibly cyclic message descriptors,
  with its mutable field budget.
- **Source collection** (`SourceCollector`). The depth-first search over file references with links, a
  visited set, a depth cut and a file limit, against the plain reachability closure.
- **Address classification** (`Ipv6Text`, `HostClassifier`). The hand-written IPv6 parser of the command
  line, against every valid rendering of an address, and the two private-address classifiers compared.
- **Folders and environments** (`Forest`, `FolderTree`, `EnvironmentTree`, `DeepEnvironments`). Parent-id forests under
  deletion, reparenting and addition.
- **Script variables and prompts** (`ScriptVariables`, `PromptQueue`). The layered merge and its
  write-back; the queue of template prompts as an object.
- **HTTP cancellation and netrc** (`HttpCancellation`, `Netrc`). The registry of active and pending
  cancellations as a race protocol; the index-driven token scanner.
- **Secret caches** (`SecretCache`, `SecretKeys`, `CliSecretCache`, `CliCacheOrder`, `UriComponents`). The desktop cache and the cache of
  the command line under any interleaving of resolutions, and both cache keys.
- **Run loops** (`TestRunner`, `GgufDecoding`). The retry and bail loop, and batched decoding with a local
  model against plain one-token-at-a-time generation.

## Where the code and its description part

- A gRPC method without client streaming shows its request as outgoing before it builds it: with invalid
  metadata nothing is forwarded. `RequestIsForwardedUnlessRejected` gives the exact condition and
  `RejectedRequestIsShown` a session that reaches it.
- A cancelled gRPC session need not end in CANCELLED. If a message queued before the cancel meets a request
  stream that has ended, the session ends in that error
  (`DrainingEndsCancelledUnlessAMessageIsLost`, `LostMessageHidesCancel`). While trailers are awaited no
  commands are read, so a cancel accepted then leaves no trace (`TrailersIgnoreTheChannel`,
  `CancelWhileTrailing`).
- The depth cut of the source collector never takes effect: the file limit is reached first.
- `folderAncestors` stops after 20 folders. `docs/RESOURCE_HIERARCHY.md` says that a folder cannot be moved
  into a descendant; the folder editor offers descendants more than 20 levels down as parents
  (`OfferedParentsCycleOnlyWhenDeep`, `DeepestFolderIsOffered`, `OffersAreSafeExactlyUpToTwenty`).
- `publicEnvironments` looks at no more than 500 environments of a chain. Up to that depth a deletion keeps
  every survivor's effective privacy; beyond it `DeleteKeepsPrivacy` says exactly when it changes, and
  `DeletingRevealsADeepFlag` shows it changing.
- Writing script variables back with the default list of disabled names is idempotent except for a
  disabled row with an empty name (`WritingTwiceByDefault`).
- The desktop secret key joins its parts by line feeds. Without line feeds inside them it identifies them;
  with some, two different inputs may share a key (`LineFeedsCollide`), and `SharedKeysAreOtherCuts` says
  exactly which do. The key of the command line has no such exception.
- In the command-line cache a key that is set again keeps its old place, so eviction follows age only
  where resolutions do not overlap (`RunsEvictOldestFirst`, `OverlapsLoseAgeOrder`).
- A netrc value is cut at its first number sign, as if a comment began there. `TokensOfWrittenEntries` says
  that written entries read back if and only if no word of theirs holds one.
- The text flushed from the decoder at the end of a generation is not subject to the 10 MB limit: an output
  may exceed it by up to four bytes. `RunInference` says exactly when it stays within, and for every prompt
  `FlushExceedsTheLimit` gives a model with which it does not.

## Model

| member | source | states |
|---|---|---|
| GrpcTaskProofs.CommandOrderIsRegular | src-tauri/src/grpc_client.rs:626-678 | the pairwise order kept by the invariant is the regular language Send* Commit? Cancel? |
| GrpcTaskProofs.ArmKeepsInv | src-tauri/src/grpc_client.rs:364-515 | every outcome of every select, the calls, the trailers and the end keep channel order, request stream and log well formed |
| GrpcTaskProofs.HeadIsApplicable | src-tauri/src/grpc_client.rs:332-362 | a message or commit received by a listening task always finds a client-streaming call with an open request stream |
| GrpcSessionProofs.StepKeepsRegistry | src-tauri/src/grpc_client.rs:526-691 | registry entries and tasks with a registered sender stay in one-to-one correspondence, with flags matching the channel, under all eleven kinds of step |
| GrpcSessionProofs.StepKeepsInv | src-tauri/src/grpc_client.rs:517-691 | every interleaved step keeps the whole invariant |
| GrpcRuns.RunKeepsInv | src-tauri/src/grpc_client.rs:517-691 | so does every run |
| GrpcRuns.CommandsAreOrdered | src-tauri/src/grpc_client.rs:626-678 | in every reachable state the commands accepted for a token form Send* Commit? Cancel?, only Cancel? without client streaming, never more than 256 wait, and forwarded messages are a prefix of the accepted ones |
| GrpcRuns.DefensiveBranchesAreDead | src-tauri/src/grpc_client.rs:340-343 | the "already committed" and "do not accept commands" errors of the task are unreachable |
| GrpcRuns.FinishedLogsAreComplete | src-tauri/src/grpc_client.rs:581-609 | every ended session has a log of the full grammar: start, body, one outcome, end |
| GrpcRuns.StartFirstEndLast | src-tauri/src/grpc_client.rs:581-609 | in such a log start occurs exactly first and end exactly last |
| GrpcRuns.OneStatus | src-tauri/src/grpc_client.rs:279-314 | at most one status, and after it neither a message nor a commit |
| GrpcRuns.NothingOutgoingAfterCommit | src-tauri/src/grpc_client.rs:348-355 | after a commit neither another commit nor an outgoing message |
| GrpcRuns.OutgoingIsForwarded | src-tauri/src/grpc_client.rs:340-347 | outgoing events equal the forwarded messages in every reachable state, except for a begun method without client streaming that has forwarded nothing |
| GrpcRuns.RequestIsForwardedUnlessRejected | src-tauri/src/grpc_client.rs:378-384 | the exception arises exactly when such a method's metadata is rejected |
| GrpcDraining.RejectedRequestIsShown | src-tauri/src/grpc_client.rs:378-384 | a reachable session of that kind: it has shown its request, forwarded nothing and ends in the metadata error |
| GrpcRuns.RegistryIsSound | src-tauri/src/grpc_client.rs:526-579 | at most 100 entries despite check, await and recheck; tokens distinct; every entry's task has not cleaned up |
| GrpcRuns.RegistryEmptiesOut | src-tauri/src/grpc_client.rs:610-616 | once all tasks have ended the registry is empty |
| GrpcRuns.OnlyItsOwnEndRemovesAnEntry | src-tauri/src/grpc_client.rs:610-616 | an entry goes only by a cancel of its id, by close-all or by its own task: the late end of an older session with the same id leaves it |
| GrpcRuns.CancelIsNeverLost | src-tauri/src/grpc_client.rs:667-691 | once the handle is taken, whether or not the notification fitted, any run makes at most queue length + 1 further receives, and that many end the task; while the task listens, a receive or the notification is enabled |
| GrpcRuns.CancelCanFinish | src-tauri/src/grpc_client.rs:667-691 | and the notification and receives alone, whatever becomes of the request stream, end it |
| GrpcRuns.CommandsAreAcceptedWhileOpen | src-tauri/src/grpc_client.rs:626-665 | in every reachable state a message or commit is accepted, and queued last, if and only if the session is registered, has a request stream with no commit accepted, runs, and has fewer than 256 commands waiting |
| GrpcRuns.CancelIsQueuedUnlessFull | src-tauri/src/grpc_client.rs:667-678 | the notification of a running session is queued last unless 256 commands are waiting |
| GrpcRuns.SessionsCanEnd | src-tauri/src/grpc_client.rs:364-617 | in any state, whatever is queued, steps of the task other than receives bring it to its end: no session gets stuck |
| GrpcReplies.StreamIsReadToItsEnd | src-tauri/src/grpc_client.rs:418-442 | a response stream of any messages, however it ends, is read to its end: after each message the task listens and has shown exactly the messages so far; then it shows OK, or the code and error of the rejection, or the decoding error |
| GrpcReplies.ReadingGoesOn | src-tauri/src/grpc_client.rs:418-442 | only the end of the stream, a reply that is not good, or a received command that ends the session stops the reading |
| GrpcReplies.GoodRepliesAreShown | src-tauri/src/grpc_client.rs:364-515 | over any list of select outcomes, commands included, the messages shown are those of the good replies, in order |
| GrpcReplies.RunsShowGoodReplies | src-tauri/src/grpc_client.rs:364-691 | so over every run of the registry: no other step shows a message |
| GrpcReplies.UnaryAnswerIsShown | src-tauri/src/grpc_client.rs:375-396 | a call with one response shows it and OK, or the code and error of its rejection, or the decoding error |
| GrpcReplies.RefusedStreamIsShown | src-tauri/src/grpc_client.rs:405-414 | a refused response stream shows its own code and error |
| GrpcReplies.OpenedStreamIsShown | src-tauri/src/grpc_client.rs:405-442 | an opened one is read to its end, whatever its opening answer says |
| GrpcReplies.CallBegins | src-tauri/src/grpc_client.rs:375-384 | a new session calls with its own shape and request, and shows the request unless that is a stream |
| GrpcDraining.DrainingEndsCancelledUnlessAMessageIsLost | src-tauri/src/grpc_client.rs:340-362 | draining the channel of a cancelled task, whatever becomes of the request stream, applies the queued commands in order up to the first message that meets a dead stream; it ends in cancel and CANCELLED if and only if there is none, and otherwise in the stream's error |
| GrpcDraining.LostMessageHidesCancel | src-tauri/src/grpc_client.rs:340-347 | a reachable session with a message and the cancel queued that ends in that error, without cancel and without CANCELLED |
| GrpcDraining.TrailersIgnoreTheChannel | src-tauri/src/grpc_client.rs:434-442 | while trailers are awaited only the trailers move the task, and they fix its outcome and log whatever the channel holds |
| GrpcDraining.CancelWhileTrailing | src-tauri/src/grpc_client.rs:434-442 | a reachable session that has accepted a cancel while awaiting trailers and ends in OK |
| GrpcHost.SessionHost.BeginStart | src-tauri/src/grpc_client.rs:522-536 | the first check trims and bounds the id, succeeds exactly when the step is possible, and otherwise says why in the order of the checks |
| GrpcHost.SessionHost.FinishStart | src-tauri/src/grpc_client.rs:557-585 | recheck, insertion and start event are the insert and spawn steps, with the same errors |
| GrpcHost.SessionHost.SendMessage | src-tauri/src/grpc_client.rs:626-646 | refines the send step, with the errors in the order of the checks |
| GrpcHost.SessionHost.CommitSession | src-tauri/src/grpc_client.rs:648-665 | refines the commit step; the flag is set only if the command was queued |
| GrpcHost.SessionHost.CancelSession | src-tauri/src/grpc_client.rs:667-678 | the handle leaves the registry even if the notification fails; an unknown id and a failed notification are told apart |
| GrpcHost.SessionHost.CloseAllSessions | src-tauri/src/grpc_client.rs:680-691 | empties the registry and notifies exactly the tasks that were registered |
| GrpcHost.SessionHost.RunSession | src-tauri/src/grpc_client.rs:586-617 | driving one task through its selects and its clean-up keeps the invariant, shows exactly the good replies, in order, and ends in a complete log |
| GrpcExamples.RequestExample | src-tauri/src/grpc_client.rs:1439-1441 | on any descriptor pool, cyclic or not, the example conforms to the descriptor at every depth, and the fields counted are the full size of the message, capped at 500; if the pool is well formed the message parser accepts the example |
| GrpcExamples.WholeMessageFits | src-tauri/src/grpc_client.rs:1390-1437 | where the JSON names of each message differ, an example holds every field that no earlier oneof member shadows, in all messages above the depth limit, if and only if its full size fits into what is left of the 500 |
| GrpcExamples.MessageIsDetermined | src-tauri/src/grpc_client.rs:1390-1437 | on any pool, conformance determines the example; of fields with one JSON name the last one written counts |
| GrpcExamples.MessageExample | src-tauri/src/grpc_client.rs:1390-1437 | an object beyond depth 3 is empty; any other holds exactly the fields reached before the count is 500, with only the first member of each real oneof, and adds its full size to the count, capped at 500 |
| GrpcExamples.KindExample | src-tauri/src/grpc_client.rs:1361-1388 | the value conforms to its kind, nested messages being written from the count so far on, and adds its full size to the count, capped at 500; only messages have a size |
| GrpcExamples.FieldExample | src-tauri/src/grpc_client.rs:1412-1433 | a one-element list, a one-entry map under the example key of its key type, or a plain value, conforming to the field |
| GrpcExamples.MapKeysFit | src-tauri/src/grpc_client.rs:1345-1359 | the example key of a map is a text its key type admits: the numeral of the scalar example of that type, a truth value, or the string example of the field name |
| GrpcExamples.StringsFit | src-tauri/src/grpc_client.rs:1336-1343 | a string example is the drawn identifier if and only if the lower-case field name begins or ends in id, else the greeting |
| GrpcExamples.ScalarsFit | src-tauri/src/grpc_client.rs:1361-1380 | every scalar example has the JSON type of its kind: integral and in range for the integer kinds, a truth value, a text, valid base64 |
| GrpcExamples.MessageIsAccepted | src-tauri/src/grpc_client.rs:1390-1437 | lifted through lists, maps and nested messages: every member of a conforming example is a known field with a value of its type, and no real oneof has two |
| SourceCollector.WithinRootIsPrefix | cli/apiSpecSources.ts:14-17 | on resolved paths the textual test on the relative path is the prefix order |
| SourceCollector.ResolveInParts | cli/apiSpecSources.ts:160 | a reference is followed segment by segment |
| SourceCollector.NamesAppend | cli/apiSpecSources.ts:160 | names are appended |
| SourceCollector.UpsTakeOff | cli/apiSpecSources.ts:160 | k parent segments take off k names, or all of fewer |
| SourceCollector.SegmentsCancel | cli/apiSpecSources.ts:160 | a name followed by a parent segment cancels, empty and dot segments do nothing, anywhere in a reference |
| SourceCollector.RelativeLeadsThere | cli/apiSpecSources.ts:151-160 | resolving the relative path from one place to any other leads there |
| SourceCollector.Collector.Walk | cli/apiSpecSources.ts:141-162 | the recursion that updates three captured variables computes the search function, or throws where it throws |
| SourceCollectorProofs.VisitCorrect | cli/apiSpecSources.ts:141-162 | from any sound partial search a visit adds only reachable files, handles all it adds, or throws only if the job is doomed; the depth cut is never reached |
| SourceCollectorProofs.CollectsExactlyTheReachableFiles | cli/apiSpecSources.ts:135-163 | a search that returns lists exactly the files reachable by references and links, each once, inside the root, with their texts |
| SourceCollectorProofs.ReturnsUnlessDoomed | cli/apiSpecSources.ts:141-163 | it returns if and only if no reachable file is unreadable or has an unsafe reference and at most 100 are reachable |
| SourceCollectorProofs.RelativeReferencesAreFollowed | cli/apiSpecSources.ts:157-161 | a reference written as the relative path from its file to any place leads there: an existing file is collected, and a place outside the root makes the run throw |
| SourceCollectorProofs.FirstReferenceEscapes | cli/apiSpecSources.ts:142 | the error names the place outside the root to which the first local reference of the entry leads |
| SourceCollectorProofs.CollectSources | cli/apiSpecSources.ts:135-165 | the same for the whole function with the conventional alias of the entry added |
| SourceCollectorProofs.AliasesByKind | cli/apiSpecSources.ts:164 | the conventional name of the entry, for each kind of source |
| Ipv6Text.DottedParses | cli/apiSpecSources.ts:25-27 | every dotted quad is recognised and read back as its octets |
| Ipv6TextProofs.RenderingsParseBack | cli/apiSpecSources.ts:28-41 | every valid rendering (any place of the double colon, leading zeros, letter case, dotted tail; sections 2.2 and 2.5.5 of RFC 4291) parses to the groups it means |
| Ipv6Text.QuadsAreDotted | cli/apiSpecSources.ts:25-26 | a recognised IPv4 text is the dotted quad of its octets |
| Ipv6Text.DigitsAreOrdered | cli/apiSpecSources.ts:42 | hexadecimal digits have the value of their place, in either case |
| HostClassifier.CliDependsOnGroups | cli/apiSpecSources.ts:19-52 | the verdict on an IPv6 host, bracketed or not, depends only on its eight groups |
| HostClassifier.CliOnDottedQuads | cli/apiSpecSources.ts:22-27 | and on a dotted quad, bracketed or not, only on its octets |
| HostClassifier.PrivateHostsAreThese | cli/apiSpecSources.ts:19-51 | for every text: the host is private if and only if it is localhost, a name below it, a quad in six ranges, or a rendering of an address in the private ranges; any other text is not |
| HostClassifier.PrivateIsRange4 | cli/apiSpecSources.ts:22-24 | the quads are six ranges of 32-bit numbers |
| HostClassifier.PrivateIsRange6 | cli/apiSpecSources.ts:43-49 | the addresses are ::, ::1, two ranges, and those ranges in IPv4-compatible and IPv4-mapped form, as 128-bit numbers |
| HostClassifier.ClassifiersAgreeOnV4 | src-tauri/src/specification_source.rs:10-16 | both classifiers agree on all IPv4 addresses (section 3 of RFC 1918 and the other local ranges) |
| HostClassifier.ClassifiersAgreeExceptOnCompatible | src-tauri/src/specification_source.rs:8-27 | they differ on an IPv6 address exactly if it is IPv4-compatible with a private tail and neither :: nor ::1; there the command line alone says private |
| HostClassifier.MasksAreRanges | src-tauri/src/specification_source.rs:20-21 | the two bit masks are the ranges fc00::/7 (section 3.1 of RFC 4193) and fe80::/10 |
| Forest.DeleteKeepsLineage | src/App.tsx:2465-2474 | deleting a node removes it from every parent chain and changes nothing else |
| Forest.MoveCyclesExactlyBelow | src/App.tsx:1538-1540 | a new parent keeps a forest acyclic if and only if it is not the node itself or below it |
| FolderTree.DeleteKeepsTheForest | src/App.tsx:2465-2474 | folder deletion keeps distinct ids, order and acyclicity, and every ancestor chain only loses the deleted folder |
| FolderTree.DeleteKeepsRequests | src/App.tsx:2465-2474 | requests are conserved in order and each one's folder chain only loses the deleted folder |
| FolderTree.DeleteKeepsOrder | src/App.tsx:2465-2474 | the new order list reads the old one at exactly the positions that do not hold the deleted id, ascending |
| FolderTree.SurvivorsKeepSettings | src/App.tsx:2465-2474 | a remaining folder is an old one, with another parent only if its parent was deleted |
| FolderTree.FolderAncestors | src/lib/resources.ts:446-458 | the loop computes the upward walk, reversed |
| FolderTree.WalkIsCutLineage | src/lib/resources.ts:446-458 | in a forest the walk is the parent chain cut after n folders |
| FolderTree.InvalidParentsAreCutDescendants | src/App.tsx:1538-1540 | the withheld parents are exactly the folder and those with it among their 20 closest ancestors |
| FolderTree.WithheldParentsCycle | src/App.tsx:1538-1540 | each withheld parent would make a cycle |
| FolderTree.OfferedParentsCycleOnlyWhenDeep | src/App.tsx:1538-1540 | an offered parent makes a cycle exactly if the folder is an ancestor beyond the 20th; never on chains of at most 20 |
| FolderTree.DeepestFolderIsOffered | src/App.tsx:1538-1540 | in any path of more than 20 folders the deepest is offered as parent of the first, and cycles |
| FolderTree.OffersAreSafeExactlyUpToTwenty | src/App.tsx:1538-1540 | in a forest every offered parent of every folder is safe if and only if no folder is more than 20 deep |
| EnvironmentTree.DeleteKeepsForest | src/App.tsx:3562-3564 | environment deletion keeps acyclicity and only removes the deleted one from every chain |
| EnvironmentTree.DeleteKeepsPrivacy | src/App.tsx:3564 | effective privacy of survivors is kept exactly on chains up to 500, and beyond changes exactly under a stated condition on the 501st ancestor |
| DeepEnvironments.DeletingRevealsADeepFlag | src/App.tsx:3564 | in every path of more than 500 environments with only the 501st ancestor private, deleting the parent of the deepest makes the deepest private |
| EnvironmentTree.WalkReadsLineage | src/lib/resources.ts:507-520 | the cycle-guarded walk reads the flags of the first n environments of the chain |
| EnvironmentTree.DeleteKeepsActive | src/App.tsx:3572 | the active id stays an existing one and changes only if it is deleted, to its parent or the first left |
| EnvironmentTree.StateAfter | src/App.tsx:3565-3571 | promoted children of a deleted root own its file state; nobody else's changes |
| EnvironmentTree.DeleteKeepsEffectiveState | src/App.tsx:3565-3571 | every survivor's root holds the same cookies and certificates as its root before |
| EnvironmentTree.DeleteByEditing | src/App.tsx:3551-3574 | the step-by-step edit of the copied file state computes the deletion |
| EnvironmentTree.AddedPrivacyIsInherited | src/App.tsx:3543-3549 | a new sub-environment is effectively private if and only if its parent is |
| EnvironmentTree.AddKeepsState | src/App.tsx:3543-3549 | a new base environment owns a state without cookies and certificates, a sub-environment adds none, other states stay, and the new one is active |
| EnvironmentTree.RunsStaySound | src/App.tsx:3543-3574 | over all runs of additions and deletions: forest, no dangling parents, active id valid, every root owns a state, and nobody else if nobody else did |
| ScriptVariables.MergedScriptVariables | src/App.tsx:171-186 | the imperative merge equals innermost-first lookup in which a layer defines a name or else hides it |
| ScriptVariables.ApplyScope | src/App.tsx:173-176 | one layer: disabled names are deleted before its values are assigned |
| ScriptVariables.RowNamesAreUnique | src/App.tsx:151-164 | written rows have unique names, whatever the old rows were |
| ScriptVariables.RowsKeepIdentity | src/App.tsx:151-164 | a written row has the id of the first old row of its name, and if disabled its value; a new row has a drawn id, and no value if disabled |
| ScriptVariables.RowsInOrder | src/App.tsx:151-164 | the values come first, in order, then the disabled names in the order of their first mention |
| ScriptVariables.RowsReadBack | src/App.tsx:151-164 | enabled rows read back as exactly the values and disabled rows as exactly the disabled names without value |
| ScriptVariables.WritingTwiceChangesNothing | src/App.tsx:151-164 | a second write with the same arguments leaves every row and id unchanged |
| ScriptVariables.WritingTwiceByDefault | src/App.tsx:151-164 | with the default disabled list this holds if and only if the empty name is not among the disabled ones |
| PromptQueue.Prompter.Request | src/App.tsx:1663-1671 | a prompt is displayed if none is, else queued last; no other prompt moves |
| PromptQueue.Prompter.Resolve | src/App.tsx:1673-1680 | the answer goes to the prompt on display and the next in issue order is displayed |
| PromptQueue.Prompter.Stop | src/App.tsx:3107-3111 | every outstanding prompt is cancelled, in order |
| PromptQueue.RunPrompts | src/App.tsx:1663-1680 | over any run prompts are resolved in issue order, at most once; each issued prompt is resolved, displayed or queued according to its number alone; after a stop all are resolved |
| HttpCancellation.StepKeepsInv | src-tauri/src/http_client.rs:162-199 | active and pending stay disjoint, pending holds at most 1,024 ids, every sender belongs to the call in flight under its id |
| HttpCancellation.NothingIsLeftBehind | src-tauri/src/http_client.rs:839-847 | a completed or refused call leaves its id in neither set |
| HttpCancellation.CancelSignalsItsCall | src-tauri/src/http_client.rs:163-171 | cancelling a running call signals its receiver, no other call's, and reports success exactly while that call still races |
| HttpCancellation.RegistrationIsRefusedExactlyWhenCancelled | src-tauri/src/http_client.rs:163-189 | in every run a registration is refused if and only if an earlier cancel of its id found no sender and no flush, registration or completion came in between |
| HttpCancellation.FlushNeedsManyCancels | src-tauri/src/http_client.rs:172-174 | no flush happens before 1,024 cancels have been asked for |
| HttpCancellation.OnlyCancelledCallsAreCancelled | src-tauri/src/http_client.rs:842-845 | in every run a call that has settled as cancelled, or may settle so next, was cancelled after its own registration |
| HttpCancellation.Registry.CancelRequest | src-tauri/src/http_client.rs:163-176 | the in-place update is the cancel step, and the result says whether a racing call heard it |
| HttpCancellation.Registry.RegisterCall | src-tauri/src/http_client.rs:178-189 | the in-place update is the register step; none exactly if the id was pending |
| HttpCancellation.Registry.FinishCall | src-tauri/src/http_client.rs:191-198 | the in-place update is the finish step |
| Netrc.ScanTokens | src-tauri/src/http_client.rs:601-630 | the nested index loops end on every token list and compute the recursive scan |
| Netrc.MachineEntryIsFound | src-tauri/src/http_client.rs:604-630 | on the tokens of any entry list, with keywords as hosts or values allowed, the result has the last login and the last password, by position, of the first machine entry for the host that has both |
| Netrc.DefaultEntryIsFound | src-tauri/src/http_client.rs:604-630 | without one, those of the last default entry that has both |
| Netrc.NothingIsFound | src-tauri/src/http_client.rs:604-630 | without either, what the scan started with |
| Netrc.DanglingKeywordUnsets | src-tauri/src/http_client.rs:614-620 | a login or password keyword at the end of the file, without value, takes back the one its entry had |
| Netrc.NetrcCredentials | src-tauri/src/http_client.rs:594-631 | the whole function is that scan of the white-space separated tokens outside comments |
| Text.SpacesByCode | src-tauri/src/http_client.rs:600 | the characters that separate tokens, and that trimming drops, are those with codes 9 to 13 and 32 |
| Netrc.TokensOfWrittenEntries | src-tauri/src/http_client.rs:595-600 | entries of words without white space, in any layout, read back as their tokens if and only if no word holds a number sign |
| Netrc.WrittenEntriesAreRead | src-tauri/src/http_client.rs:594-631 | what the whole function returns on such a text: login and password of the first complete machine entry for the host, or else of the last complete default entry, or else nothing |
| Netrc.CommentsAreDropped | src-tauri/src/http_client.rs:595-599 | cutting every line at its number sign leaves the tokens alone |
| Netrc.ValuesAreCutAtNumberSigns | src-tauri/src/http_client.rs:597 | the same cut applies inside a value |
| SecretCache.ExternalSecretCache.Lookup | src-tauri/src/external_vault.rs:863-873 | a hit is a value under the key younger than the requested and the maximal age |
| SecretCache.ExternalSecretCache.Store | src-tauri/src/external_vault.rs:875-895 | drops what is an hour old when its clock is read, evicts oldest first and no more than needed, inserts; both bounds hold afterwards |
| SecretCache.ExternalSecretCache.Clear | src-tauri/src/external_vault.rs:899-905 | empties the cache |
| SecretCache.SomethingToEvict | src-tauri/src/external_vault.rs:881-893 | the loop always finds an oldest entry, so its exit for an empty cache is never taken |
| SecretCache.EvictionIsDetermined | src-tauri/src/external_vault.rs:881-894 | with distinct ages the survivors are determined |
| SecretCache.RunsStayBounded | src-tauri/src/external_vault.rs:859-905 | in every interleaving of resolutions at most 256 entries and 20,000,000 bytes |
| SecretCache.HitsAreFresh | src-tauri/src/external_vault.rs:863-873 | in every interleaving a hit was fetched for that key since the last clearing and within the allowed age |
| SecretCache.FetchedIsHit | src-tauri/src/external_vault.rs:863-895 | a stored value is a hit while its age is allowed, until another fetch or a clearing |
| SecretCache.HitsEqualFetches | src-tauri/src/external_vault.rs:860-897 | while secrets keep their values, a hit is what a fetch would return |
| SecretKeys.KeysIdentifyParts | src-tauri/src/external_vault.rs:908-919 | an input without line feeds in its trimmed parts shares its key, among all inputs, exactly with those whose seven trimmed parts agree, the provider in any case of letters |
| SecretKeys.SharedKeysAreOtherCuts | src-tauri/src/external_vault.rs:908-919 | any input shares its key with one of other parts if and only if the lines of its key can be cut into seven parts in another way, each a trimmed line or several lines that begin and end with text, the first in lower case |
| SecretKeys.LineFeedsCollide | src-tauri/src/external_vault.rs:908-919 | for example, a line feed may belong to the reference or to the scope, and two different inputs share a key |
| UriComponents.EncodeIsInjective | cli/externalVault.ts:68-70 | percent-encoded UTF-8 (section 3 of RFC 3629) identifies the text |
| CliSecretCache.KeysIdentifyParts | cli/externalVault.ts:68-70 | two references share a key if and only if provider, reference, scope, field and version agree up to surrounding white space, for all texts |
| Text.TrimIsCore | cli/externalVault.ts:69 | trimming leaves the slice with white space alone outside it and none at its ends |
| Text.CoreIsUnique | cli/externalVault.ts:69 | there is only one such slice |
| Text.LowerCaseIgnoresCase | src-tauri/src/external_vault.rs:911 | texts agree in lower case if and only if they agree letter by letter up to case |
| UriComponents.EncodeReadsBack | cli/externalVault.ts:69 | percent-decoding (section 2.1 of RFC 3986) an encoded text gives its UTF-8 |
| CliSecretCache.ProfiledMeansText | cli/externalVault.ts:114 | a profile field counts if and only if it holds more than white space |
| CliSecretCache.DeletingRemovesOne | cli/externalVault.ts:119 | a deletion removes one entry and keeps the others in order |
| CliSecretCache.SettingChangesOne | cli/externalVault.ts:128 | a set replaces the entry of its key in place, or appends |
| CliSecretCache.Resolver.LookUp | cli/externalVault.ts:117-119 | a fresh entry is returned; a stale one is deleted |
| CliSecretCache.Resolver.Store | cli/externalVault.ts:122-130 | evicts the shortest prefix that makes room and sets the key; both bounds hold afterwards |
| CliSecretCache.Resolver.Resolve | cli/externalVault.ts:113-132 | the order of the profile, approval, cache and fetch outcomes, and what each leaves in the cache |
| CliSecretCache.RunsStayBounded | cli/externalVault.ts:111-132 | in every interleaving at most 256 entries and 20,000,000 bytes, keys distinct |
| CliSecretCache.HitsAreFresh | cli/externalVault.ts:117-118 | in every interleaving a hit was fetched for that key less than half an hour ago |
| CliSecretCache.HitsBelongToTheReference | cli/externalVault.ts:113-132 | in every interleaving a hit was fetched for a reference with the same five parts |
| CliSecretCache.FetchedIsHit | cli/externalVault.ts:117-128 | a stored value is handed out for half an hour, whatever other keys are looked up in between |
| CliCacheOrder.SettingKeepsAgeOrder | cli/externalVault.ts:128 | setting a key to an entry at least as young as all others keeps the map in age order if and only if no older entry follows the key's place |
| CliCacheOrder.ResolvingKeepsAgeOrder | cli/externalVault.ts:117-128 | one resolution keeps any map in age order |
| CliCacheOrder.RunsEvictOldestFirst | cli/externalVault.ts:117-128 | over every run of resolutions that do not overlap, with a clock that does not go back, the map is in age order, so eviction is oldest first |
| CliCacheOrder.OverlapsLoseAgeOrder | cli/externalVault.ts:117-128 | a run of overlapping resolutions that reaches a map with its younger entry first |
| TestRunner.RunTests | cli/brunomnia.ts:902-970 | the nested loops give the full run, cut after the first exhausted test when bailing, and report bailing exactly then |
| TestRunner.RunTest | cli/brunomnia.ts:908-967 | the attempt loop of one test appends exactly its attempts |
| TestRunner.ResultsAreSegments | cli/brunomnia.ts:902-970 | each matching test contributes attempts 1..k, k at most retries + 1, all but the last failing, the last passing or the last allowed; only a bail run omits tests, after its only exhausted one |
| TestRunner.ResultsTellOutcomes | cli/brunomnia.ts:917-966 | every result tells the outcome of its attempt, executed after all before it: passed if and only if nothing was thrown, a test reported, and none failed |
| TestRunner.BailRunIsPrefix | cli/brunomnia.ts:963-966 | with the same outcomes the bail run's results are a prefix of the full run's |
| TestRunner.SlotsAreTheMatches | cli/brunomnia.ts:903-907 | the tests executed are exactly the matching ones of every iteration |
| TestRunner.SlotsAscend | cli/brunomnia.ts:903-907 | in order, each once |
| TestRunner.CountsAddUp | cli/brunomnia.ts:971-987 | passed and failed are the numbers of results that passed and did not, together the total; the matched tests are those of all attempts |
| GgufDecoding.RunInference | src-tauri/src/gguf.rs:420-496 | tokens fed, tokens sampled, stopping and text equal plain generation, on every error path up to the error; a finished output exceeds 10 MB by at most four bytes, and stays within if and only if the flushed bytes fit into what the text leaves |
| GgufDecoding.OverflowingGeneration | src-tauri/src/gguf.rs:471-495 | for every admissible prompt, a generation of one token whose text fills the limit exactly and is flushed beyond it |
| GgufDecoding.FlushExceedsTheLimit | src-tauri/src/gguf.rs:471-495 | with that model the decoding ends well with more than 10 MB |
| GgufDecoding.DecodePrompt | src-tauri/src/gguf.rs:430-444 | the prompt goes out in batches of 1 to 512 with contiguous positions and one output, for its last token |
| GgufDecoding.GenerationIsAutoregressive | src-tauri/src/gguf.rs:455-491 | each token is sampled after everything before it, up to the first end token or the limit |
| GgufDecoding.PositionsAreContiguous | src-tauri/src/gguf.rs:430-491 | feed i has position i below 8,192; at most 4,096 tokens are generated; outputs are asked for the last prompt token and each fed generated one only |

## Left out

- Transport, TLS, processes, files and clocks: remote replies, file contents, fetched secrets, times and script outcomes are parameters of the models.
- Tokens of gRPC sessions are fresh numbers instead of random UUIDs; that two drawn UUIDs differ is taken for granted. Identifiers drawn for new rows and example fields are parameters.
- Lengths of ids and names count characters; the program counts bytes of UTF-8. White space is ASCII white space.
- gRPC event payloads other than texts, status codes and errors (status metadata, call types, durations).
- Parsing of reference strings out of documents (YAML, URL decoding) and the final normalisation of collected files (`normalizeApiDesignSourceFiles`); the search stops before it.
- IPv6 zone identifiers, which the recogniser of the platform accepts after a percent sign.
- HostClassifier.CliDependsOnGroups: does not model the platform's recogniser of IPv6 text; a text counts as IPv6 if it is a rendering of the grammar.
- Requests without a cancellation id, which never touch the registry.
- HTTP cancellation with the same id twice in flight: the second registration replaces the sender, and the completion of one removes the other's.
- HttpCancellation.Registry.CancelRequest: does not model the locks, which make each of the three operations one step.
- CliSecretCache.Resolver.Resolve: the external call, its argument checks and its failure are one optional value.
- Order of unit tests inside a suite (`orderedUnitTests`) and the name pattern: the model takes the ordered tests and a predicate. Clamping of iteration and retry counts.
- GgufDecoding.RunInference: the sampler is a function of the decoded tokens; its random state is not modelled separately.
- Environment names, colours and variables, and secrets removed from the vault with a deleted environment. Reparenting an environment, which does not touch file states.
- Scheduled sends, response history, request tabs, workspace moves, report redaction, update channels, provider pagination and plugin storage: they hold no property over whole runs.
