# Proofs for an agent workspace and its night shifts

A Dafny model of the parts of the program where being subtly wrong would be worst: the patch that is
shown for approval, the edits that are replayed on a changed file, the protocol several processes follow
around one virtual machine, the byte streams between hosts, guests and workers, and the loops that a
model drives. Every theorem is about all inputs, all schedules and all faults of the model. `dafny verify
dfyconfig.toml` checks the whole project.

## How it is laid out

| file | what it models |
|---|---|
| `Text`, `Wrappers`, `SortedPaths`, `Base64`, `Opcodes` | lines, decimal numbers, Python string order, RFC 4648 base64, alignments of two sequences |
| `UnifiedDiff`, `HunkShape`, `PatchReader`, `PatchRoundTrip` | grouping and printing of a unified diff, the shape of its hunks, the reader and applier of patches (the specification), and the round trip of one file |
| `Snapshots`, `Utf8Text`, `FilePolicy`, `SnapshotCodec` | the workspace file policy, what it lets through in terms of text and path components, and the canonical snapshot text with its decoder |
| `ReviewPatch`, `PatchReading`, `PatchReplay` | the review patch builder, what its text reads back as, and its replay in any order |
| `EditScripts`, `ChangeMap`, `Editing`, `ThreeWayMerge`, `SurvivingBlocks`, `RebaseLimits` | change scripts and their merge, the two-level change map, the edit store, the rebase theorem, exactly when an edit rewrites the block it was meant for, and inputs on either side of that line |
| `Preparation`, `PreparationSafety`, `PreparationProgress`, `LiveCreation` | attach, launch and retire as small file-system steps by any number of callers, with crashes and cleared locks; and the unguarded creation of the VM running beside them |
| `SerialPipe` | the overlapped pipe and its quarantine |
| `JsonBounds`, `FrameEndpoint` | the depth/node/weight check of JSON values, and the framed message endpoint |
| `WorkerReports`, `NativeWorker`, `KernelCapture`, `DenialRecords` | a worker's report stream, the owner of the worker process, the kernel log interval with the correlator that reads it, and the grammar and meaning of one audit line |
| `InferenceGateway`, `ModelExecutor`, `AgentLoop` | the gateway's transcript rules, the worker's model loop, and the interactive agent's loop with its fail-fast batches |
| `ToolTransfer`, `ReviewBundles` | chunked transfer against an untrusted guest, and the write-ordered review bundle |

## Conventions

- Bytes are characters below 256 in a `string`; the functions that care say so with a `Bytes` type or a
  UTF-8 predicate. Times are whole units or reals; a clock is an arbitrary sequence of outcomes, and how many
  looks at it still find time left is arbitrary too (the `looks` and `left` counters), which is also why loops end.
- What cannot be seen from the program is a parameter or an arbitrary choice. `difflib.SequenceMatcher` is any
  function that returns valid alignments. SHA-256 is any function with the right shape of result. The JSON library
  is a printer and a parser of which a round trip on canonical values is assumed, in the hypotheses named
  `Faithful`. Operating-system calls succeed, fail or fault as they like; what the system demands of its callers
  is a precondition of the modelled call, so verifying the caller proves it keeps to them.
- An exception is an error value. Where the code raises and latches a failure, the latch is a field.
- JSON objects are kept in canonical form (keys in order, once each), which is what a parser that refuses
  duplicate keys yields up to the order of keys.

## Where the code and its promise part

- `editing/store.py:649` counts matches without overlaps, and `editing/store.py:339` tests the diff of the proposal
  against the file's, not its find-blocks. So an edit that passes can be replayed at the wrong place: a find-block that
  overlaps itself (`RebaseLimits.SelfOverlapGoesWrong`), or context that the file dropped and regained elsewhere
  (`RebaseLimits.MovedBlockGoesWrong`, where the merge that is missed is `ZC--AB`). `SurvivingBlocks.RewritesExactly`
  is the exact condition for one edit: no change of the file reaches into the block - insertions at its ends are no
  matter, as `RebaseLimits.TouchedBlockGoesRight` shows - it is counted once, and the leftmost match is where it has moved to.
- The guard of attach, launch and retire is there so that no stale manifest overwrites a later one
  (`night_shifts/ubuntu_preparation_retirement.py:141-142`), but `create_image_preparation_vm` stores its manifest without it. A VM
  retired while its creation is still going on can end up as created (`LiveCreation.RetiredThenCreated`). The status
  goes back if and only if creation replaces a manifest that a retirement has marked (`LiveCreation.SteadyExactly`);
  it never does when retirements wait for creation to be over (`LiveCreation.PatientIsSteady`), and no host script is
  called out of turn in any case.
- `core/agent.py:706-741` asks the model again after an invalid response, but `core/agent.py:270-281` takes every invalid response for an
  empty one first, so it is answered as empty: no step of the loop ends with the error for invalid responses
  (`AgentLoop.Agent.Step`).
- `night_shifts/snapshot.py:134` refuses an encoding over 4 MiB. No snapshot within the file policy comes near it.

## Model

| member | source | states |
|---|---|---|
| Text.SplitOfJoin | night_shifts/review_patch.py:42-49 | splitting on LF alone undoes joining: the lines of a text are the only ones that join to it, with or without a final newline |
| Text.SplitInjective | night_shifts/review_patch.py:48-49 | two texts with the same lines are the same text |
| UnifiedDiff.GroupedCovers | night_shifts/review_patch.py:130-135 | for every valid alignment, grouping with three lines of context loses nothing: what lies between and around the hunks is equal on both sides |
| HunkShape.HunksTight | night_shifts/review_patch.py:130-135 | for every alignment whose unchanged stretches are whole, as difflib's are, every hunk holds a change, begins and ends with at most three kept lines, and has no more than six in a row |
| PatchRoundTrip.FileHunksRoundTrip | night_shifts/review_patch.py:126-139 | for every alignment, one file's printed hunks (ranges, context, no-newline markers) read back as themselves, and applied to the old content give the new content byte for byte |
| PatchRoundTrip.ApplyHunksOfGroups | night_shifts/review_patch.py:130-135 | applying the hunks in order rebuilds the new lines from the old ones, gaps included, at the line numbers the ranges claim |
| PatchReading.ReadOfPatchText | night_shifts/review_patch.py:116-139 | the whole patch text, headers of all kinds of change included, parses to exactly one file patch for each changed path |
| ReviewPatch.AppendDiff | night_shifts/review_patch.py:83-87 | the byte limit is exact: output is either everything within the limit or a refusal |
| ReviewPatch.WriteEntries | night_shifts/review_patch.py:89-139 | the loop over the paths writes the specified text and inventory, or refuses exactly when a change is unrepresentable or the limit is passed |
| ReviewPatch.InventoryExactly | night_shifts/review_patch.py:89-115 | the inventory lists exactly the changed paths, each once and in order, as added, deleted, modified or changed in mode only, with digests and modes of both sides |
| ReviewPatch.RefusalExactly | night_shifts/review_patch.py:42-107 | a change is refused exactly when it makes or removes an empty file, or alters one that has a carriage return with no line feed behind it |
| ReviewPatch.BuildReviewPatch | night_shifts/review_patch.py:52-141 | the builder accepts exactly the specified inputs and then returns the specified patch, digests and inventory |
| SortedPaths.Sort | night_shifts/review_patch.py:89 | sorting yields every path once in string order |
| SortedPaths.SortedUnique | night_shifts/review_patch.py:89 | there is only one such order, so the patch is a function of the two file sets |
| PatchReplay.MixedPrefixFree | night_shifts/review_patch.py:72-78 | with swaps refused, taking any subset of the changes leaves no file that is also a directory |
| PatchReplay.ReplayInAnyOrder | night_shifts/review_patch.py:72-139 | when no path is added over another, the file patches read back and applied in any order give exactly the final files, and between trees without file/directory conflicts every tree on the way is without them |
| PatchReplay.AcceptedPatchReplays | night_shifts/review_patch.py:52-141 | whenever the builder accepts, reading the patch and applying it to the base, in any order, yields exactly the final workspace: paths, modes, bytes |
| PatchReplay.SwapsAddOver | night_shifts/review_patch.py:72-78 | refusing swaps both ways keeps every path from being added over another, and between trees without file/directory conflicts refuses nothing else |
| PatchReplay.EveryOrderExactly | night_shifts/review_patch.py:72-139 | the file patches read back from the text apply in every order if and only if no path is added over another; between trees without file/directory conflicts, if and only if there is no swap either way |
| PatchReplay.EmptyPatchMeansNoChange | night_shifts/review_patch.py:63 | a patch is empty exactly when nothing changed |
| Base64.DecodeOfEncode | night_shifts/snapshot.py:131 | strict decoding undoes encoding for all byte strings |
| Snapshots.FilesValid | night_shifts/snapshot.py:77-96 | the loop with its running set and total accepts exactly the file sequences within the policy |
| Snapshots.Utf8Cut | night_shifts/review_patch.py:45-49 | cutting valid UTF-8 behind an LF leaves two valid parts, so splitting bytes at LF is splitting the decoded text |
| Utf8Text.Utf8Exactly | night_shifts/snapshot.py:90-93 | a byte string passes as UTF-8 exactly when it is the encoding of a sequence of Unicode scalar values (RFC 3629) |
| FilePolicy.PathExactly | night_shifts/snapshot.py:59-65 | a path passes exactly when it is at most 240 characters of components joined by slashes, each of 1 to 100 plain characters, not ending in a dot, not a device name with or without extension and not .git, in any case of letters |
| FilePolicy.ContentExactly | night_shifts/snapshot.py:86-93 | contents pass exactly when they are the encoding of a text within the size limit, without a NUL and without the large-file pointer at the front |
| ReviewPatch.WorkspaceIsTree | night_shifts/snapshot.py:99-112 | two valid final workspaces with the same paths, modes and contents are the same sequence of files |
| SnapshotCodec.DecodeOfEncode | night_shifts/snapshot.py:115-170 | decoding an accepted encoding gives the snapshot back |
| SnapshotCodec.DecodeIsCanonical | night_shifts/snapshot.py:168-169 | whatever decodes is the encoding of what it decodes to |
| SnapshotCodec.DecodeExactly | night_shifts/snapshot.py:139-170 | a text decodes to a snapshot if and only if it is that snapshot's encoding |
| SnapshotCodec.SizeCheckNeverFires | night_shifts/snapshot.py:133-136 | encoding fails on policy grounds only: within 64 files and 2 MiB the text stays under three quarters of the limit |
| SnapshotCodec.DecodeSnapshot | night_shifts/snapshot.py:153-170 | the loop over the file records, with its early failures, computes the decoding of the theorems above |
| EditScripts.OverlapExactly | editing/store.py:632-641 | two spans count as overlapping exactly when they share a character, or one is an insertion that lies in or at an end of the other |
| EditScripts.MergeValid | editing/store.py:632-641 | two valid scripts whose changes can be told apart, though they may touch, merge into one valid script |
| EditScripts.MergeAssociative | editing/store.py:632-641 | merging scripts that can pairwise be told apart does not depend on grouping |
| EditScripts.EitherOrder | editing/store.py:632-641 | two scripts whose changes can be told apart, as all that pass the overlap test can, are applied in either order, shifted, with one result |
| EditScripts.Locate | editing/store.py:644-660 | a stretch that no change reaches into survives in the changed text, and replacing it there is replacing it in the merge |
| ChangeMap.LineOffsets | editing/store.py:603-608 | every line's offset is the length of the lines before it, end of file included |
| ChangeMap.CharacterChangedSpans | editing/store.py:611-629 | the refined spans are those of a script for the block, whole when the block is too large |
| ChangeMap.ChangedSpans | editing/store.py:571-600 | the two-level loop lists exactly the spans of the change script |
| ChangeMap.ChangedScriptApplies | editing/store.py:571-600 | whatever valid alignments are picked on both levels, the spans are sorted, disjoint and in bounds, and outside them original and modified agree |
| Editing.AnyOverlap | editing/store.py:564-568 | true exactly when some pair of spans overlaps |
| Editing.ChangesOverlap | editing/store.py:560-568 | true exactly when the two change scripts have an overlapping pair |
| Editing.EditStore.Propose | editing/store.py:42-74 | a proposal holds the content the edits give in memory under a fresh number; a failing edit stores nothing; the file is untouched |
| Editing.EditStore.ProposeReplace | editing/store.py:100-140 | a whole-file proposal is refused for a missing file or identical content, and else stored without touching the file |
| Editing.EditStore.Approve | editing/store.py:313-369 | a pending edit on an unchanged file is written as proposed; on a changed one a whole-file proposal is refused, and edits are replayed on the current content if the diffs do not meet; every refusal changes nothing |
| Editing.EditStore.Reject | editing/store.py:447-462 | rejecting decides a pending edit once and touches no file |
| Editing.CountedIsFound | editing/store.py:649-660 | a find-block is counted at all exactly when it occurs |
| ThreeWayMerge.AppliesAtIntendedPlace | editing/store.py:644-660 | a replacement lands where it was meant to, for all replacement texts, exactly when the find-block is counted once and its leftmost match is the intended one |
| ThreeWayMerge.OnceIsCountedOnce | editing/store.py:649 | a block that occurs once, overlaps counted, is counted once and found there |
| ThreeWayMerge.ProposalIsScript | editing/store.py:54-58 | the proposal itself is its edits applied at their places of the original, when each is counted once and found first there in its turn |
| ThreeWayMerge.UnchangedIsScript | editing/store.py:328-362 | on an unchanged file, approving such a proposal writes the original with that script applied |
| ThreeWayMerge.RebaseIsThreeWayMerge | editing/store.py:328-362 | when the file's changes leave the find-blocks whole and each, in its turn, is counted once and found first at its own place, approval writes the three-way merge, or refuses for overlapping diffs and nothing else |
| ThreeWayMerge.OnceEachIsEnough | editing/store.py:649-660 | blocks that occur once each, overlaps counted, are counted once and found first at their own places |
| ThreeWayMerge.RebaseEitherWay | editing/store.py:328-362 | the same text comes of rebasing the file's changes onto the proposal |
| ThreeWayMerge.SingleEditExactly | editing/store.py:644-660 | one edit whose block the file's changes leave whole is merged correctly, for all replacements, if and only if its block is counted once and leftmost at the intended place |
| SurvivingBlocks.OriginsTell | editing/store.py:571-600 | every character of a changed text that is traced to the original is the original's character there |
| SurvivingBlocks.RewritesExactly | editing/store.py:644-660 | the stretch a replayed edit rewrites, for all replacements, is the very block it was meant for, if and only if the file's changes leave that block whole, it is counted once, and the leftmost match is where it has moved to |
| SurvivingBlocks.RewritingMerges | editing/store.py:328-362 | and the text is then the three-way merge of the file's changes and the replacement |
| SurvivingBlocks.EmptyBlock | editing/store.py:644-660 | an empty find-block is taken exactly in an empty file, and replaces it |
| RebaseLimits.SelfOverlapGoesWrong | editing/store.py:649 | a concrete original, file and edit for which a self-overlapping block, left whole by the file, is not the one that is rewritten |
| RebaseLimits.MovedBlockGoesWrong | editing/store.py:339-353 | a concrete edit that passes the overlap test, whose block the file has not left whole, and which rewrites text that was not in the original instead of giving the merge |
| RebaseLimits.TouchedBlockGoesRight | editing/store.py:339-353 | a concrete edit whose block an insertion of the file only touches, and which is rewritten as meant |
| PreparationSafety.NextKeeps | night_shifts/ubuntu_preparation_launch.py:227-280 | every step of every caller, crash or cleared lock keeps the protocol's invariant, never lowers the manifest's rank and never forgets an event |
| PreparationSafety.ScriptsAreSafe | night_shifts/ubuntu_preparation_retirement.py:140-196 | over all interleavings with crashes anywhere, each host script runs at most once, neither attach nor launch runs after a retire claim, and a retirement after a launch names the launched VM |
| PreparationSafety.RankNeverFalls | night_shifts/ubuntu_image_preparation.py:91-113 | the durable manifest's status only rises along any run that begins when creation is over |
| PreparationSafety.ChangesAreTransitions | night_shifts/ubuntu_preparation_launch.py:227-280 | on every run each change of the manifest is one of six, made by a caller of its kind: attach from created, launch from attached with its own VM and claim, retirement from the very status its record names and with the launch claim that belongs to it, and each from its unknown status to its final one |
| LiveCreation.OnwardKeeps | night_shifts/ubuntu_image_preparation.py:178-205 | beside a creation that is still going on, every act of creation, caller or operator keeps the protocol's invariant, and the status goes back at exactly the acts that put the created manifest over one a retirement has marked |
| LiveCreation.SteadyExactly | night_shifts/ubuntu_image_preparation.py:178-205 | over a whole run the status never goes back if and only if creation never puts its manifest over one that a retirement has marked |
| LiveCreation.PatientIsSteady | night_shifts/ubuntu_preparation_retirement.py:140-165 | it never goes back when no retirement of a VM still provisioning begins before creation has returned, failed or died |
| LiveCreation.ScriptsAreSafeBesideCreation | night_shifts/ubuntu_preparation_retirement.py:140-196 | on every run beside a creation, overtaken or not, each host script runs at most once and nothing but the retirement after a retire claim |
| LiveCreation.RetiredThenCreated | night_shifts/ubuntu_image_preparation.py:201-202 | from every beginning creation with such a retirement there is a run in which the VM is retired and then counts as created |
| PreparationSafety.CalledMeansRecorded | night_shifts/ubuntu_preparation_launch.py:238-280 | at every point of every run a script that was called has left its unknown status or a later one in the manifest, and a launch its GUID and plan digest in the claim |
| PreparationSafety.OneAtATime | night_shifts/ubuntu_preparation_safety.py:31-75 | at most one caller is past the guard, even when dead holders' locks are cleared |
| PreparationProgress.LifecycleCompletes | night_shifts/ubuntu_seed_attachment.py:93-176 | from a created VM there is a run in which attach, launch and retire all finish and leave the manifest retired, with no lock or pending file: the safety above is not bought by refusing everything |
| PreparationProgress.RetiresFromAnywhere | night_shifts/ubuntu_preparation_retirement.py:134-196 | from every reachable state with no guard, pending file or retire claim and a status before retirement, wherever callers have died, there is a run that retires the VM, unless a launch claim is left over from a launch that was never marked |
| PreparationProgress.LeftoverClaimEnds | night_shifts/ubuntu_preparation_retirement.py:85-107 | and with such a claim left over no run changes the manifest or calls a script any more |
| PreparationProgress.LaunchLeavesClaim | night_shifts/ubuntu_preparation_launch.py:227-255 | which does happen, to a launch that dies right behind its claim |
| SerialPipe.BoundedPipe.Connect | night_shifts/serial_pipe_io.py:259-276 | an attempt ends with an open idle pipe, a fully released one or a quarantined one, and the result tells which; only a missing or busy other end is tried again |
| SerialPipe.BoundedPipe.Transfer | night_shifts/serial_pipe_io.py:330-373 | one operation under every fault of every call: a write confirms nothing or a beginning of its payload, exactly as long as reported on success; a read returns the next bytes the kernel delivered, or nothing at the end of the stream; payload and pipe are kept while the kernel may use them |
| SerialPipe.BoundedPipe.ReleaseEvent | night_shifts/serial_pipe_io.py:375-381 | the event and buffer go only when nothing is submitted |
| SerialPipe.BoundedPipe.Dispose | night_shifts/serial_pipe_io.py:396-434 | what is in flight is cancelled once, and disposal releases everything for certain or quarantines the pipe |
| SerialPipe.BoundedPipe.Read | night_shifts/serial_pipe_io.py:310-314 | a normal return is exactly the next piece the kernel delivered, empty only for an empty completion or an end-of-stream code; afterwards the pipe is open and idle, released, or quarantined |
| SerialPipe.ReadsAreStream | night_shifts/serial_pipe_io.py:310-373 | over any number of normal reads what they return is the delivered stream: nothing lost, repeated or reordered |
| SerialPipe.BoundedPipe.WriteAll | night_shifts/serial_pipe_io.py:316-328 | the confirmed bytes are a prefix of the data in order and in pieces of at most 64 KiB; a normal return means all of them |
| SerialPipe.BoundedPipe.Close | night_shifts/serial_pipe_io.py:389-394 | closing, from the owner's thread only, releases the pipe or quarantines it; it may also settle a quarantined one |
| SerialPipe.ConfirmedNext | night_shifts/serial_pipe_io.py:316-373 | a short write of the next piece extends the confirmed prefix by exactly what was confirmed |
| JsonBounds.TakeApart | night_shifts/maintenance_tls_prototype.py:66-88 | popping an item and pushing its children keeps depth, node count and weight accounted for |
| JsonBounds.Tree | night_shifts/maintenance_tls_prototype.py:61-99 | the stack loop with its running counters accepts exactly the values within the recursive bounds on depth, nodes, weight and scalars |
| FrameEndpoint.SizeOfPrefix | night_shifts/maintenance_tls_prototype.py:321 | the four length bytes read back as the length for every frame size |
| FrameEndpoint.StreamGrows | night_shifts/maintenance_tls_prototype.py:296-323 | queueing a message appends its frame to the stream and disturbs none before it |
| FrameEndpoint.VerdictStands | night_shifts/maintenance_tls_prototype.py:325-353 | against any peer, a refusal or delivery does not depend on how the stream was cut into reads |
| FrameEndpoint.DeliveredExactly | night_shifts/maintenance_tls_prototype.py:325-353 | against any peer, a payload is delivered as message n if and only if the buffer begins with a big-endian length and a body that is the envelope of this attempt, VM, sender, operation, version and number around it, within the limits |
| FrameEndpoint.RefusedExactly | night_shifts/maintenance_tls_prototype.py:333-351 | and every other whole frame is refused for its value, its binding or its sequence, each exactly when that is the first thing amiss |
| FrameEndpoint.WaitingExactly | night_shifts/maintenance_tls_prototype.py:325-332 | with its size there, a frame is awaited exactly while some more bytes would make it whole, and refused for its size exactly when none can |
| FrameEndpoint.HonestFrames | night_shifts/maintenance_tls_prototype.py:325-353 | no frame an honest peer queued is refused; a whole one is delivered as the payload queued |
| FrameEndpoint.SessionBegins | night_shifts/maintenance_tls_prototype.py:296-353 | a receiver that reads any part of what its peer has sent follows the peer's queue |
| FrameEndpoint.Endpoint.Fail | night_shifts/maintenance_tls_prototype.py:185-191 | the first failure is the one kept, and buffers are dropped |
| FrameEndpoint.Endpoint.Step | night_shifts/maintenance_tls_prototype.py:263-294 | with arbitrary partial writes what has gone out stays a prefix of the queued frames, and the rest stays pending; only a handshake with the pinned peer makes the session ready |
| FrameEndpoint.Endpoint.QueueMessage | night_shifts/maintenance_tls_prototype.py:296-323 | a payload is taken exactly when it is sendable, in a ready session with nothing pending; otherwise only the surroundings can be the cause |
| FrameEndpoint.Endpoint.Pop | night_shifts/maintenance_tls_prototype.py:325-353 | pops exactly the verdict on the buffer; without a whole frame there is still room to read |
| FrameEndpoint.Endpoint.ReceiveMessage | night_shifts/maintenance_tls_prototype.py:355-383 | over any cutting of an ordered stream, against any peer, what is returned and what a frame is refused for are the verdict on the whole stream, and none of it is lost; payloads from an honest peer are a prefix of those queued, its frames are never the reason of a failure, and every read asks for at least one byte |
| WorkerReports.DrainPlus | night_shifts/bootstrap_native_supervision.py:163-175 | taking lines early or late is the same: later bytes change no verdict on earlier lines |
| WorkerReports.LineExactly | night_shifts/bootstrap_native_supervision.py:177-209 | exactly two kinds of line are accepted, ready before the gate and one reportable outcome after it, each with exactly its keys and for this case, mode and process; what is recorded is what the line tells |
| WorkerReports.LineRefused | night_shifts/bootstrap_native_supervision.py:177-209 | any other line is refused for the first thing amiss: its shape, its identity, its order, or what it reports |
| WorkerReports.HonestReport | night_shifts/bootstrap_native_supervision.py:155-209 | an honest worker's two lines, however they are cut into reads, leave the session ready for the gate and then with exactly the outcome told |
| WorkerReports.CutsDoNotMatter | night_shifts/bootstrap_native_supervision.py:155-175 | a report cut into any non-empty pieces is accepted exactly when it is accepted whole, and leaves the same state |
| WorkerReports.ConclusiveIsValid | night_shifts/bootstrap_native_supervision.py:267-282 | what a finished session reports is valid for pairing, except for the pool control, which never is |
| WorkerReports.ValidLocalExactly | night_shifts/bootstrap_native_supervision.py:227-282 | and the pairing accepts nothing that a session of that case, mode and process could not have concluded |
| WorkerReports.WorkerReportSession.Feed | night_shifts/bootstrap_native_supervision.py:155-175 | the buffer loop computes the pure feeding above, or stops for a latched reason |
| WorkerReports.WorkerReportSession.MarkGateReleased | night_shifts/bootstrap_native_supervision.py:211-216 | the gate opens only after ready, once, with nothing else reported |
| WorkerReports.WorkerReportSession.EndOfReports | night_shifts/bootstrap_native_supervision.py:218-225 | the stream may end only after the gate, on a line boundary, once |
| WorkerReports.WorkerReportSession.FinishExit | night_shifts/bootstrap_native_supervision.py:227-264 | succeeds exactly on runs ordered ready, gate, at most one result, end, exit, with the one conclusive outcome of that kind of worker, and reports that outcome; a confined worker that got through is the only reason for the label that says so |
| NativeWorker.NativeWorkerOwner.Acquire | night_shifts/bootstrap_native_owner.py:163-227 | a failed acquisition leaves no descriptor open and keeps a child it could not reap; a successful one has a session that expects the very child it spawned |
| NativeWorker.NativeWorkerOwner.ReleaseGate | night_shifts/bootstrap_native_owner.py:302-315 | the gate byte is written at most once, from the ready phase, after a read found the report pipe empty and the session agreed |
| NativeWorker.NativeWorkerOwner.Hear | night_shifts/bootstrap_native_owner.py:282-293 | whatever a read of the report pipe brought is handed to the session, and nothing else: after it the session has been fed exactly what was read |
| NativeWorker.NativeWorkerOwner.ObserveExit | night_shifts/bootstrap_native_owner.py:338-357 | success means the session is finished, the exit judged is the one last seen, and the exited child is still unreaped |
| NativeWorker.NativeWorkerOwner.Reap | night_shifts/bootstrap_native_owner.py:359-379 | the consuming wait is tried at most once; unless it told exactly what was observed the child stays kept and its lifetime unknown |
| NativeWorker.NativeWorkerOwner.ReapAfterCapture | night_shifts/bootstrap_native_owner.py:381-388 | success means the wait told the observed exit, the child is reaped and every descriptor was closed once |
| NativeWorker.NativeWorkerOwner.Abort | night_shifts/bootstrap_native_owner.py:390-440 | one clean-up: nothing stays open; a child found running is signalled once if it has its own descriptor, and never otherwise; success means the wait told the exit last seen; a second call does nothing |
| KernelCapture.StrictIsRead | night_shifts/bootstrap_native_capture.py:30 | every line the capture's grammar accepts, the correlator's grammar reads with the same body |
| KernelCapture.HeaderExactly | night_shifts/bootstrap_native_capture.py:30-133 | the capture takes exactly the records printed as three numbers in range, a dash and one printable line, that do not tell of lost messages in any case of letters |
| KernelCapture.OldHeaderExactly | night_shifts/bootstrap_native_capture.py:34-133 | and before the baseline also continued and longer ones, under the same numbers and the same silence about loss |
| KernelCapture.CapturedInPlace | night_shifts/bootstrap_native_capture.py:122-133 | a record the capture lets in satisfies the correlator's header, range, sequence and time checks |
| KernelCapture.InOrderSnoc | night_shifts/bootstrap_native_capture.py:264-273 | a next record in sequence and in time extends a correlatable run, whenever the interval ends later |
| DenialRecords.ParseFields | night_shifts/bootstrap_native_denials.py:53-67 | the loop that advances a position and fills the dictionary computes the fields of the line, and refuses a malformed, repeated or unprintable one |
| DenialRecords.FieldsOfPrinted | night_shifts/bootstrap_native_denials.py:25 | distinct fields printed quoted or bare, in any mix and with or without a trailing blank, parse back to the same dictionary |
| DenialRecords.ParsedIsPrinted | night_shifts/bootstrap_native_denials.py:25-67 | and every text that parses is the printing of some such fields |
| DenialRecords.PrintedLineIsJudged | night_shifts/bootstrap_native_denials.py:116-144 | a line in the kernel's audit format, values quoted or bare, is judged by its fields and serial alone, whatever its time stamp |
| DenialRecords.DenialExactly | night_shifts/bootstrap_native_denials.py:110-144 | of all bodies, those taken for the worker's denial with a serial are exactly the kernel-origin lines printed from distinct fields, quoted or bare, that name its pid and have every required value |
| DenialRecords.UnrelatedExactly | night_shifts/bootstrap_native_denials.py:116-132 | those passed over are exactly the ones without any mark of an audit line, and the kernel's own well-formed lines that name another process |
| DenialRecords.ImproperExactly | night_shifts/bootstrap_native_denials.py:116-144 | so that a marked body that is neither refuses the interval: forged, malformed, or of the worker with any value amiss |
| DenialRecords.CorrelateLocalDenial | night_shifts/bootstrap_native_denials.py:70-147 | success means exactly one record of a complete interval shows the denial, and it is the one returned; on a correlatable interval a refusal is about the records' meaning |
| KernelCapture.OneDenial | night_shifts/bootstrap_native_denials.py:145-147 | a single match comes from a single record |
| KernelCapture.Correlate | night_shifts/bootstrap_native_denials.py:92-147 | success is only for an interval with 1 to 64 records in sequence, in time and in bounds; on a correlatable interval with records the loop judges nothing but their meaning and finds the one denial; on any other it refuses |
| KernelCapture.NativeKernelCapture.Baseline | night_shifts/bootstrap_native_capture.py:210-229 | the baseline is the number of the very last record before the cursor, with room for a capture behind it, and what came before it is within bounds and without a gap in number or time |
| KernelCapture.NativeKernelCapture.Finish | night_shifts/bootstrap_native_capture.py:231-278 | a finished interval is exactly the records between the baseline and a cut preceded by 100 ms of empty reads, none of them tells of lost messages, and it meets every check of the correlator but being non-empty |
| InferenceGateway.CheckMessages | night_shifts/inference.py:237-260 | the loop with its running set and total accepts exactly the transcripts within the size limit |
| InferenceGateway.ValidCallsExactly | night_shifts/inference.py:290-305 | the calls that count as well-formed are exactly those to allowed tools with an object of at most 256 KiB and an id of 1 to 128 plain characters |
| InferenceGateway.TranscriptSnoc | night_shifts/inference.py:237-258 | a message that fits what came before, with call ids unused so far, extends a transcript |
| InferenceGateway.RepeatedEarly | night_shifts/inference.py:246-248 | ids that are distinct in all of a transcript are distinct in each of its beginnings, also within a message |
| InferenceGateway.Gateway.Infer | night_shifts/inference.py:185-196 | only admissible requests reach the model, only checked responses come back, with permitted calls under ids of their own, and the request count is exact |
| ModelExecutor.ValidResponse | night_shifts/executor.py:217-249 | accepts exactly well-formed calls to allowed tools whose ids were never seen |
| ModelExecutor.RoundEnds | night_shifts/executor.py:139-170 | a whole round leaves every call followed at once by its own answer, in order |
| ModelExecutor.MediatedModelExecutor.InvokeAll | night_shifts/executor.py:139-170 | the calls are invoked in order up to a stop, and a completed round adds the calls and, for each, what its own tool returned |
| ModelExecutor.MediatedModelExecutor.Execute | night_shifts/executor.py:81-204 | for every model and every tools, each request is the prompts and then, turn by turn, the model's own reply and what the tools returned; it is a sound transcript, turns and invocations stay within their limits, every invoked call is permitted and no id is invoked twice, a gateway with room never refuses for the messages; a run that ends well ends on the last reply, blocked exactly for a stated reason, with its stripped text and the counts of what was asked, invoked and failed |
| ModelExecutor.DefaultsFit | night_shifts/inference.py:33-44 | the default limits of both sides leave that room |
| AgentLoop.Agent.ExecuteBatch | core/agent.py:438-472 | every call of a batch gets a record, in order; what was executed is a prefix within the batch limit, successful but perhaps at its last call, and only a failure or the limit cuts it short |
| AgentLoop.Agent.AppendRound | core/agent.py:320-368 | after a batch, stopped or not, the transcript has one answer for each call, in order and with its id |
| AgentLoop.Agent.TakeCalls | core/agent.py:745-851 | a round of calls adds exactly one such batch, and in native mode what was observed of each call, skipped or not, is what its answer says |
| AgentLoop.Agent.Step | core/agent.py:515-862 | whatever model and tools do, the transcript keeps every call answered at once, nothing said or executed is taken back, the model is asked at most 10 and tools are run at most 100 times; the ending is told by the replies: a non-empty final text, a failed request, unreadable arguments, three empties in a row, or ten replies without any of these |
| ToolTransfer.SandboxToolSession.Exchange | night_shifts/tool_session.py:350-386 | request ids go up, any fault closes the session, and nothing is sent on a closed one |
| ToolTransfer.SandboxToolSession.LoadChunk | night_shifts/tool_session.py:216-231 | an accepted chunk is exactly what the wire carried, right behind what is there, and only the last is final |
| ToolTransfer.SandboxToolSession.ExportChunk | night_shifts/tool_session.py:240-260 | a part is never longer than asked nor empty before the end, and from an honest guest it is the report's own bytes |
| ToolTransfer.TransferFixture | night_shifts/fixture_transfer.py:74-97 | success means a guest that puts each chunk at its offset holds exactly the archive and has been told so once, and an honest guest's report came back byte for byte; against any guest the loops end within the bound and the session is closed |
| ReviewBundles.StatusMeans | night_shifts/review_bundle.py:227-240 | checks count as passed exactly when each configured one, and no other, came back once, whole and with exit zero |
| ReviewBundles.StatusExactly | night_shifts/review_bundle.py:227-240 | nothing was run exactly when nothing was asked or came back; a failure is one among whole results of all and only the configured checks; all else is incomplete |
| ReviewBundles.ReadyMeans | night_shifts/review_bundle.py:227-315 | ready for review if and only if all evidence is there, including a replay bound to this base, patch and result |
| ReviewBundles.ReasonsExactly | night_shifts/review_bundle.py:223-311 | a report gives exactly the reasons that apply, each under its own condition |
| ReviewBundles.StateExactly | night_shifts/review_bundle.py:312-315 | a job that is not ready is evidence exactly when it has a patch, and else incomplete |
| ReviewBundles.CrashedReads | night_shifts/review_bundle.py:346-387 | after a crash at any point of the writing, a read fails, reports the interruption or returns exactly what was collected |
| ReviewBundles.FinishedReads | night_shifts/review_bundle.py:331-387 | a bundle written to the end reads back as itself |
| ReviewBundles.ReadExactly | night_shifts/review_bundle.py:346-387 | of any directory with a marker, a read returns exactly what is vouched for: the marker holds the digest of the manifest's bytes, and the manifest the length and digest of the report's and the patch's, and lists nothing else |
| ReviewBundles.InterruptedExactly | night_shifts/review_bundle.py:346-356 | without a marker a read reports the interruption if the note of the beginning is there, and else fails |
| ReviewBundles.AlteredReads | night_shifts/review_bundle.py:346-387 | however manifest, report and patch of a finished bundle are changed, under a digest that tells the texts apart it reads as a failure or as what was collected |
| ReviewBundles.Collect | night_shifts/review_bundle.py:154-344 | wherever writing stops the directory reads honestly, and it reads as ready only if every check passed and the replay was bound |

## Left out

- SnapshotCodec.DecodeSnapshot: only the canonical spelling of the JSON is read; another spelling of the same values is refused
  here at once and there at the end, so that the reasons of refusal are one.
- Editing.EditStore.ProposeReplace: delegation to the creation of a missing file, and a path that is a directory, are not modelled.
- PreparationSafety.RankNeverFalls: begins when creation has returned or died; what a live creation changes is `LiveCreation`.
- NativeWorker.NativeWorkerOwner.Acquire: the checks of the runtime, of pipe identity and of inheritance are a single call that may fail; a
  spawned child whose pid is out of range is kept with its lifetime unknown, as in the code, and never signalled.
- NativeWorker.NativeWorkerOwner.Reap: a killed and a core-dumped child are one value, so their comparison is coarser.
- ToolTransfer.TransferFixture: the check of the report's content is not modelled, only that its bytes come back.
- Text files that are not UTF-8, file encodings and newline translation in the editor: content is text.
- The full JSON grammar in the snapshot decoder: the model reads the one shape the canonical check lets through, and
  refuses the rest as the program does, if for another reason.
- Printing of the JSON library, `difflib`'s choice of alignment, SHA-256, TLS, Hyper-V, PowerShell, Git and all native bindings:
  parameters or arbitrary outcomes, as described above.
- FrameEndpoint: moving ciphertext in and out and its buffers' bounds are one arbitrary refusal each; whether a handshake's certificate is the
  pinned one is an arbitrary outcome.
- Editing: creating, moving, copying and deleting files, previews and diff texts of proposals.
- Preparation: the review packet's contents and the comparison of packets, which only refuse more; the checks of inputs before creation,
  and an operator clearing files other than the guard.
- SerialPipe: real time and threads; a call from a thread that is not the owner's is refused, and no two calls overlap.
- NativeWorker: checks of the runtime, of pipe ownership and of descriptor flags; a failed one is a failed call.
- KernelCapture: device identity checks are arbitrary outcomes.
- InferenceGateway: creating, revoking and cancelling sessions, and concurrent requests on one session.
- ModelExecutor: token usage totals, artifact references and emitted events; what stripping removes is a parameter.
- ToolTransfer: the tool calls a model makes through the same session, their argument checks, and concurrent cancellation; frames are
  already parsed, with every malformed or foreign one a single unusable reply.
- ReviewBundles: the parts of a report that a reader of the bundle does not look at are one opaque value; limits on texts and counts
  that refuse evidence before it is judged; loss of a synced file.
- AgentLoop: prompts' texts, audits, the privileged turn around a step, stateful provider APIs that take outputs instead of messages, and
  interrupts that are not `Exception`s. The assistant's message and the answers to it are appended together after the batch, which reads no message.
- The job state table, image and seed authoring, provider clients, configuration and the user
  interface: they would add only easier members of the kinds above, or foreign systems.
