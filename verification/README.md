# sy: verified models

A Dafny 4.11 model of the parts of `sy` that have real state, transformations or codecs, and proofs
about them. `dafny verify dfyconfig.toml` checks everything.

| Files | Part of `sy` |
|---|---|
| `Attention`, `KvDecoder`, `DecoderLaws`, `GreedyDecode` | the KV-cache Whisper decoder, what it computes, and the greedy loop that drives it |
| `Bf16`, `OnnxGraph`, `ShrinkPass`, `ShrinkMeaning`, `ShrinkResult` | the pass that stores FP32 initializers as BF16 |
| `ReleasePin`, `ReleaseManifest`, `SparkplaneInstall`, `SparkplaneApply` | the Sparkplane installer |
| `CancelRegistry`, `CancelDispatch` | the IPC cancellation registry |
| `Framing`, `IpcRuntime`, `Exchange` | IPC framing, handoff to event streams, connection loop, client and server together |
| `FileTree` | files, directories, symbolic links, and how paths resolve |
| `UnitSync`, `UnitConverge`, `UnitSamples` | `sy apply` for systemd units |
| `AppliedConfigs` | `sy apply` for rendered configuration files |
| `Notifier` | the pairing and unlock notifier and its cache file |
| `ExporterHandshake` | the metrics exporter's two-thread protocol |
| `Base64`, `HelperLine`, `TerseFields`, `TomlString` | codecs |
| `Basics`, `Text` | shared datatypes and `str` operations |

Code that mutates is modelled by classes, methods and loops, each tied by its contract to a
specification function; the results below are about those functions. What the code calls but does not
define (neural-network submodules, other ONNX operators, signatures and digests, JSON, UTF-8, the
IPC handler) enters as function-valued parameters, and a property assumed of one is a named predicate:
`CastAgrees`, `CastRounds`, `Lossless`, `RoundTrips`.

## What is false of the code

- The greedy loop feeds the last forced token twice. `CachedAtHead` says which sequence the cache
  really holds, `CacheIsTokensIff` when that is the transcript. `TranscriptIsPlainIff` says exactly when the
  transcript is that of plain greedy decoding; `DoubledTokenChangesTranscript` is a model in the shapes of
  whisper-medium on which it is not.
- On NaN patterns the BF16 bit trick can give infinity or zero. `NarrowKeepsNaNIff` says exactly when
  the result is a NaN. `MeaningKeptIff` says that the shrunk graph keeps the meaning exactly when the runtime's
  Cast agrees with the trick on every converted pattern; `NumericAgrees` that it does on NaN-free ones.
- The comment at `crates/sy-ipc/src/cancel.rs:33-37` says a stale guard never evicts a re-registered
  slot. It can: `StaleGuardEvictsLiveSlot`. `SafeRegisterIff` gives the exact condition on `register`.
- A converted decoder drops a length prefix if the handoff happens inside a frame:
  `FramedRead.IntoEventStream` states it is lossless exactly between frames, which `Next` guarantees
  after every frame.
- A stream cut right after a length prefix looks like a clean end (`EndInsideFrame`).
- A second unit sync is not always quiet, for two reasons. A link that is up to date only through another
  target link is broken when that one is removed or replaced, whether it is the end of the path
  (`ChainedLinkNeedsSecondRun`) or a directory on the way (`ThroughLinkNeedsSecondRun`); and a link kept because
  of a source entry that is itself a link becomes stale when the run breaks that entry
  (`RelayedSourceNeedsSecondRun`). `ConvergesIff` says that there is no third. Links to vanished units are
  cleaned up only if the source directory was given canonically (`VanishedSourceIsCleanedIff`).
- With one directory as source and target, consent replaces every unit by a link to itself
  (`SelfSyncLosesUnits`).
- A dry run of the configuration apply can mispredict when symbolic or hard links make rendered or stale
  paths one file, its removals (`LinkDefeatsDryRun`) as well as its changes (`LinkDefeatsReport`).
  `DryRunPredictsIff` says exactly when its changes and its removals are right.
- Repeating an apply can change files for ever (`CollidingFilesNeverSettle`), and an apply can delete a file it
  has just rendered (`ApplyDeletesWhatItRendered`). `RepeatChangesNothingIff` gives the exact condition
  under which neither happens.
- The TOML printer does not escape U+007F, so a reader refuses such strings
  (`ReaderUndoesPrinterIff`, `ArrayRoundTripsIff`).

## Model

| member | source | states |
|---|---|---|
| Attention.AttendSeesVisible | scripts/export_whisper_kv_decoder.py:100-104 | masked multi-head attention depends only on the key/value rows the additive mask lets through, in order |
| DecoderLaws.AttendOfEqualValues | scripts/export_whisper_kv_decoder.py:102-104 | attention over rows with one value gives that value: the weights add up to one |
| DecoderLaws.AttendIsPerHead | scripts/export_whisper_kv_decoder.py:98-104 | a coordinate of the result depends only on its own head's queries and keys and on its own coordinate of the values |
| DecoderLaws.ScoreIsLinear | scripts/export_whisper_kv_decoder.py:97-102 | a head's score is linear in the query and in the key |
| KvDecoder.Causality | scripts/export_whisper_kv_decoder.py:83-122 | in the stateless decoder, at every layer, later tokens never change the hidden state of earlier positions |
| DecoderLaws.LayerOfEqualValues | scripts/export_whisper_kv_decoder.py:92-119 | a layer over equal values adds the self-attention projection, then the cross-attention projection, then the feed-forward of that sum |
| DecoderLaws.AudioIsHeard | scripts/export_whisper_kv_decoder.py:108-115 | through layers that only listen, audio of equal frames e is added to every position once per layer |
| DecoderLaws.HiddenIsScalar | scripts/export_whisper_kv_decoder.py:83-119 | on any one coordinate, the hidden states of the stateless decoder are those of a transformer over real numbers written down on its own |
| DecoderLaws.LogitsAreScalar | scripts/export_whisper_kv_decoder.py:83-122 | and so are its logits, after the final norm and projection |
| KvDecoder.CrossInit | scripts/export_whisper_kv_decoder.py:65-71 | the interleaved outputs, split as the host splits them, are each layer's own cross-attention rows of the encoder output |
| KvDecoder.ForwardLayer | scripts/export_whisper_kv_decoder.py:92-119 | one layer over the past buffer plus the current token, returning that token's key and value |
| KvDecoder.Forward | scripts/export_whisper_kv_decoder.py:83-122 | from the flat buffer list, the logits of the static-shape step and every layer's new key and value in the exported output order |
| KvDecoder.StepRows | scripts/export_whisper_kv_decoder.py:208-210 | the step mask lets through exactly the past slots below the position, and the concatenated current row |
| KvDecoder.PastIsReference | scripts/export_whisper_kv_decoder.py:100-101 | cached rows followed by the new row are the reference decoder's rows of the whole sequence |
| KvDecoder.StepHiddenIsReference | scripts/export_whisper_kv_decoder.py:83-122 | at every depth the one-token step computes the stateless decoder's hidden state, whatever the masked slots hold |
| KvDecoder.StepLogits | scripts/export_whisper_kv_decoder.py:120-122 | the step's logits are those of the stateless decoder on the whole sequence |
| KvDecoder.StepRow | scripts/export_whisper_kv_decoder.py:106-107 | the new key and value of each layer are the reference row of the new token |
| KvDecoder.Host.constructor | scripts/export_whisper_kv_decoder.py:192-203 | fresh zeroed buffers hold the empty sequence, with the cross buffers assigned per layer |
| KvDecoder.Host.Step | scripts/export_whisper_kv_decoder.py:206-218 | feeding a token at a position no later than the cached length gives the stateless logits, leaves slot j of layer i holding that layer's row of token j, and writes no other slot |
| KvDecoder.Host.WriteBack | scripts/export_whisper_kv_decoder.py:215-217 | every layer's new key and value go to that layer's slot at the position, and nothing else changes |
| GreedyDecode.ArgMax | scripts/export_whisper_kv_decoder.py:228 | the first index of the greatest logit |
| GreedyDecode.Validate | scripts/export_whisper_kv_decoder.py:220-232 | the transcript is the greedy run after the sequence with its fourth token doubled, stops at end-of-text or a full buffer, every write is in the buffer, and the cached sequence is stated exactly |
| GreedyDecode.TokensAreBest | scripts/export_whisper_kv_decoder.py:220-232 | a transcript is the forced tokens around the likeliest language, and each later token is a likeliest one after the sequence with its fourth token doubled |
| GreedyDecode.FinishedRunIsUnique | scripts/export_whisper_kv_decoder.py:226-232 | model, audio and prompt determine the finished transcript |
| GreedyDecode.CacheIsTokensIff | scripts/export_whisper_kv_decoder.py:220-232 | the cache equals the transcript exactly when everything generated repeats the last forced token |
| GreedyDecode.OnlyOneSlotTooMany | scripts/export_whisper_kv_decoder.py:220-232 | without the slot of the doubled token the cache holds all tokens but the last, in order |
| GreedyDecode.TranscriptIsPlainIff | scripts/export_whisper_kv_decoder.py:220-232 | the finished transcript is that of plain greedy decoding exactly when the doubled token leaves the choice unchanged after every prefix of the plain one |
| GreedyDecode.DoubledTokenChangesTranscript | scripts/export_whisper_kv_decoder.py:224-228 | in the shapes of whisper-medium, for any audio, a model on which plain decoding stops after the prefix and the coded loop emits one more token |
| Bf16.NarrowRoundsTiesToEven | scripts/prep_npu_workload.py:583-586 | for every number and infinity the bit trick gives the nearest BF16 value, ties to even (section 4.3.1 of IEEE 754-2019) |
| Bf16.NarrowMagnitude | scripts/prep_npu_workload.py:585-586 | the 32-bit addition never wraps for such patterns, keeps the sign and moves by at most one BF16 step |
| Bf16.NarrowIsMonotone | scripts/prep_npu_workload.py:583-586 | monotone within each sign, off by at most 0x8000 units of the pattern, infinities kept |
| Bf16.RoundingIsUnique | scripts/prep_npu_workload.py:583-586 | any function that rounds to nearest, ties to even, agrees with the trick |
| Bf16.NarrowKeepsNaNIff | scripts/prep_npu_workload.py:583-586 | a NaN stays a NaN exactly for payloads away from both ends of the range |
| Bf16.NarrowLosesNaN | scripts/prep_npu_workload.py:583-586 | two NaN patterns that become infinity and zero |
| ShrinkPass.GraphProto.Consumers | scripts/prep_npu_workload.py:559-562 | the consumer map lists exactly the uses of every name |
| ShrinkPass.GraphProto.AllCasts | scripts/prep_npu_workload.py:571-582 | true exactly when every recorded use is a Cast to BF16 on input 0 |
| ShrinkPass.GraphProto.Rewire | scripts/prep_npu_workload.py:594-604 | the nested renaming loops equal one simultaneous rewiring of all casts |
| ShrinkPass.GraphProto.ShrinkInit | scripts/prep_npu_workload.py:565-604 | one initializer is converted exactly when it is FP32 and read only by such casts |
| ShrinkPass.GraphProto.ShrinkInPlace | scripts/prep_npu_workload.py:546-605 | the mutating pass computes the specified graph and counts the converted initializers |
| ShrinkResult.EligibleIff | scripts/prep_npu_workload.py:565-582 | the pass converts exactly the FP32 initializers that are read, and only as the first input of casts whose first `to` is BFLOAT16 |
| ShrinkResult.StoredAsBf16Iff | scripts/prep_npu_workload.py:565-593 | in the result such an initializer is stored as BF16 in place of the old one, and every other initializer is there as it was |
| ShrinkResult.NodesAfter | scripts/prep_npu_workload.py:594-604 | in the result the casts of converted initializers are Identity nodes with exactly their former attributes not named `to`, in order; every other node keeps operator, attributes, outputs and number of inputs |
| ShrinkMeaning.NodeSim | scripts/prep_npu_workload.py:594-604 | wherever a node of the old graph computes, its rewired form computes the same |
| ShrinkMeaning.ShrinkOneKeeps | scripts/prep_npu_workload.py:564-605 | each conversion keeps single assignment and arities, and leaves the original consumer map valid for the initializers still to come |
| ShrinkMeaning.ShrinkPreservesMeaning | scripts/prep_npu_workload.py:546-605 | wherever the graph runs and Cast agrees on the converted initializers, the shrunk graph runs in the same order and gives every name the same value, converted initializers rounded |
| ShrinkMeaning.MeaningKeptIff | scripts/prep_npu_workload.py:546-605 | the shrunk graph runs and gives every name but the converted initializers its value exactly when Cast agrees with the bit trick on every converted pattern |
| ShrinkMeaning.NumericAgrees | scripts/prep_npu_workload.py:583-586 | a Cast that rounds as IEEE 754 says agrees with it on NaN-free initializers |
| ShrinkMeaning.OutputsPreservedIff | scripts/prep_npu_workload.py:546-605 | graph outputs are preserved exactly when no converted initializer is an output |
| ShrinkResult.OrderedGraphRuns | scripts/prep_npu_workload.py:546-605 | a graph in topological order whose operators compute runs to its end, so the results above are about every such graph |
| ReleasePin.DirectoryIsInjective | src/sparkplane_bridge.rs:46-85 | valid pins with one directory name agree in version, target and digest |
| ReleaseManifest.ValidPinIff | src/sparkplane_bridge.rs:45-74 | a pin is valid exactly when version, target, digest and key have the stated form, by character codes |
| ReleaseManifest.MatchesAreListed | src/sparkplane_bridge.rs:109-116 | in a manifest rendered from (digest, path) pairs the digests found for a path are those listed for it, in order |
| ReleaseManifest.VerifyIff | src/sparkplane_bridge.rs:100-126 | a release verifies exactly when its pin is well formed, the manifest is signed under the pin's key and lists the pin's digest, once, for the artifact, and the binary has that digest |
| SparkplaneInstall.ReleaseIsNoStage | src/sparkplane_bridge.rs:83-85 | a release name can never be a staging name |
| SparkplaneInstall.AdvanceKeeps | src/sparkplane_bridge.rs:257-322 | every file-system operation of an installer keeps the tree sound and what the installer relies on next |
| SparkplaneInstall.AdvanceKeepsOthers | src/sparkplane_bridge.rs:257-322 | no operation disturbs another installer at work in the same directory |
| SparkplaneInstall.CurrentIsAlwaysComplete | src/sparkplane_bridge.rs:257-322 | over every interleaving of installers with arbitrary pins, torn writes and crashes between any two operations, `current` is absent or names a complete verifying release |
| ReleaseManifest.CurrentIsGenuine | src/sparkplane_bridge.rs:257-322 | over every run the release `current` names holds a receipt of that name, a manifest signed under the receipt's key and a binary whose digest it pins, speaking the protocol |
| SparkplaneInstall.ReleasesAreImmutable | src/sparkplane_bridge.rs:266-306 | a published release never changes or disappears in any later run |
| SparkplaneInstall.DataRoot.InstallVerified | src/sparkplane_bridge.rs:257-322 | the sequential code performs exactly the steps of the interleaved model |
| SparkplaneInstall.InstallOutcome | src/sparkplane_bridge.rs:264-321 | an undisturbed install succeeds exactly when the release verifies, speaks the protocol and matches any release under its name; the resulting tree is stated, and a failure changes no link |
| ReleaseManifest.GenuineReleaseInstalls | src/sparkplane_bridge.rs:257-322 | on an empty root a genuine release installs, and `current` names it |
| SparkplaneInstall.RetrySucceeds | src/sparkplane_bridge.rs:267-283 | retrying a pin whose receipt is installed ends with `current` at that pin, given a collision-free digest |
| SparkplaneApply.Apply | src/sparkplane_bridge.rs:223-255 | skips, plans, checks or installs as configured |
| SparkplaneApply.ApplyOutcome | src/sparkplane_bridge.rs:223-322 | a failed, dry or disabled apply changes no link, a successful one only points `current` at the pin, and the tree stays sound |
| SparkplaneApply.ApplySucceedsIff | src/sparkplane_bridge.rs:223-322 | apply succeeds exactly when it is disabled, or its pin is well formed and it is a dry run, the pin is installed, or the fetched assets can be installed, whatever else is |
| SparkplaneApply.ApplyIsIdempotent | src/sparkplane_bridge.rs:239-254 | after a successful apply `current` is at the pin and a second apply succeeds, changes nothing and needs no download |
| CancelRegistry.Registry.Register | crates/sy-ipc/src/cancel.rs:63-80 | the newest registration takes the slot with the next (wrapping) epoch and a fresh token |
| CancelRegistry.Registry.Cancel | crates/sy-ipc/src/cancel.rs:86-95 | true exactly when the id is mapped; then the slot's token is cancelled |
| CancelRegistry.Registry.DropGuard | crates/sy-ipc/src/cancel.rs:108-117 | removes the slot exactly when its epoch is the guard's |
| CancelRegistry.SlotsHoldNewest | crates/sy-ipc/src/cancel.rs:58-80 | after any run a mapped slot holds the token of the id's newest registration |
| CancelRegistry.CancelReachesNewestOnly | crates/sy-ipc/src/cancel.rs:82-95 | cancelling reaches the newest registration's token and no other |
| CancelRegistry.CancellationIsPermanent | crates/sy-ipc/src/cancel.rs:63-95 | cancelled tokens stay cancelled and new tokens are never already cancelled |
| CancelRegistry.SafeRunsAreOrdered | crates/sy-ipc/src/cancel.rs:30-38 | in safe runs live guards of one id have distinct epochs, bounded by the slot's |
| CancelRegistry.SafeRunsEvictNobody | crates/sy-ipc/src/cancel.rs:108-117 | in every safe run a drop removes its own slot or nothing |
| CancelRegistry.SafeRegisterIff | crates/sy-ipc/src/cancel.rs:63-80 | registering is safe exactly when no number of further registrations, while epochs last, can make a live guard evict a newer slot |
| CancelRegistry.OrderlyRunsAreSafe | crates/sy-ipc/src/cancel.rs:40-51 | if the current guard is always dropped last, runs are safe and an id is mapped exactly while it has a live guard |
| CancelRegistry.StaleGuardEvictsLiveSlot | crates/sy-ipc/src/cancel.rs:33-38 | five events after which a stale guard evicts a live slot |
| CancelDispatch.DispatchWithCancel | crates/sy-ipc/src/cancel.rs:135-161 | the biased poll loop resolves as specified and drops the guard exactly when it resolves |
| CancelDispatch.FirstPollDecides | crates/sy-ipc/src/cancel.rs:142-160 | the first poll that finds the token cancelled or the worker ready decides, and without one there is no outcome |
| CancelDispatch.OutcomeMatchesToken | crates/sy-ipc/src/cancel.rs:142-160 | it reports Completed only if the token is not cancelled at the deciding check, Cancelled only if it is, and a token cancelled beforehand is never lost |
| CancelDispatch.OwnMappingGone | crates/sy-ipc/src/cancel.rs:135-161 | a dispatch that returns within a safe history leaves no mapping of its own and takes nobody else's away |
| CancelDispatch.MappedOnReturnIff | crates/sy-ipc/src/cancel.rs:135-161 | under the drop discipline the id is mapped on return exactly when another live guard of it remains |
| Framing.SplitWire | crates/sy-ipc/src/codec.rs:67-87 | splitting undoes framing for every list of payloads within the limit, whatever follows |
| Framing.HeadersAreOrdered | crates/sy-ipc/src/codec.rs:58-63 | prefixes are ordered as the lengths they stand for: the first differing byte is the smaller one's smaller |
| Framing.PrefixYieldsWholeFrames | crates/sy-ipc/src/codec.rs:77-87 | a prefix of a framed stream yields exactly the frames it contains whole |
| Framing.DecodeTakesNextFrame | crates/sy-ipc/src/codec.rs:77-87 | an attempt takes exactly the next frame and ends between frames, or loses no byte and there is none |
| Framing.FedIsReturnedPlusPending | crates/sy-ipc/src/codec.rs:52-87 | for any schedule of arrivals and attempts, the bytes fed are the frames returned, then the pending bytes |
| Framing.ChunkingIsInvisible | crates/sy-ipc/src/codec.rs:52-87 | for any byte string and chunking, the drained decoder returned the frames of the whole string and refuses it alike |
| Framing.FramesSurviveAnyChunking | crates/sy-ipc/src/codec.rs:52-87 | framed payloads come back exactly, with an empty remainder |
| Framing.WriteFrame | crates/sy-ipc/src/blocking.rs:52-58 | appends one frame, refusing only lengths beyond 32 bits |
| Framing.BlockingAgreesWithCodec | crates/sy-ipc/src/blocking.rs:52-68 | the blocking reader takes back what either writer wrote and differs from the codec exactly above its limit |
| IpcRuntime.FramedRead.Next | crates/sy-ipc/src/codec.rs:77-87 | the next item is determined by the unread byte string, not by the chunking; after a frame the decoder is between frames |
| IpcRuntime.EndInsideFrame | crates/sy-ipc/src/codec.rs:77-87 | a stream that ends inside a frame is an error, except right after a length prefix, where it looks like a clean end |
| IpcRuntime.LongFrameIsRefused | crates/sy-ipc/src/codec.rs:77-87 | a frame longer than the limit is refused and stays unread |
| IpcRuntime.FramedRead.IntoEventStream | crates/sy-ipc/src/client.rs:125-131 | the handoff keeps every unread byte exactly when the decoder is between frames |
| IpcRuntime.ReadEvents | crates/sy-ipc/src/stream.rs:41-101 | reading until the sentinel yields exactly the events, and leaves what follows unread |
| IpcRuntime.CallThenStream | crates/sy-ipc/src/client.rs:98-131 | acknowledgement, handoff and stream lose and duplicate nothing, in any chunking |
| IpcRuntime.HandoffMidFrameLoses | crates/sy-ipc/src/client.rs:125-131 | inside a frame the handoff loses the length prefix |
| IpcRuntime.ServeConnection | crates/sy-ipc/src/server.rs:137-184 | the bytes written are the frames of the handler's answers in order, up to the first frame or answer that fails |
| IpcRuntime.AnswersStopAtBadFrame | crates/sy-ipc/src/server.rs:148-183 | the first frame that is no request ends the answers |
| Exchange.LoopAnswersEachCall | crates/sy-ipc/src/server.rs:148-183 | from the bytes of the calls the connection loop writes the rendered answers, one for each call, in order |
| Exchange.StepKeepsInv | crates/sy-ipc/src/server.rs:148-183 | every byte-level step of client, server and pipes succeeds and keeps the account of the one message in flight |
| Exchange.AnswersArriveInOrder | crates/sy-ipc/src/client.rs:82-112 | in every schedule the k-th call gets the k-th answer, with at most one request in flight |
| Exchange.WaitingMakesProgress | crates/sy-ipc/src/client.rs:98-110 | a waiting client is never stuck: some enabled step changes the state |
| Exchange.StepLowersRank | crates/sy-ipc/src/client.rs:98-110 | every step that changes the state of a waiting connection answers the call or lowers a rank |
| Exchange.CallIsAnswered | crates/sy-ipc/src/client.rs:82-112 | in every schedule a waiting call has its answer after that many steps that change the state |
| Exchange.RankIsBounded | crates/sy-ipc/src/client.rs:98-110 | that rank is at most the sizes of the request and answer frames, and four |
| FileTree.MakingGrows | src/supervision/apply.rs:295-296 | making the missing directories of a path loses nothing, also when it fails, and a directory made at its end is empty |
| FileTree.MakingSucceedsIff | src/supervision/apply.rs:295-296 | making the directories of a path without `..` succeeds exactly when its longest prefix that is a directory is the whole path or has no entry under the next name |
| FileTree.MakesExactly | src/supervision/apply.rs:295-296 | what is made is the directories named by the rest of the path, each in the one before, and nothing else |
| FileTree.WalkFromFirst | src/supervision/apply.rs:229-230 | in a changed tree a path resolves as before up to the first changed place it meets, and goes on from there, links counted |
| FileTree.JoinFollowsLink | src/supervision/apply.rs:222-229 | a link that resolves, read and joined to the path of its directory, resolves to the same |
| FileTree.CanonicalParent | src/supervision/apply.rs:229-230 | two dots lead from a directory to the one it is in, and from the root to the root |
| FileTree.LoopLeadsNowhere | src/supervision/apply.rs:229-230 | a link to its own name does not resolve |
| UnitSync.Syncer.MakePlan | src/supervision/apply.rs:134-167 | the loops fill the buckets in listing order |
| UnitSync.Syncer.SyncUnits | src/supervision/apply.rs:124-197 | a dry run returns the real run's diff and changes nothing; without a source directory it fails |
| UnitSync.PlanMembers | src/supervision/apply.rs:199-242 | the buckets hold exactly the source files of their class, the removed names exactly the stale links |
| UnitSync.BucketsAre | src/supervision/apply.rs:134-167 | each bucket in terms of the tree: units with nothing, with a link elsewhere, with a link to the unit, with a file or directory under their name; and links into the source directory under a name that leads nowhere |
| UnitSync.PlanIsSound | src/supervision/apply.rs:134-167 | written names are source files, and without consent replace only links; removed names are links and no source files |
| UnitSync.PlaceAllLinks | src/supervision/apply.rs:332-350 | placing links replaces the entries before the first directory in the way, and nothing else |
| UnitSync.NoSourceNoLink | src/supervision/apply.rs:332-341 | a name that is not in the source directory is not placed, and its entry in the target stays |
| UnitSync.ApplyOutcome | src/supervision/apply.rs:294-327 | a run fails exactly when something that is no directory is on the way to the target or a directory is to be replaced with consent; either way all but the written and removed entries stay, and everything due before that is done |
| UnitSync.ForeignEntriesStay | src/supervision/apply.rs:294-350 | whether the run succeeds or fails, foreign links, unconfirmed files and everything outside the target stay |
| UnitConverge.ResolvesAfter | src/supervision/apply.rs:216-235 | what any path resolves to after a run, in terms of the tree before it |
| UnitConverge.ConvergesIff | src/supervision/apply.rs:124-242 | a second run has nothing to do exactly when no up-to-date link was resolved through an entry the first run changed and no link was orphaned by breaking a source entry that is itself a link |
| UnitConverge.VanishedSourceIsCleanedIff | src/supervision/apply.rs:149-167 | a placed link whose source vanishes is removed exactly when the source directory is spelled canonically |
| UnitConverge.SelfSyncLosesUnits | src/supervision/apply.rs:332-350 | with one directory for both, units stay without consent and become links to themselves with it |
| UnitSamples.ChainedLinkNeedsSecondRun | src/supervision/apply.rs:216-235 | an instance where an up-to-date link ran through a stale one |
| UnitSamples.ThroughLinkNeedsSecondRun | src/supervision/apply.rs:216-235 | an instance where its directories ran through a replaced one |
| UnitSamples.RelayedSourceNeedsSecondRun | src/supervision/apply.rs:149-167 | an instance of an orphaned link |
| AppliedConfigs.Target.Apply | src/main.rs:634-680 | the write loop and its reports, dry and real |
| AppliedConfigs.Target.Finish | src/desktop_paths.rs:79-136 | deletes exactly the removable files and records the new manifest; a corrupt manifest stops it |
| AppliedConfigs.ReportsAre | src/main.rs:660-680 | a dry run reports the paths that do not hold their bytes at the start, a real run those that do not hold them after the last earlier entry written to the same file |
| AppliedConfigs.RemovedIff | src/desktop_paths.rs:88-125 | a file is removed exactly when it was recorded, is not rendered, has a plain path without links and holds the recorded bytes once everything is written |
| AppliedConfigs.DryRunPredictsIff | src/main.rs:660-680 | the exact conditions, in terms of the tree and the rendered files, for a dry run to report the changes and the removals of the real run |
| AppliedConfigs.LinkDefeatsDryRun | src/main.rs:660-680 | instances, with a symbolic and with a hard link, where its removals are wrong |
| AppliedConfigs.LinkDefeatsReport | src/main.rs:660-680 | an instance where its changes are wrong |
| AppliedConfigs.RepeatChangesNothingIff | src/main.rs:634-680 | repeating an apply changes nothing, and every rendered file reads back, exactly when entries written to one file agree and none leads to a stale name with the bytes recorded for it |
| AppliedConfigs.CollidingFilesNeverSettle | src/main.rs:660-680 | two rendered paths leading to one file are rewritten by every apply |
| AppliedConfigs.ApplyDeletesWhatItRendered | src/desktop_paths.rs:88-125 | an apply deletes the file that its own rendered path leads to |
| AppliedConfigs.ManifestFollowsApplies | src/desktop_paths.rs:70-77 | over every history the manifest records what the last completed apply rendered |
| AppliedConfigs.DeletionIsJustified | src/desktop_paths.rs:88-125 | over every history of applies, failures, dry runs and user edits, a deleted file was rendered by the last completed apply, is rendered no longer and is unedited |
| AppliedConfigs.SkippedFileStays | src/desktop_paths.rs:88-134 | a stale file that was skipped is never deleted until an apply renders its path again |
| Notifier.Dispatcher.NotifyDispatcher | crates/sy-auth/src/syauth.rs:524-571 | one poll notifies each transition once and appends exactly the stated log entries; it logs nothing only for a poll that is idle as before and has no outcome |
| Notifier.PairKeyIsInjective | crates/sy-auth/src/syauth.rs:488-494 | the pair key tells all pair states apart |
| Notifier.NoticesTellApart | crates/sy-auth/src/syauth.rs:496-522 | and so does the text of the notice; known reasons are displayed differently |
| Notifier.PairNoticesCountChanges | crates/sy-auth/src/syauth.rs:531-546 | over any polls, pair notices equal the changes of pair key to a non-idle one |
| Notifier.PairNoticesCountNewPairs | crates/sy-auth/src/syauth.rs:531-546 | starting from a pair state, pair notices equal the polls that find a pair state that is not idle and not the one before |
| Notifier.UnlockNoticesCountChanges | crates/sy-auth/src/syauth.rs:548-570 | over any polls, unlock notices equal the changes of trailing outcome key to a denied one |
| Notifier.CacheRoundTripsIff | crates/sy-auth/src/syauth.rs:615-660 | saving and loading preserves the state exactly for non-empty one-line keys without a trailing carriage return |
| Notifier.ReloadingChangesNothing | crates/sy-auth/src/syauth.rs:615-660 | reloading between polls changes no notification when every key is storable |
| Notifier.CachedNoticesCountChanges | crates/sy-auth/src/syauth.rs:524-660 | over polls that each reload the cache file, there are as many pair notices as polls that find a new pair state that is not idle, and as many unlock notices as changes of the outcome key to a denied one |
| Notifier.KeyIsWritten | crates/sy-auth/src/syauth.rs:410-416 | an outcome key is the verdict, the nonce and the end time in decimal, with bars between |
| Notifier.EqualKeysEqualOutcomes | crates/sy-auth/src/syauth.rs:410-416 | with nonces free of the bar, equal keys mean equal displayed verdict, nonce and end time |
| ExporterHandshake.HandshakeIsSound | crates/sy-aiplane/src/mon_exporter.rs:120-222 | in every interleaving a handle is returned only with the socket bound and it stays bound while the handle lives; an error leaves it unbound; a readiness report always finds its receiver |
| ExporterHandshake.LiveIsPrepared | crates/sy-aiplane/src/mon_exporter.rs:157-211 | in every schedule a handle exists only after the runtime was built, then the socket installed, then its mode tightened |
| ExporterHandshake.HandleCanEnd | crates/sy-aiplane/src/mon_exporter.rs:83-222 | a schedule in which a handle comes to life and is dropped with the thread joined and the socket released |
| ExporterHandshake.NoDeadlock | crates/sy-aiplane/src/mon_exporter.rs:120-222 | every reachable world is over or can step |
| ExporterHandshake.SchedulesAreShort | crates/sy-aiplane/src/mon_exporter.rs:120-222 | every step lowers a rank that bounds the schedule |
| ExporterHandshake.DropReleasesSocket | crates/sy-aiplane/src/mon_exporter.rs:83-103 | once the handle is dropped every schedule ends, within six steps, with the thread exited and the socket released |
| Base64.EncodeBytes | crates/sy-plugin-md/src/main.rs:57-87 | the chunk loop computes the encoding |
| Base64.DecodeUndoesEncode | crates/sy-plugin-md/src/main.rs:57-87 | decoding by section 4 of RFC 4648 undoes it for every byte string |
| Base64.EncodingShape | crates/sy-plugin-md/src/main.rs:57-87 | length, and padding only at the end and only as the input length demands |
| HelperLine.ParseLine | crates/sy-desktop-shell/src/polkit.rs:23-74 | the byte loop with octal look-ahead computes the specified decoding and classification |
| HelperLine.UnescapeUndoesEscape | crates/sy-desktop-shell/src/polkit.rs:24-53 | it undoes the helper's escaping for every byte string |
| HelperLine.ParseUndoesSending | crates/sy-desktop-shell/src/polkit.rs:54-73 | every event sent is parsed back |
| HelperLine.ClassifiedIsSent | crates/sy-desktop-shell/src/polkit.rs:54-73 | a decoded line is an event only if it is the very line that event is sent as |
| HelperLine.CompletionIsExact | crates/sy-desktop-shell/src/polkit.rs:67-69 | success is reported only for exactly that decoded line |
| HelperLine.OctalRefusedIff | crates/sy-desktop-shell/src/polkit.rs:34-41 | three octal digits are refused exactly above one byte |
| HelperLine.OtherEscapes | crates/sy-desktop-shell/src/polkit.rs:42-51 | a backslash before a byte without special meaning stands for that byte |
| TerseFields.ParseColonFields | crates/sy-desktop-shell/src/wifi.rs:137-155 | the character loop computes the specified fields |
| TerseFields.ParseUndoesJoin | crates/sy-desktop-shell/src/wifi.rs:136-155 | parsing undoes backslash-escaped joining for every non-empty list |
| TerseFields.TrailingBackslash | crates/sy-desktop-shell/src/wifi.rs:137-155 | a lone backslash at the end of a line is dropped |
| TomlString.TomlStr | crates/sy-knowledge/src/auto.rs:614-631 | the printing loop computes the specified text |
| TomlString.ReaderUndoesPrinterIff | crates/sy-knowledge/src/auto.rs:614-631 | a TOML v1.0.0 reader gets the string back exactly when it has no U+007F |
| TomlString.ArrayRoundTripsIff | crates/sy-knowledge/src/auto.rs:633-636 | a reader of TOML arrays of basic strings gets the array back, and stops right after it, exactly when none of its strings has U+007F |

## Left out

- Numerics: arithmetic is over the reals, so rounding, overflow and softmax stabilisation are not modelled; a score masked with -1e9 has weight zero.
- Tensor shapes: vectors of unequal length are padded with zeros, while the script raises an error on them; positional rows beyond the embedding table are not modelled.
- The feature extractor, tokenizer, ONNX export and session around the greedy loop.
- ONNX subgraphs, external data files and initializers that double as graph inputs.
- Bf16.NarrowRoundsTiesToEven: NaN patterns are excluded, because IEEE 754 does not say which NaN a conversion yields; `NarrowKeepsNaNIff` covers them.
- SparkplaneInstall.CurrentIsAlwaysComplete: a crash stops the process; loss of unsynced data on power failure, and file modes, are not modelled.
- Downloads, the environment variables and the exec of the Sparkplane client.
- CancelRegistry.SafeRunsEvictNobody: runs register fewer than 2^64 times, since epochs wrap.
- The length-delimited codec belongs to a library; it is modelled by its documented decode states, and when the framed reader polls its source is not modelled.
- Admission of peers, tracing spans and error counters in the IPC server.
- UnitConverge.ConvergesIff: the paths given for the two directories follow no link that lies in the target directory, and a target directory that is not there yet is given without `..`.
- FileTree: a path is a list of names and `..`; trailing slashes, `.` components, permissions and special files are not modelled.
- UnitSync.Syncer.SyncUnits: a target path that runs into a file or a loop of links fails when the directory is made, while the program already fails at the first unit it looks up there.
- The `BindsTo=` scan, `systemctl` calls and the legacy system unit in the unit sync.
- AppliedConfigs.DryRunPredictsIff: a rendered path occurs once, as in a directory walk; symbolic links stay as they are during an apply; writes and deletions that fail appear only as aborted applies in the histories.
- Template rendering, the binary install and the download helpers of `sy apply`.
- Parsing of the audit log; polls take its last row as input. Log lines are recorded by kind, not by text.
- ExporterHandshake.DropReleasesSocket: the join budget is a free choice of the schedule, not a time; a failing or panicking install is taken to leave the socket unbound.
- `png_dimensions`, `guidance`, `parse_nmcli_line` and `render_manifest` are not modelled.
