# A verified model of a CRI container runtime daemon

This project models, in Dafny, the parts of the daemon whose correctness is decided by its own code:
the SPDY/3 codec and connection multiplexer used for exec, attach and port-forward; OCI layer
application with whiteouts; the container, sandbox and restart state machines; the content store,
the image records and their reclaim; the assembly of namespaces, capabilities and seccomp for the
OCI spec; the CRI log format; and the keyed locks. `dafny verify dfyconfig.toml` checks all of it.

| module | models |
|---|---|
| `Bytes`, `NvBlock`, `Frames`, `WireImages` | `crates/cri/src/spdy.rs`: integers, name/value block, frames, and their bytes written out |
| `Multiplexer`, `SharedWriter` | `crates/cri/src/spdy.rs`: read loop; the writer shared by many tasks |
| `Layers`, `ImageRootfs` | `crates/snapshots/src/diff.rs`, `unpack_rootfs` of `crates/cri/src/server.rs` |
| `Containers`, `ContainerHistory`, `Sandboxes`, `SandboxHistory`, `CriLog` | `crates/cri/src/server.rs`, `crates/metadata/src/records.rs`, `crates/sandbox/src/cni.rs` |
| `Digests`, `Content`, `ContentHistory`, `Images`, `PullRecords` | `crates/core-types`, `crates/content`, `crates/images`, image calls of `crates/cri/src/server.rs` |
| `Namespaces`, `Seccomp` | `crates/runtime/src/bundle.rs`, `crates/runtime/src/seccomp.rs` |
| `KeyedLocks` | `crates/cri/src/locks.rs` |
| `Runs` | what has happened in a run and not been undone, for the histories |

## How to read it

Each imperative operation of the source is a method, of a class where the source updates an object,
proved equal to a specification function or to one step of a state machine. The theorems are about
those functions and machines, over every input, every interleaving and every run.

A definition that both an operation and its law go through could be wrong on both sides at once.
Each such definition is therefore also tied to something it does not occur in: raw tar paths,
bytes written out, what an offer contained, what a name spells, or the calls made so far (the
`...History` modules).

Five main results, one per part:

- `SharedWriter.WireIsWholeFramesInLockOrder` with `Multiplexer.StreamsReceiveTheirData`: any number
  of tasks sharing one writer put whole frames on the wire in lock order, and a reader of any
  chunking of that wire serves exactly the streams those frames open.
- `Layers.UnpackIsOciExactlyWhenNothingIsLost`: the in-place applier gives the OCI image-spec's merge
  if and only if no path is lost by the last layer that mentions it.
- `Containers.EveryStepIsLegal`, `Containers.ExitedAndDeletedAreFinal` and
  `Containers.SupervisorHasTheLastWord`, over every run with crashes and reconciles.
- `Images.EveryNamedBlobIsThere`, `PullRecords.EveryRecordNamesAPulledImage` and
  `PullRecords.RemovalDeletesExactlyTheUnshared`, over every run of pulls (finished or failed
  half-way) and removals, on top of `Content.EveryRunIsClean`; with
  `ImageRootfs.LiveImageUnpacksToItsMerge`, which carries them into a container's rootfs.
- `Namespaces.ContainersJoinLiveNamespaces`, over every run of `Sandboxes`, and
  `Seccomp.MonotoneExactlyWhenCovered`.

Foreign code enters as parameters. zlib is a `Codec` whose only law is that inflating undoes
deflating when both sides have seen the same blocks in the same order (`Codec.Lawful`; a codec
that copies meets it, `Frames.CopyingIsLawful`). SHA-256 is a function; only the chainID identity
needs it not to collide, and only on the texts the two stacks hash. The registry, CNI, crun, the
clock and process spawning are answers handed to the operations.

## Where the code is not what it might seem

- `parse_frame` indexes a control frame's body before checking its length. The model has an explicit
  `Panicked` outcome; `Frames.PanicsExactlyOnShortBody` says exactly when it occurs, and
  `Frames.EncodedParts` that no written frame causes it.
- A frame out of range is printed all the same, with its id masked or its length cut to 24 bits;
  `Frames.FrameRoundTrip` is an equivalence.
- The applier deletes whatever is present at a whiteout, including earlier entries of the same layer
  (`Layers.WhiteoutAfterEntryLosesIt`). The exact condition is `Layers.EntriesSurvive` for one layer
  and `Layers.LostInTheEnd` for a stack.
- `update_container_resources` writes back a record read before an await. Taken as two steps it can
  undo an exit (`Containers.SplitResizeCanUndoAnExit`) or an exit code (`Containers.SplitResizeCanUndoAnExitCode`);
  `Containers.SplitResizeIsSafeExactlyWhenUnmoved` gives the exact condition. The run theorems take it as one step.
- Unpacking fails where the OCI rule replaces a directory by a file or the reverse
  (`Layers.FileOverDirectoryFails`); `Layers.StackUnpacksExactlyWithoutClashes` says exactly when.
- `can_transition_to` admits Exited to Unknown; no run of the daemon makes that move.
- Pull names snapshot directories by bare hex, reclaim looks for them under `sha256:` strings, so a
  removal never reclaims one (`Images.RemovalReclaimsExactly`).
- The field documentation in `crates/runtime/src/bundle.rs` says that capability drops are applied
  after adds; the code drops first, so adds win. The model follows the code.
- `cri_log_line` drops empty full lines; `CriLog.LogReadsBack` says exactly when output reads back whole.

## Model

| member | source | states |
|---|---|---|
| `NvBlock.BlockRoundTrip` | crates/cri/src/spdy.rs:511-550 | reading a written name/value block followed by any bytes returns every name and value lossily decoded, for every list of strings within 32-bit lengths; that is the original pairs if and only if they are valid strings |
| `NvBlock.TruncatedBlock` | crates/cri/src/spdy.rs:524-550 | a written block cut anywhere from its fourth byte on is rejected; cut inside the count it reads as no headers |
| `NvBlock.WriteNvBlock` | crates/cri/src/spdy.rs:511-521 | the loop prints the count and every length-prefixed name and value in order |
| `NvBlock.ReadNvBlock` | crates/cri/src/spdy.rs:524-550 | the loop with its moving offset computes the recursive reader, error cases included |
| `NvBlock.Take` | crates/cri/src/spdy.rs:531-543 | one length-prefixed string and the advanced offset, or an error when the length or the bytes are missing |
| `Frames.ParseIgnoresWhatFollows` | crates/cri/src/spdy.rs:113-124 | a parse that is not waiting for more is unchanged by the bytes that follow |
| `Frames.PanicsExactlyOnShortBody` | crates/cri/src/spdy.rs:113-217 | the parser goes out of range if and only if a complete control frame's body is under 10 bytes for type 1, under 8 for types 3 and 9, under 4 for types 2, 4, 6, 7 and 8 |
| `Frames.EmptyRstStreamPanics` | crates/cri/src/spdy.rs:171-174 | a RST_STREAM frame with an empty body is such an input |
| `Frames.FrameRoundTrip` | crates/cri/src/spdy.rs:113-313 | parsing what was printed for a frame of any of the nine kinds, whatever follows, gives the frame, its exact length and the matching inflate history if and only if ids fit 31 bits, settings ids and the body length 24 bits |
| `Frames.EncodedParts` | crates/cri/src/spdy.rs:221-313 | a printed frame has its version, type, flags and body in place and always reaches its type's minimum body length |
| `Frames.EntriesRead` | crates/cri/src/spdy.rs:175-190 | printed SETTINGS entries read back one by one with their ids cut to 24 bits |
| `Frames.HeadersRead` | crates/cri/src/spdy.rs:442-507 | headers compressed after a history decompress after the matching history, and the histories stay in step |
| `Frames.PartialFrameWaits` | crates/cri/src/spdy.rs:113-124 | every strict prefix of a printed frame is incomplete |
| `Frames.NvCodec.constructor` | crates/cri/src/spdy.rs:426-439 | both zlib streams start with nothing seen |
| `Frames.NvCodec.CompressNv` | crates/cri/src/spdy.rs:442-472 | compresses one block after all earlier ones and remembers it |
| `Frames.NvCodec.DecompressNv` | crates/cri/src/spdy.rs:475-507 | decompresses one block after all earlier ones, then reads the pairs or fails |
| `Frames.WriteFrame` | crates/cri/src/spdy.rs:221-313 | appends exactly the wire image of the frame and advances the deflate history only for frames with headers |
| `Frames.SettingsBody` | crates/cri/src/spdy.rs:263-271 | the settings loop prints the count and every entry in order |
| `Frames.HeaderBody` | crates/cri/src/spdy.rs:230-257 | the body of the three frame kinds that carry headers |
| `Frames.ParseEntries` | crates/cri/src/spdy.rs:175-190 | the settings loop reads entries until the count or the body ends |
| `Frames.ParseFrame` | crates/cri/src/spdy.rs:113-217 | computes the parse; an incomplete frame leaves the inflate state untouched |
| `Multiplexer.DrainAppend` | crates/cri/src/spdy.rs:719-779 | draining a buffer and then what is left with more bytes behind it is draining all the bytes at once |
| `Multiplexer.DrainBuffer` | crates/cri/src/spdy.rs:721-773 | the inner loop, over the codec and buffer it owns, dispatches every complete frame at the front |
| `Multiplexer.ReadLoop` | crates/cri/src/spdy.rs:707-780 | whatever the split into reads, the final streams, payloads and replies are a function of the bytes up to end of input |
| `Multiplexer.DispatchKeepsValid` | crates/cri/src/spdy.rs:730-773 | every entry of the stream table keeps pointing at an accepted stream with that id |
| `Multiplexer.DrainRunsFrames` | crates/cri/src/spdy.rs:719-779 | draining bytes accepts the same streams with the same data and replies as running the frames in them |
| `Multiplexer.RunAnswers` | crates/cri/src/spdy.rs:730-766 | one SYN_REPLY per SYN_STREAM and one echo per PING, in order, until the loop stops |
| `Multiplexer.RunEnds` | crates/cri/src/spdy.rs:730-773 | from any state, every stream ends with what it had plus what the frames to come owe it |
| `Multiplexer.RunIsOpen` | crates/cri/src/spdy.rs:719-773 | the loop still runs if and only if no frame has ended it |
| `Multiplexer.StreamsReceiveTheirData` | crates/cri/src/spdy.rs:592-780 | for every byte stream, each accepted stream gets exactly its non-empty DATA payloads in order, up to and including FIN, or up to RST_STREAM, a repeated SYN_STREAM, GOAWAY or end of input, and nothing else; its receiver is closed if and only if one of these took it out of the table or the loop has ended |
| `WireImages.Integers` | crates/cri/src/spdy.rs:95-108 | integers are big-endian, both ways |
| `WireImages.NameValueBlock` | crates/cri/src/spdy.rs:511-521 | the bytes of a block with one pair |
| `WireImages.RstStreamImage` | crates/cri/src/spdy.rs:258-262 | the bytes of a RST_STREAM frame, type 3 |
| `WireImages.PingImage` | crates/cri/src/spdy.rs:272-275 | the bytes of a PING frame, type 6 |
| `WireImages.GoAwayImage` | crates/cri/src/spdy.rs:276-283 | the bytes of a GOAWAY frame, type 7 |
| `WireImages.WindowUpdateImage` | crates/cri/src/spdy.rs:296-300 | the bytes of a WINDOW_UPDATE frame, type 9 |
| `WireImages.SettingsImage` | crates/cri/src/spdy.rs:263-271 | the bytes of a SETTINGS frame, type 4, with one entry |
| `WireImages.DataImage` | crates/cri/src/spdy.rs:301-311 | the bytes of a DATA frame with FIN |
| `WireImages.SynStreamImage` | crates/cri/src/spdy.rs:243-257 | a SYN_STREAM frame, type 1, around its compressed block |
| `WireImages.SynReplyImage` | crates/cri/src/spdy.rs:231-242 | a SYN_REPLY frame, type 2, around its compressed block |
| `WireImages.HeadersImage` | crates/cri/src/spdy.rs:284-295 | a HEADERS frame, type 8, around its compressed block |
| `WireImages.TopBitIsDropped` | crates/cri/src/spdy.rs:221-313 | stream ids and window deltas lose their top bit, PING ids do not |
| `WireImages.UnknownTypeIsSkipped` | crates/cri/src/spdy.rs:206-214 | an unknown control type is consumed as an empty SETTINGS |
| `WireImages.ShortGoAway` | crates/cri/src/spdy.rs:194-201 | a GOAWAY that stops after the id has status 0 |
| `WireImages.ShortSettings` | crates/cri/src/spdy.rs:175-190 | a SETTINGS that counts more entries than it holds has those it holds |
| `WireImages.FinIsBitZero` | crates/cri/src/spdy.rs:750-763 | a DATA frame delivers a non-empty payload and takes its stream out of the table exactly when bit 0 of its flags is set |
| `WireImages.SynStreamIsTaken` | crates/cri/src/spdy.rs:731-749 | a stream is opened exactly when its reply is written and it is accepted |
| `WireImages.OtherFramesInTheLoop` | crates/cri/src/spdy.rs:764-772 | what PING, RST_STREAM, GOAWAY and the ignored frames do |
| `WireImages.ReadsUpToEndOfInput` | crates/cri/src/spdy.rs:774-778 | the loop sees everything read before the first empty read and nothing after it |
| `SharedWriter.PeerRecovers` | crates/cri/src/spdy.rs:611-638 | a peer with a matching inflate state reads back exactly the frames printed |
| `SharedWriter.SpdyWriter.Write` | crates/cri/src/spdy.rs:632-638 | one critical section appends the frame's image, or the part the transport accepts before failing; the deflate state has then seen every frame, and the wire is their image as long as no write was cut short |
| `SharedWriter.StepKeepsInv` | crates/cri/src/spdy.rs:611-638 | every lock, partial push, unlock and cut write keeps the wire, as it was up to the first cut, a sequence of whole frames plus at most part of the last one, and every task's frames in its own order |
| `SharedWriter.RunKeepsInv` | crates/cri/src/spdy.rs:611-638 | the same at every moment of every run |
| `SharedWriter.CutFrameIsInvisible` | crates/cri/src/spdy.rs:632-638 | while the last frame is only partly on the wire, or was cut there, a peer reads exactly the frames before it |
| `SharedWriter.WireIsWholeFramesInLockOrder` | crates/cri/src/spdy.rs:611-638 | in every run, a peer with a fresh inflate state reads exactly the frames printed in lock order, each task's frames being the beginning of its program; after a write was cut short this holds of the wire up to the cut, which later writes only extend |
| `SharedWriter.ClientFramesReachTheServer` | crates/cri/src/spdy.rs:611-780 | frames written by one side and read in any chunks by the other open exactly the streams and earn exactly the replies they ask for |
| `Layers.ApplyKeepsPrefixClosed` | crates/snapshots/src/diff.rs:109-130 | each entry leaves a tree in which everything lies in directories |
| `Layers.ApplyPointwise` | crates/snapshots/src/diff.rs:109-144 | where each path stands after one entry |
| `Layers.OpaqueMarkerClears` | crates/snapshots/src/diff.rs:69-71 | the entry `parent/.wh..wh..opq` removes everything strictly below `parent` and keeps `parent` and everything else |
| `Layers.WhiteoutMarkerErases` | crates/snapshots/src/diff.rs:72-75 | the entry `parent/.wh.<name>` removes `parent/<name>` and everything below it and nothing else; for an empty name or `.` that is `parent`, for `..` nothing |
| `Layers.OtherEntryIsWritten` | crates/snapshots/src/diff.rs:109-112 | any other entry is written at its own path with the directories above it, nothing else changes, and it is refused exactly when the target is gone, a file is above it or the kinds clash |
| `Layers.EscapesAreIgnored` | crates/snapshots/src/diff.rs:146-156 | a path with `..`, a rooted whiteout and the target itself change nothing |
| `Layers.LayerPointwise` | crates/snapshots/src/diff.rs:93-133 | at every path the applied layer agrees with the OCI rule unless the layer itself loses that path |
| `Layers.LayerIsOciExactlyWhenEntriesSurvive` | crates/snapshots/src/diff.rs:93-133 | one layer is applied as the OCI rule says if and only if no whiteout erases an earlier entry of the same layer that is not written again |
| `Layers.WhiteoutsFirstSuffices` | crates/snapshots/src/diff.rs:113-129 | that holds when whiteouts come before the entries they would hit |
| `Layers.WhiteoutAfterEntryLosesIt` | crates/snapshots/src/diff.rs:113-119 | a file of any ordinary name followed by its own whiteout is gone although the rule keeps it |
| `Layers.UnpackPointwise` | crates/cri/src/server.rs:482-497 | at every path the fold over the layers agrees with the OCI merge unless the last layer that mentions the path loses it |
| `Layers.UnpackIsOciExactlyWhenNothingIsLost` | crates/cri/src/server.rs:482-497 | the unpacked rootfs is the OCI merge of all layers if and only if no path is lost in the end, and it is prefix-closed |
| `Layers.UnpackIsOci` | crates/cri/src/server.rs:482-497 | in particular when every layer keeps its own entries |
| `Layers.Rootfs.RemovePath` | crates/snapshots/src/diff.rs:135-144 | removes the path and everything below it, nothing else |
| `Layers.Rootfs.ClearChildren` | crates/snapshots/src/diff.rs:120-128 | the loop over children removes everything below the directory and keeps the directory |
| `Layers.Rootfs.ApplyLayerInPlace` | crates/snapshots/src/diff.rs:93-133 | the in-place loop computes the layer, stops at the first error, and keeps the tree prefix-closed throughout |
| `Layers.StandingIs` | crates/snapshots/src/diff.rs:109-130 | after any entries, each path stands as the last entry to mention it left it |
| `Layers.LayerUnpacksExactlyWithoutClashes` | crates/snapshots/src/diff.rs:109-133 | a layer unpacks without error if and only if no entry is written where the target is gone, below a file, or over the other kind of node |
| `Layers.StackUnpacksExactlyWithoutClashes` | crates/cri/src/server.rs:482-497 | the same for a whole stack, over all entries of all its layers |
| `Layers.FileOverDirectoryFails` | crates/snapshots/src/diff.rs:110-112 | a file written over a directory is an error although the rule replaces the directory |
| `Layers.UnpackBlobsIsUnpack` | crates/cri/src/server.rs:482-497 | with digests looked up in the content store: success needs every layer readable to its end, and the result is then that of the layers' entries |
| `Layers.Rootfs.UnpackRootfs` | crates/cri/src/server.rs:482-497 | the loop over layer digests computes the fold and stops at the first bad digest, missing blob, broken archive or failing entry |
| `ImageRootfs.LiveImageUnpacksToItsMerge` | crates/cri/src/server.rs:482-497 | in every run of pulls and removals, every layer of a live record is readable with the content its digest names; its rootfs fails only for a broken archive or a clash, and is otherwise the OCI merge if and only if no path is lost in the end |
| `Containers.NextKeepsInv` | crates/cri/src/server.rs:1557-1788 | every step keeps exit code and finish time set exactly on Exited records |
| `Containers.RunKeepsInv` | crates/cri/src/server.rs:1557-1788 | the same at every moment of every run |
| `Containers.StepIsLegal` | crates/metadata/src/records.rs:29-41 | a step moves states only along `can_transition_to`, never leaves Exited and never revives a deleted record |
| `Containers.EveryStepIsLegal` | crates/metadata/src/records.rs:29-41 | in every run of create, start, split stop, supervisor exit, resize, remove, crash and reconcile |
| `Containers.ExitedAndDeletedAreFinal` | crates/cri/src/server.rs:1557-1788 | between any two moments of a run, Exited stays Exited or is removed and a deleted id does not come back |
| `Containers.SealedStep` | crates/cri/src/server.rs:1625-1649 | a step leaves an exit that nobody supervises as it is |
| `Containers.SealedStays` | crates/cri/src/server.rs:1625-1649 | an exit without a live supervisor keeps its code, time and reason for the rest of the run |
| `Containers.SupervisorHasTheLastWord` | crates/cri/src/server.rs:1746-1757 | once the supervisor has recorded a code nothing changes it |
| `Containers.ForwardUntilCrash` | crates/cri/src/server.rs:1557-1788 | within one daemon lifetime a record's state only moves forward, and its start time and handles change only when it moves |
| `Containers.SplitResizeCanUndoAnExit` | crates/cri/src/server.rs:2125-2156 | a run in which a resize split at its await writes a Running record over an Exited one |
| `Containers.SplitResizeCanUndoAnExitCode` | crates/cri/src/server.rs:2125-2156 | a run in which it writes a forced stop's -1 over the code the supervisor recorded |
| `Containers.SplitResizeIsSafeExactlyWhenUnmoved` | crates/cri/src/server.rs:2125-2156 | such a write is a legal move that keeps Exited and the exit fields if and only if the record is still there with the state, exit code, finish time and reason that were read; it then equals the resize done in one step |
| `Containers.RuntimeSvc.constructor` | crates/cri/src/server.rs:2982-2992 | a fresh daemon has no records |
| `Containers.RuntimeSvc.CreateContainer` | crates/cri/src/server.rs:1355-1450 | adds a Created record with no exit, no start time and no handles |
| `Containers.RuntimeSvc.StartContainer` | crates/cri/src/server.rs:1679-1723 | not found, not Created, bundle missing, or the record becomes Running and gets a supervisor |
| `Containers.RuntimeSvc.SuperviseEnds` | crates/cri/src/server.rs:1746-1757 | the supervisor's final write, if the record still exists |
| `Containers.RuntimeSvc.StopContainerBegin` | crates/cri/src/server.rs:1565-1566 | stop goes on to wait exactly for a record that is not Exited |
| `Containers.RuntimeSvc.StopContainerFinish` | crates/cri/src/server.rs:1629-1649 | the re-read record is forced to Exited only if nobody else has done so |
| `Containers.RuntimeSvc.UpdateContainerResources` | crates/cri/src/server.rs:2125-2159 | not found, failed update, no limits in the request, or only the resources change |
| `Containers.RuntimeSvc.RemoveContainer` | crates/cri/src/server.rs:1657-1677 | deletes the record, present or not |
| `Containers.RuntimeSvc.Reconcile` | crates/cri/src/server.rs:2982-3030 | the loop over the listing computes the reconciled table, the three counters and the set handed to crun for deletion |
| `Containers.ReconcileRecord` | crates/cri/src/server.rs:2997-3027 | the three answers of crun applied to one Running record |
| `Containers.ReportCountsEachRunningOnce` | crates/cri/src/server.rs:2982-3030 | readopted plus reaped plus marked-unknown is the number of Running records at the start |
| `Containers.ReconcileIsLegalAndIdempotent` | crates/cri/src/server.rs:2982-3030 | only Running records are touched, moves are legal, nothing crun reports as running is deleted, and a second pass with the same answers changes and reaps nothing |
| `Containers.ReconcileOutcomes` | crates/cri/src/server.rs:2997-3027 | the reaped are exactly the once-Running records now Exited, with -1, the time of the pass and "Unknown"; the marked unknown exactly those now Unknown and otherwise unchanged; the readopted exactly those still Running, with the reported pid |
| `Containers.ForbiddenMoves` | crates/metadata/src/records.rs:29-41 | the only forbidden moves are back to Created and from Exited to Running |
| `ContainerHistory.RecordFollowsTheCalls` | crates/cri/src/server.rs:1355-1788 | in every run a record is there exactly if created and not removed since, Created exactly if not started or ended since, Running exactly if started and not stopped, reported, removed or found not to run since |
| `ContainerHistory.TasksFollowTheCalls` | crates/cri/src/server.rs:1557-1788 | in every run a container is supervised exactly if started and not reported since in this daemon's lifetime, the daemon serves exactly if it has not crashed or has reconciled since, and the waiting stops are those begun and not finished |
| `ContainerHistory.LimitsAndStartAreTheLastAsked` | crates/cri/src/server.rs:2125-2159 | in every run a record has the limits last asked for and the time of its start |
| `ContainerHistory.EveryExitIsSomebodys` | crates/cri/src/server.rs:1629-1649 | in every run an exit is a supervisor's code and time, a forced stop's -1, or a reconcile's -1 with "Unknown", and no supervisor has reported since |
| `ContainerHistory.StoppedMeansExited` | crates/cri/src/server.rs:1629-1649 | after a finished stop or a supervisor's report a record that is there is Exited |
| `Sandboxes.NextKeepsInv` | crates/cri/src/server.rs:806-922 | run, stop and remove keep the three sandbox invariants |
| `Sandboxes.RunKeepsInv` | crates/cri/src/server.rs:806-922 | in every run, CNI and holder spawning failing at will: at most one Ready sandbox per pod, live holders exactly the recorded pids with none in two records, live network namespaces exactly those of the non-host-network records |
| `Sandboxes.HoldersKept` | crates/cri/src/server.rs:1037-1086 | the holder part: a step starts or ends exactly the holders whose records it writes |
| `Sandboxes.NothingLeaks` | crates/cri/src/server.rs:806-826 | a rejected RunPodSandbox changes nothing on the host, and without records no holder or namespace is left |
| `SandboxHistory.RecordFollowsTheCalls` | crates/cri/src/server.rs:696-922 | in every run a sandbox is there exactly if its RunPodSandbox went through and it was not removed since, Ready exactly if besides not stopped since and no later one of its pod went through, and has exactly the holder spawned for it until it is stopped or removed |
| `SandboxHistory.RecordShowsItsRequest` | crates/cri/src/server.rs:723-742 | in every run a record shows the pod and the namespace modes its own request asked for |
| `SandboxHistory.AcceptedMeans` | crates/cri/src/server.rs:743-826 | a request goes through exactly with the host's user namespace or one mapping each from id 0, and the host network or a working CNI network |
| `Sandboxes.PodSvc.Demote` | crates/cri/src/server.rs:889-913 | the loop makes every other Ready sandbox of the same pod NotReady and changes nothing else |
| `Sandboxes.PodSvc.RunPodSandbox` | crates/cri/src/server.rs:696-922 | the step with its two refusals, the teardown after a CNI failure, the holder and the demotion |
| `Sandboxes.PodSvc.StopPodSandbox` | crates/cri/src/server.rs:1037-1060 | NotReady, holder killed and forgotten, namespace kept |
| `Sandboxes.PodSvc.RemovePodSandbox` | crates/cri/src/server.rs:1062-1086 | namespace torn down unless on the host network, holder killed, record deleted |
| `Digests.PrintParse` | crates/core-types/src/lib.rs:62-91 | a digest prints to 71 characters and parses back to itself |
| `Digests.PrintInjective` | crates/core-types/src/lib.rs:62-66 | different digests print differently |
| `Digests.CanonicalIsUnique` | crates/core-types/src/lib.rs:62-91 | one digest has one canonical string |
| `Digests.ParseAcceptsAnyCase` | crates/core-types/src/lib.rs:71-91 | exactly `sha256:` and 64 hex digits of any case parse, and they canonicalise to lower case |
| `Digests.ChainIds` | crates/images/src/identity.rs:14-27 | the loop over its own previous element computes the OCI image-spec's recursive chainID at every index |
| `Digests.ChainIdText` | crates/images/src/identity.rs:14-27 | the hashed text, written out: the chainID below, one blank, the diffID, both with `sha256:` |
| `Digests.ChainIdIdentifiesStack` | crates/images/src/identity.rs:14-27 | stacks of one height have the same chainID if and only if they are equal, when the hash does not collide on their texts |
| `Digests.SharedChainMeansSharedLayers` | crates/images/src/identity.rs:14-32 | two images share the chainID at an index if and only if their diffIDs up to it agree |
| `Digests.ChainStableUnderAppend` | crates/images/src/identity.rs:14-27 | layers added on top leave the chainIDs below alone |
| `Content.NextKeepsInv` | crates/content/src/lib.rs:99-214 | every step keeps blobs addressed by their hash and each open writer on its own staging file, which holds what its hasher has seen |
| `Content.EveryRunIsClean` | crates/content/src/lib.rs:99-214 | for every interleaving of writers and removals: committed blobs hash to their names, no two open writers share a staging file, and once all are finished the staging area is empty |
| `Content.CommitStoresWhatWasWritten` | crates/content/src/lib.rs:150-183 | a commit is accepted exactly for the bytes of the size and digest asked for; a rejected one leaves the blobs unchanged |
| `ContentHistory.WritersFollowTheOperations` | crates/content/src/lib.rs:99-214 | in every run the open writers are exactly those opened and not committed or dropped since, each having hashed exactly the bytes written to it in order |
| `ContentHistory.BlobsFollowTheOperations` | crates/content/src/lib.rs:71-183 | in every run a blob is there exactly if a writer was committed under its digest with the size and digest of its bytes and it was not removed since |
| `Content.BlobStore.constructor` | crates/content/src/lib.rs:43-48 | an empty store |
| `Content.BlobStore.OpenWriter` | crates/content/src/lib.rs:99-122 | a new writer on a staging file nobody else has |
| `Content.BlobStore.WriteSome` | crates/content/src/lib.rs:187-196 | a short write hashes and counts exactly the bytes that reached the file |
| `Content.BlobStore.CommitWriter` | crates/content/src/lib.rs:150-183 | size check, digest check, dedup, rename; the staging file is gone in every case |
| `Content.BlobStore.DropWriter` | crates/content/src/lib.rs:207-214 | removes the staging file, blobs unchanged |
| `Content.BlobStore.RemoveDigest` | crates/content/src/lib.rs:71-79 | removes one blob and reports whether it was there |
| `Content.BlobStore.WriteBlob` | crates/content/src/lib.rs:125-129 | a whole blob in chunks: stored exactly when its size and digest match, with no writer or staging file left over |
| `Images.ReclaimBlobs` | crates/images/src/gc.rs:43-52 | the loop removes exactly the named digests no live record names and counts those that existed |
| `Images.ReclaimBlob` | crates/images/src/gc.rs:43-52 | one name: kept if live or not a digest, else its blob is removed and counted if it existed |
| `Images.ReclaimDirs` | crates/images/src/gc.rs:54-64 | the same for snapshot directories |
| `Images.PullKeeps` | crates/images/src/pull.rs:201-302 | a pull, finished or not, only adds blobs, each hashing to its name; a finished one has stored every blob it names |
| `Images.RecordedKept` | crates/cri/src/server.rs:2286-2335 | recording a pull keeps records keyed by image id, digest strings canonical, tag and digest lists without duplicates |
| `Images.LiveBlobsSurvive` | crates/images/src/gc.rs:35-52 | no blob of a remaining record is doomed, because canonical strings do not alias |
| `Images.NextKeepsInv` | crates/cri/src/server.rs:2243-2403 | every pull, finished or not, and every removal keeps the record and blob invariants |
| `Images.RunKeepsInv` | crates/cri/src/server.rs:2243-2403 | every run of pulls and removals keeps them |
| `Images.EveryNamedBlobIsThere` | crates/cri/src/server.rs:2286-2394 | in every run, every blob a live record names is present and hashes to its name |
| `Images.RemovalReclaimsExactly` | crates/cri/src/server.rs:2381-2394 | in every run, a removal deletes exactly the blobs only the removed record names, `blobs_removed` is their number, and no snapshot directory goes |
| `Images.PulledReferenceIsListed` | crates/cri/src/server.rs:2286-2335 | a finished pull lists the reference on the record of its image id and leaves other records alone |
| `PullRecords.PullFinishesExactlyWhenAllIsWell` | crates/images/src/pull.rs:197-302 | a pull finishes if and only if the config lists one readable diffID per layer, every layer arrives with its promised size and digest, decompresses to its diffID and unpacks, and the manifest digest is absent or readable |
| `PullRecords.FailedPullRecordsNothing` | crates/cri/src/server.rs:2266-2284 | any other pull changes no record and removes no blob |
| `PullRecords.FailedLoopLeavesExactly` | crates/images/src/pull.rs:227-283 | the loop stops at the first bad layer and leaves the layers before it, its blob exactly if its bytes arrived as promised and its directory exactly if besides they decompress to the diffID |
| `PullRecords.NewRecordNamesWhatWasPulled` | crates/cri/src/server.rs:2302-2321 | the record of a new image has the config's digest as its id, the printed digest of each descriptor in manifest order with that layer's bytes under it, the chainIDs of the config's diffIDs in order, and the total size |
| `PullRecords.NewRecordReferences` | crates/cri/src/server.rs:2286-2330 | it is named and listed under a digest reference as it is, under any other normalized and under its repository at the manifest digest |
| `PullRecords.KnownRecordOnlyGainsTheReference` | crates/cri/src/server.rs:2299-2330 | a known image's record keeps all it named and gains at most the reference, at the end |
| `PullRecords.EveryRecordNamesAPulledImage` | crates/cri/src/server.rs:2286-2335 | in every run a live record names the config, layers and chainIDs of some finished pull, all and in order |
| `PullRecords.RemovalDeletesExactlyTheUnshared` | crates/cri/src/server.rs:2381-2394 | in every run a removal deletes a blob if and only if the removed image names it as config or layer and no remaining image does |
| `PullRecords.UntaggedMeansLatest` | crates/cri/src/server.rs:110-134 | a reference without a tag means `:latest`, whatever port its registry has |
| `PullRecords.TaggedMeansItself` | crates/cri/src/server.rs:110-134 | a tagged reference means itself and its repository is what comes before the tag |
| `PullRecords.DigestReferenceMeansItself` | crates/cri/src/server.rs:119-134 | so does a reference with an `@` |
| `PullRecords.PulledReferenceIsFound` | crates/cri/src/server.rs:2198-2220 | after a finished pull, looking its reference up finds a record that lists it |
| `Images.ImageSvc.constructor` | crates/content/src/lib.rs:43-48 | an empty store and no images |
| `Images.ImageSvc.Remove` | crates/cri/src/server.rs:2372-2403 | the removal step with the counts reclaim reports |
| `Images.ImageSvc.FetchLayer` | crates/images/src/pull.rs:227-283 | one layer: bad digest, negative size, broken stream, mismatch, wrong diffID or failed unpack stop the pull with exactly the blobs and directories made so far |
| `Images.ImageSvc.FetchLayers` | crates/images/src/pull.rs:224-283 | the layer loop with its running total and digest list |
| `Images.ImageSvc.PullRef` | crates/cri/src/server.rs:2243-2339 | the whole pull step, from the config blob to the aggregated record |
| `Namespaces.GenerateEntries` | crates/runtime/src/bundle.rs:645-666 | the entries of every kind after the whole pipeline, for any request and any base |
| `Namespaces.ContainerNamespaces` | crates/cri/src/server.rs:732-742 | at most one entry per type; PID and IPC absent exactly for host mode, the holder's path exactly when shared and a holder exists, else private; network the pod's or absent |
| `Namespaces.ContainersJoinLiveNamespaces` | crates/cri/src/server.rs:1196-1208 | in every run of sandbox run, stop and remove, a container joins a PID or IPC namespace only of a live holder that is no other sandbox's, and a network namespace only if it is live |
| `Namespaces.JoinWouldOverrideHost` | crates/cri/src/server.rs:1196-1208 | a request both host and joined would end up joined, and no sandbox produces one |
| `Namespaces.SetNetworkEntries` | crates/runtime/src/bundle.rs:1011-1031 | one network entry with the path, or none for host networking |
| `Namespaces.HostEntries` | crates/runtime/src/bundle.rs:991-1007 | host modes drop exactly the PID and IPC entries |
| `Namespaces.UserEntries` | crates/runtime/src/bundle.rs:698-733 | mappings add a user entry only if there is none |
| `Namespaces.JoinEntries` | crates/runtime/src/bundle.rs:1036-1055 | joining replaces every entry of the type by one with the path |
| `Namespaces.OciSpec.Join` | crates/runtime/src/bundle.rs:1036-1055 | the helper in place |
| `Namespaces.OciSpec.GenerateSpec` | crates/runtime/src/bundle.rs:645-666 | the rewrites in place, in the order of the source, compute the pipeline |
| `Seccomp.KeyIgnoresCase` | crates/runtime/src/bundle.rs:326-345 | letter case of a capability name does not matter |
| `Seccomp.KeyIgnoresPrefix` | crates/runtime/src/bundle.rs:326-345 | nor does a CAP_ prefix, unless white space follows it |
| `Seccomp.DropCaps` | crates/runtime/src/bundle.rs:371-382 | the drop loop: set difference, or empty with ALL, whatever order and repetition |
| `Seccomp.AddCaps` | crates/runtime/src/bundle.rs:385-396 | the add loop: union with the known names, or everything with ALL |
| `Seccomp.KeyIsWhatIsSpelled` | crates/runtime/src/bundle.rs:326-345 | a name means a capability exactly if it is white space, any number of CAP_, the capability's letters in any case, white space |
| `Seccomp.AdjustedByName` | crates/runtime/src/bundle.rs:371-396 | a capability is left exactly if it or ALL is spelled among the adds, or it is a default and neither is spelled among the drops; other names change nothing |
| `Seccomp.ProcessCapabilities` | crates/runtime/src/bundle.rs:352-404 | the final set, by what the names spell: the defaults minus drops plus adds, with ALL clearing or filling; the ambient set follows it only when lists or privilege were given |
| `Seccomp.RuntimeDefault` | crates/runtime/src/seccomp.rs:118-149 | the loop with its early continues keeps exactly the matching blocks in order |
| `Seccomp.KeptBlocksAre` | crates/runtime/src/seccomp.rs:118-149 | a block is emitted if and only if it is in the profile, none of its excluded capabilities is held and none of its excluded architectures is the host's, one of its included ones is if it names any, and it excludes no kernel version |
| `Seccomp.MonotoneExactlyWhenCovered` | crates/runtime/src/seccomp.rs:118-149 | enlarging the capability set never removes an allowed call if and only if what one more capability excludes is covered by blocks then kept |
| `Seccomp.MoreCapsAllowMore` | crates/runtime/src/seccomp.rs:118-149 | that holds when each capability that excludes an ALLOW block also includes an unconditional one for the same names |
| `Seccomp.UncompensatedCapCanForbid` | crates/runtime/src/seccomp.rs:118-149 | otherwise adding a capability can forbid a call |
| `Seccomp.VendoredProfileIsCompensated` | crates/runtime/src/seccomp/default_profile.json:594-686 | the vendored profile meets it: CAP_SYS_ADMIN, the only capability that excludes ALLOW blocks, also allows clone unconditionally |
| `Seccomp.CloneIsGatedBySysAdmin` | crates/runtime/src/seccomp/default_profile.json:594-686 | under it a `clone` that misses its host's mask is allowed exactly to a process that holds SYS_ADMIN, and one that meets it to every process |
| `Seccomp.AddingCapabilitiesNeverForbids` | crates/runtime/src/bundle.rs:510-526 | adding more or dropping fewer capabilities in the request never takes a call away under such a profile |
| `CriLog.CriLogLine` | crates/cri/src/server.rs:2685-2709 | the loop with its moving index formats full lines but the empty ones, then a trailing partial line |
| `CriLog.LinesOnTheWire` | crates/cri/src/server.rs:2685-2709 | a chunk with a full, an empty and a partial line, written out with its F and P tags |
| `CriLog.ContainerLog.constructor` | crates/cri/src/server.rs:2795-2797 | an empty log file, or none if it could not be made |
| `CriLog.ContainerLog.Pump` | crates/cri/src/server.rs:2725-2731 | one turn of a pump: the chunk goes formatted to the file, if there is one, and verbatim to the live bus |
| `CriLog.ContainerLog.PumpStream` | crates/cri/src/server.rs:2721-2733 | every chunk of a reader in order, after whatever the log already holds |
| `CriLog.ChunkReadsBack` | crates/cri/src/server.rs:2685-2709 | one chunk, whatever follows it in the log, reads back as itself minus its empty full lines |
| `CriLog.KeptExactlyWithoutEmptyLines` | crates/cri/src/server.rs:2695-2698 | nothing is lost from a chunk if and only if it has no empty full line |
| `CriLog.NonNewlinesSurvive` | crates/cri/src/server.rs:2685-2709 | every byte that is not a newline survives, in order |
| `CriLog.LogReadsBack` | crates/cri/src/server.rs:2685-2733 | for every sequence of chunks and every set of streams read back, non-newline bytes are kept in order and the whole reads back if and only if no chunk of these streams contains an empty full line |
| `CriLog.EachStreamReadsBack` | crates/cri/src/server.rs:2811-2832 | however the stdout and stderr pumps take turns on the log, the records of one stream give that stream's own output minus its empty full lines and nothing of the other |
| `KeyedLocks.NextKeepsInv` | crates/cri/src/locks.rs:29-35 | every lookup, acquisition, abandoned wait and release keeps distinct keys on distinct mutexes and each mutex locked exactly while one caller holds it |
| `KeyedLocks.RunKeepsInv` | crates/cri/src/locks.rs:29-35 | the same in every interleaving |
| `KeyedLocks.EntriesAreForever` | crates/cri/src/locks.rs:29-35 | a key's mutex never changes once made |
| `KeyedLocks.PhasesFollowTheSteps` | crates/cri/src/locks.rs:29-35 | in every interleaving a caller holds a guard exactly if it acquired one and has not released it since, and for the key it last asked for |
| `KeyedLocks.SameKeySerialisesOthersRunFree` | crates/cri/src/locks.rs:29-35 | at most one caller holds a key, and a waiting caller can take its key exactly when nobody holds that key, whatever else is held |
| `KeyedLocks.Registry.Entry` | crates/cri/src/locks.rs:30-33 | returns the key's mutex, making one only on first use |

## Left out

- zlib internals, the dictionary bytes and compression failures: a foreign library; compression is total here.
- Allocation sizes asked for by a received count or length: memory is not modelled.
- Senders whose receiver has gone: a payload sent to a dropped stream is counted as sent.
- WebSocket and HTTP upgrade handlers, the exec, attach and port-forward pumps: I/O plumbing.
- Registry access, credentials, hosts.toml: network clients; a registry answer is an `Offer`.
- SHA-256, tar, gzip, zstd, JSON and redb: abstract functions, maps or oracles.
- The tar crate's unpacking rule (skipped `..`, parents created, an error for a file in the way or for a clash of file and directory) is taken as given.
- Symlinks, hard links, modes, owners and non-UTF-8 names in layers: not in the tree.
- Overlaying the per-layer snapshot directories: only the sequential merge of `unpack_rootfs` is modelled.
- I/O errors of the content store, stale staging files of earlier processes, 64-bit overflow of sizes.
- What a peer reads after a write was cut short and later ones followed: its parse is out of step from there on.
- Concurrency between PullImage and RemoveImage: each is one step, because the pull lock does not cover removal.
- A moved tag stays on its old record in the source and in the model; no uniqueness of tags is claimed.
- The image record's user field and the record's other descriptive fields: copied, never decided on.
- A holder process that dies by itself, a pid reused while still recorded, a spawn that fails after forking.
- Failing store operations in the sandbox and container calls.
- Rotation of the log file (ReopenContainerLog), the pty supervisor, and the order of live frames of different streams.
- Seccomp.KeyIgnoresCase: trimming and upper-casing are modelled for ASCII letters and white space only, because the source uses Rust's Unicode tables.
- The kernel's precedence between a matching ALLOW block and a matching other block, the architecture list and errno values of the seccomp profile: a call counts as allowed when some kept ALLOW block matches it.
- The user namespace mapping values, mounts, devices, sysctls, cgroup resources, masked paths, hostname and argv of `generate_spec`: easy copies.
- The tables of all and of default capabilities are data; nothing is proved of which names they hold beyond their form.
- Stats, metrics, events, Version and Status, configuration and logging: no hard property.
