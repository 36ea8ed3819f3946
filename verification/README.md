# Verified model of beanstore

beanstore keeps each volume's lifecycle state as LVM tags on the volume itself, moves volumes between
nodes with a commit protocol, and repairs every crash from the tags alone. This project models those
three things in Dafny and proves what they promise. `dafny verify dfyconfig.toml` checks all of it.

## What is modelled

| module | what it is |
|---|---|
| `Digest`, `Reader` | chunk hashes, the content digest, reading a device as frames, copying a device |
| `Sessions`, `Stream` | one inbound transfer (frame checks, gap filling, commit comparison), and streams that are cut and resumed |
| `ThinPool` | thin pools without zeroing and the chunk size check |
| `Lvm`, `Tags` | the lvs of a node and the commands on them, and the tag lists the records are kept in |
| `Recover`, `RecoverExact`, `Outcomes` | recovery as passes over a scan that may be cut anywhere, the state they reach, exactly when they agree, and what becomes of each volume on its fields alone |
| `Rollbacks`, `Leftovers` | a rollback as phases, recovery after each of them, the sweeps, and what a copy that was never swept does to a delete |
| `Order`, `Clients` | two invariants of a node's lvs, and the lvm client with the history of all states lvm was in |
| `Pins`, `Volumes`, `Deletes`, `Pushes`, `Readers`, `RollbackVerbs`, `Startup`, `Resolve` | the verbs as the daemon runs them, one lvm command after the other, against that client |
| `TransferTable` | the table of inbound transfers over the client |
| `Push`, `PushRuns` | the stream and commit retry loops against a target, and whole pushes of volumes and snapshots |
| `Cluster`, `Handover` | the move protocol between any number of nodes for one volume id, and no loss over its runs |

How the pieces meet: the verbs are methods over a `Client` that records every state lvm goes through,
because a crash may fall after any of them. `Client.Valid` says both invariants of `Order` hold at every
recorded state, and the second one implies the condition under which `Recover` converges. The client
also records the calls that failed. Each verb's contract says what it leaves whatever fails, and that it
only reports a failure, skips a step or leaves something behind where a call did fail. `RollbackVerbs`
shows that the recorded states of a rollback are the phases of `Rollbacks`, `Deletes` that those of a
delete are the points its recovery theorem is about, and `Startup` that the recovery loop is a pass of
`Recover`. `Pushes` and `TransferTable` show that what the verbs leave, restarts, queries, prepares,
commits and the ends of sessions are the steps of `Cluster`. `Push` and `PushRuns` run the driver's loops against a target that commits as in
`Cluster`, and show that what the source concludes about that target is so.

## What is assumed

- SHA-256 (section 6.2 of FIPS 180-4) is any function from byte strings to 32 bytes. It is never
  assumed injective. The theorems name the pairs of strings that a commit compares (`Distinguishes`) and
  ask that these do not collide.
- An lvm command takes full effect or none. A command that reports failure may have landed
  all the same, in every verb, and the contracts say what that leaves. In `Cluster` the steps whose report
  matters carry one (`Works`, `Fails`, `Misreports`), and its theorems hold for all of them. Data is lost,
  or comes back, after a false report in these places:
  the removal inside a rollback, where the undo then removes the copy as well (`FalseReportLoses`, and
  `AnyCutRecovers` says exactly when the volume is still there);
  the create of the rollback copy, which leaves the copy that `DeletedVolumeReturns` starts from;
  a mark of `MarkDeleting`, after which the next recovery removes what was marked although the delete was
  reported as failed (`DeleteRecovers`);
  the removals of `DeleteSnapshot` and `RunDelete`, which are done although reported as failed;
  and the creates of `CreateVolume` and `CreateSnapshot`, which leave what they were to create.
- Verbs on one id are serialized by the orchestrator, so a check and the command after it are one step.
- Every verb method runs alone against the client. In the daemon, background copies, deletes, transfers and
  pushes of different ids interleave on one node. They touch different records, apart from lvm origins that
  a removal or rename relinks, but the contracts here are about one verb at a time.
- Volume ids are minted once and transfer ids name one volume id. The node level model does not require it:
  a verb that takes a name some snapshot or rollback copy still refers to sets `reused`, and
  the convergence results hold while it is not set.
- In `Cluster`: while a node is COMMITTING, its target's copy is not deleted, and no
  CommitTransfer runs after the source acts on an answer. `LateCommitReachable` and
  `LateCommitBreaksAuthority` show a run in which dropping the last one leaves two READY copies.
- `Commit` is one step with respect to grace expiry and Abort.
- Device sizes are signed 64 bit seek positions. Frame offsets are not restricted: the sum in the frame
  check wraps. A frame at an offset of 2^63 or more can pass the check by wrapping, but its position is
  negative to the file, the write fails, and the session cannot commit any more (`WriteKeepsSound`).

## Where the code does less than its documentation says

- Recovery is described as applying one rule per state. Its result depends on scan order and on crashes
  exactly when a rollback copy waits for a volume that recovery removes, or when a snapshot without a lineage
  tag hangs on such an lv (`ConvergesIff`). The verbs reach the first case: a rollback whose removal
  of the volume failed and whose undo failed with it leaves the copy behind, and a delete of the volume
  that is cut after its marks leaves a node of which two completed recoveries differ
  (`MarkedDeleteDiverges`). If the delete runs to its end, every completed recovery brings the deleted
  volume back READY (`DeletedVolumeReturns`, `DeletedReturnsIff`).
- `sweepRollback` is described as applying the recovery rules inline. It does, except that it looks for any lv
  under the volume's name and recovery looks for beanstore's own: they differ exactly when a foreign
  lv has taken the name (`SweepsMatchRecovery`).

## Model

| member | source | states |
|---|---|---|
| `Digest.ContentDigestInjective` | internal/storage/digest.go:19-56 | the digest over ordered chunk hashes plus size tells any two contents apart, short of a hash collision |
| `Digest.DigestBindsLogAndSize` | internal/storage/digest.go:48-56 | equal digests mean the same size and the same sequence of chunk hashes, their number included |
| `Digest.DigestBuilder.AddChunk` | internal/storage/digest.go:32-35 | the outer hash takes the hash of the bytes, and stays the concatenation of the logged chunk hashes |
| `Digest.DigestBuilder.AddZeroChunk` | internal/storage/digest.go:37-46 | a skipped zero chunk enters the outer hash as the hash of as many zero bytes, at most one chunk |
| `Digest.DigestBuilder.Sum` | internal/storage/digest.go:48-56 | the digest of the hash stream so far and the big endian size, the builder is spent |
| `Digest.LogBytes` | internal/storage/digest.go:32-47 | the hashed bytes of a content are one hash of 32 bytes for each 1 MiB from its start, the last piece perhaps shorter, in order |
| `Digest.SizeWordBytes` | internal/storage/digest.go:49-55 | the size word has its eight bytes most significant first |
| `Reader.ReadDevice` | internal/storage/reader.go:19-73 | the frames handed over are the non-zero chunks in order up to the failure, a full read computes the content digest, and exactly when it is full and whether the device or the sink stopped it |
| `Reader.FramesAreChunks` | internal/storage/reader.go:42-71 | every frame holds a byte that is not zero and exactly the device's bytes from its aligned offset to the next one or the end, and offsets increase |
| `Reader.FramesRestore` | internal/storage/reader.go:42-71 | the frames written over zeros restore the content they were read from |
| `Reader.CopyDevice` | internal/storage/copy.go:12-40 | success means the target equals the source byte for byte, and exactly which failures prevent it, opening the two devices included |
| `Sessions.WriteKeepsSound` | internal/storage/transfers.go:170-215 | for any frame and disk outcome the hash stream is never shorter than the offset calls for, and equal only while device and stream agree |
| `Sessions.FailedWriteSpoils` | internal/storage/transfers.go:203-212 | a frame that is hashed and then not written leaves a surplus hash for good |
| `Sessions.SealIsContentLog` | internal/storage/transfers.go:203-206 | gap fill, tail fill and explicit frames in any mix give the digest of the device content |
| `Sessions.CommitAcceptsIff` | internal/storage/transfers.go:236-242 | commit accepts the digest of a content if and only if no write failed and the device holds exactly that content |
| `Sessions.CommitSound` | internal/storage/transfers.go:170-242 | over any frames from anyone with any disk faults, an accepted commit means the device is the digested content |
| `Sessions.FrameDiscipline` | internal/storage/transfers.go:178-212 | accepted frames are aligned, in bounds, disjoint and strictly increasing, and the invariant holds after any sequence |
| `Sessions.FrameAcceptedIff` | internal/storage/transfers.go:170-215 | with a working disk, the exact frames that are accepted in spite of the wrapping sum, and that the device then holds their bytes and is otherwise unchanged |
| `Sessions.NothingAfterTheEnd` | internal/storage/transfers.go:178-193 | no frame is accepted once the size is reached |
| `Stream.ResumeCorrect` | internal/api/push.go:100-186 | after any number of streams cut after any chunk, one completed stream delivers the source and commit accepts its digest |
| `Stream.StreamKeepsSynced` | internal/api/push.go:124-175 | wherever a stream is cut the receiver holds the source up to its offset and zeros beyond |
| `ThinPool.NoStaleData` | internal/storage/storage.go:71-82 | on a pool that passes the check, frames read back as written whatever the pool chunks held |
| `ThinPool.CheckIsExact` | internal/storage/storage.go:75-82 | a pool chunk size passes the check if and only if no frame sequence can show a stale byte |
| `ThinPool.ReceivedIsThin` | internal/storage/transfers.go:178-213 | every accepted frame leaves the thin volume reading as the ideal device |
| `ThinPool.CopyOnThin` | internal/storage/copy.go:12-40 | a device copy onto a fresh thin volume reads as its source, never written chunks included |
| `Tags.TagsRoundTrip` | internal/storage/volumes.go:173-208 | in whatever order lvm lists the tags, state, transfer, target, origin and rollback target read back as written |
| `Tags.RecordRoundTrip` | lvm/lv.go:650-658 | the same through lvm's comma joined field and splitList |
| `Tags.SplitJoin` | lvm/lv.go:650-658 | splitList inverts joining for tags without commas |
| `Tags.EditsRefine` | internal/storage/pushes.go:25-117 | each lvchange turns the tag set of a record into the tag set of the edited record, so one state tag stays one |
| `Tags.OnlyOfItsKind` | internal/storage/volumes.go:465-474 | a record has at most one tag of each kind, and none is read as one of another kind |
| `Recover.RecoverConverges` | internal/storage/recover.go:19-126 | on a clean node any history of interrupted passes in any scan orders that ends with a complete one reaches the settled state |
| `Recover.SecondRunChangesNothing` | internal/storage/recover.go:19-126 | a further pass, complete or not, changes nothing |
| `Recover.VolumeProgress` | internal/storage/recover.go:32-126 | however many of a volume's recovery commands ran, the node still settles to the same state and no other volume is treated differently |
| `Recover.NamedSingle` | internal/storage/rollback.go:21-26 | copies named after their targets never compete for a name |
| `Outcomes.RecoveryByState` | internal/storage/recover.go:12-147 | state by state and field by field, what any completed recovery of a clean node makes of every volume: ATTACHED ones have their device unless flagged to be skipped, PUSHING ones are READY without push tags, snapshots inactive with their lineage, copies READY without the skip flag, unfinished ones gone, the rest as it was |
| `Outcomes.RecoveryKeepsData` | internal/storage/recover.go:12-18 | on any node, clean or not, and however often recovery is cut: READY, ATTACHED, COMMITTING and RETIRED volumes keep name, state, bytes and tags, and a completed recovery has every ATTACHED one active that is not flagged to be skipped |
| `RecoverExact.ConvergesIff` | internal/storage/recover.go:19-147 | clean is exact: all completed recoveries of a node agree if and only if it is clean |
| `RecoverExact.CopyDiverges` | internal/storage/recover.go:128-147 | a copy waiting for a volume that recovery removes makes two recoveries disagree |
| `RecoverExact.LineageDiverges` | internal/storage/recover.go:53-67 | so does a snapshot without lineage tag on an lv that recovery takes away |
| `Rollbacks.RollbackCrashAtomic` | internal/api/rollback.go:82-118 | cut at any phase and recovered however often interrupted, the id is READY exactly once: the old record up to the point of no return, then the snapshot's content, inactive and without skip flag or rollback tag. All snapshots survive, and which one loses its lineage |
| `Rollbacks.CleanAt` | internal/storage/rollback.go:30-92 | no crash point of a rollback spoils recovery |
| `Rollbacks.SweepsMatchRecovery` | internal/api/rollback.go:121-162 | the two sweeps reach what recovery reaches if and only if no foreign lv has the name |
| `Rollbacks.DeletedReturnsIff` | internal/storage/recover.go:131-147 | a removed volume is back after recovery if and only if a copy waits for it |
| `Leftovers.DeletedVolumeReturns` | internal/api/rollback.go:93-104 | after a rollback that failed together with its undo, and a delete of the volume with all its snapshots, every completed recovery has the volume back READY with the content of the snapshot the rollback went to |
| `Leftovers.MarkedDeleteDiverges` | internal/storage/recover.go:19-147 | at that node with the delete cut after its marks, two completed recoveries end differently |
| `Rollbacks.RemovedStaysClean` | internal/storage/volumes.go:408-419 | removing an owned lv from a clean node leaves it clean |
| `Order.OrderlyIsClean` | internal/storage/volumes.go:365-406 | references that are firm or gone make recovery converge and keep deletes behind their snapshots |
| `Order.OrderlyRecovers` | internal/storage/recover.go:19-126 | at an orderly crash point all recoveries end in one state |
| `Order.RemoveKeepsOrder` | internal/storage/volumes.go:408-419 | any removal keeps the order, lvm's forgotten origins included |
| `Order.RenameKeepsOrder` | internal/storage/rollback.go:69-75 | a copy taking its target's name keeps the order |
| `Clients.Client.EveryCrashPointRecovers` | internal/storage/recover.go:11-18 | as long as no verb reused a name that is still referred to: at every state lvm ever was in, interrupted recoveries converge, READY, RETIRED and ROLLBACK volumes are inactive and no delete is ahead of its snapshots |
| `Clients.Client.EveryCrashPointEndsByState` | internal/storage/recover.go:12-147 | and after them every volume is gone, in its place or under its target's name, with the fields its state asks for |
| `Clients.Client.Run` | lvm/lv.go:737-803 | one command takes full effect or none, reported or not, and keeps both invariants |
| `Clients.Client.GetVolume` | internal/storage/volumes.go:150-171 | the volume's record, or missing exactly when no owned lv has the name |
| `Clients.Client.ListVolumes` | internal/storage/volumes.go:90-113 | a scan lists every owned volume exactly once |
| `Pins.ExportPins.Acquire` | internal/storage/exports.go:25-34 | the counts are the multiset of live readers, and the first one is reported |
| `Pins.ExportPins.Release` | internal/storage/exports.go:36-48 | the last reader is reported, releasing what nobody holds changes nothing |
| `Pins.ExportPins.Pinned` | internal/storage/exports.go:50-56 | pinned if and only if some reader is live |
| `Volumes.CreateVolume` | internal/storage/volumes.go:115-135 | a READY inactive volume of zeros without skip flag or other tags, or exactly which crash point a failure leaves |
| `Volumes.Attach` | internal/storage/volumes.go:269-299 | READY to ATTACHED and, unless the volume is flagged to be skipped, active, the tag first at every crash point |
| `Volumes.Detach` | internal/storage/volumes.go:303-329 | ATTACHED to READY and inactive, the device first at every crash point |
| `Volumes.CreateSnapshot` | internal/storage/volumes.go:228-249 | a SNAPSHOT with the volume's bytes, inactive behind the skip flag, lineage on it, and the volume unchanged |
| `Volumes.DeleteSnapshot` | internal/storage/volumes.go:251-267 | removes exactly a SNAPSHOT without readers, and every other lv keeps everything but lvm's memory of it |
| `Volumes.SnapshotsOf` | internal/storage/volumes.go:210-226 | exactly the snapshots whose lineage is the volume |
| `Deletes.MarkDeleting` | internal/storage/volumes.go:361-406 | every refusal comes before the first mark, at every recorded state the marked ones are marked in order, snapshots before the volume, and a pinned snapshot is never marked |
| `Deletes.DeleteRecovers` | internal/storage/volumes.go:361-406 | a delete cut anywhere, among its marks or among the removals, and recovered: what was marked is gone, every other volume and snapshot of the node is there with its bytes, and the volume never goes before its snapshots |
| `Deletes.RunDelete` | internal/api/api.go:230-242 | removes the snapshots, then the volume, stops at the first failure, and every recorded state is a prefix of the removals |
| `Deletes.DeleteVolume` | internal/api/api.go:206-242 | marks and removals together: every recorded state is a point the recovery theorem is about, a delete that reports no failure leaves neither volume nor snapshots, and every refusal has its cause |
| `Pushes.MarkPushing` | internal/storage/pushes.go:14-38 | READY to PUSHING with both push tags in one command |
| `Pushes.MarkCommitting` | internal/storage/pushes.go:40-60 | PUSHING to COMMITTING, both push tags kept |
| `Pushes.RetirePushed` | internal/storage/pushes.go:62-91 | COMMITTING to RETIRED, inactive and without push tags, device before tags, a failure in between keeps state and push tags |
| `Pushes.AbortPush` | internal/storage/pushes.go:93-123 | PUSHING or COMMITTING back to READY, inactive and without push tags, device before tags |
| `Pushes.CreateIncoming` | internal/storage/transfers.go:97-104 | an active INCOMING volume of zeros under a free name |
| `Pushes.ReadyReceived` | internal/storage/transfers.go:256-270 | INCOMING to READY, inactive and without the transfer tag, device before tags |
| `Pushes.QueryVolume` | internal/api/api.go:461-475 | committed if and only if a volume that is not INCOMING is there, which is what the protocol's query answers |
| `Pushes.VerbsAreSteps` | internal/storage/pushes.go:14-123 | the records the verbs' contracts promise are what the move protocol's steps make of the copy |
| `Pushes.RestartIsRecovery` | internal/storage/recover.go:86-105 | the protocol's restart is what any interrupted recovery does to the volume |
| `Readers.ReleaseExport` | internal/api/api.go:352-365 | gives back one pin and deactivates after the last reader and only then |
| `Readers.Export` | internal/api/api.go:298-350 | with a working lvm it succeeds if and only if the snapshot is there and device and client go along to the end, success sends every non-zero chunk and the content digest, on every path the pins are as before and only the snapshot's device may change |
| `Readers.CreateVolumeFromSnapshot` | internal/api/createfromsnapshot.go:17-66 | success hands one pin on, every refusal gives it back and has its cause |
| `Readers.RunCopyFromSnapshot` | internal/api/createfromsnapshot.go:68-139 | success is a READY inactive volume with the snapshot's content and no other tags, and comes with a working lvm and devices, a failure leaves a target only where its removal failed, every path gives the pin back and leaves other volumes alone |
| `Resolve.TryResolve` | internal/api/resolve.go:61-89 | an answer settles the volume the way the target says, an unreachable target changes nothing |
| `Resolve.ResolveRecovered` | internal/api/resolve.go:20-59 | the retry loops of all COMMITTING volumes with both push tags, in any interleaving: each is settled by the first answer its target gives, nothing else is touched |
| `Startup.RecoverNode` | internal/storage/recover.go:19-126 | the loop is a pass over its scan, and a volume left unfinished is one of whose own commands failed or, for a pushing one, whose second lookup did. No volume with a user's data is changed, and without failures every ATTACHED one not flagged to be skipped is active again. As long as no verb reused a name that is still referred to, every state it goes through settles where it started, and without failures every volume ends as its state asks for, field by field |
| `Startup.RecoverRollback` | internal/storage/recover.go:128-147 | the ordered rules for copies, decided by the names in the scan |
| `RollbackVerbs.FinishRollback` | internal/api/rollback.go:164-190 | success only with the copy's bytes READY under the id, inactive and without skip flag or rollback tag, and no other lv changed, failure only after three failed tries, and then the copy is under exactly one name still tagged, unless the retag landed behind a failure report |
| `RollbackVerbs.SweepRollback` | internal/api/rollback.go:121-146 | a leftover copy is dropped beside its target, and finished without it: READY, inactive and without skip flag or rollback tag |
| `RollbackVerbs.SweepRenamedRollback` | internal/api/rollback.go:147-162 | a copy under its target's name is finished: READY, inactive and without skip flag or rollback tag |
| `RollbackVerbs.BeginRollback` | internal/storage/rollback.go:28-62 | checks state and lineage, and creates the copy with the snapshot's bytes, inactive behind the skip flag and tagged with its target |
| `RollbackVerbs.RollbackVolume` | internal/api/rollback.go:68-119 | success leaves the id READY with the snapshot's bytes, inactive, without skip flag and other tags, the copy gone and every other lv as it was. Every state it ends in or goes through is a state of the sweeps, a phase of one rollback of the swept node, or after a false report the node without volume and copy, a copy left by a failed rollback is one whose removal failed, and every refusal has its cause |
| `RollbackVerbs.AnyCutRecovers` | internal/api/rollback.go:82-118 | cut, undone, misreported or finished, then recovered: the volume is there if and only if it or its copy was there at the cut, then READY with its own content while the original was there and the snapshot's afterwards, and all snapshots are in place |
| `RollbackVerbs.UndoRestores` | internal/api/rollback.go:93-104 | the undo restores the node exactly |
| `RollbackVerbs.FalseReportLoses` | internal/api/rollback.go:93-104 | a removal that lands behind a failure report, followed by the undo: no completed recovery has the volume, the snapshots survive |
| `RollbackVerbs.RollbackIsStep` | internal/api/rollback.go:68-119 | a finished rollback is the move protocol's rollback of the copy |
| `TransferTable.Transfers.PrepareReceive` | internal/storage/transfers.go:71-117 | refuses used ids and a full table, success is a session with nothing received and an active INCOMING volume of zeros, a failed create consumes the id, and only a name still referred to counts as reused |
| `TransferTable.Transfers.NextOffset` | internal/storage/transfers.go:119-130 | an offset that is aligned or the size |
| `TransferTable.Transfers.Attach` | internal/storage/transfers.go:132-152 | one stream at a time |
| `TransferTable.Transfers.Write` | internal/storage/transfers.go:168-215 | does to session and volume what the frame model says, whatever the disk does, and the volume it writes to is active |
| `TransferTable.Transfers.Commit` | internal/storage/transfers.go:217-278 | a landed commit repeats, a mismatch or failure kills the id uncommitted, a failure comes from the sync or lvm, success makes exactly the session's volume READY, a mismatch leaves the volume gone or untouched, and a failure leaves it gone, untouched, inactive or, behind a false report, READY |
| `TransferTable.Transfers.Destroy` | internal/storage/transfers.go:324-342 | the id is dead, the volume removed if lvm lets it, other sessions untouched |
| `TransferTable.Transfers.Abort` | internal/storage/transfers.go:280-292 | aborting an unknown or finished transfer changes nothing, a live one is destroyed |
| `TransferTable.Transfers.Expire` | internal/storage/transfers.go:294-301 | a fired grace timer destroys the session, even one a stream has attached to meanwhile |
| `TransferTable.FillGap` | internal/storage/transfers.go:203-205 | the gap loop with wrapping lengths is the fill function |
| `TransferTable.Transfers.IdsAreSingleUse` | internal/storage/transfers.go:41-44 | over the recorded life of a table ids are single use, dead ones stay dead, and one destroyed uncommitted never commits |
| `TransferTable.CommitMeansEqual` | internal/storage/transfers.go:236-270 | a committed volume holds the content whose digest was sent |
| `TransferTable.CommitIsTheProtocolStep` | internal/storage/transfers.go:217-278 | what Commit leaves is what the move protocol's commit makes of the node, for a landed, a failed, a falsely reported and a refused commit, volume removed or not |
| `TransferTable.PrepareIsTheProtocolStep` | internal/storage/transfers.go:71-117 | what PrepareReceive leaves, created, failed, or created behind a failure, is the move protocol's prepare |
| `TransferTable.EndIsTheProtocolStep` | internal/storage/transfers.go:324-342 | the end of a session, its volume removed or not, is the move protocol's |
| `Push.CommitAnswersMeanWhatTheySay` | internal/api/api.go:477-503 | the answers of the target keep their meaning through transferError and commitPush. Exactly a mismatch, an unknown or used transfer and a refused frame end the retries of a stream, a frame the disk failed does not |
| `Push.SendingFrames` | internal/api/push.go:155-168 | sending the frames of a read is the chunk by chunk stream |
| `Push.StaleStops` | internal/storage/transfers.go:178-185 | a stream that starts behind the receiver's offset is refused at its first frame and never gets through |
| `Push.StreamOnce` | internal/api/push.go:124-186 | the code an attempt ends with is the answer to the frame that was refused or not written, or that of the call that failed, or none for the source's own device, and no frame is refused unless an earlier stream still delivers. Whatever network and disk do, the receiver holds the source up to its offset unless a write failed, and undisturbed exactly an attempt that gets through delivers source and digest |
| `Push.StreamVolume` | internal/api/push.go:100-122 | five attempts, each resuming, go on exactly after codes other than NotFound, InvalidArgument, AlreadyExists, FailedPrecondition and DataLoss, as the protocol's driver does. Undisturbed they deliver if and only if one gets through and none before it failed with one of these, and a delivered stream without failed writes is accepted |
| `Push.CommitPush` | internal/api/push.go:196-219 | the answers are those of at most five commits sent one after the other, only inconclusive ones are retried, the outcome is the protocol driver's, and landed means the target was handed the content, refused that nothing landed or can |
| `Push.CommitKeeps` | internal/storage/transfers.go:217-278 | a commit lands only with the content in place, OK means it landed, DataLoss that nothing landed or can |
| `Push.SessionEndIsStep` | internal/storage/transfers.go:324-342 | a session that ends between two commits ends as the protocol's |
| `Push.RestartIsTwoSteps` | internal/storage/recover.go:12-92 | a target that restarts between two commits crashes and recovers as the protocol's node: session and ids are forgotten, and recovery removes a half received volume |
| `Push.ClosedStaysClosed` | internal/api/push.go:260-272 | once the transfer is closed every commit that still arrives is told there is none, whatever befalls the target |
| `PushRuns.StreamInto` | internal/api/push.go:100-122 | the stream against the target's session, refused for good without one |
| `PushRuns.CommitAndAsk` | internal/api/push.go:196-272 | commits, query and abort leave the target exactly as they do one after the other, and what the source concludes about it is so |
| `PushRuns.RunPush` | internal/api/push.go:58-306 | undisturbed the commit is sent if and only if the volume gets its device and a stream gets through, and only from COMMITTING. RETIRED only with the volume on the target and the content handed over to it, READY only with nothing there and after an abort that arrived with nothing that still can land, COMMITTING with both tags otherwise |
| `PushRuns.RunSnapshotPush` | internal/api/pushsnapshot.go:54-91 | only the snapshot's device changes, the pin goes on every path, success means the target was handed the content, and an aborted transfer can no longer land |
| `Cluster.StepRefines` | internal/api/push.go:58-306 | every step of every node, the network and the disks keeps the invariant and does to the stored volume what the user's operation does to a plain one |
| `Cluster.SingleAuthority` | README.md:21-23 | in every run at most one node has an authoritative copy, and one beside a COMMITTING node only once its commit landed |
| `Cluster.ClusterIsOneVolume` | README.md:15-25 | over whole runs the cluster stores exactly what the user's own operations make of one plain volume |
| `Cluster.HandoverExact` | internal/storage/transfers.go:220-278 | a landing commit leaves the source's bytes READY on the target |
| `Cluster.RetiresOnlyLanded` | internal/storage/pushes.go:62-91 | a copy is retired only once the target holds the committed one |
| `Handover.NoLoss` | internal/storage/pushes.go:62-91 | in every run that comes to retire a copy, an earlier commit of that very push left exactly the bytes it still has READY on the target |
| `Handover.LandedWasHandedOver` | internal/storage/transfers.go:220-278 | a landed commit was a CommitTransfer of this push, and the source's copy is unchanged since |
| `Cluster.PushedContentFrozen` | internal/storage/pushes.go:14-123 | from PUSHING to RETIRED no event changes the source's bytes |
| `Cluster.DriverTerminates` | internal/api/push.go:89-222 | every step brings a push closer to its end, which it reaches within 21 steps |
| `Cluster.DriverEnds` | internal/api/push.go:197-296 | with a working lvm a push ends READY, RETIRED, or COMMITTING with both push tags |
| `Cluster.OneAnswerSettles` | internal/api/resolve.go:20-89 | from there a restart and one answered query settle it, the right way |
| `Cluster.LateCommitBreaksIff` | internal/api/push.go:260-272 | a commit that runs after the source was told there was none makes two authorities if and only if the session is live without a stream and its hash stream matches the source |
| `Cluster.LateCommitReachable` | internal/api/resolve.go:61-89 | a concrete run reaches a state in which that holds |
| `Cluster.LateCommitBreaksAuthority` | internal/api/push.go:260-272 | and ends with two authoritative nodes |

## Left out

- lvm command lines and JSON reports: wrappers over an external tool. What lvm does with a command is module `Lvm`.
- gRPC transport, TLS, certificate roles, configuration, logging and the operations table.
- Percentages, pool sizing and usage figures.
- Real time: grace expiry and retry delays are steps that may come at any time.
- nameReservations: they only guard against verbs on one id that the orchestrator does not serialize.
- Verbs on one id that interfere, such as Attach during RollbackVolume or two creators of one id.
- ResizeVolume at the node level: it changes no state, name or reference. `Cluster` has it as an event.
- "ATTACHED implies active": not an invariant of the code, releaseExport deactivates whatever id it was given.
- Autoactivation by the operating system at boot, and lvm rounding a requested size up to whole extents.
- Transfer sessions are values in the table, one DigestBuilder per session is its hash log. Shared references
  to a session held by a running Write while another call ends it are not captured.
- The terminal flag of a session: a finished session leaves the table in the same step.
- CREATING in `Cluster`: a create is one step there. `Volumes.CreateVolume` has both commands.
- The stray target volume that a snapshot push with unknown outcome may leave: the code leaves it to the orchestrator.
- Volumes with unreadable state tags or missing push or rollback tags: left to manual repair by the code, kept as they are by the model.
- Resolve.ResolveRecovered: any number of turns of the retry loops. That a loop runs until an answer comes is not a bounded claim.
- PushRuns.RunPush: the volume on the target may be used, but is not deleted or pushed on before the source has settled.
