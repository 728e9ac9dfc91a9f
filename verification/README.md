# Candle: a verified model of the shared whiteboard

Candle is a two-person whiteboard. Every edit is an operation in an append-only ledger on the
server; the board is what replaying the ledger gives. Clients draw optimistically, keep a durable
queue of what they still have to deliver, and talk to the server over HTTP and a socket. Access is
governed by a partnership of exactly two people.

This project models that logic in Dafny and proves what its parts promise each other.

- `Drawing`, `Replay`, `Validator`: strokes and operations, replay into a map plus a z-order, and the
  structural checks. Replay is related to an independent meaning on plain lists of strokes.
- `Ledger`, `Restore`, `Import`: the only write path of a board, restores whose snapshot is taken
  before the lock, and chunked imports. Other requests run between any two steps.
- `ClientBoard`, `Geometry`, `Tools`, `EngineOps`, `Engine`: the client's document with undo and redo,
  the geometry of its tools, and the engine that turns gestures into local edits and envelopes and
  server operations back into local edits. Client and server are related in both directions.
- `LocalStore`, `Delivery`, `SubmissionOrder`, `SyncEngine`: offline delivery, as a state machine over
  losses, crashes and other writers, and as the engine's own loops, which are shown to be runs of it.
- `Realtime`, `Pipeline`: optimistic submission over the socket, and the socket's two directions with a
  server that limits and refuses and a partner who writes in between.
- `RateLimits`, `OverlappingChecks`: the cache-backed limiter, check by check and with checks that overlap,
  and the socket's sliding window, over timed traces.
- `Partnerships`: the lifecycle transactions, interleaved, with out-of-date copies.

Where the source updates objects in place the model has classes whose methods are proved against
functions; the theorems are about those functions and about whole runs.

## What the code does not promise

Some statements one would like are false of the code. Each has its exact condition here, and an instance.

- Undo restores the order only in some cases: a removal taken from below the top comes back on top
  (`ClientBoard.UndoRestoresOrderIff`, `UndoSwaps`), though `invertOp` is described as leaving the
  board in its prior state.
- A create of an id that exists replaces and lifts the object on the server and is ignored by the
  client, which still records it for undo (`EngineOps.RemoteStepIff`, `RemoteFitsIff`,
  `CreateBelowTop`).
- Local undo and redo are not sent. Server and client agree after one exactly when it changes nothing
  (`EngineOps.UndoKeepsAgreementIff`, `RedoKeepsAgreementIff`, `UndoOfDrawing`).
- An erase can sweep strokes without taking any ink off them: sweeping compares samples of the path with
  the line, clipping compares samples of the line with the path. The strokes are then removed and added
  again whole, on top, under new piece ids (`Engine.EraseOnlyLiftsIff`, `WholePieceIff`; every tap is such
  an erase, `TapReachesNothing`, `TapSweepsBar`; a longer path can be one, `ShortEraseSweepsBar`). And a
  path can cross a line without sweeping it (`SweepsIff`, `SlashMissesBar`).
- A drag or resize starts from the stroke as it was when the gesture began. If the partner changes that
  stroke meanwhile, both sides draw it differently afterwards; if not, or if the partner deletes it, they
  agree (`Engine.DragAgreesIff`, `ResizeAgreesIff`, `DragOfMovedStroke`).
- A submit that is refused for its operation, or dropped by the limiter, stays among those the client
  counts, so every later one is stale until a stale answer arrives (`Pipeline.HeadAcceptedUnlessLost`,
  `RefusedIsLost`, `LostBlocksAll`, `RefusalThenStale`; with partner writes and resets, `SubmitAcceptedIff`).
- Nothing on the client checks the server's limit on points, so a long pen stroke is drawn and then
  refused (`Tools.PenStrokeAcceptedIff`, `LongLineIsRefused`).
- The validator lets a restore payload name an object twice. The z-order then repeats it
  (`Replay.CoherentIff`), and a version can be impossible to restore (`Restore.SnapshotFailsIff`,
  `RepeatedIdBreaksSnapshot`).
- The version a submit reports is that of its last ack (`Ledger.ReportedVersion`,
  `ReportedVersionLags`).
- A retry on an archived board fails, since the read-only check comes first
  (`Ledger.RetryChangesNothing`, `RetryOnArchivedFails`).
- A pass can carry a stale base version, against the comment on `pushPending`
  (`SyncEngine.MeetsStaleIff`, `StalePass`). It leaves operations waiting then and only then
  (`StaleLeavesOpen`), and two passes suffice when nobody else writes (`TwoPassesDrain`).
- Resend and revoke on an out-of-date copy can separate an invitation from its partnership
  (`Partnerships.StaleResendIff`, `StaleRevokeIff`, `StaleResendBreaks`, `StaleRevokeBreaks`);
  memberships stay safe. A resent invitation to a partnership that is over can never be accepted and
  stays in the way of both people until it is revoked, rejected or expired (`DeadUntilReleased`,
  `DeadInvitationBlocks`).
- The cache-backed limiter can grant more than its limit in one life of the counter: a check that straddles
  the expiry is granted uncounted, exactly when its second add comes after that of another
  (`OverlappingChecks.EveryGrantCountedIff`, `LimitPlusStraddlers`, `StraddlerSlipsThrough`).
- The server's color pattern also accepts one trailing newline, which the client's does not, so such a
  stroke is drawn in the default color (`EngineOps.RemoteStepIff`, `NewlineColor`).

## Hypotheses

- Operation ids and the ids of pen strokes are new where a theorem says so. Ids and emails come as
  parameters; emails are already trimmed and lower-cased.
- Erasing commutes with the server while no stroke on the board is a descendant of another: no id
  continues another one with a `#`. Every gesture keeps that, but for a pen stroke under an id whose
  pieces are still there; a create from the other side can break it, say after an undo.
- Client sequences are distinct and increasing, in `SubmissionOrder` only. The source's counter
  exceeds the integers its numbers hold exactly.
- Coordinates, widths, opacities and times are reals without rounding.
- The serialized size of a payload is some function of it.
- A transaction is one atomic step. What others commit between two steps is arbitrary.

## Model

| member | source | states |
|---|---|---|
| Replay.ReconstructedState.ApplyInPlace | apps/whiteboard/state_reconstruction.py:85-129 | Updating the map and the z-order in place gives the new state exactly, for every operation type, and every object stays filed under its own id with a place in the order. |
| Replay.ReplayOnto | apps/whiteboard/state_reconstruction.py:132-152 | Replay builds a fresh structure from the operations in order and leaves the starting one unchanged. |
| Replay.ReplayFiles | apps/whiteboard/state_reconstruction.py:87-99 | Whatever the ledger holds, each object has its place in the z-order, so re-creating an object never looks for a missing entry. |
| Replay.CoherentIff | apps/whiteboard/state_reconstruction.py:84-129 | At every version the z-order is a repeat-free listing of exactly the objects, if and only if no restore payload of the ledger names an object twice. |
| Replay.ApplyPaints | apps/whiteboard/state_reconstruction.py:85-129 | The map-plus-order structure means the same as an independently defined plain list of strokes, operation by operation: re-created objects move to the top, transforms of absent objects do nothing. |
| Replay.ReplayFromPaints | apps/whiteboard/state_reconstruction.py:132-152 | The same for whole ledgers from any coherent starting state. |
| Replay.CreatesPaint | apps/whiteboard/state_reconstruction.py:87-94 | Creating strokes with new, distinct ids stacks them in order above what is there. |
| Replay.DeletesPaint | apps/whiteboard/state_reconstruction.py:95-99 | Deleting a list of ids leaves exactly the other strokes, in their order. |
| Validator.CheckStrokesIff | apps/whiteboard/validator.py:232-235 | A list of objects passes exactly when every object of it does. |
| Validator.ServerColorIff | apps/whiteboard/validator.py:34 | The color pattern matches a hash and six hex digits, with at most a newline after them. |
| Validator.StrokePassesIff | apps/whiteboard/validator.py:131-176 | An object passes exactly with an id, 2 to 4000 points, such a color, a width in 1 to 64 and an opacity in 0 to 1; too many points are too large, everything else is an invalid payload. |
| Validator.PayloadPassesIff | apps/whiteboard/validator.py:114-235 | The other payloads pass exactly when they name their object, scale by 0.001 to 1000, or restore at most 20000 such objects; a restore has the higher byte cap. |
| Validator.ReplayKeepsGood | apps/whiteboard/validator.py:131-176 | Moving, resizing and restoring validated objects never yields one the stroke validator would refuse. |
| Ledger.Whiteboard.SubmitBatch | apps/whiteboard/service.py:109-195 | A batch is accepted exactly when it is valid, the board is writable and the operations not yet known chain from the board version; the ledger then grows by exactly those, numbered on; each distinct id is acknowledged with its row, marked duplicate exactly when it was there before; otherwise nothing changes and the error is the first failed check, stale versions reported with the version at that point of the batch. |
| Ledger.Whiteboard.SetArchived | apps/whiteboard/service.py:229-254 | Archiving and unarchiving change only the flag. |
| Ledger.FirstInvalidIff | apps/whiteboard/service.py:128-130 | Validation before the lock passes exactly when every operation passes. |
| Ledger.OperationPassesIff | apps/whiteboard/validator.py:55-125 | An operation passes exactly with an id, a base version of at least 0, a payload that passes, and neither wire size nor payload size over the cap; which of these is too large is said too. |
| Ledger.FindRow | apps/whiteboard/service.py:148-150 | Looking an operation id up finds a row with that id exactly when the ledger holds one. |
| Ledger.FindIsUnique | apps/whiteboard/service.py:148-150 | In a well-formed ledger that row is the only one. |
| Ledger.StateSteps | apps/whiteboard/selectors.py:76-87 | The state at a sequence comes from the empty board by the operations up to it, one by one. |
| Ledger.AcksTell | apps/whiteboard/service.py:148-188 | Every id of an accepted batch has one ack, with the sequence and version of the row that carries it, marked duplicate exactly when that row was there before. |
| Ledger.SubmittedWellFormed | apps/whiteboard/service.py:132-195 | Sequences stay gapless from 1, each base version is its sequence less one, ids stay unique, the version stays the row count, and earlier rows stay as they were. |
| Ledger.HistoryKeepsShape | apps/whiteboard/service.py:132-195 | The same over any history of batches from any clients and archive toggles; validated rows stay validated. |
| Ledger.PastIsFixed | apps/whiteboard/selectors.py:76-87 | The state at an earlier sequence never changes when the ledger grows. |
| Ledger.BatchEqualsSingles | apps/whiteboard/service.py:136-195 | An accepted batch leaves the ledger its operations leave one at a time. |
| Ledger.SinglesAreAccepted | apps/whiteboard/service.py:136-195 | And each of those single submits is accepted. |
| Ledger.OneSubmitted | apps/whiteboard/service.py:141-188 | A request of one operation adds its own row exactly when it is accepted and its id unknown, and nothing else ever. |
| Ledger.AcceptedIsKept | apps/whiteboard/service.py:168-193 | Every operation of an accepted batch is in the ledger ever after. |
| Ledger.RetryChangesNothing | apps/whiteboard/service.py:148-163 | Resubmitting an accepted batch later changes nothing, and is accepted exactly when the board is not archived. |
| Ledger.RetryKeepsSequences | apps/whiteboard/service.py:148-163 | The retry is answered with the very acks of the first time, all marked duplicate, repeats inside the batch included. |
| Ledger.ReportedVersion | apps/whiteboard/service.py:79-81 | The version a submit reports is the board version exactly when the last operation the batch names for the first time is unknown to the board, or nothing in the batch is and that one is the newest row. |
| Ledger.ReportedVersionLags | apps/whiteboard/service.py:79-81 | An instance: a new operation followed by a known one reports version 1 on a board at version 2. |
| Ledger.RetryOnArchivedFails | apps/whiteboard/service.py:132-163 | An instance: a retry refused as read-only. |
| Ledger.StaleAt | apps/whiteboard/service.py:164-166 | The loop meets a wrong base version only for a batch the declarative reading refuses, and reports that very pair of versions. |
| Ledger.RefusalIff | apps/whiteboard/service.py:120-166 | A batch is refused for being empty, for its first operation that does not pass, for the archived board once all pass, or for the first new operation whose base version breaks the chain, in that order. |
| Restore.RestoreBoard | apps/whiteboard/restore.py:43-74 | A target outside 0 to the version seen is refused; otherwise the snapshot taken before the lock is submitted as one operation to whatever board the lock then finds. |
| Restore.SnapshotIsExact | apps/whiteboard/restore.py:65-66 | Applying a snapshot, to any state, gives back exactly the objects and z-order it was taken from. |
| Restore.SnapshotSucceeds | apps/whiteboard/restore.py:65-66 | Taking a snapshot cannot fail when the restore payloads before it name each object once. |
| Restore.SnapshotFailsIff | apps/whiteboard/restore.py:65-66 | A snapshot of a version fails exactly when some object that is not on the board still has a place in the z-order, counted from the operations: a restore gives it one per mention, a delete takes one, a clear all. |
| Restore.PlacesAreReplayed | apps/whiteboard/state_reconstruction.py:85-129 | That count is the number of times replay leaves the object in the order. |
| Restore.RepeatedIdBreaksSnapshot | apps/whiteboard/validator.py:225-235 | An instance: the validator passes a payload naming an object twice, and once that object is deleted the version reached cannot be snapshotted. |
| Restore.SnapshotIsValid | apps/whiteboard/validator.py:216-235 | A snapshot of validated content passes the payload check, unless it holds too many objects. |
| Restore.EveryRunIsSound | apps/whiteboard/restore.py:60-74 | Over any run of restores in flight, submits and toggles the ledger keeps its shape and every pending snapshot still describes its target. |
| Restore.HistoryIsAppendOnly | apps/whiteboard/selectors.py:76-87 | Over any continuation of a run, states at earlier sequences are unchanged. |
| Restore.RestoreIsRight | apps/whiteboard/restore.py:60-74 | In every interleaving, a restore that commits as a new row makes replay up to that row equal replay up to its target, restores of restores included. |
| Restore.RestoreRefusals | apps/whiteboard/restore.py:68-74 | A restore of a version of a validated ledger can only be refused for size or object count, a stale base or an archived board. |
| Import.ImportBoard | apps/whiteboard/board_import.py:103-133 | An import validates the file first, then submits clear and creates in chunks, each rebased on the version the last one reported, with other requests running in between; it fails on the first refused chunk, with the reason that chunk is refused for. |
| Import.Chunks | apps/whiteboard/board_import.py:89-91 | Chunks hold 50 operations but for the last, none is empty, and together they are the operations in order. |
| Import.ImportAlone | apps/whiteboard/board_import.py:126-131 | With no other writer no chunk is stale, for any number of objects, and the board gains all operations in order. |
| Import.ImportDraws | apps/whiteboard/board_import.py:103-133 | Undisturbed, an import of a valid file draws its strokes in order, under new ids and without creators, above the old strokes or above nothing after a clear, and reports the version of the board. |
| Import.CopiesAreCopies | apps/whiteboard/board_import.py:74-86 | The strokes an import draws have the points and the style of those in the file, new ids and no creator. |
| Import.ImportIsValid | apps/whiteboard/board_import.py:111-116 | A file that passes its check yields operations the server finds nothing wrong with. |
| Import.FilePassesIff | apps/whiteboard/board_import.py:135-163 | A file passes exactly with schema version 1 and at most 2000 objects that each pass. |
| Import.ImportCommitsWholeChunks | apps/whiteboard/board_import.py:127-131 | Whatever others do in between, what an import leaves is a prefix made of whole chunks, each in one piece and in order, all of it exactly when it succeeds. |
| Import.AcceptedAtVersion | apps/whiteboard/board_import.py:128-130 | A chunk of new operations can only be accepted at the version of the board itself. |
| ClientBoard.NextContent | frontend/src/whiteboard/state.ts:65-82 | Every operation keeps ids unique and acts on which stroke each id stands for exactly as its map reading says. |
| ClientBoard.InverseIff | frontend/src/whiteboard/state.ts:42-62 | On content, the inverse takes an operation back exactly when the operation described the content it was applied to. |
| ClientBoard.UndoRestoresContentIff | frontend/src/whiteboard/state.ts:88-107 | Undo right after a commit restores the content exactly when the operation described the board. |
| ClientBoard.UndoRestoresOrderIff | frontend/src/whiteboard/state.ts:88-107 | It restores the order too exactly when additions were new, a clear named the board, a transform named the stroke, and a removal took the topmost strokes in order. |
| ClientBoard.UndoSwaps | frontend/src/whiteboard/state.ts:88-107 | An instance: removing the lower of two strokes and undoing that swaps them. |
| ClientBoard.IdleIff | frontend/src/whiteboard/state.ts:65-82 | An operation leaves the board alone exactly when what it adds is there, what it removes is not, or the strokes it replaces are already so. |
| ClientBoard.BoardIsItsUndoStack | frontend/src/whiteboard/state.ts:88-119 | Over any run of fitting commits, undos, redos and reloads ids stay unique, the content is the replay of the undo stack, and the redo stack still fits. |
| ClientBoard.UndoNMeans | frontend/src/whiteboard/state.ts:98-107 | After k undos the content is the replay of the stack without its last k operations. |
| ClientBoard.RedoBringsBack | frontend/src/whiteboard/state.ts:98-119 | k redos after k undos bring back the content and both stacks. |
| ClientBoard.CommitsUndone | frontend/src/whiteboard/state.ts:88-107 | Any number of commits, all undone, leave the content as it was. |
| ClientBoard.CommitsUndoneInOrder | frontend/src/whiteboard/state.ts:88-107 | And leave the order as it was when each of them is one whose undo keeps it. |
| ClientBoard.LoadReplaces | frontend/src/whiteboard/engine.ts:151-161 | Loading puts exactly the strokes of the server on the board, leaves nothing to redo, and one undo takes them away. |
| ClientBoard.VersionCountsChanges | frontend/src/whiteboard/state.ts:88-119 | The version of the board counts commits, reloads, and the undos and redos that had something to do. |
| Geometry.NearestPoint | frontend/src/whiteboard/geometry.ts:77-85 | The clamped projection is the nearest of all points of the segment and one of them, degenerate segments included. |
| Geometry.DistanceToPolyline | frontend/src/whiteboard/geometry.ts:91-103 | The early-exit loop says within the threshold exactly when some segment is, yields nothing below two points, and yields the true minimum when beyond the threshold. |
| Geometry.WithinIff | frontend/src/whiteboard/geometry.ts:91-103 | Some segment is within the radius exactly when some point of the drawn line is. |
| Geometry.Decimate | frontend/src/whiteboard/geometry.ts:38-52 | The loop keeps the samples at the kept indices. |
| Geometry.ThinningSpreads | frontend/src/whiteboard/geometry.ts:38-52 | Neighbouring kept samples are at least the minimum distance apart. |
| Geometry.ThinningDropsForReason | frontend/src/whiteboard/geometry.ts:38-52 | A dropped sample is nearer than that to the last kept one before it. |
| Geometry.Chaikin | frontend/src/whiteboard/geometry.ts:59-74 | The nested loops compute the iterated corner cutting, short lines being left alone. |
| Geometry.SmoothedLength | frontend/src/whiteboard/geometry.ts:59-74 | Each pass doubles the points and keeps both ends. |
| Geometry.SmoothedAtQuarters | frontend/src/whiteboard/geometry.ts:59-74 | Each pass puts two points on every segment, one quarter of it from either end, in order. |
| Geometry.SmoothedStaysInBox | frontend/src/whiteboard/geometry.ts:59-74 | The smoothed line leaves no box the samples lay in. |
| Geometry.BoundsOf | frontend/src/whiteboard/geometry.ts:106-119 | The box holds every point, each side touches one, and only no points give no box. |
| Geometry.SafeScaleFactor | frontend/src/whiteboard/geometry.ts:156-164 | Every scale lies in the range the server accepts. |
| Geometry.ComputeResizeTransform | frontend/src/whiteboard/geometry.ts:262-278 | Both scales of a handle drag lie in the range the server accepts. |
| Geometry.ResizeFollowsCursor | frontend/src/whiteboard/geometry.ts:204-278 | For every handle that is shown the dragged handle lands under the cursor, per affected axis, exactly when the wanted scale is in range, and stays on the other; the opposite handle stays put. |
| Geometry.ResizedBoxFollows | frontend/src/whiteboard/geometry.ts:242-278 | The tight box of the scaled points is the old one with the dragged sides brought to the cursor. |
| Tools.FinalizePenStroke | frontend/src/whiteboard/tools.ts:30-46 | A gesture becomes a stroke exactly when two samples survive thinning, with the thinned and smoothed points. |
| Tools.PenStrokeAcceptedIff | frontend/src/whiteboard/tools.ts:30-46 | The server accepts a finished pen stroke exactly when at most 1000 samples survive thinning. |
| Tools.LongLineIsRefused | frontend/src/whiteboard/tools.ts:30-46 | An instance: 1001 samples 1.5 apart make 4004 points, too many for the server. |
| Tools.AllRunsExact | frontend/src/whiteboard/tools.ts:64-72 | The runs the scan collects are exactly the maximal runs of points out of reach. |
| Tools.Exceeds | frontend/src/whiteboard/tools.ts:61-62 | A point exceeds the radius exactly when no segment of the path is within it. |
| Tools.CutOut | frontend/src/whiteboard/tools.ts:59-72 | The scanning loop collects the points of all maximal runs out of reach. |
| Tools.KeepLong | frontend/src/whiteboard/tools.ts:74-78 | The filter keeps the runs of two or more points, in order. |
| Tools.ClipToEraser | frontend/src/whiteboard/tools.ts:54-79 | The loop computes the pieces that the clipping specification names. |
| Tools.ClipIsExact | frontend/src/whiteboard/tools.ts:54-79 | Those pieces are, in order, exactly the maximal contiguous runs of two or more points farther than the radius. |
| Tools.ClipsNothingIff | frontend/src/whiteboard/tools.ts:54-79 | Clipping leaves a line whole exactly when none of its samples is within the radius of a segment of the path. |
| EngineOps.EditPaints | frontend/src/whiteboard/engine.ts:593-666 | What one local edit sends, painted by the server semantics, is the edit itself, order included; it also fits the undo stack. |
| EngineOps.EditsChain | frontend/src/whiteboard/engine.ts:593-673 | Any sequence of edits sends an unbroken chain of base versions from the baseline under the next operation ids, and the baseline advances by their number. |
| EngineOps.SentAgreesIff | frontend/src/whiteboard/engine.ts:593-673 | From agreement with a writable board, whatever edits send that the server finds nothing wrong with is accepted, as one batch or one by one, and both sides agree afterwards exactly when the envelopes paint what the edits draw. |
| EngineOps.LocalEditsCommute | frontend/src/whiteboard/engine.ts:593-673 | In particular after any sequence of edits built against the current board: replaying the ledger then gives exactly the ordered strokes of the client. |
| EngineOps.TransformPaintsIff | frontend/src/whiteboard/engine.ts:639-665 | What a translation or scaling sends paints what it draws exactly when the stroke it started from is on the board as it was, or not at all. |
| EngineOps.UndoKeepsAgreementIff | frontend/src/whiteboard/engine.ts:513-519 | From agreement, after an undo the server still draws the strokes of the client exactly when there was nothing to undo, or the undone addition was gone already, the undone removal back already, the undone transform taken back already. |
| EngineOps.RedoKeepsAgreementIff | frontend/src/whiteboard/engine.ts:521-527 | The same for a redo. |
| EngineOps.UndoOfDrawing | frontend/src/whiteboard/engine.ts:513-519 | An instance: a stroke drawn, accepted and undone stays on the server. |
| EngineOps.AcceptableIff | frontend/src/whiteboard/engine.ts:603-666 | The payloads of an edit pass the validator exactly when the strokes it adds do, its ids are not empty and its scales are in range. |
| EngineOps.SentIsValidIff | frontend/src/whiteboard/engine.ts:593-673 | Within the byte caps, the server finds nothing wrong with what a sequence of edits sends exactly when each edit is acceptable. |
| EngineOps.ResolvedColor | frontend/src/whiteboard/color.ts:41-49 | The color of the pen is a lower-case hex color the server accepts, and reading it again, as a pen color or a remote one, changes nothing. |
| EngineOps.PenStyleIsNormal | frontend/src/whiteboard/engine.ts:105-107 | The style of the pen has a hex color, a whole width in 1 to 64 and an opacity of whole thousandths from the start, nearest to what was asked for. |
| EngineOps.NormalStyle | frontend/src/whiteboard/engine.ts:776-780 | A style the client has normalized is one the server accepts, and normalizing it again changes nothing. |
| EngineOps.WidthIsNearest | frontend/src/whiteboard/color.ts:32-34 | A width in range goes to the nearest whole one, the upper of two, any other to the nearer end of the range. |
| EngineOps.OpacityIsNearest | frontend/src/whiteboard/color.ts:37-39 | An opacity in range moves by at most half a thousandth to whole thousandths, any other goes to the nearer end. |
| EngineOps.ColorIsKept | frontend/src/whiteboard/color.ts:46-49 | A hex color is kept letter for letter in a remote stroke and up to case in the pen; anything else becomes the default. |
| EngineOps.NormalIff | frontend/src/whiteboard/engine.ts:776-780 | Normalizing leaves a style alone exactly when it has a hex color, a whole width in 1 to 64 and an opacity of whole thousandths in 0 to 1, and always yields such a style. |
| EngineOps.ReadsCreate | frontend/src/whiteboard/engine.ts:758-784 | The client draws a create it does not know on top, in its normalized style, and ignores one of a known id or without points. |
| EngineOps.RemoteStepIff | frontend/src/whiteboard/engine.ts:758-846 | The client draws what the server draws for one operation exactly when a create is new, has points, a hex color, a whole width and an opacity of whole thousandths in range (or is the topmost stroke itself), and a restore changes nothing. |
| EngineOps.CreateBelowTop | frontend/src/whiteboard/engine.ts:758-784 | An instance: creating the lower of two strokes again lifts it on the server only, and an undo then takes it away on the client. |
| EngineOps.NewlineColor | apps/whiteboard/validator.py:34 | An instance: a color with a trailing newline passes the server check and is drawn in the default color. |
| EngineOps.RemoteFitsIff | frontend/src/whiteboard/engine.ts:172-180 | A remote edit fits the undo stack exactly when it is not a create of an id already on the board. |
| EngineOps.Find | frontend/src/whiteboard/engine.ts:796-802 | Looking a stroke up finds one with that id exactly when the board has one. |
| EngineOps.RemoteReplayIff | frontend/src/whiteboard/engine.ts:172-180 | Folding a ledger through the client agrees with the server at every version exactly when every operation is replayable where it stands. |
| EngineOps.RemoteReplayRefines | frontend/src/whiteboard/engine.ts:758-846 | In that case the fold gives the ordered strokes of the map-plus-order replay. |
| Engine.Engine.EmitServerOps | frontend/src/whiteboard/engine.ts:593-673 | The loops build exactly the chained envelopes of the edit and advance baseline and id counter by their number; a stroke without points is the one error. |
| Engine.Engine.Commit | frontend/src/whiteboard/engine.ts:586-590 | A local commit changes the board and sends its envelopes together. |
| Engine.Engine.OnEndPen | frontend/src/whiteboard/engine.ts:228-234 | The end of a pen gesture commits the finished stroke, if any, under the next numbered id. |
| Engine.Engine.SetColor | frontend/src/whiteboard/engine.ts:501-503 | Only the color changes, a hex color is taken up to case, and a normal style stays normal. |
| Engine.Engine.SetWidth | frontend/src/whiteboard/engine.ts:505-507 | Only the width changes, to the nearest whole one in range, and a normal style stays normal. |
| Engine.Engine.SetOpacity | frontend/src/whiteboard/engine.ts:509-511 | Only the opacity changes, to the nearest thousandth in range, and a normal style stays normal. |
| Engine.Engine.FinishErase | frontend/src/whiteboard/engine.ts:473-492 | An erase commits the removal of every swept stroke and then the surviving pieces, numbered on from the counter, or nothing. |
| Engine.Engine.SweepBoard | frontend/src/whiteboard/engine.ts:475-487 | The loop over the board collects the swept strokes and their numbered pieces, and advances the counter by the number of pieces. |
| Engine.Engine.SweepsStroke | frontend/src/whiteboard/engine.ts:745-748 | The scan of the path finds a hit exactly when some point of it hits the stroke. |
| Engine.Engine.IsSwept | frontend/src/whiteboard/engine.ts:478-480 | Trying the last point first changes nothing about the answer. |
| Engine.Engine.CutPieces | frontend/src/whiteboard/engine.ts:483-486 | Each surviving segment becomes a stroke in the style of its parent under the next number. |
| Engine.Engine.DeleteSelection | frontend/src/whiteboard/engine.ts:415-429 | Deleting removes the selected stroke, reports whether there was one, and clears the selection. |
| Engine.Engine.Clear | frontend/src/whiteboard/engine.ts:529-535 | A confirmed clear of a non-empty board removes everything, otherwise nothing happens. |
| Engine.Engine.OnBeginObjectDrag | frontend/src/whiteboard/engine.ts:365-370 | A drag remembers the selected stroke and where it began. |
| Engine.Engine.OnEndObjectDrag | frontend/src/whiteboard/engine.ts:383-405 | A drag commits the translation of the remembered stroke, unless it is below the threshold. |
| Engine.Engine.OnBeginResize | frontend/src/whiteboard/engine.ts:309-316 | A resize remembers the selected stroke with its tight bounding box. |
| Engine.Engine.OnEndResize | frontend/src/whiteboard/engine.ts:332-355 | A resize commits the scaling the handle drag means, unless it is below the threshold. |
| Engine.Engine.ApplyRemoteOperation | frontend/src/whiteboard/engine.ts:172-187 | A remote operation changes the board as its local reading says, sends nothing, and drops the selection exactly when the selected stroke is gone. |
| Engine.Engine.LoadServerState | frontend/src/whiteboard/engine.ts:151-161 | A reload replaces the board and both stacks. |
| Engine.Engine.Undo | frontend/src/whiteboard/engine.ts:513-519 | Undo is local: nothing is sent. |
| Engine.Engine.Redo | frontend/src/whiteboard/engine.ts:521-527 | Redo likewise. |
| Engine.Engine.SetServerVersion | frontend/src/whiteboard/engine.ts:139-141 | Setting the baseline leaves board and id counter alone. |
| Engine.PieceIdTellsNumber | frontend/src/whiteboard/engine.ts:485 | Two pieces with the same id carry the same number, whatever strokes they were cut from. |
| Engine.PenIdTellsNumber | frontend/src/whiteboard/engine.ts:197-199 | Two pen strokes with the same id carry the same number, whatever the clock says. |
| Engine.EraseIsBuilt | frontend/src/whiteboard/engine.ts:473-492 | While no stroke is a descendant of another, an erase is built against the board and acceptable to the server whatever the counter stands at, and afterwards no stroke is a descendant of another either. |
| Engine.EraseIsBuiltIff | frontend/src/whiteboard/engine.ts:473-492 | Without that, an erase is built exactly when no piece gets the id of a stroke the eraser leaves. |
| Engine.AncestorsOfPiece | frontend/src/whiteboard/engine.ts:485 | A piece descends from its parent and from the ancestors of that one, and from no other stroke. |
| Engine.EraseKeepsNoDescendants | frontend/src/whiteboard/engine.ts:473-492 | Removing the swept strokes and adding their pieces makes no stroke a descendant of another. |
| Engine.OthersKeepNoDescendants | frontend/src/whiteboard/engine.ts:383-535 | Nor does any other edit but an addition. |
| Engine.PenKeepsNoDescendantsIff | frontend/src/whiteboard/engine.ts:197-199 | And a finished pen stroke exactly when pieces of an earlier stroke of its very id are there. |
| Engine.SweepsIff | frontend/src/whiteboard/engine.ts:745-748 | A path sweeps a stroke exactly when a sample of the path is within the radius of a point of the drawn line; what lies between two samples of the path is not looked at. |
| Engine.WholePieceIff | frontend/src/whiteboard/engine.ts:481-486 | A swept stroke comes back whole, under a piece id, exactly when none of its own samples is in reach of the path. |
| Engine.KeptWholeIff | frontend/src/whiteboard/engine.ts:475-487 | An erase keeps every stroke it sweeps whole exactly when none of them has a sample in reach. |
| Engine.EraseLeaves | frontend/src/whiteboard/engine.ts:473-492 | What an erase leaves on the board: the strokes it does not sweep, then the pieces of the others. |
| Engine.EraseOnlyLiftsIff | frontend/src/whiteboard/engine.ts:473-492 | An erase takes no ink away, and only lifts the strokes it sweeps to the top under new ids, exactly when none of them has a sample in reach of the path. |
| Engine.TapReachesNothing | frontend/src/whiteboard/engine.ts:473-492 | A path of one point has no segment, so no sample of any stroke is in its reach. |
| Engine.TapSweepsBar | frontend/src/whiteboard/engine.ts:473-492 | An instance: a tap next to the middle of a line sweeps it and leaves it whole. |
| Engine.ShortEraseSweepsBar | frontend/src/whiteboard/engine.ts:473-492 | An instance: so does a path of two points. |
| Engine.SlashMissesBar | frontend/src/whiteboard/engine.ts:745-748 | An instance of the converse: a path that crosses a line without a sample near it does not sweep it. |
| Engine.EditsReachServer | frontend/src/whiteboard/engine.ts:593-673 | From agreement with a writable board nobody else writes to, whatever acceptable edits send within the byte caps is accepted, in one batch or one by one, and both sides agree again. |
| Engine.EraseReachesServer | frontend/src/whiteboard/engine.ts:473-492 | In particular everything an erase sends, whatever the counter stands at. |
| Engine.PenIsBuilt | frontend/src/whiteboard/engine.ts:228-234 | A pen stroke is built against the board, and acceptable exactly when at most 1000 samples survive thinning. |
| Engine.DeleteIsBuilt | frontend/src/whiteboard/engine.ts:415-429 | A deletion is built against the board and acceptable. |
| Engine.ClearIsBuilt | frontend/src/whiteboard/engine.ts:529-535 | A clear is built against the board and acceptable. |
| Engine.PenDraws | frontend/src/whiteboard/engine.ts:228-234 | A pen gesture puts one stroke on top, in the style of the pen, from its first sample to the last one kept, or nothing when fewer than two are kept. |
| Engine.DeleteRemoves | frontend/src/whiteboard/engine.ts:415-429 | A deletion takes away what has the selected id and nothing else. |
| Engine.ClearEmpties | frontend/src/whiteboard/engine.ts:529-535 | A confirmed clear leaves nothing, an unconfirmed one everything. |
| Engine.DragFollowsCursor | frontend/src/whiteboard/engine.ts:383-405 | Every point of a dragged stroke moves as the cursor did on both axes, so what lay under it at the start lies under it at the end; nothing else of the stroke changes; nothing is committed exactly below the threshold on both axes. |
| Engine.ResizeFollowsHandle | frontend/src/whiteboard/engine.ts:332-355 | The box of a resized stroke has the dragged sides under the cursor and the others where they were, when the scales for that are in range; nothing else of the stroke changes; nothing is committed exactly when both scales are within the threshold of 1. |
| Engine.DragIsBuilt | frontend/src/whiteboard/engine.ts:383-405 | A drag is acceptable whatever became of its stroke, and built against the board exactly when that stroke is still there as it was. |
| Engine.ResizeIsBuilt | frontend/src/whiteboard/engine.ts:332-355 | A resize likewise. |
| Engine.DragAgreesIff | frontend/src/whiteboard/engine.ts:383-405 | From agreement, what a drag sends is accepted, and both sides agree afterwards exactly when its stroke has meanwhile been deleted or is as it was when the drag began. |
| Engine.ResizeAgreesIff | frontend/src/whiteboard/engine.ts:332-355 | A resize likewise. |
| Engine.DragOfMovedStroke | frontend/src/whiteboard/engine.ts:383-405 | An instance: a stroke the partner moves to the right during a drag downwards ends at different places on the client and on the server. |
| LocalStore.Store.SaveOperation | frontend/src/whiteboard/local-store.ts:262-276 | An operation is stored exactly when the open ones are below the limit. |
| LocalStore.Store.SetStatus | frontend/src/whiteboard/local-store.ts:278-292 | A status update changes that record only, and nothing when there is none. |
| LocalStore.Store.SetRetries | frontend/src/whiteboard/local-store.ts:278-292 | The same with a retry count. |
| LocalStore.Store.SetVersion | frontend/src/whiteboard/local-store.ts:278-292 | The same with a server version. |
| LocalStore.Store.GetPendingOperations | frontend/src/whiteboard/local-store.ts:300-310 | The queue lists exactly the open operations, each once, in client order. |
| LocalStore.Store.CompactConfirmedOperations | frontend/src/whiteboard/local-store.ts:396-404 | The loop deletes exactly the confirmed operations up to the given version. |
| LocalStore.Store.RecoverInterrupted | frontend/src/whiteboard/local-store.ts:444-455 | The loop turns every operation in flight back to waiting, touches nothing else, and counts them. |
| LocalStore.RecoveryReopens | frontend/src/whiteboard/local-store.ts:444-455 | After recovery exactly the operations open before are open, none is in flight, none newly failed or confirmed, and operation, order and retries are as before. |
| LocalStore.CompactionKeeps | frontend/src/whiteboard/local-store.ts:396-404 | Compaction keeps exactly what is not confirmed or was confirmed past the version, unchanged. |
| Delivery.ExactlyOnce | frontend/src/whiteboard/sync-engine.ts:349-458 | In every run with losses before and after commit, socket confirmations, other writers, crashes and restarts, a saved operation is in the ledger at most once and as saved; confirmed or forgotten it is there; otherwise it is still stored as pending, submitting or failed. |
| Delivery.EveryRunIsSafe | frontend/src/whiteboard/sync-engine.ts:349-458 | The invariant behind it: records, requests, answers and rows all tell the truth about what was saved. |
| Delivery.KnownVersionIsReal | frontend/src/whiteboard/sync-engine.ts:354-405 | The version the client believes in is never negative and never exceeds the number of rows. |
| Delivery.OneInFlight | frontend/src/whiteboard/sync-engine.ts:358-453 | Over every run no record is marked in flight but that of the operation the pass waits for, and that one is, unless the socket has confirmed it meanwhile. |
| Delivery.AnswerOutcome | frontend/src/whiteboard/sync-engine.ts:387-453 | What each answer leaves of every record, the known version and the pass: acknowledged operations and those confirmed up to that version go, refusals and silence past the budget fail the operation, everything else leaves it waiting. |
| Delivery.NewlyFailsIff | frontend/src/whiteboard/sync-engine.ts:412-441 | In any step an operation newly fails exactly when the client hears that it was refused, or hears nothing with its retries used up; no crash adds a failure. |
| Delivery.FailedForReason | frontend/src/whiteboard/sync-engine.ts:412-441 | So over every run a failed operation was refused or given up that way. |
| Delivery.RetriesAreTries | frontend/src/whiteboard/sync-engine.ts:394-441 | Over every run the retries of a record are the number of unsuccessful tries of its operation that were counted. |
| Delivery.SilentFailureHadItsTries | frontend/src/whiteboard/sync-engine.ts:420-441 | So silence fails an operation exactly after eight counted tries or more. |
| SubmissionOrder.SubmissionOrderIsKept | frontend/src/whiteboard/sync-engine.ts:358-454 | When nothing goes over the socket and no request is handled after the client stopped waiting, the operations of this client stand in the ledger in client order, despite retries, stale breaks, failures and crashes. |
| SubmissionOrder.QueueIsComplete | frontend/src/whiteboard/local-store.ts:300-310 | Reading the queue finds every operation that is neither in the ledger nor failed, in strictly increasing client order. |
| SubmissionOrder.AwaitedIsNext | frontend/src/whiteboard/sync-engine.ts:358-377 | No operation made later than the one being sent is in the ledger before it. |
| SubmissionOrder.EarlierAreSettled | frontend/src/whiteboard/sync-engine.ts:358-377 | Everything made before the one being sent is in the ledger or has failed. |
| SyncEngine.SyncEngine.Initialize | frontend/src/whiteboard/sync-engine.ts:158-169 | Opening turns what was in flight back to waiting, counts it, and says whether work is waiting. |
| SyncEngine.SyncEngine.SeedServerVersion | frontend/src/whiteboard/sync-engine.ts:206-208 | Seeding never lowers the known version. |
| SyncEngine.SyncEngine.Submit | frontend/src/whiteboard/sync-engine.ts:236-272 | A local operation is stored as pending exactly below the limit of open operations, or refused with an error phase. |
| SyncEngine.SyncEngine.MarkOperationConfirmed | frontend/src/whiteboard/sync-engine.ts:279-292 | A socket confirmation marks the record and raises the known version, never lowering it. |
| SyncEngine.SyncEngine.Deliver | frontend/src/whiteboard/sync-engine.ts:374-386 | One request and its reply: what the server does and what the client hears, for each fate of the request. |
| SyncEngine.SyncEngine.Settle | frontend/src/whiteboard/sync-engine.ts:377-453 | Each answer has exactly its effect on the record, the known version and the rest of the pass. |
| SyncEngine.SyncEngine.PushPending | frontend/src/whiteboard/sync-engine.ts:349-458 | The loop with its breaks makes the pass its specification describes and reports permanent failures. |
| SyncEngine.SyncEngine.RunSync | frontend/src/whiteboard/sync-engine.ts:302-338 | A pass reads the queue, pushes it and sets the phase from what is left; one pass at a time. |
| SyncEngine.NeverStale | apps/whiteboard/service.py:164-168 | At the version of the board a request is accepted or refused for good, never stale. |
| SyncEngine.StaleOrNot | frontend/src/whiteboard/sync-engine.ts:394-407 | Behind it, the only other answer is a stale one, and that names the version of the board. |
| SyncEngine.MeetsStaleIff | frontend/src/whiteboard/sync-engine.ts:340-407 | When every request arrives, a pass is answered stale exactly when the board is writable, the known version is behind it, and the pass comes to a valid operation the ledger does not hold before any valid one that is the last of the ledger. |
| SyncEngine.StaleLeavesOpen | frontend/src/whiteboard/sync-engine.ts:394-407 | Then, and only then, does the pass leave an operation waiting. |
| SyncEngine.StalePass | frontend/src/whiteboard/sync-engine.ts:340-407 | An instance: one row by the partner, known version 0, one new operation, answered stale at 1, counted as a try and left for the next pass. |
| SyncEngine.PassDrains | frontend/src/whiteboard/sync-engine.ts:358-454 | A pass that starts at the version of the board leaves nothing open. |
| SyncEngine.PassStopsOrDrains | frontend/src/whiteboard/sync-engine.ts:358-454 | Any pass either leaves nothing open or ends knowing the version of the board. |
| SyncEngine.PassKeepsAccounts | frontend/src/whiteboard/sync-engine.ts:358-454 | Whatever the network does, a pass loses nothing. |
| SyncEngine.TwoPassesDrain | frontend/src/whiteboard/sync-engine.ts:302-407 | Against a reachable server with no other writer and no rate limit, two passes leave nothing pending or submitting; each saved operation is in the ledger or failed. |
| SyncEngine.PassDeals | frontend/src/whiteboard/sync-engine.ts:349-458 | When every request arrives, a pass over the queue leaves each operation either open, or in the ledger if the board is writable and nothing is wrong with it, or failed if not. |
| SyncEngine.TwoPassesDeliver | frontend/src/whiteboard/sync-engine.ts:302-407 | So after the two passes each operation of the queue is in the ledger and not failed if the board is writable and nothing is wrong with it, and failed otherwise. |
| SyncEngine.NinthSilenceIsFinal | frontend/src/whiteboard/sync-engine.ts:358-441 | The operation at the head of the queue survives eight passes that hear nothing about it, counting them, and fails for good on the ninth, which alone reports a failure; all that time no other record changes and the queue keeps its order, then the head is gone from it. |
| SyncEngine.FailureIsRecorded | frontend/src/whiteboard/sync-engine.ts:349-458 | Whatever the network does, a pass reports a permanent failure exactly when it leaves one of its queued operations failed. |
| SyncEngine.PassIsARun | frontend/src/whiteboard/sync-engine.ts:349-458 | Every pass is a run of the protocol steps, so what holds of every run holds of it, and it reports a permanent failure exactly when that run leaves a queued operation failed. |
| Realtime.RealtimeController.SubmitOperation | frontend/src/whiteboard/realtime/controller.ts:98-110 | A submit is marked applied and pending and sent on the confirmed version plus what was in flight. |
| Realtime.RealtimeController.HandleMessage | frontend/src/whiteboard/realtime/controller.ts:130-178 | Each message has exactly its effect on version, sets and flag, draws exactly the operations not applied before, each once, and asks for a sync exactly when it should. |
| Realtime.RealtimeController.HandleCommitted | frontend/src/whiteboard/realtime/controller.ts:180-194 | A confirmation ends a pending submit and draws only what was not applied. |
| Realtime.RealtimeController.RequestSync | frontend/src/whiteboard/realtime/controller.ts:117-121 | A sync request asks from the confirmed version and sets the syncing flag. |
| Realtime.AtMostOnce | frontend/src/whiteboard/realtime/controller.ts:138-194 | For any sequence of submits and messages, no operation is drawn after it was drawn or submitted. |
| Realtime.DrawnIff | frontend/src/whiteboard/realtime/controller.ts:138-194 | In every run a message draws an operation exactly when it brings it, as it brings it, and no submit or message before told of that id. |
| Realtime.NothingMissed | frontend/src/whiteboard/realtime/controller.ts:98-194 | Whatever a submit or a message tells of stands in the history by the time it is handled, submitted or drawn, and the history holds nothing else. |
| Realtime.AppliedIff | frontend/src/whiteboard/realtime/controller.ts:98-194 | An id counts as applied exactly when some submit or message so far told of it. |
| Realtime.SyncDrawsInOrder | frontend/src/whiteboard/realtime/controller.ts:141-155 | A sync draws, in the order of its message, exactly what stands at the first mentions of ids not applied before. |
| Realtime.SyncingIff | frontend/src/whiteboard/realtime/controller.ts:112-160 | The controller says it is syncing exactly while a sync it asked for has not come. |
| Pipeline.EveryLinkIsTrue | apps/whiteboard/consumers.py:264-315 | In every run of submits, refusals, dropped messages, partner writes and resets over ordered links, confirmations reach the client in ledger order and tell the version reached, and each submit on the wire carries the base it was sent with. |
| Pipeline.HeadAcceptedIff | frontend/src/whiteboard/realtime/controller.ts:98-110 | The next submit on the wire is accepted exactly when the board is writable, nothing is wrong with its operation, and as many of the submits counted in its base are missing from the rows since the version it was sent on as there are rows it did not count. |
| Pipeline.SubmitAcceptedIff | frontend/src/whiteboard/realtime/controller.ts:98-110 | So in every run from a fresh connection. |
| Pipeline.TakenAddsIff | apps/whiteboard/consumers.py:264-315 | Taking a submit adds its row exactly when it is not turned away, the limiter has room and the submit is accepted, and changes no row otherwise. |
| Pipeline.HeadAcceptedUnlessLost | frontend/src/whiteboard/realtime/controller.ts:98-110 | While the partner writes nothing and no stale answer arrives, that means: exactly when the board is writable, nothing is wrong with the operation, and none of the submits counted before it was refused or dropped. |
| Pipeline.SubmitAcceptedUnlessLost | frontend/src/whiteboard/realtime/controller.ts:98-110 | So in every such run. |
| Pipeline.RefusedIsLost | frontend/src/whiteboard/realtime/controller.ts:180-194 | A submit that is refused or dropped stays among those the client counts, and every later one on the wire counted it. |
| Pipeline.LostBlocksAll | frontend/src/whiteboard/realtime/controller.ts:180-194 | From then on no submit becomes a row until a stale answer reaches the client. |
| Pipeline.QuietReset | frontend/src/whiteboard/realtime/controller.ts:180-194 | A stale answer with nothing else of this client under way puts it in order again, with nothing counted. |
| Pipeline.RefusalThenStale | frontend/src/whiteboard/realtime/controller.ts:180-194 | An instance: after a refused submit the next, valid one is sent on version 1 to a board at version 0 and answered stale. |
| Pipeline.NextBase | frontend/src/whiteboard/realtime/controller.ts:98-110 | While nothing is lost, confirmed plus in flight is the version the server will have once it has taken everything on the wire. |
| Pipeline.EveryPipelinedSubmitIsAccepted | frontend/src/whiteboard/realtime/controller.ts:98-110 | In every run of one author writing alone, in which operations are valid and messages get through, every submit is accepted on first sending, however many are in flight. |
| Pipeline.PacedIsSmooth | apps/whiteboard/consumers.py:264-270 | When no window holds more submits than the limit, the limiter drops none of them. |
| Pipeline.EveryPacedSubmitIsAccepted | apps/whiteboard/consumers.py:264-315 | So with valid operations and submits at that pace every submit is accepted. |
| RateLimits.Check | apps/accounts/ratelimit.py:48-84 | One check decides as the specification says from the counter and the block, through the cache, touches no other key, and names the cooldown to wait on a refusal. |
| RateLimits.Reset | apps/accounts/ratelimit.py:87-89 | A reset forgets both and nothing else. |
| RateLimits.KeysApartIff | apps/accounts/ratelimit.py:40-45 | Two keys share a counter or a block exactly when scope, colon and key read the same; scopes without a colon are always apart. |
| RateLimits.LimitPerLife | apps/accounts/ratelimit.py:67-84 | At most the limit is granted in one life of the counter. |
| RateLimits.TwiceTheLimitPerWindow | apps/accounts/ratelimit.py:67-84 | No span of a window, ends included, sees more than twice the limit granted. |
| RateLimits.NothingDuringCooldown | apps/accounts/ratelimit.py:64-65 | After an over-limit rejection nothing is granted until the cooldown has passed. |
| RateLimits.WaitingIsEnough | apps/accounts/ratelimit.py:64-65 | A client that waits the time it is told after a refusal is past the block. |
| RateLimits.OverLimitOnlyWhenFull | apps/accounts/ratelimit.py:80-82 | An over-limit rejection comes only when the counter has granted its limit in this life. |
| RateLimits.SocketLimiter.RateLimited | apps/whiteboard/consumers.py:103-109 | The list is filtered in place to the window and a message limited exactly when the list is full. |
| RateLimits.RefusedIffFull | apps/whiteboard/consumers.py:103-109 | A message is refused exactly when the window ending now already holds the limit of accepted ones. |
| RateLimits.SlidingWindow | apps/whiteboard/consumers.py:103-109 | No sliding window ever holds more than the limit. |
| RateLimits.PacedIsNotFull | apps/whiteboard/consumers.py:103-109 | When no window of a message list holds more than the limit, the list of accepted ones is never full. |
| OverlappingChecks.EveryOverlapIsTrue | apps/accounts/ratelimit.py:64-84 | In every order in which the cache answers overlapping checks, the counter knows how many it counted in its life up to the limit, and every check still under way that ran into an earlier counter is known to straddle. |
| OverlappingChecks.LimitPlusStraddlers | apps/accounts/ratelimit.py:64-84 | The checks granted in one life of the counter are at most the limit that it counted, and besides only checks that had run into an earlier counter and were under way when this one was started. |
| OverlappingChecks.TwiceTheLimitPlusStraddlers | apps/accounts/ratelimit.py:64-84 | No span of a window, ends included, sees more granted than twice the limit and the straddlers of two lives. |
| OverlappingChecks.GrantedOnce | apps/accounts/ratelimit.py:64-84 | No check is granted twice, so those counts are counts of grants. |
| OverlappingChecks.EveryGrantCountedIff | apps/accounts/ratelimit.py:72-78 | The counter counts every grant exactly when no second add runs into a counter another check has started meanwhile. |
| OverlappingChecks.LimitWhenCounted | apps/accounts/ratelimit.py:72-84 | Then a life grants at most the limit, however much the checks overlap. |
| OverlappingChecks.AloneDecides | apps/accounts/ratelimit.py:64-84 | With no other check in between, the single steps do what the check as a whole does. |
| OverlappingChecks.LimitWithoutOverlap | apps/accounts/ratelimit.py:64-84 | When checks follow one another nothing straddles, and a life grants at most the limit. |
| OverlappingChecks.StraddlerSlipsThrough | apps/accounts/ratelimit.py:72-78 | An instance: with a limit of one, two checks that straddle the expiry are both granted in the next life. |
| Partnerships.Tables.CreateInvitation | apps/partnerships/services.py:183-307 | Inviting makes its checks in order, resends an invitation already sent, or creates partnership, membership and invitation together. |
| Partnerships.Tables.ResendInvitation | apps/partnerships/services.py:342-396 | A resend trusts the status on the copy it is given, reissues the row, and rolls back on a constraint violation. |
| Partnerships.Tables.RevokeInvitation | apps/partnerships/services.py:399-437 | A revoke trusts the status on its copy, marks the row, and cancels the partnership if that is still pending. |
| Partnerships.Tables.MarkExpiredInvitation | apps/partnerships/services.py:443-465 | An invitation past its time that is still sent becomes expired, and only then. |
| Partnerships.Tables.AcceptInvitation | apps/partnerships/services.py:468-553 | Accepting runs in three transactions with others committing in between; the last one does not look at the invitation again; only an invited user gets through. |
| Partnerships.Tables.CommitAcceptance | apps/partnerships/services.py:502-550 | The accepting transaction checks partnership, memberships and capacity, then joins, activates and marks the row, or changes nothing. |
| Partnerships.Tables.CancelIfPending | apps/partnerships/services.py:417-424 | A partnership still pending is cancelled and everybody leaves it; any other is left alone. |
| Partnerships.FindSent | apps/partnerships/services.py:244-252 | The lookup finds a sent invitation from that inviter to that email exactly when there is one. |
| Partnerships.Tables.RejectInvitation | apps/partnerships/services.py:613-655 | A rejection reads the row under its lock and cancels a pending partnership. |
| Partnerships.Tables.EndPartnership | apps/partnerships/services.py:676-708 | An active member ends an active partnership and everybody leaves. |
| Partnerships.TransactionKeepsSafe | apps/partnerships/services.py:399-553 | Every transaction keeps the membership rules and moves statuses only forward, whatever its copy of the invitation says. |
| Partnerships.EveryInterleavingIsSafe | apps/partnerships/services.py:399-553 | So does every interleaving. |
| Partnerships.MembershipSafety | apps/partnerships/models.py:119-135 | In every interleaving a pending partnership has one active user, an active one two, others none, and nobody is active in two. |
| Partnerships.InStepMeetsConstraints | apps/partnerships/models.py:193-207 | While invitations and partnerships agree an inviter has at most one live invitation, so both uniqueness constraints hold. |
| Partnerships.TransactionKeepsStep | apps/partnerships/services.py:244-286 | With fresh reads each transaction keeps invitation and partnership in step and the uniqueness constraints never fire. |
| Partnerships.InvitationsAgree | apps/partnerships/services.py:343-437 | In every run with fresh reads pending means sent or expired, active or ended means accepted, cancelled means revoked or rejected. |
| Partnerships.AcceptSucceedsIff | apps/partnerships/services.py:468-553 | Undisturbed, accepting goes through exactly for an invited user without a membership on an invitation that is sent and not past its time. |
| Partnerships.CreateMeansSent | apps/partnerships/services.py:244-286 | A successful invitation is sent to that email for a week, by somebody who holds the only place of its pending partnership. |
| Partnerships.EndFreesActor | apps/partnerships/services.py:676-708 | Whoever ends a partnership has no membership left. |
| Partnerships.EveryRunIsSound | apps/partnerships/services.py:183-708 | Over every run the membership rules and the uniqueness of sent invitations hold together. |
| Partnerships.QueriesFind | apps/partnerships/services.py:310-340 | The membership queries find exactly whether the user is among the active users of some partnership, or of one with the given status. |
| Partnerships.CreateOutcome | apps/partnerships/services.py:183-307 | Inviting goes through exactly for the email of another person, by somebody without an active partnership, whom that person has not invited, and who has invited that email already or has no pending partnership; what then changes is said in full. |
| Partnerships.ResendOutcome | apps/partnerships/services.py:342-396 | A resend goes through exactly for an inviter without an active partnership, a copy that says sent or expired, and no other sent invitation to that email; the row is then sent for a week and nothing else changes. |
| Partnerships.RevokeOutcome | apps/partnerships/services.py:399-437 | A revoke goes through exactly for the inviter with a copy that says sent; the row is then revoked, a pending partnership cancelled with nobody in it, everything else as before. |
| Partnerships.RejectOutcome | apps/partnerships/services.py:613-655 | A rejection goes through exactly for an invited user on a sent invitation; the row is then rejected, a pending partnership cancelled with nobody in it, everything else as before. |
| Partnerships.ExpireOutcome | apps/partnerships/services.py:443-465 | An invitation becomes expired exactly when it is sent and its time has come, and nothing else changes. |
| Partnerships.AcceptOutcome | apps/partnerships/services.py:502-550 | Joining goes through exactly on a pending partnership for a user who is in none and has no membership row in this one; it is then active with that user added, the row accepted, everything else as before. |
| Partnerships.EndOutcome | apps/partnerships/services.py:676-708 | Ending goes through exactly for an active member of an active partnership, which is then ended with nobody in it, everything else as before. |
| Partnerships.NewStatusIff | apps/partnerships/services.py:183-708 | An invitation gets a new status only through its cause: rejected by an invited user, revoked by its inviter, accepted by somebody free to join, expired when its time has come. |
| Partnerships.StatusHasCause | apps/partnerships/services.py:183-708 | So over every run from an empty database. |
| Partnerships.PartnershipMovesIff | apps/partnerships/services.py:399-708 | A partnership changes its status exactly with the acceptance, revoke or rejection of its invitation, or when one of its members ends it. |
| Partnerships.RunsKeepIdentity | apps/partnerships/services.py:183-708 | No transaction changes whom an invitation is from, to or for. |
| Partnerships.InvitedIff | apps/partnerships/services.py:276-286 | Over every run after an invitation is made, exactly the user its email led to then and whoever has that email may answer it. |
| Partnerships.StaleResendIff | apps/partnerships/services.py:354-382 | With an out-of-date copy a resend that goes through keeps that agreement exactly when the row is still sent or expired. |
| Partnerships.StaleRevokeIff | apps/partnerships/services.py:407-424 | A revoke does exactly when the row has not been accepted. |
| Partnerships.StaleResendBreaks | apps/partnerships/services.py:354-382 | An instance: an ended partnership whose invitation is sent again. |
| Partnerships.StaleResendIsDead | apps/partnerships/services.py:354-382 | That row is then one nobody can accept, still marked sent. |
| Partnerships.DeadUntilReleased | apps/partnerships/services.py:399-655 | A sent invitation to a partnership that is over stays that exactly until its inviter revokes it, an invited user rejects it, or its time runs out. |
| Partnerships.DeadInvitationBlocks | apps/partnerships/services.py:200-286 | While it stays, accepting it always fails, inviting that email again opens nothing and can only reissue it, and whoever has that email is refused an invitation the other way. |
| Partnerships.DeadInvitationStays | apps/partnerships/services.py:399-655 | So over every run in which none of those three happens. |
| Partnerships.StaleRevokeBreaks | apps/partnerships/services.py:407-424 | An instance: an active partnership whose invitation is revoked. |

## Left out

- The socket's catch-up after a reconnect is not shown complete: the controller raises its version before it asks for what it missed.
- Scheduling by timers and back-off delays: results are per pass, and a pass asked for during another one is dropped as in the source.
- Polling and the history pages are not modelled.
- HTTP and socket plumbing, sessions, templates, email sending, audit events, notifications, tokens and expiry of links: I/O around the modelled transactions.
- JSON shape checks (types, unknown or forbidden fields, UUID spelling): payloads are typed here, so those rejections cannot arise.
- Not-a-number and infinite values: reals have none. Distances are compared squared.
- The wire stroke of the server and the stroke of the client are one datatype: the conversion only renames fields.
- Renderer, previews, viewport, selection by clicking, and the rest of input handling: no effect on the board or on what is sent.
- An engine without a callback for server operations: it edits its board and sends nothing.
- Records of other boards and the eviction of cached boards in the local store: only their count enters, as a parameter.
- Conflict records of the local store: nothing writes them any more.
- An answer without acks: the service always returns one for a batch of one.
- Delivery.ExactlyOnce: other clients are assumed not to draw this client's operation ids; logout and eviction are not steps of a run; requests carry no measured wire size, so the cap applies to their payload only.
- Pipeline.SubmitAcceptedIff: the connection stays open and both directions keep order; reconnecting, the close when a board is archived and losing access are not modelled, and a known operation sent again by the partner is not broadcast a second time.
- Pipeline.EveryPipelinedSubmitIsAccepted: one author writing alone, as in the source's own argument; what happens otherwise is Pipeline.SubmitAcceptedIff.
- Partnerships.Tables.AcceptInvitation: roles, timestamps and the audit rows are not modelled.
- Partnerships.InvitationsAgree: two opposite invitations between the same two people are not excluded; a resend of an expired one does not look for the reverse one.
- RateLimits.TwiceTheLimitPerWindow: for checks of one key that follow one another; for overlapping ones see OverlappingChecks.TwiceTheLimitPlusStraddlers.
- OverlappingChecks.LimitPlusStraddlers: for runs without a reset of the key.
- Replay.ReconstructedState.ApplyInPlace: the objects of the map are values, so sharing of point lists between objects is not modelled.
