# Model of the practice mod's patcher, ghosts, storage and installers

This project models six parts of the repository and proves what they are for.

1. **Disc patching.** A layout and a manifest become edits, edits become a merged action list, and the list
   becomes a BPS byte stream; a chunked interpreter applies it. The builder never sees the target image: it
   composes checksums by GF(2) matrix squaring, and the interpreter checks them byte by byte.
   `DiscContents` says what an applied patch leaves on the disc, place by place.
   `Bytes`, `Sorting`, `Crc32`, `Overlap`, `BpsNumber`, `Bps`, `BpsEncoding`, `IsoLayout`, `LayoutReuse`, `DiscPatch`.
2. **Ghosts.** The recorder, finisher, player and exporter. `GhostTrack`, `GhostFinish`, `GhostPlayback` and
   `GhostCapture` hold the track and its edits as values; `GhostRecorder` is the whole state machine with its
   invariant; `GhostOutcomes` says what a frame comes to: what it records, shows, ends or starts; `GhostTokens`
   follows version tokens through runs; `GhostBuffer` and `GhostDevice` are the same
   machine as classes over arrays, each method proved equal to the step it mirrors. `GhostSave` is the save.
3. **Ghost files.** `GhostLayout` is the byte layout, `GhostFile` what a canonical file is, `GhostConsole` the
   console's validator (32-bit words that wrap), `GhostHost` the host's (unbounded integers), `GhostExport` the writer.
4. **Storage protocols.** `StorageClient`, `StorageProtocol` and `StorageDevice` are the mailbox client against a
   responder of arbitrary delay, and `StorageOutcomes` says what each call asks for and what each answer does;
   `Persistence` is the two-sector configuration save against a card that may tear.
5. **Decoders and census.** `Lz4` and `Lml4` are the block decoder and its framing; `HeapCensus` is the walk over a
   captured heap's two allocation lists.
6. **Installers.** `CodeWords` has patched words and branches; `PatchRows`, `AsmHooks` and `ChoiceSites` are the three
   cached installers; `Installer` runs them together over one memory, boots, frames and the game's own writes mixed.

Code that changes state is modelled by classes and loops, each tied by its postcondition to a function on values;
the theorems are about those functions, over every input, every run or every reachable state.

Where code and comment differ, or a property is not quite what one would expect, the code is followed:

- `finishTrackAt` may extend a track whose last delta is already short; the result then is not well formed.
  `GhostFinish.FinishWellFormed` gives the exact condition. The recorder never gets there, because a track being
  captured has no short delta (`GhostCapture.FinishSettled`). `GhostFinish.ShortTrackSpoils` is a track that fails.
- The interpreter reads at most ten digits per number while the encoder writes any number; `DiscPatch.PatchApplies`
  gives the exact condition and `DiscPatch.BuiltPatchIsRight` shows real images always meet it.
- A token names content only within a cycle of 2^31 - 1 changes (`GhostTokens.NamesAgree`);
  `GhostTokens.OldOriginMisleads` says exactly when an acknowledgement then marks the wrong slot, and
  `GhostTokens.AgedMisleads` that such states keep the invariant.
- Turning everything off does not restore an early patch row, which is written once and never put back.
  `PatchRows.EarlyRestoredExactly` gives the exact condition, over every history, and `PatchRows.TurnedOffTooLate`
  a history that fails: on at boot, then off.
- The storage client does not look at the request line it finds. `StorageProtocol.StartsAtRest` gives the exact
  condition under which it starts at rest, and `StorageProtocol.LeftOverAnswersForAnother` a run from a line that
  an earlier client left unread, in which a request ends on another request's answer.
- An appearance switched off always takes its conditional branch, by the low halfword alone: right exactly for a
  branch that goes forward (`ChoiceSites.NeverShownLands`).
- A save ticket whose number wraps to zero is answered with failure even when its write succeeds
  (`Persistence.ServedIsSaved`).

Cross-reference for the formats: BPS numbers are bijective base 128; CRC-32 is that of RFC 1952, section 8; Adler-32
that of RFC 1950, section 2.2; serial comparison that of RFC 1982, section 3.2.

## Model

| member | source | states |
|---|---|---|
| `BpsNumber.EncodeNumber` | scripts/gen_iso_bps.py:88-97 | the byte loop produces the canonical encoding of the number |
| `BpsNumber.DecodeNumber` | scripts/build_lm_emulator.py:62-74 | the weight-accumulating loop reads exactly one encoding of at most ten digits, and refuses a truncated or an oversized one |
| `BpsNumber.EncodeThenValue` | scripts/gen_iso_bps.py:88-97 | decoding inverts encoding, for every natural number |
| `BpsNumber.ValueThenEncode` | scripts/build_lm_emulator.py:62-74 | every terminated byte string is the encoding of its value, so encoding inverts decoding |
| `BpsNumber.EncodingsAreDistinct` | scripts/gen_iso_bps.py:88-97 | the code is prefix-free: an encoding that starts another is that one |
| `BpsNumber.DigitsNeeded` | scripts/build_lm_emulator.py:62-74 | a number has at most d digits if and only if it is below 128 + 128^2 + ... + 128^d; with d = 10 this is the limit of the decoder |
| `BpsNumber.ParseEncoding` | scripts/build_lm_emulator.py:62-74 | an encoding standing anywhere in a stream is read back, consuming exactly its bytes, or refused when it is past the limit |
| `BpsNumber.ParsedIsEncoded` | scripts/build_lm_emulator.py:62-74 | whatever the decoder accepts is the encoding of what it returns, and within the limit |
| `Crc32.StepXor` | scripts/gen_iso_bps.py:33-71 | one shift of the CRC register is linear over GF(2) |
| `Crc32.FoldXor` | scripts/gen_iso_bps.py:33-71 | a difference in the register passes through any data as pure shifts |
| `Crc32.CrcConcat` | scripts/gen_iso_bps.py:33-71 | the checksum of a concatenation is the first checksum shifted past the second string, plus the second checksum (CRC-32 of RFC 1952, section 8) |
| `Crc32.MatrixTimes` | scripts/gen_iso_bps.py:38-46 | the bit loop is the GF(2) product of matrix and vector |
| `Crc32.SelectShifts` | scripts/gen_iso_bps.py:38-46 | the product of the matrix of n shifts with any vector is n shifts of that vector |
| `Crc32.OneShift` | scripts/gen_iso_bps.py:51-56 | the seeded matrix is the matrix of a single shift |
| `Crc32.MatrixSquare` | scripts/gen_iso_bps.py:48-49 | squaring the matrix of n shifts gives the matrix of 2n shifts, for every n |
| `Crc32.Crc32Combine` | scripts/gen_iso_bps.py:33-71 | the squaring loop, logarithmic in the length, equals composition by plain shifting for every pair of checksums and every length, non-positive ones included |
| `Crc32.CombineCorrect` | scripts/gen_iso_bps.py:33-71 | composing the checksums of two strings gives the checksum of their concatenation |
| `Crc32.ZeroCrc` | scripts/gen_iso_bps.py:74-85 | the doubling loop returns the checksum of n zero bytes, for every n |
| `Crc32.BitwiseCrc` | src/ghost_model.cpp:191-202 | the masked bit-at-a-time loop computes the checksum |
| `Crc32.NibbleCrc` | src/ghost.cpp:1602-1620 | the sixteen-entry table loop with a zero window computes the checksum of the data with that window cleared |
| `Crc32.NibbleSteps` | src/ghost.cpp:1602-1620 | one table lookup is four shifts of the register |
| `Crc32.CopiedCrc` | scripts/validate_ghost.py:141-146 | clearing the windows of a copy and checksumming it gives the checksum with the windows cleared; a window outside the data is refused |
| `Crc32.StreamedCrc` | scripts/compare_lm_archives.py:112-118 | streaming the gaps gives the checksum with all windows cleared, for every sorted disjoint list of windows; with the two rows above all forms agree |
| `Crc32.CheckValue` | scripts/gen_iso_bps.py:33-71 | the checksum defined here is the published one: 0xCBF43926 for the nine digits |
| `Overlap.PeriodicIsCopyForward` | scripts/build_lm_emulator.py:118-124 | replicating the last period and cutting it to length is the byte-at-a-time copy that may read its own output |
| `Overlap.CopyForwardSplit` | scripts/build_lm_emulator.py:111-139 | an overlapping copy cut in two is the same copy |
| `Bps.ApplyPatch` | scripts/build_lm_emulator.py:77-145 | the chunked interpreter with its two cursors, three checksums and every refusal computes exactly the denotation of the patch |
| `Bps.TransferInChunks` | scripts/build_lm_emulator.py:111-139 | moving a command in bounded chunks is moving it whole, and fails if and only if the whole fails |
| `Bps.TransferSplit` | scripts/build_lm_emulator.py:111-139 | any transfer may be cut anywhere without changing its bytes, cursors or refusal |
| `Bps.ExecuteCommands` | scripts/build_lm_emulator.py:99-139 | the command loop is the recursive meaning of the command stream |
| `BpsEncoding.CommandOfAction` | scripts/gen_iso_bps.py:279-302 | an encoded action, wherever it stands, is executed as that action and moves the cursors the encoder assumed; a number past ten digits is refused |
| `BpsEncoding.ExecuteActions` | scripts/gen_iso_bps.py:279-302 | executing an encoded action list is running the list, consuming the stream exactly |
| `BpsEncoding.ApplySealed` | scripts/gen_iso_bps.py:299-302 | the trailer the encoder writes always passes the patch checksum; what is left is the stream under its own two checksums |
| `BpsEncoding.EncodedApplies` | scripts/gen_iso_bps.py:279-302 | a draft whose actions produce a target and whose running checksum is the checksum of that target is applied to exactly that target, all three checks included, or refused when a number exceeds ten digits |
| `IsoLayout.BuildOperations` | scripts/gen_iso_bps.py:140-204 | the cursor and list loops compute the recursive edit list, with the same refusals |
| `IsoLayout.OperationsMembers` | scripts/gen_iso_bps.py:140-204 | what is accepted is exactly what was collected, sorted, positive in size and laid out without overlap |
| `IsoLayout.LaidBounds` | scripts/gen_iso_bps.py:193-204 | in an accepted list every edit lies within the image and apart from the head |
| `IsoLayout.RangesByShape` | scripts/gen_iso_bps.py:207-217 | the needed source ranges depend only on which positions are edited, not on how literal and zero data is cut or what it holds |
| `IsoLayout.RangesStable` | scripts/gen_iso_bps.py:207-217 | two accepted manifests with the same hook addresses need the same source ranges, whatever their code, code length and words |
| `DiscPatch.BpsBuilder.Append` | scripts/gen_iso_bps.py:227-246 | the merged action list, offset and checksum after one append |
| `DiscPatch.BpsBuilder.SourceRead` | scripts/gen_iso_bps.py:257-262 | reads the image at the output offset with its recorded checksum, or fails and changes nothing |
| `DiscPatch.BpsBuilder.TargetRead` | scripts/gen_iso_bps.py:264-265 | appends literal data |
| `DiscPatch.BpsBuilder.SourceCopy` | scripts/gen_iso_bps.py:267-270 | copies a recorded range, or fails and changes nothing |
| `DiscPatch.BpsBuilder.WriteZeros` | scripts/gen_iso_bps.py:272-277 | one zero literal and a run-length copy of it |
| `DiscPatch.BpsBuilder.Encode` | scripts/gen_iso_bps.py:279-302 | the loop writes the header, the actions with signed relative cursors and the trailer |
| `DiscPatch.MergeRuns` | scripts/gen_iso_bps.py:227-246 | merging an action into its predecessor changes nothing a run can see |
| `DiscPatch.PushRepresents` | scripts/gen_iso_bps.py:227-246 | appending keeps the account right: the actions still produce the image and the composed checksum is still that image's |
| `DiscPatch.CopyZeros` | scripts/gen_iso_bps.py:272-277 | a run-length copy from a zero byte writes zeros |
| `DiscPatch.EditRepresents` | scripts/gen_iso_bps.py:324-346 | each edit adds exactly the bytes it shows and nothing before it changes |
| `DiscPatch.DriveBuilder` | scripts/gen_iso_bps.py:324-346 | the loop asks for exactly the ranges of `expected_source_ranges`, in that order, as long as it succeeds |
| `DiscPatch.BuildPatch` | scripts/gen_iso_bps.py:324-346 | the imperative build is the specified build, refusals included |
| `DiscPatch.SubstitutedUnique` | scripts/gen_iso_bps.py:324-346 | the edits determine the target image |
| `DiscPatch.BuildsExactlyWhen` | scripts/gen_iso_bps.py:324-346 | a patch is built if and only if the layout fits the manifest, the edits are in order and every needed range is recorded |
| `LayoutReuse.LaidExactly` | scripts/gen_iso_bps.py:193-204 | the sorted overlap check accepts a list of edits if and only if every edit lies inside the image and no two overlap, whatever order they were collected in |
| `LayoutReuse.PartsAlike` | scripts/gen_iso_bps.py:140-204 | edit lists whose parts cover the same positions are accepted alike, whatever they write there |
| `LayoutReuse.LaidAlike` | scripts/gen_iso_bps.py:140-204 | a second manifest with the same hook addresses, code that fits and 32-bit words has its edits accepted because the first one had |
| `DiscPatch.KeepsBuilding` | scripts/gen_iso_bps.py:309-321 | once a layout has built a patch, it builds one for a later manifest that validates against it if and only if the code fits its region and every word is a 32-bit value: edits apart and inside the image, and recorded ranges, follow from the first build |
| `DiscPatch.KeepsBuildingForWords` | scripts/gen_iso_bps.py:309-321 | for that, code that fits and 32-bit replacement words are enough |
| `DiscPatch.PatchApplies` | scripts/gen_iso_bps.py:324-346 | compiler correctness: on every clean source a built patch is accepted and writes exactly the source with each edit substituted, if and only if its numbers fit ten digits |
| `DiscPatch.BuiltPatchIsRight` | scripts/build_lm_emulator.py:77-145 | for images up to a quarter of the number range the condition always holds, so every built patch is applied to exactly the substituted image |
| `DiscPatch.GameCubeDiscsFit` | scripts/gen_iso_bps.py:352-354 | GameCube images are within that quarter |
| `DiscContents.PatchedDisc` | scripts/gen_iso_bps.py:140-346 | what the interpreter makes of a built patch and the clean image, in the layout's and the manifest's own fields: the mod's code and zeros in its region, the last write to each hook's site, the three header words no hook replaces, the two boot words, the file table with a new offset for each relocated file, each relocated file's bytes, and the clean image everywhere else; and within a quarter of the number range it makes something of it |
| `DiscContents.OnDiscUnique` | scripts/gen_iso_bps.py:140-204 | these statements leave no byte of the image open |
| `DiscContents.LastWriteStands` | scripts/gen_iso_bps.py:162-166 | of several writes to one site the last is the one the dictionary ends with |
| `DiscContents.TableCovers` | scripts/gen_iso_bps.py:173-186 | the file table's edits cover its whole span, whatever the order of cursor and words, even where a copy has no length |
| `GhostTrack.TilesCover` | src/ghost.cpp:2059-2142 | when segments tile the samples every sample belongs to exactly one segment |
| `GhostTrack.OrderedSpan` | src/ghost.cpp:2059-2142 | time order of neighbours makes every segment lie between the start and the end of the track |
| `GhostFinish.InterpolateBetween` | src/ghost.cpp:962-965 | an interpolated fixed-point coordinate lies between its neighbours, truncation toward zero included |
| `GhostFinish.FinishWellFormed` | src/ghost.cpp:967-1054 | on a well-formed track finishing fails exactly when the end is out of reach, and otherwise ends exactly at the requested time; the result is well formed if and only if the end is not past the track, or the last delta is not already short |
| `GhostFinish.InterpolateProportion` | src/ghost.cpp:962-965 | an interpolated coordinate is the elapsed part of the way, rounded toward zero |
| `GhostFinish.YawTurns` | src/ghost.cpp:1006-1010 | an interpolated yaw is the elapsed part of the shorter arc, rounded toward zero |
| `GhostFinish.PhaseTurns` | src/ghost.cpp:738-746 | so is an interpolated phase, on its own circle |
| `GhostFinish.TerminalEnds` | src/ghost.cpp:989-1022 | the terminal sample: coordinates on the way, yaw and, within one animation, phase on the shorter arc, the animation of the sample before, mount and held object of the one after |
| `GhostFinish.FinishKeeps` | src/ghost.cpp:967-1054 | every sample up to the last one at or before the end is kept; if time is left, one terminal sample is added, on the way to the next sample or holding the last pose; nothing but the last segment and the end changes |
| `GhostFinish.Extend` | src/ghost.cpp:967-1054 | holding the last pose past the end stays well formed if and only if the last delta was not already short |
| `GhostFinish.ShortTrackSpoils` | src/ghost.cpp:967-1054 | a concrete well-formed track of two samples one tick apart that ends one tick later, successfully, and is not well formed any more |
| `GhostPlayback.SegmentAt` | src/ghost.cpp:1151-1166 | the last segment on the live course whose time span holds the clock value, or none |
| `GhostPlayback.CatchUpFinds` | src/ghost.cpp:1176-1245 | catching up stops on the last sample due, with the true prefix sum as its time |
| `GhostPlayback.UpdateIsFresh` | src/ghost.cpp:1176-1245 | whatever the cursor did before, what is shown is due: the last owning segment's last due sample, held if it is the segment's last, else the way to the next as far as the clock is between their times; or nothing if no segment owns the clock value |
| `GhostPlayback.DueUnique` | src/ghost.cpp:1176-1245 | what is due is one thing only |
| `GhostPlayback.ReplayIsFresh` | src/ghost.cpp:1176-1245 | over every sequence of clock values and routes, forward or backward, each tick shows what is due |
| `GhostPlayback.ObserveAgrees` | src/ghost.cpp:1253-1315 | on the segment playback would choose, the observer's own cursor chooses the same sample, time and pose as playback |
| `GhostPlayback.ObserveIsFresh` | src/ghost.cpp:1253-1315 | whatever the observer's cursor did before, it shows what is due in its segment, or nothing outside the segment's span |
| `GhostPlayback.WatchIsFresh` | src/ghost.cpp:1253-1315 | over every sequence of clock values, forward or backward, each observation is what is due in the segment, and playback's own wherever playback plays that segment |
| `GhostCapture.CaptureOk` | src/ghost.cpp:814-904 | a captured sample and the descriptor table it needs stay within the format's bounds |
| `GhostCapture.CapturedPose` | src/ghost.cpp:880-902 | a captured sample reads back as the pose: coordinates, yaw, animation and mount exactly, the phase to the nearest step, the held object unless no descriptor can name it; descriptors are only added |
| `GhostCapture.AddFirst` | src/ghost.cpp:814-904 | the first sample of a segment makes the track a growing one, whatever the clock did before |
| `GhostCapture.AddNext` | src/ghost.cpp:814-904 | a further sample at least one interval on keeps deltas, tiling, order and caps |
| `GhostCapture.RollbackSettled` | src/ghost.cpp:777-801 | withdrawing the tentative last segment leaves the settled prefix |
| `GhostCapture.TentativeGrows` | src/ghost.cpp:749-775 | opening, restarting and filling a tentative segment never touches what was settled before it |
| `GhostCapture.TentativeRollsBack` | src/ghost.cpp:777-801 | rolling back gives every settled sample, segment and time back unchanged |
| `GhostCapture.DropEmptySettled` | src/ghost.cpp:803-812 | dropping an empty last segment for want of room leaves a settled track |
| `GhostCapture.TerminalOk` | src/ghost.cpp:989-1022 | the interpolated terminal sample stays within the bounds its neighbours meet |
| `GhostCapture.FinishSettled` | src/ghost.cpp:967-1054 | finishing a track that is being captured leaves a settled track or one too short to keep |
| `GhostRecorder.AppendToCapturing` | src/ghost.cpp:814-904 | offering a sample to a growing track: it grows, fails, or stops unchanged |
| `GhostRecorder.StartEpochOutcome` | src/ghost.cpp:927-938 | after a clock restart the track holds a first sample, or recording is over with only what was settled |
| `GhostRecorder.RollbackOk` | src/ghost.cpp:777-801 | a rollback keeps a valid record exactly when a settled prefix remains |
| `GhostRecorder.FinishOk` | src/ghost.cpp:1056-1075 | ending a run leaves a complete settled record ending at the clock, or an invalid one |
| `GhostRecorder.BeginAttemptOk` | src/ghost.cpp:1086-1145 | a new attempt promotes, keeps or drops the last record and keeps the invariant |
| `GhostRecorder.EnterStageOk` | src/ghost.cpp:2549-2590 | a stage change opens a tentative segment above a settled prefix |
| `GhostRecorder.SettleBoundaryOk` | src/ghost.cpp:2622-2673 | while a stage change is unproven every outcome (settled, stopped, rolled back, restarted) keeps the invariant |
| `GhostRecorder.TickOk` | src/ghost.cpp:2437-2718 | a whole frame keeps the invariant |
| `GhostRecorder.StepOk` | src/ghost.cpp:2437-2718 | every event keeps the invariant: frames, stage setups, imports, savestates, acknowledgements, best marks, discards |
| `GhostRecorder.SelectedSound` | src/ghost.cpp:1809-1839 | what the save selection picks is sound in every state that keeps the invariant |
| `GhostRecorder.SaveableIsSound` | src/ghost.cpp:749-960 | in every run a saveable track is well formed and within every cap: segments tile the samples, are in time order, start with a zero delta and add up to their spans; a recorded one fits the duration cap and a completed one ends at its result |
| `GhostOutcomes.SampleOffered` | src/ghost.cpp:814-904 | what comes of offering a sample, by cases on what is offered: refused, stopped, not due yet, or stored; stored, the track grows by one sample that reads back as the pose and stands at the clock value, and all recorded before is as it was |
| `GhostOutcomes.FirstSamples` | src/ghost.cpp:927-938 | an attempt starts with a sample at time zero and one at the clock once one is due |
| `GhostOutcomes.FrameShows` | src/ghost.cpp:2437-2718 | after any frame the ghost is hidden or shown exactly where it is due on the live route; on a frame on which it is to be seen, it is |
| `GhostOutcomes.FrameRecords` | src/ghost.cpp:2675-2718 | on an ordinary frame with a sample due the record grows by what was seen, and is valid once it has two samples under a settled clock |
| `GhostOutcomes.FrameProves` | src/ghost.cpp:2622-2673 | while a stage change is unproven a frame records as any other, and proves the change exactly when the clock is settled and the new segment starts no earlier than the last one ended |
| `GhostOutcomes.StageContinues` | src/ghost.cpp:2549-2590 | the first reading on a new stage of a run that goes on opens a tentative segment there with one sample, after all there was |
| `GhostOutcomes.FrameFinishes` | src/ghost.cpp:1056-1075 | when a settled run stops within reach its record ends exactly there, and with two samples it is a complete run with that result; otherwise it is no longer valid |
| `GhostOutcomes.FrameSpoils` | src/ghost.cpp:2437-2718 | fast-forward, losing Mario, or stopping before the clock has settled ends a recording and makes it invalid |
| `GhostOutcomes.FrameRestarts` | src/ghost.cpp:946-960 | when the clock of a run on its first stage goes back the recording starts over at once |
| `GhostOutcomes.AttemptStarts` | src/ghost.cpp:1086-1145 | a new attempt: a worthy record becomes the ghost to race, or stays beside a pinned target; otherwise the ghost stays, but for an unfinished one after a success; and recording starts over on the frame's route unless the record was kept |
| `GhostOutcomes.LookShows` | src/ghost.cpp:3072-3092 | drawing shows what is due at its own clock reading, or nothing, and changes nothing else |
| `GhostOutcomes.ImportInstalls` | src/ghost.cpp:2866-2904 | an imported track becomes the pinned target, unless that would lose an unsaved best run |
| `GhostOutcomes.SavestateDrops` | src/ghost.cpp:3283-3317 | a savestate drops the recording; a pinned target stays, any other ghost goes |
| `GhostTokens.StepKeeps` | src/ghost.cpp:369-391 | every event that changes what a slot holds also moves that slot's token |
| `GhostTokens.PromoteKeeps` | src/ghost.cpp:1118-1133 | promotion carries the record's content under its token as the origin, and the cleared record moves on |
| `GhostTokens.RunKeeps` | src/ghost.cpp:369-391 | token discipline over every run |
| `GhostTokens.AcknowledgeExact` | src/ghost.cpp:3258-3281 | an acknowledgement marks a slot saved only if it still holds exactly the exported samples and segments, through recording, rollback and promotion, short of a token cycle |
| `GhostTokens.AcknowledgeReaches` | src/ghost.cpp:3258-3281 | conversely a valid slot not touched since the export is marked saved, in place or after its promotion |
| `GhostTokens.AcknowledgedIsExported` | src/ghost.cpp:3258-3281 | in every run from the start: whatever was offered for saving at any point, its acknowledgement at any later point short of a token cycle marks a slot saved only if that slot still holds that content |
| `GhostTokens.NamesAgree` | src/ghost.cpp:369-391 | two changes have the same token if and only if a whole number of cycles of 2^31 - 1 lies between them |
| `GhostTokens.OldOriginMisleads` | src/ghost.cpp:3258-3281 | the age bound on a promoted track is exact: a record exported and acknowledged at once is marked saved, unless the promoted track's origin is a whole number of cycles old; then that other track is marked in its place |
| `GhostTokens.AgedMisleads` | src/ghost.cpp:3258-3281 | every state with a saveable record beside a promoted track has a counterpart a cycle of changes later that keeps the invariant and the token discipline, and in which acknowledging the exported record marks the promoted track and leaves the record unsaved |
| `GhostBuffer.TrackBuffer.AddSegment` | src/ghost.cpp:749-775 | a new segment written in place is the specified one |
| `GhostBuffer.TrackBuffer.Rollback` | src/ghost.cpp:777-801 | counts cut in place withdraw exactly the segments from the base on |
| `GhostBuffer.TrackBuffer.DropEmpty` | src/ghost.cpp:803-812 | the empty last segment is dropped in place |
| `GhostBuffer.TrackBuffer.Restart` | src/ghost.cpp:906-925 | the last segment is emptied in place for a new clock |
| `GhostBuffer.TrackBuffer.Capture` | src/ghost.cpp:686-709 | the descriptor search returns the place of the held object, storing it on first sight |
| `GhostBuffer.TrackBuffer.AddSample` | src/ghost.cpp:880-902 | a sample written by index is the specified append |
| `GhostBuffer.TrackBuffer.Seek` | src/ghost.cpp:975-1040 | the walk over the buffer finds where the clock value falls |
| `GhostBuffer.TrackBuffer.FinishAt` | src/ghost.cpp:967-1054 | the in-place edit equals the specified finish, or refuses and changes nothing |
| `GhostBuffer.TrackBuffer.Install` | src/ghost.cpp:2148-2181 | the buffers hold exactly the installed track |
| `GhostDevice.Recorder.FailRecording` | src/ghost.cpp:519-525 | the record is refused and its token moves |
| `GhostDevice.Recorder.AppendSegment` | src/ghost.cpp:749-775 | refines the specified step; refuses at the segment cap |
| `GhostDevice.Recorder.RollbackBoundarySegment` | src/ghost.cpp:777-801 | refines the specified rollback |
| `GhostDevice.Recorder.DropLastEmptySegment` | src/ghost.cpp:803-812 | refines the specified drop |
| `GhostDevice.Recorder.AppendSample` | src/ghost.cpp:814-904 | refines the specified append: interval, delta, capacity and duration branches, in order |
| `GhostDevice.Recorder.ClearEpochSamples` | src/ghost.cpp:906-925 | refines the specified clearing |
| `GhostDevice.Recorder.StartEpochSamples` | src/ghost.cpp:927-938 | refines the specified restart |
| `GhostDevice.Recorder.RebaseClock` | src/ghost.cpp:946-960 | refines the specified answer to a clock regression |
| `GhostDevice.Recorder.EndTrack` | src/ghost.cpp:967-1054 | refines the specified finish on the recorder |
| `GhostDevice.Recorder.FinishRecording` | src/ghost.cpp:1056-1075 | refines the specified end of a run |
| `GhostDevice.Recorder.PrepareClock` | src/ghost.cpp:1077-1084 | refines the specified clock reset |
| `GhostDevice.Recorder.PlaybackOwnsCourse` | src/ghost.cpp:282-291 | the loop decides whether any playback segment is on the live course |
| `GhostDevice.Recorder.RecordRouteMatches` | src/ghost.cpp:297-303 | decides whether the last recorded segment is on the live route |
| `GhostDevice.Recorder.Police` | src/ghost.cpp:1096-1110 | the pin and policy decisions of a new attempt |
| `GhostDevice.Recorder.Swap` | src/ghost.cpp:1118-1128 | exchanging the two buffers is promotion: the record becomes the playback track |
| `GhostDevice.Recorder.Promote` | src/ghost.cpp:1118-1133 | promotes the record, or keeps it as a challenger under a surviving pin |
| `GhostDevice.Recorder.BeginAttempt` | src/ghost.cpp:1086-1145 | refines the specified start of an attempt |
| `GhostDevice.Recorder.PlaybackSegmentAt` | src/ghost.cpp:1151-1166 | the loop finds the last owning segment |
| `GhostDevice.Recorder.CatchUpTo` | src/ghost.cpp:1191-1199 | the loop moves the cursor to the last due sample |
| `GhostDevice.Recorder.UpdatePlayback` | src/ghost.cpp:1176-1245 | refines the specified playback step |
| `GhostDevice.Recorder.OnStageSetup` | src/ghost.cpp:2308-2405 | refines the specified stage setup |
| `GhostDevice.Recorder.EnterStage` | src/ghost.cpp:2549-2590 | refines the specified stage entry |
| `GhostDevice.Recorder.SettleBoundary` | src/ghost.cpp:2622-2673 | refines the specified boundary frame |
| `GhostDevice.Recorder.Follow` | src/ghost.cpp:2675-2718 | refines the specified frame on a settled stage |
| `GhostDevice.Recorder.Update` | src/ghost.cpp:2437-2718 | the whole frame refines the specified one and keeps its invariant |
| `GhostDevice.Recorder.ImportPlayback` | src/ghost.cpp:2866-2904 | installs a track as the pinned playback target |
| `GhostDevice.Recorder.StopAll` | src/ghost.cpp:527-541 | clears both slots and the clock |
| `GhostDevice.Recorder.OnSavestateLoaded` | src/ghost.cpp:3283-3317 | drops the attempt; keeps a pinned target |
| `GhostDevice.Recorder.ReleaseSavedRecording` | src/ghost.cpp:3258-3281 | marks saved by record, playback or origin token, in that order of tests |
| `GhostDevice.Recorder.MarkCurrentRecordingPB` | src/ghost.cpp:3223-3234 | numbers a completed record with that result, once |
| `GhostDevice.Recorder.DiscardUnsavedPB` | src/ghost.cpp:3201-3221 | drops exactly the slot holding that unsaved best |
| `GhostLayout.SampleRoundTrip` | scripts/validate_ghost.py:155-240 | a stored sixteen-byte sample reads back unchanged wherever it stands |
| `GhostLayout.SegmentRoundTrip` | src/ghost.cpp:2776-2780 | a stored segment descriptor reads back unchanged, reserved words zero |
| `GhostFile.ChecksAreCanonical` | src/ghost.cpp:1927-2146 | local checks along the segment chain decide exactly the canonical files: tiling, time order, deltas, caps, checksums, routes |
| `GhostFile.CanonicalPublishable` | src/ghost.cpp:2148-2181 | installing a canonical file gives a track the recorder may show, promote or export |
| `GhostConsole.ValidCanonicalFile` | src/ghost.cpp:1927-2146 | the wrapping 32-bit validator with subtract-first guards accepts exactly the canonical files |
| `GhostHost.ValidateGhost` | scripts/validate_ghost.py:354-659 | the unbounded-integer validator, tables first and samples after, accepts exactly the files canonical in their own region |
| `GhostHost.ValidateImportedGhost` | scripts/validate_ghost.py:662-673 | for each running region it accepts exactly the canonical files, hence exactly what the console accepts |
| `GhostHost.RegionOnly` | scripts/validate_ghost.py:662-673 | the running region matters only to the portability of a foreign file's routes |
| `GhostConsole.CheckSamples` | src/ghost.cpp:2103-2132 | one pass whose running sum never passes the duration decides the deltas and poses of a segment |
| `GhostConsole.CheckSegments` | src/ghost.cpp:2059-2142 | the segment loop decides placing and sampling of all segments |
| `GhostConsole.CheckAttachments` | src/ghost.cpp:2007-2042 | the byte comparisons decide emptiness, duplication and unused entries of the descriptor table |
| `GhostConsole.CheckSums` | src/ghost.cpp:2043-2057 | four checksums over their windows |
| `GhostConsole.ValidText` | src/ghost.cpp:1622-1636 | printable for its length, zero after it, present if required |
| `GhostHost.ReadSizes` | scripts/validate_ghost.py:500-516 | the declared sizes are accepted if and only if they are those of the format, the payload limit included |
| `GhostHost.ReadTable` | scripts/validate_ghost.py:518-579 | the first pass, its own bounds on segment times included, decides the place of every segment before any sample is read; those bounds never decide anything |
| `GhostHost.ReadSamples` | scripts/validate_ghost.py:581-621 | the second pass decides the deltas and poses of each segment |
| `GhostHost.ReadAttachments` | scripts/validate_ghost.py:470-498 | the pairwise comparisons decide the descriptor table |
| `GhostExport.ExportIsCanonical` | src/ghost.cpp:2738-2864 | the self-check never rejects an export whose routes are storable |
| `GhostExport.ExportCanonicalExactly` | src/ghost.cpp:2738-2864 | it accepts an export if and only if the routes are storable |
| `GhostExport.ImportOfExport` | src/ghost.cpp:2148-2181 | importing an export gives back the same samples, segments, times, route, attachments, flags and completeness |
| `GhostExport.ExportSummed` | src/ghost.cpp:2811-2854 | the checksums, written one inside the window of the next, are those the reader computes |
| `GhostExport.ExportStamped` | src/ghost.cpp:2776-2846 | region, profile, id, name and profile name stand in the file where the format has them |
| `GhostExport.SampleStands` | include/susamune/ghost_format.h:209-220 | every number of every sample stands big endian at its place |
| `GhostExport.SegmentStands` | include/susamune/ghost_format.h:222-234 | every number of every segment stands big endian at its place |
| `GhostExport.CopyText` | src/ghost.cpp:1638-1654 | the longest printable prefix that fits |
| `GhostSave.ExportLatest` | src/ghost.cpp:2738-2864 | succeeds if and only if something is selected, in profile, storable and within the buffer; the bytes then are canonical, install as the selected track, and bear the region, profile, id and the printable part of both names |
| `Lz4.ParseSpelled` | scripts/lm_quick_codec.py:9-54 | decoding any legal spelling of any legal sequence block gives its data, end-of-block conditions included |
| `Lz4.ParseSound` | scripts/lm_quick_codec.py:9-54 | whatever is accepted is the spelling of a legal block, and the result is that block's data |
| `Lz4.DecodeBlock` | scripts/lm_quick_codec.py:9-54 | the loop with period replication is the byte-at-a-time parser, refusals included |
| `Lz4.ReadLength` | scripts/lm_quick_codec.py:14-27 | the extension loop reads one length and refuses one past the block |
| `Lml4.SumsClosed` | scripts/lm_quick_codec.py:83-84 | the running Adler-32 sums are the closed sums of RFC 1950, section 2.2 |
| `Lml4.DecodesStream` | scripts/lm_quick_codec.py:59-85 | decoding inverts every legal stream: any data, any block plain or packed in any legal way |
| `Lml4.DecodeSound` | scripts/lm_quick_codec.py:59-85 | whatever is accepted is a legal stream of exactly the returned data |
| `Lml4.DecodeFast` | scripts/lm_quick_codec.py:59-85 | the block loop is the specified decoder; a size outside a word is refused |
| `HeapCensus.Census` | scripts/compare_lm_archives.py:311-339 | the two list walks, the running total and the sorted overlap check decide acceptance |
| `HeapCensus.WalkList` | scripts/compare_lm_archives.py:315-335 | one list walk, stopped early by the running total, returns the list if it can still add up |
| `HeapCensus.WalkLinks` | scripts/compare_lm_archives.py:315-336 | the local checks link the nodes both ways from head to tail, inside the heap |
| `HeapCensus.ChainFits` | scripts/compare_lm_archives.py:337-339 | blocks apart in order that add up to the room leave no gap |
| `HeapCensus.AcceptedTiles` | scripts/compare_lm_archives.py:311-339 | an accepted heap is partitioned exactly: every byte in exactly one block, every block within the heap, no node twice, both lists doubly linked from head to tail |
| `HeapCensus.AcceptsExactly` | scripts/compare_lm_archives.py:311-339 | in terms of the bytes: a heap is accepted if and only if its sixteen-byte headers link two lists, both ways, of at most 8192 blocks each, free ones in address order, that together tile it |
| `HeapCensus.ListsFound` | scripts/compare_lm_archives.py:315-336 | the two walks find exactly the lists the headers link |
| `Persistence.NewerNext` | src/emulator_persistence.cpp:218 | the successor generation is newer, at every wrap (serial comparison of RFC 1982, section 3.2) |
| `Persistence.Best` | src/emulator_persistence.cpp:357-387 | the sector a load chooses, none only when both are torn |
| `Persistence.WriteKeeps` | src/emulator_persistence.cpp:260-305 | a write to the inactive sector, torn or not, keeps the active one and every confirmed save |
| `Persistence.StepKeeps` | src/emulator_persistence.cpp:260-513 | loading, editing, committing, serving, polling and power loss keep the invariant |
| `Persistence.RunKeeps` | src/emulator_persistence.cpp:260-513 | over every run, of any length, with power loss anywhere |
| `Persistence.LoadsConfirmed` | src/emulator_persistence.cpp:335-400 | after any run of saves, failed and torn writes and restarts, a successful load gives an edit at least as recent as every confirmed save: its settings as they were, with the six flags every load sets; or the defaults, and then nothing was ever confirmed |
| `Persistence.SavedSurvives` | src/emulator_persistence.cpp:335-513 | once a ticket was polled and found saved, then after whatever follows a successful load gives settings at least as recent as the ones that ticket stands for |
| `Persistence.TicketTaken` | src/emulator_persistence.cpp:486-501 | a ticket stands for the settings in force when it was taken |
| `Persistence.BusyWaits` | src/emulator_persistence.cpp:443-475 | a pass that finds the worker busy writes nothing, and the wait starts over |
| `Persistence.PendingIsWritten` | src/emulator_persistence.cpp:443-484 | two undisturbed passes write a pending save and leave nothing pending |
| `Persistence.SavedComesBack` | src/emulator_persistence.cpp:335-484 | and after a restart those settings are loaded again |
| `Persistence.ServedIsSaved` | src/emulator_persistence.cpp:443-513 | after two undisturbed passes every outstanding ticket is answered with success, but for the one whose number wrapped to zero, which fails |
| `Persistence.ZeroTicketFails` | src/emulator_persistence.cpp:503-513 | a ticket numbered zero is never reported saved, in any state |
| `Persistence.Saver.LoadRecords` | src/emulator_persistence.cpp:335-441 | sector by sector reading refines the specified load |
| `Persistence.Saver.WriteRecordLocked` | src/emulator_persistence.cpp:260-305 | target choice, write, close and the state kept on success |
| `Persistence.Saver.Service` | src/emulator_persistence.cpp:443-484 | two idle passes before a write; completion recorded with the status |
| `Persistence.Saver.Change` | src/emulator_persistence.cpp:486-494 | an edit under the lock |
| `Persistence.Saver.Issue` | src/emulator_persistence.cpp:496-501 | a new ticket |
| `StorageClient.SumCatalog` | src/ghost_storage.cpp:334-406 | the subtract-first sum accepts exactly catalogs whose count and total match and stay within the limit |
| `StorageClient.DurationGrows` | src/ghost_storage.cpp:334-406 | a prefix of the rows never lasts longer than the whole |
| `StorageClient.Next` | src/ghost_storage.cpp:442-448 | the next sequence is never zero and never the last one |
| `StorageProtocol.StepKeeps` | src/ghost_storage.cpp:442-684 | every step of client, savestate or responder keeps at most one request outstanding and the response matched to it |
| `StorageProtocol.RunKeeps` | src/ghost_storage.cpp:442-831 | over every interleaving, at every sequence number |
| `StorageProtocol.StartsAtRest` | src/ghost_storage.cpp:747-795 | a client that hears a resting responder starts at rest, with the invariant, if and only if the request line it finds is the one already answered, which nothing checks |
| `StorageProtocol.StartedRuns` | src/ghost_storage.cpp:747-831 | from such a start every interleaving of client, savestates and responder keeps the invariant, wherever the sequence stands |
| `StorageProtocol.UnheardStarts` | src/ghost_storage.cpp:747-795 | a client that finds no responder, or a busy one, starts deaf |
| `StorageProtocol.UnheardRuns` | src/ghost_storage.cpp:442-448 | in every run a deaf client never writes the request line |
| `StorageProtocol.LeftOverAnswersForAnother` | src/ghost_storage.cpp:747-795 | a concrete run from a removal left unread on the line: the client's own catalog request has the same number, and it ends on the answer to the removal without ever having been served |
| `StorageProtocol.EndsOnlyAnswered` | src/ghost_storage.cpp:665-684 | a request ends only by its own answer: no stale answer, timeout or savestate frees the mailbox |
| `StorageProtocol.SaveWindowStands` | src/ghost_storage.cpp:875-922 | the payload window of a pending save is never rewritten before its answer |
| `StorageProtocol.ActsOnlyOnAnswers` | src/ghost_storage.cpp:533-662 | a save is released, and a load installs, only on the answer to that request, with its own bytes in the window; a load across an epoch change installs nothing |
| `StorageOutcomes.SaveReleases` | src/ghost_storage.cpp:600-607 | a save answered well is released to the recorder, once, under its own token and duration |
| `StorageOutcomes.LoadInstalls` | src/ghost_storage.cpp:624-661 | a load answered well and still wanted is installed, once, with the bytes in the window, where it was to go; an accepted race target is named as loaded |
| `StorageOutcomes.StaleLoadIgnored` | src/ghost_storage.cpp:624-635 | a load no longer wanted, for a changed epoch, profile or file, installs nothing |
| `StorageOutcomes.ListAdopts` | src/ghost_storage.cpp:582-599 | a list or scan answered well leaves the rows as the catalog exactly when they agree with the answer, and no catalog otherwise |
| `StorageOutcomes.RemovalForgets` | src/ghost_storage.cpp:608-618 | a removal answered well forgets the removed file if it was the one loaded, and takes a ghost still pinned from it off the course |
| `StorageOutcomes.ExportRefreshes` | src/ghost_storage.cpp:619-623 | an export answered well asks for the catalog anew |
| `StorageOutcomes.FailureDoesNothing` | src/ghost_storage.cpp:564-580 | a failure releases and installs nothing and stops a pending observation |
| `StorageOutcomes.MalformedDeafens` | src/ghost_storage.cpp:551-563 | a malformed answer has no effect, and the client hears nobody from then on |
| `StorageOutcomes.UnansweredWaits` | src/ghost_storage.cpp:665-684 | an unanswered request stays pending and does nothing, but that a pending observation is stopped once, after thirty seconds |
| `StorageOutcomes.SaveAsks` | src/ghost_storage.cpp:875-922 | a save asks for exactly that slot with the exported bytes in the window, if and only if the slot is listed, empty and safe and the export is a file; else nothing is asked |
| `StorageOutcomes.LoadAsks` | src/ghost_storage.cpp:924-953 | a load asks for exactly that file, remembering where it goes and which one it is, if and only if it is listed, there and safe |
| `StorageOutcomes.RemovalAsks` | src/ghost_storage.cpp:955-965 | a removal asks for exactly that file, if and only if it is listed and there, and safe unless imported |
| `StorageOutcomes.RefreshAsks` | src/ghost_storage.cpp:797-821 | an idle client starts the refreshes that are queued, the personal one first |
| `StorageDevice.Storage.constructor` | src/ghost_storage.cpp:747-795 | starts from the mailbox as found |
| `StorageDevice.Storage.ObserveProfile` | src/ghost_storage.cpp:144-155 | a profile change clears the catalog and queues a refresh |
| `StorageDevice.Storage.BeginRequest` | src/ghost_storage.cpp:442-474 | pending fields and the request line, one sequence on |
| `StorageDevice.Storage.RequestAllowed` | src/ghost_storage.cpp:687-726 | availability, idleness, slot bounds, presence and safety |
| `StorageDevice.Storage.AdoptCatalog` | src/ghost_storage.cpp:334-406 | adopts a matching catalog or leaves it cleared |
| `StorageDevice.Storage.CompleteLoad` | src/ghost_storage.cpp:624-661 | installs only if epoch, profile and generation still match |
| `StorageDevice.Storage.CompleteRequest` | src/ghost_storage.cpp:533-662 | refines the specified completion, effects in order |
| `StorageDevice.Storage.PollResponse` | src/ghost_storage.cpp:665-684 | completes on a matching acknowledgement, waits otherwise |
| `StorageDevice.Storage.OnSavestateLoaded` | src/ghost_storage.cpp:823-831 | refines the protocol's step in every world: moves the epoch and stops a watched load |
| `StorageDevice.Storage.Refresh` | src/ghost_storage.cpp:833-846 | asks for the personal catalog when nothing is pending, or leaves it queued |
| `StorageDevice.Storage.RefreshImported` | src/ghost_storage.cpp:848-873 | asks for the imported catalog, or for a scan, when nothing is pending |
| `StorageDevice.Storage.ExportSlot` | src/ghost_storage.cpp:967-977 | asks for a file to be exported |
| `StorageDevice.Storage.Queued` | src/ghost_storage.cpp:797-821 | an idle client starts the personal refresh before the imported one |
| `StorageDevice.Storage.Poll` | src/ghost_storage.cpp:797-821 | a busy client polls; an observation given up makes its load stale first |
| `StorageDevice.Storage.Update` | src/ghost_storage.cpp:797-821 | refines the protocol's step in every world: client, request line, window and effects |
| `StorageDevice.Storage.Invoke` | src/ghost_storage.cpp:833-977 | every call of the client refines the protocol's step in every world |
| `StorageDevice.Storage.BeginRefresh` | src/ghost_storage.cpp:477-486 | asks for the personal catalog |
| `StorageDevice.Storage.LoadSlot` | src/ghost_storage.cpp:924-953 | asks for a file with its expected generation and destination |
| `StorageDevice.Storage.SaveSlot` | src/ghost_storage.cpp:875-922 | asks for a save of the exported bytes, which stand in the window; a refused export leaves the window, a failed one leaves zeros, and neither asks |
| `StorageDevice.Storage.RemoveSlot` | src/ghost_storage.cpp:955-965 | asks for a removal |
| `CodeWords.BranchLands` | src/features.cpp:958-960 | a branch word lands on its target if and only if the distance is aligned and within 32 MiB |
| `CodeWords.PatchIdempotent` | src/features.cpp:712-719 | patching a patched word again changes nothing, so an early pass may run again |
| `CodeWords.MaskedHalves` | src/features.cpp:67-71 | a whole-word patch replaces the word, a halfword patch its half only |
| `PatchRows.RowBelongs` | src/features.cpp:701-709 | a row belongs to the feature that starts at or last before it, early or late with it |
| `PatchRows.VisitKeeps` | src/features.cpp:720-744 | bringing one late row to its setting keeps every row right: original captured on first sight, word as the cached state says |
| `PatchRows.ResolveKeeps` | src/features.cpp:666-689 | resolving the language-dependent row gives it a site once, keeps every row right, and takes the word it finds there as the original |
| `PatchRows.ResolvesTo` | src/features.cpp:666-697 | a late pass resolves the row exactly when its feature is on and a language is named, the first word counting first, and gives it that language's buffer and patch |
| `PatchRows.LatePassKeeps` | src/features.cpp:692-746 | the late pass, resolution included, keeps the invariant and leaves every known late row as its setting says |
| `PatchRows.BootKeeps` | src/features.cpp:692-719 | the early pass keeps the invariant; an early row is patched from then on if and only if some pass had it on |
| `PatchRows.PassReach` | src/features.cpp:692-746 | neither pass writes outside the sites rows may ever have |
| `PatchRows.StepKeeps` | src/features.cpp:692-746 | early pass, late pass, or the game writing elsewhere: every event keeps the invariant, and what a site was first seen with |
| `PatchRows.RunKeeps` | src/features.cpp:692-746 | over every history of such events |
| `PatchRows.HistoryDecides` | src/features.cpp:692-746 | after any history from shipped memory a known late site is a function of the word it was first seen with and the last late settings, and an early site of its shipped word and whether any early pass had it on |
| `PatchRows.EarlyRestoredExactly` | src/features.cpp:712-719 | an early site holds its shipped word if and only if no early pass had the row on, or the patch is that word |
| `PatchRows.TurnedOffTooLate` | src/features.cpp:712-719 | a concrete history, on at boot and off ever since, after which the site still holds the patch |
| `PatchRows.LateRestored` | src/features.cpp:734-742 | with everything off in the last late pass every known late site, resolved ones included, holds the word it was first seen with |
| `PatchRows.ResolvedHome` | src/features.cpp:666-689 | a row resolved by a late pass is first seen with the word its buffer held just before that pass |
| `PatchRows.Patcher.ResolveMessage` | src/features.cpp:666-689 | refines the specified resolution |
| `PatchRows.Patcher.WriteOnce` | src/features.cpp:712-719 | refines the specified early write |
| `PatchRows.Patcher.BringTo` | src/features.cpp:720-744 | refines the specified late visit |
| `PatchRows.Patcher.ApplyPatches` | src/features.cpp:692-746 | the loop with its running feature and index is the specified pass, early or late |
| `AsmHooks.HookLands` | src/features.cpp:748-812 | at a hooked site the game branches into the hook's cave, the slow one at race speed 1, exactly when the settings ask for it, within reach; otherwise its own instruction is there |
| `AsmHooks.HookKeepsOthers` | src/features.cpp:748-812 | writing one hook keeps the caches of the others |
| `AsmHooks.Hooker.ApplyHook` | src/features.cpp:750-808 | one hook captured once, rewritten on a change of setting or race speed |
| `AsmHooks.Hooker.ApplyHooks` | src/features.cpp:748-812 | every hooked site ends as a function of its original, the settings and the race speed |
| `ChoiceSites.NoChoiceIsOriginal` | src/features.cpp:884-948 | with nothing chosen every choice site holds its original |
| `ChoiceSites.ChoiceMeans` | src/features.cpp:884-948 | what the chosen word does at each site: a constant loaded, the gate skipped, an appearance's branch never or always taken |
| `ChoiceSites.NeverShownLands` | src/features.cpp:930-938 | the always-taken branch goes where the original conditional branch would if and only if that one goes forward |
| `ChoiceSites.Chooser.ApplyChoices` | src/features.cpp:884-948 | every choice site ends as a function of its original and the choices, though only changed options are written |
| `Installer.Runtime.Boot` | src/features.cpp:962-984 | the early pass leaves hooks, choices and all other memory alone |
| `Installer.Runtime.Frame` | src/features.cpp:986-990 | the three installers, run one after another over one memory with disjoint sites, leave every row, hook and choice as the settings say and do not disturb one another |
| `Installer.Runtime.Follow` | src/features.cpp:962-990 | over every history of boots, frames and the game's own writes: each row holds what the history calls for, each hook and choice site what the last frame calls for |
| `Installer.Runtime.Decides` | src/features.cpp:692-746 | what a row's site holds is a function of its first word, the last frame's settings and, for an early row, whether any boot had it on |
| `Installer.Runtime.OffRestores` | src/features.cpp:962-990 | with everything off in the last frame every late, hooked and choice site holds its first word again, and an early site if and only if no boot had it on or its patch is that word |

## Left out

- Reading ISO, DOL and FST structures, creating layouts, argument parsing and file handles: files are byte sequences.
- The observer's camera, Mario anchoring, warps, exit input and two-ghost orchestration; only its sampling is modelled.
- Floating point: positions are the stored fixed-point integers, angles and phases their stored integers; a position
  that does not fit is an input of the frame.
- Between two samples a ghost is shown on the way from one to the next, so far along; the position in floating point
  is not modelled, nor are yaw, phase, mount and held object there, which use the interpolation of the terminal sample.
- Drawing, projection, toasts, status strings, failure codes shown to the player, and model loading.
- Track names, course tables and the source of ghost ids: a name is any text that starts printable, an id any
  non-zero pair of words.
- GhostSave.ExportLatest: assumes the formatted name starts with a printable character, as every name the formatter
  makes does; the formatter itself is not modelled.
- GhostConsole.ValidCanonicalFile: takes files shorter than 2^32 bytes, which is what a 32-bit size can say.
- Other failure messages of the validators: only acceptance is modelled, not which check spoke first.
- The index and bundle validators of the host.
- StorageClient.SumCatalog: rows arrive sanitised, each as its presence, safety, generation and duration; the checks
  of a row's names and fields, which only clear it or mark it unsafe, are not modelled.
- StorageDevice.Storage.AdoptCatalog: takes the same sanitised rows.
- The responder's file system work: it is any process that takes one request at a time, answers it when it likes and
  writes the payload only while it works on a request other than a save.
- GhostTokens.AgedMisleads: shows states that keep the invariant; a run of 2^31 - 1 changes that ends in one is not
  written out.
- StorageProtocol.ActsOnlyOnAnswers: an epoch number repeats after 2^32 - 1 changes, so the epoch clause is modulo that.
- Card mounting and file creation beyond success or failure; checksums of a record, which are abstracted to torn or
  whole.
- Persistence.LoadsConfirmed: takes a card that reports a finished write only when it is finished, and fewer than 2^31
  save requests outstanding at once.
- Conversion of older configuration records: a record of an older layout is one not marked current.
- Mutexes and threads: each locked section is one step. Cache flushes: a memory write is one step.
- PatchRows.HistoryDecides: takes tables in which no two rows share a site and the buffers of the language-dependent
  row are no other row's; the game may write any word but a site already known, the buffers before they are resolved
  included.
- Installer.Runtime.Follow: takes tables whose installers share no site; the game writes no site of any installer,
  unresolved buffers included.
- The branch back at the end of each hook cave, written once on the first pass, and the early departure hook: they
  write the mod's own code and one site no table has.
- How a setting comes to be enabled or suppressed, and where the language word of the late-resolved row is read.
- The other archive facts around the heap walk: profiles, parents, statics, cameras.
- Menus, editors, input display, binds, maps, packaging and the smaller file inspectors.
