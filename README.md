# decodebin3 stream selection, with its TV overrides

This project is a Dafny model of the stream-selection state machine of
GStreamer's `decodebin3` element and of the TV build's additions to
`decodebin3`, `parsebin` and `urisourcebin`. The model comes with proofs.

`decodebin3` keeps three lists of stream ids:

- the requested selection;
- the active selection;
- the streams waiting for an output (`to_activate`).

It also keeps a list of multiqueue slots (one lane per stream) and a list of
output streams (a decoder and an exposed source pad each). Each slot and its
output point at each other.

Its operations are the following:

- choose a default selection from a collection;
- bind inputs to slots;
- attach outputs to slots, stealing a free output of the same type when one
  exists;
- hand an output from a deselected stream over to a stream waiting for one;
- apply a SELECT_STREAMS request;
- decide when a selection has fully taken effect.

The TV build installs its own versions of several of these through the
class hooks (`gst/playback/gstdecodebin3.c` lines 772-792), so the TV
variants are the ones that run. Both versions are modelled. Where the TV
variant is a plain extension, a lemma relates the two.

Each region of the source that runs under the selection lock is one atomic
method. The modules follow the source files:

- `streams.dfy` (module `Streams`): the stream record, stream-type masks,
  tags, caps structures, `strcmp` order, and GList helpers (`g_list_remove`,
  delete-link).
- `selection.dfy` (module `Selection`): the two-pass default selection of
  `update_requested_selection`, as specification functions, loops and
  lemmas.
- `decodebin.dfy` (module `Decodebin`): the classes `InputStream`, `Input`,
  `Slot`, `OutputStream`, `Pad` and `Decodebin3`, and the base element's
  operations on them.
- `switch.dfy` (module `StreamSwitch`): `handle_stream_switch`. It is
  computed on a snapshot of the slots and proved against the plan function
  `PlanSwitch`.
- `tv_streams.dfy` (module `TvStreams`): the pure TV helpers, namely the
  `sort_streams` order (with the insertion sort standing for `g_list_sort`),
  the type guess from caps, collection predicates, `ongoing_change_upstream`
  and the PTS continuity step.
- `decodebin_tv.dfy` (module `DecodebinTv`): the TV operations on the
  element, namely the active collection, the TV default selection, TV
  completion, exposed pads, demuxer detection, and the STREAM_START, SEGMENT
  and buffer branches of the multiqueue source probe.
- `switch_tv.dfy` (module `StreamSwitchTv`): `priv_handle_stream_switch`,
  with a lemma that it agrees with the base switch when there is no DVR
  playback and no slot has a previous stream.
- `parsebin_tv.dfy` (module `ParsebinTv`): compositor detection,
  autoplug continuation, the compositor lookup, drained-flag clearing up the
  chain/group tree, the composite-stream gate and the stream-tag merge.
- `urisourcebin_tv.dfy` (module `UrisourcebinTv`): the three stream
  compatibility tests, the pending-pad search for an output slot and the
  STREAM_START handling on demuxer pads.

Things the source takes from its environment become parameters:

- the select-stream signal is a function `Stream -> int` (`SelectHook`);
- `gst_caps_is_subset_structure` is a function parameter;
- whether the multiqueue hands out a pad is a boolean parameter;
- what `gst_pad_get_stream` returns is an `Option<Stream>` parameter.

Idle pad probes (`slot_unassign_probe`, `idle_reconfigure`) are recorded as
`Deferred` entries appended to `Decodebin3.deferred`, in queue order.
Unsigned 32-bit counters (`slot_id`, the pad counters) wrap at 2^32
(`Inc32`). Clock times are unsigned 64-bit values, with
`GST_CLOCK_TIME_NONE` = 2^64 - 1.

## Model

| member | source | states |
|---|---|---|
| Streams.Inc32 | gst/playback/gstdecodebin3.c:2288 | the guint counter steps by one and wraps from 2^32-1 to 0 |
| Streams.RemoveFirst | gst/playback/gstdecodebin3.c:1885-1886 | g_list_remove: drops one occurrence of the element; without it, the list is unchanged; nothing new appears and every other element stays |
| Streams.RemoveFirstMultiset | gst/playback/gstdecodebin3.c:1885-1886 | removal takes away exactly one copy of the element from the list's multiset |
| Streams.RemoveFirstDistinct | gst/playback/gstdecodebin3.c:2856 | removing from a duplicate-free list keeps it duplicate-free and the element leaves it |
| Streams.RemoveAt | gst/playback/gstdecodebin3.c:2784-2788 | g_list_delete_link: the list without position k, order kept |
| Streams.RemoveAtMultiset | gst/playback/gstdecodebin3.c:2784-2788 | deleting the link at k takes exactly one copy of its element out of the list's multiset |
| Streams.FindStream | gst/playback/gstdecodebin3.c:1772-1785 | find_stream_in_collection gives a stream exactly when the id is among the collection's ids, and then the first stream with that id |
| Streams.FirstWithId | gst/playback/gstdecodebin3.c:1772-1785 | the position of the first stream with the id, past the end exactly when no stream has it |
| Streams.GetTagString | gst/playback/gsturisourcebin-tv.c:116-136 | a string tag is read exactly when the tag is present with a string value |
| Streams.StrLessTotal | gst/playback/gstdecodebin3-tv.c:1105-1116 | strcmp orders any two different ids one way or the other, and never both ways |
| Streams.StrLessTransitive | gst/playback/gstdecodebin3-tv.c:1105-1116 | the strcmp order on ids is transitive |
| Selection.ComputeSelection | gst/playback/gstdecodebin3.c:1377-1419 | the two selection loops compute the default selection specified by Pass1 then Pass2 |
| Selection.SelectionFirstPass | gst/playback/gstdecodebin3.c:1382-1406 | the first loop yields the ids of the streams the signal picks (or the reusable ids it does not refuse), and their union of types |
| Selection.SelectionSecondPass | gst/playback/gstdecodebin3.c:1409-1419 | the second loop yields the ids of Pass2: one stream for each type not yet covered |
| Selection.Pass1Members | gst/playback/gstdecodebin3.c:1382-1406 | a stream is picked in pass 1 exactly when it is in the collection and the signal says 1, or says -1 and its id is reusable |
| Selection.Pass1InCollectionOrder | gst/playback/gstdecodebin3.c:1382-1406 | pass 1 picks streams in collection order |
| Selection.Pass2InCollectionOrder | gst/playback/gstdecodebin3.c:1409-1419 | pass 2 picks streams in collection order |
| Selection.SelectionFromCollection | gst/playback/gstdecodebin3.c:1382-1419 | every selected id is the id of a stream of the collection |
| Selection.SelectionCoversAllTypes | gst/playback/gstdecodebin3.c:1409-1419 | after both passes, every typed stream of the collection shares a bit with the used types |
| Selection.Pass2Covers | gst/playback/gstdecodebin3.c:1409-1419 | after the second loop, every typed stream of the collection shares a bit with the used types |
| Selection.Pass2UsedGrows | gst/playback/gstdecodebin3.c:1409-1419 | the second loop only adds type bits: it never drops a type pass 1 covered |
| Selection.Pass2OnePerType | gst/playback/gstdecodebin3.c:1409-1419 | the streams pass 2 adds share no type bit with pass 1's types nor with each other: at most one per uncovered type |
| Selection.SelectionNonEmpty | gst/playback/gstdecodebin3.c:1409-1426 | a non-empty collection always gives a non-empty selection, so the no-op branch is taken only for an empty collection |
| Selection.Pass2FirstPicked | gst/playback/gstdecodebin3.c:1409-1419 | starting with no used type, the second loop picks at least one stream of a non-empty collection |
| Decodebin.StreamInList | gst/playback/gstdecodebin3.c:1333-1351 | the id is found exactly when the list holds it, and the id found is that id |
| Decodebin.FirstPresent | gst/playback/gstdecodebin3.c:1446-1467 | the first input collection that exists, and none exactly when no input has one |
| Decodebin.ConcatPresent | gst/playback/gstdecodebin3.c:1469-1493 | the merged streams are exactly the streams of the existing collections |
| Decodebin.MergedCollectionContents | gst/playback/gstdecodebin3.c:1439-1494 | no merged collection without any input collection; otherwise it holds every stream of the main input and of every other input |
| Decodebin.OnlyPresentIsFirst | gst/playback/gstdecodebin3.c:1446-1467 | with one input collection, that collection is the result itself |
| Decodebin.SingleCollection | gst/playback/gstdecodebin3.c:1446-1467 | the first loop asks for a merge exactly when at least two inputs have a collection, and otherwise returns the single one (or none) |
| Decodebin.JoinCollections | gst/playback/gstdecodebin3.c:1469-1493 | the merge appends the existing collections in input order: main input first, then the other inputs in list order |
| Decodebin.Decodebin3.GetMergedCollection | gst/playback/gstdecodebin3.c:1439-1494 | get_merged_collection returns the collection MergedCollection specifies for the main input and the other inputs |
| Decodebin.Decodebin3.UpdateRequestedSelection | gst/playback/gstdecodebin3.c:1354-1435 | requested selection and updated flag unchanged while a SELECT_STREAMS is pending, without a collection, or for an empty selection; otherwise the list is replaced by the default selection over the collection (reusing requested and active ids) and the flag is set |
| Decodebin.Decodebin3.SetInputGroupId | gst/playback/gstdecodebin3.c:920-943 | the input takes the group id; the caller must replace it exactly when it differs from the current group, which it becomes when no group was current |
| Decodebin.Decodebin3.constructor | gst/playback/gstdecodebin3.c:797-821 | a new element has empty selection lists, slots and outputs, counters at zero, no collection and no current group |
| Decodebin.Input.constructor | gst/playback/gstdecodebin3.c:1242-1272 | a new input has no collection and the invalid group id |
| Decodebin.Slot.constructor | gst/playback/gstdecodebin3.c:2276-2332 | a new slot has its id and type, no input, no output, and no pending, active or old stream |
| Decodebin.OutputStream.constructor | gst/playback/gstdecodebin3.c:3440-3499 | a new output has its type and pad name, no slot, no decoder, no exposed pad, no last pushed time and an undefined segment |
| Decodebin.Decodebin3.CreateNewSlot | gst/playback/gstdecodebin3.c:2276-2332 | the slot counter always advances (mod 2^32); only with a multiqueue pad is a slot made, with the old counter as id, unbound, and appended to the slot list; the binding invariant holds |
| Decodebin.Decodebin3.GetSlotForInput | gst/playback/gstdecodebin3.c:2336-2393 | a slot already bound to the input is returned and nothing changes; else a free slot of its type is bound, preferring the one whose active id is the input's; else a new slot is created and bound, unless the type is zero |
| Decodebin.FirstBoundTo | gst/playback/gstdecodebin3.c:2353-2360 | the first slot bound to the input, past the end exactly when no slot is |
| Decodebin.Decodebin3.FindFreeSlot | gst/playback/gstdecodebin3.c:2354-2378 | the backward search returns the preferred free slot PreferredFreeSlot names, and null exactly when no slot of the type is unbound |
| Decodebin.PreferredFreeSlot | gst/playback/gstdecodebin3.c:2354-2378 | the reused slot exists exactly when some unbound slot of the input's type exists |
| Decodebin.LastIdMatch | gst/playback/gstdecodebin3.c:2354-2378 | the same-id candidate is the last free slot with the input's stream id in list order |
| Decodebin.FirstFree | gst/playback/gstdecodebin3.c:2354-2378 | the fallback is the earliest free slot of the type |
| Decodebin.Decodebin3.LinkInputToSlot | gst/playback/gstdecodebin3.c:2396-2411 | refused (nothing changes) exactly when the slot is bound to another input; else the slot takes the input, its parent and the input's active stream as pending stream |
| Decodebin.FindSlotForStreamId | gst/playback/gstdecodebin3.c:2701-2726 | null exactly when no slot carries the id as active, differing pending or old stream; otherwise a slot that carries it |
| Decodebin.SlotIndexForStreamId | gst/playback/gstdecodebin3.c:2701-2726 | the slot found is the first one in list order that carries the id |
| Decodebin.FirstFreeCompatible | gst/playback/gstdecodebin3.c:1752-1769 | the first output of the stream's type whose slot's active id is not requested |
| Decodebin.Decodebin3.FindFreeCompatibleOutput | gst/playback/gstdecodebin3.c:1752-1769 | find_free_compatible_output returns that first free compatible output, or null when there is none |
| Decodebin.Decodebin3.GetOutputForSlot | gst/playback/gstdecodebin3.c:1791-1910 | four cases: an existing output is returned with no change; an unrequested stream gets null with no change; with a free compatible output, the id leaves the requested list for the end of to_activate and that output's slot is queued for unassignment (null now); else exactly one new output is created, bound both ways, and the requested id becomes active; binding invariant kept |
| Decodebin.Decodebin3.AssignOutput | gst/playback/gstdecodebin3.c:1849-1905 | for a requested stream without output: the steal branch (including the DVR early return when the id already waits) or the create branch, as get_output_for_slot describes |
| Decodebin.Decodebin3.QueueSteal | gst/playback/gstdecodebin3.c:1857-1896 | the id leaves the requested list and is appended to to_activate (under DVR after dropping the waiting ids of its type); the stolen output's slot is queued for unassignment |
| Decodebin.DropIdsOfType | gst/playback/gstdecodebin3.c:1863-1878 | the DVR clean-up as intended keeps exactly the waiting ids whose stream in the active collection is not of the new stream's type, in their order |
| Decodebin.DropScanAsWritten | gst/playback/gstdecodebin3.c:1866-1878 | the DVR clean-up loop as written, which stops where it reads the link g_list_remove has just freed |
| Decodebin.DropScanReadsFreedExactly | gst/playback/gstdecodebin3.c:1866-1878 | the loop as written reads a freed link exactly when some waiting id has the new stream's type, at the first one, and otherwise leaves the list unchanged |
| Decodebin.DropIdsOfTypeNoneOfType | gst/playback/gstdecodebin3.c:1866-1878 | when no waiting id has the type, the loop as written and the intended filter both keep the list as it is |
| Decodebin.DropIdsOfTypeKeepsAll | gst/playback/gstdecodebin3.c:1866-1878 | the intended filter drops nothing when no waiting id has the type |
| Decodebin.DropScanUseAfterFree | gst/playback/gstdecodebin3.c:1875-1876 | one waiting video id and a new video stream: the loop as written reads its freed link, and the intended filter empties the list |
| Decodebin.Decodebin3.AttachNewOutput | gst/playback/gstdecodebin3.c:1899-1904 | a new output of the slot's type named after its counter is bound both ways to the slot and appended; the id joins the active selection |
| Decodebin.PadPrefix | gst/playback/gstdecodebin3.c:3456-3475 | the pad name prefix is one of video, audio, text, src |
| Decodebin.DecimalStringInjective | gst/playback/gstdecodebin3.c:3476-3477 | %u formatting gives different strings for different counters |
| Decodebin.PadNamesDistinct | gst/playback/gstdecodebin3.c:3456-3477 | two output pads get the same name only with the same prefix and the same counter value |
| Decodebin.Decodebin3.NextPadName | gst/playback/gstdecodebin3.c:3456-3477 | the name is prefix_counter for the type's counter, which advances (mod 2^32), and the other types' counters stay |
| Decodebin.Decodebin3.CreateOutputStream | gst/playback/gstdecodebin3.c:3440-3499 | a fresh unbound output of the type, named from the counter, is appended to the output list; only that type's counter advances |
| Decodebin.Decodebin3.FreeOutputStream | gst/playback/gstdecodebin3.c:3502-3523 | the output and its slot let go of each other (no other slot changes), the decoder and exposed pad are gone; binding invariant kept |
| Decodebin.SelectedStreams | gst/playback/gstdecodebin3.c:1936-1950 | the STREAMS_SELECTED list holds exactly the active streams of the slots bound to outputs |
| Decodebin.Decodebin3.IsSelectionDone | gst/playback/gstdecodebin3.c:1916-1955 | a message exactly when the selection was updated, nothing waits in to_activate and every requested id is active; it carries the seqnum, the collection and the output streams, and clears the flag, so a second call gives none |
| Decodebin.Decodebin3.CheckAllSlotForEos | gst/playback/gstdecodebin3.c:1959-2074 | drained exactly when every slot with an output is drained and has seen EOS on its input, and no input has a pending pad not at EOS |
| Decodebin.FirstOfType | gst/playback/gstdecodebin3.c:2797-2820 | the first id whose stream in the active collection has the deactivated type |
| Decodebin.Decodebin3.FindIdOfType | gst/playback/gstdecodebin3.c:2797-2820 | each search loop of the DVR step stops at FirstOfType |
| Decodebin.DvrSwapReplaces | gst/playback/gstdecodebin3.c:2790-2837 | the DVR step keeps the length of to_activate; when both ids exist and differ, the waiting id of the type is replaced by the requested one, which goes last |
| Decodebin.Decodebin3.DvrSwapped | gst/playback/gstdecodebin3.c:2790-2837 | the to_activate list after the DVR step, unchanged outside DVR playback |
| Decodebin.TargetIndex | gst/playback/gstdecodebin3.c:2842-2859 | the target is the first waiting id whose slot has the output's type and no output |
| Decodebin.TargetIndexUnique | gst/playback/gstdecodebin3.c:2842-2859 | any index that is first to fit is the target |
| Decodebin.Decodebin3.FindReassignTarget | gst/playback/gstdecodebin3.c:2842-2859 | the search loop finds TargetIndex and returns a slot of the output's type with no output |
| Decodebin.Decodebin3.SearchList | gst/playback/gstdecodebin3.c:2790-2837 | the list searched is to_activate itself outside DVR playback |
| Decodebin.Decodebin3.ReassignTarget | gst/playback/gstdecodebin3.c:2842-2859 | the target is a position in the searched list |
| Decodebin.Decodebin3.PlanReassign | gst/playback/gstdecodebin3.c:2790-2859 | the searches change nothing and find a slot of the output's type that has no output or is the slot giving its output up |
| Decodebin.Decodebin3.ReassignSlot | gst/playback/gstdecodebin3.c:2731-2894 | acts exactly when the slot has an active stream and an output and its id is no longer requested (else no change); the output is unlinked; it moves to the first waiting stream's free slot of its type, whose id leaves to_activate, becomes active and is requested if absent; or without target the output is removed and completion is checked; binding invariant kept |
| Decodebin.Decodebin3.HandOver | gst/playback/gstdecodebin3.c:2861-2886 | the output moves to the target (queued for reconfiguration), or is removed and the completion message is computed |
| Decodebin.Decodebin3.MoveOutput | gst/playback/gstdecodebin3.c:2772-2788 | with a target: the old slot lets go, its id leaves the active list, the output binds to the target and the target's id becomes active and requested |
| Decodebin.Decodebin3.MoveSelection | gst/playback/gstdecodebin3.c:2849-2867 | the target id replaces the deactivated id in the active list, joins the requested list if absent and leaves to_activate |
| Decodebin.Decodebin3.RemoveOutput | gst/playback/gstdecodebin3.c:2876-2886 | without target: the output is unbound, leaves the output list and is freed; a message comes exactly when the selection is complete |
| Decodebin.Decodebin3.Unbind | gst/playback/gstdecodebin3.c:2779-2781 | the slot and its output let go of each other and the output is no longer linked; binding invariant kept |
| Decodebin.Decodebin3.Bind | gst/playback/gstdecodebin3.c:2864-2865 | the target slot and the output point at each other; binding invariant kept |
| Decodebin.Decodebin3.DropOutput | gst/playback/gstdecodebin3.c:2879-2880 | the unbound output leaves the output list; binding invariant kept |
| Decodebin.TargetScanAsWritten | gst/playback/gstdecodebin3.c:2842-2859 | the search as written: a target found always fits |
| Decodebin.TargetScanCrashes | gst/playback/gstdecodebin3.c:2843-2846 | with the log level enabled, an id no slot carries before a fitting one is dereferenced as NULL |
| Decodebin.TargetScanAgreesWithoutLog | gst/playback/gstdecodebin3.c:2842-2859 | without that log level the search as written finds the corrected target |
| StreamSwitch.ViewsPointwise | gst/playback/gstdecodebin3.c:2939-2969 | the snapshot has one view per slot, in slot order |
| StreamSwitch.FindViewAgrees | gst/playback/gstdecodebin3.c:2701-2726 | a lookup on the snapshot finds the slot find_slot_for_stream_id finds |
| StreamSwitch.ClassifySound | gst/playback/gstdecodebin3.c:2943-2967 | each request id is filed once: pending ids are in the collection and on no slot, unknown ids are in neither, future ids are on a slot with an output, slots to activate have none |
| StreamSwitch.ClassifyCovers | gst/playback/gstdecodebin3.c:2943-2967 | every request id is pending, unknown, future, or names a slot to activate |
| StreamSwitch.ClassifyRequest | gst/playback/gstdecodebin3.c:2943-2967 | the first loop files the ids as Classify says |
| StreamSwitch.DeactivationsExact | gst/playback/gstdecodebin3.c:2969-2996 | the slots to deactivate are exactly the slots with an output whose active and differing pending streams are not requested, in slot order |
| StreamSwitch.SlotsToDeactivate | gst/playback/gstdecodebin3.c:2969-2996 | the second loop collects Deactivations |
| StreamSwitch.PairTyped | gst/playback/gstdecodebin3.c:3000-3030 | every pair joins a slot to deactivate with a slot to activate of the same type |
| StreamSwitch.PairSplitsDeactivations | gst/playback/gstdecodebin3.c:3000-3030 | each slot to deactivate is paired or left over, exactly once |
| StreamSwitch.PairSplitsActivations | gst/playback/gstdecodebin3.c:3000-3030 | each slot to activate is taken by at most one pair or left over |
| StreamSwitch.PairMaximal | gst/playback/gstdecodebin3.c:3000-3030 | no slot left over on one side has a partner of its type left on the other |
| StreamSwitch.FindStype | gst/playback/gstdecodebin3.c:3011-3024 | the inner loop of the pairing stops at the first remaining slot to activate of the deactivated slot's type |
| StreamSwitch.PairSlots | gst/playback/gstdecodebin3.c:3000-3030 | the pairing loop computes Pair, and to_reassign is the active ids of the taken slots |
| StreamSwitch.ReassignIdsExact | gst/playback/gstdecodebin3.c:3014-3017 | to_reassign as corrected holds exactly the active ids of the taken slots |
| StreamSwitch.ReassignIdsAsWritten | gst/playback/gstdecodebin3.c:3014-3016 | to_reassign as written has one entry per taken slot, NULL exactly for a taken slot without active stream |
| StreamSwitch.ReassignIdsDropsNull | gst/playback/gstdecodebin3.c:3014-3016 | the corrected to_reassign is the as-written one without its NULL entries |
| StreamSwitch.ReassignNullEntry | gst/playback/gstdecodebin3.c:3014-3016 | a taken slot with only a pending stream puts NULL on to_activate as written, and nothing as corrected |
| StreamSwitch.FutureIdsCover | gst/playback/gstdecodebin3.c:3043-3055 | every unpaired slot to activate asks for its active id, or failing that its pending id |
| StreamSwitch.FutureIdsCarried | gst/playback/gstdecodebin3.c:3043-3055 | every id the last loop requests is carried by one of the unpaired slots |
| StreamSwitch.LeftIdsKnown | gst/playback/gstdecodebin3.c:3043-3055 | every id the last loop requests is found again by find_slot_for_stream_id |
| StreamSwitch.FutureRequests | gst/playback/gstdecodebin3.c:3043-3055 | the last loop collects FutureIds |
| StreamSwitch.SwitchUnassignsUnwanted | gst/playback/gstdecodebin3.c:3032-3104 | the slots the switch queues for unassignment are exactly the slots with an output the request no longer wants |
| StreamSwitch.SwitchReconfiguresIdle | gst/playback/gstdecodebin3.c:3089-3095 | every slot queued for reconfiguration has no output |
| StreamSwitch.SwitchRequestsKnown | gst/playback/gstdecodebin3.c:3057-3080 | outside the only-pending case every new requested id is in the collection or on a slot; ids nobody knows are dropped |
| StreamSwitch.ComputeSwitch | gst/playback/gstdecodebin3.c:2939-3104 | the loops of handle_stream_switch compute PlanSwitch on the snapshot |
| StreamSwitch.ApplySwitch | gst/playback/gstdecodebin3.c:3057-3104 | the pending request is dropped, the flag set, the requested and to_activate lists written and the probes queued as planned |
| StreamSwitch.HandleStreamSwitch | gst/playback/gstdecodebin3.c:2913-3118 | always TRUE; a stale seqnum changes nothing; otherwise PlanSwitch's result is applied |
| TvStreams.SortStreams | gst/playback/gstdecodebin3-tv.c:1063-1117 | sort_streams answers only -1 or 1, never 0 |
| TvStreams.TypeRank | gst/playback/gstdecodebin3-tv.c:1076-1100 | the rank of the five single-bit types, video first, unknown last |
| TvStreams.SortStreamsIsKeyOrder | gst/playback/gstdecodebin3-tv.c:1063-1117 | on single-bit types and distinguishable streams, -1 exactly when the key (type rank, SELECT flag first, id by strcmp) is smaller |
| TvStreams.SortStreamsEqualKeys | gst/playback/gstdecodebin3-tv.c:1105-1116 | for equal keys both orders answer -1 |
| TvStreams.SortStreamsNoTypeInconsistent | gst/playback/gstdecodebin3-tv.c:1076-1100 | a stream with no type bit and an unknown-type stream each say the other goes first |
| TvStreams.KeyLessTransitive | gst/playback/gstdecodebin3-tv.c:1063-1117 | the key order is transitive |
| TvStreams.KeyLessAsymmetric | gst/playback/gstdecodebin3-tv.c:1063-1117 | the key order is asymmetric |
| TvStreams.InsertStream | gst/playback/gstdecodebin3-tv.c:1170-1171 | one insertion step adds exactly that stream to the list's multiset |
| TvStreams.SortStreamList | gst/playback/gstdecodebin3-tv.c:1170-1171 | the sorted list is a permutation of its input |
| TvStreams.SortStreamListSorted | gst/playback/gstdecodebin3-tv.c:1170-1171 | for one collection's streams, the sorted list is ordered by sort_streams |
| TvStreams.SortedPermutationUnique | gst/playback/gstdecodebin3-tv.c:1170-1171 | two lists ordered by sort_streams holding the same streams are equal, so the insertion sort gives what g_list_sort gives |
| TvStreams.GuessStreamTypeFromCaps | gst/playback/gstdecodebin3-tv.c:243-264 | video exactly for video/ or image/, audio exactly for audio/, text exactly for text/, subpicture/ or application/ttml+xml, unknown otherwise, including empty caps; always one type bit and never container |
| TvStreams.PrefixesDisjoint | gst/playback/gstdecodebin3-tv.c:248-263 | the three groups of media-type prefixes exclude each other, so the order of the tests does not matter |
| TvStreams.CollectionHasStream | gst/playback/gstdecodebin3-tv.c:1360-1373 | found exactly when the id is among the collection's ids, and the result is that id |
| TvStreams.AllIdsIn | gst/playback/gstdecodebin3-tv.c:3200-3223 | one loop of ongoing_change_upstream: every id of the one collection is in the other |
| TvStreams.OngoingChangeUpstream | gst/playback/gstdecodebin3-tv.c:3184-3226 | FALSE before the collection is posted or when either collection is missing; otherwise TRUE exactly when the sizes differ or some id of either is missing from the other |
| TvStreams.NoChangeForReorderedCollection | gst/playback/gstdecodebin3-tv.c:3184-3226 | the same streams in another order are no upstream change |
| TvStreams.ToInt64 | gst/playback/gstdecodebin3-tv.c:2023-2025 | GST_CLOCK_DIFF as a gint64: in range, and the value itself below 2^63 |
| TvStreams.CacheTime | gst/playback/gstdecodebin3-tv.c:2017-2042 | the buffer duration when valid; else with both timestamps valid their distance capped at 250 ms; else 250 ms |
| TvStreams.PtsStep | gst/playback/gstdecodebin3-tv.c:2000-2058 | drop exactly when both timestamps are valid and the last pushed one is later; otherwise the last pushed time becomes the valid timestamp, or stays when neither is valid |
| TvStreams.PtsStepExtrapolates | gst/playback/gstdecodebin3-tv.c:2044-2055 | a buffer without timestamp after a valid one is pushed and advances the last pushed time by the cache time |
| TvStreams.PtsStepMonotone | gst/playback/gstdecodebin3-tv.c:2000-2058 | a valid timestamp that does not go back is pushed, and a repeat of it is pushed too |
| DecodebinTv.IsDemuxerElement | gst/playback/gstdecodebin3-tv.c:89-135 | TRUE exactly when the klass contains Demux and the source templates may give at least two source pads |
| DecodebinTv.PotentialSrcPadsMeaning | gst/playback/gstdecodebin3-tv.c:89-135 | the count reaches two exactly when some source template may make several pads or two templates are source templates |
| DecodebinTv.PotentialSrcPadsNone | gst/playback/gstdecodebin3-tv.c:89-135 | a count of zero means no source template |
| DecodebinTv.PotentialSrcPadsOne | gst/playback/gstdecodebin3-tv.c:89-135 | a count of one comes from a single source template making one pad |
| DecodebinTv.CapsInSlots | gst/playback/gstdecodebin3-tv.c:219-240 | TRUE exactly when some slot's active stream has the id and has caps |
| DecodebinTv.ActiveStreamsMembers | gst/playback/gstdecodebin3-tv.c:1132-1168 | a stream is collected exactly when some slot has it active |
| DecodebinTv.ActiveStreamsEmpty | gst/playback/gstdecodebin3-tv.c:1132-1168 | nothing is collected exactly when no slot has an active stream |
| DecodebinTv.ActiveCollection | gst/playback/gstdecodebin3-tv.c:1121-1183 | no collection exactly when no slot has an active stream; otherwise a non-empty permutation of the active streams |
| DecodebinTv.ActiveCollectionNone | gst/playback/gstdecodebin3-tv.c:1121-1183 | get_active_collection returns NULL exactly when every slot lacks an active stream |
| DecodebinTv.ActiveCollectionSorted | gst/playback/gstdecodebin3-tv.c:1121-1183 | for one collection's worth of streams, the active collection is ordered by sort_streams and is the only such list |
| DecodebinTv.GetActiveCollection | gst/playback/gstdecodebin3-tv.c:1121-1183 | the loop builds ActiveCollection of the slots' active streams |
| DecodebinTv.UnpostedSelectionSignalOnly | gst/playback/gstdecodebin3-tv.c:1010-1012 | before the collection is posted, pass 1 picks exactly the streams the signal selects |
| DecodebinTv.UpdateRequestedSelection | gst/playback/gstdecodebin3-tv.c:978-1053 | no change while a SELECT_STREAMS is pending or for an empty selection; otherwise the requested list becomes the default selection, reusing requested and active ids only once the collection is posted, and the flag is set |
| DecodebinTv.GetExpectedActiveSelection | gst/playback/gstdecodebin3-tv.c:729-807 | the default selection reusing only active ids after posting, empty while a SELECT_STREAMS is pending; a non-empty result sets the updated flag |
| DecodebinTv.PlanActiveUpdate | gst/playback/gstdecodebin3-tv.c:850-915 | post and reselect only with an active collection; once posted, always post and keep the caller's choice; before, post only when the active collection is as large as the collection |
| DecodebinTv.UpdateActiveCollection | gst/playback/gstdecodebin3-tv.c:850-915 | the active collection is rebuilt from the slots; the posted flag, requested list, updated flag and message follow PlanActiveUpdate and PublishedState |
| DecodebinTv.PublishActiveCollection | gst/playback/gstdecodebin3-tv.c:866-914 | the post and the selection update leave what PublishedState describes |
| DecodebinTv.StartupCheck | gst/playback/gstdecodebin3-tv.c:866-893 | whether to post and whether to update the selection, as PlanActiveUpdate decides |
| DecodebinTv.SlotStreamsFramed | gst/playback/gstdecodebin3-tv.c:1121-1183 | the slots' streams depend only on their active-stream fields |
| DecodebinTv.IsSelectionDone | gst/playback/gstdecodebin3-tv.c:1307-1357 | a message exactly when the base condition holds and the collection is posted; it carries the active collection and the output streams, clears the flag and every bound slot's old stream |
| DecodebinTv.PadInList | gst/playback/gstdecodebin3-tv.c:918-929 | TRUE exactly when the pad itself is on the list |
| DecodebinTv.AppendExposedPad | gst/playback/gstdecodebin3-tv.c:932-942 | unless a resource request is underway, the pad is appended when absent; otherwise the list stays |
| DecodebinTv.AppendKeepsDistinct | gst/playback/gstdecodebin3-tv.c:932-942 | appending only absent pads keeps the exposed list free of duplicates |
| DecodebinTv.WithoutStreamIdMembers | gst/playback/gstdecodebin3-tv.c:2796-2818 | the pads kept are exactly those whose stream id differs (two missing ids count as equal) |
| DecodebinTv.WithoutStreamIdDistinct | gst/playback/gstdecodebin3-tv.c:2796-2818 | removal keeps the exposed list free of duplicates |
| DecodebinTv.RemoveExposedPad | gst/playback/gstdecodebin3-tv.c:2796-2818 | the in-place loop leaves exactly the pads with another stream id, in order |
| DecodebinTv.ReplaceIdContents | gst/playback/gstdecodebin3-tv.c:1602-1617 | a list without the old id is untouched; otherwise it keeps its length, loses one old id and ends with the new one |
| DecodebinTv.ReplaceIdDistinct | gst/playback/gstdecodebin3-tv.c:1602-1617 | the replacement keeps a list free of duplicates and the old id leaves it |
| DecodebinTv.ChangeActiveStream | gst/playback/gstdecodebin3-tv.c:1598-1624 | the previous id is replaced in the active and requested lists (setting the flag when requested); the old stream becomes the previous active one and the new stream is active |
| DecodebinTv.FirstStream | gst/playback/gstdecodebin3-tv.c:1588-1597 | a slot's first stream becomes active and the active collection is updated with the selection |
| DecodebinTv.SwitchStream | gst/playback/gstdecodebin3-tv.c:1598-1632 | a different stream replaces the previous id and the active collection is rebuilt without selection update |
| DecodebinTv.AcceptStream | gst/playback/gstdecodebin3-tv.c:1586-1632 | a stream other than the active one: first stream or stream change; the slot is no longer drained |
| DecodebinTv.StreamStart | gst/playback/gstdecodebin3-tv.c:1563-1632 | a flushing STREAM_START is handled (dropped) and changes nothing; one without a stream or with the active stream changes no lists; otherwise as AcceptStream |
| DecodebinTv.ResetOutput | gst/playback/gstdecodebin3-tv.c:1660-1666 | the output forgets its last pushed time and its segment |
| DecodebinTv.SegmentStep | gst/playback/gstdecodebin3-tv.c:1900-1926 | an output with a format keeps it; a BYTES segment is never taken; a segment is accepted exactly when the output ends in its format |
| DecodebinTv.SegmentEvent | gst/playback/gstdecodebin3-tv.c:1891-1927 | without output or segment nothing happens; otherwise a refused segment is dropped and an accepted one copied to the output |
| DecodebinTv.BufferProbe | gst/playback/gstdecodebin3-tv.c:1973-2058 | no output, an undefined segment or a rate other than 1.0 passes the buffer unchanged; otherwise the drop and the last pushed time follow PtsStep |
| StreamSwitchTv.RewriteMeaning | gst/playback/gstdecodebin3-tv.c:2190-2244 | a request is rewritten only into the active id of a slot not to be activated holding the requested id as previous stream |
| StreamSwitchTv.Rewritten | gst/playback/gstdecodebin3-tv.c:2190-2244 | new_select_streams keeps its length, each id rewritten by Rewrite |
| StreamSwitchTv.ClassifyTvIds | gst/playback/gstdecodebin3-tv.c:2190-2244 | every id is filed once; pending and unknown ids are on no slot and split by the collection |
| StreamSwitchTv.ClassifyTvSlots | gst/playback/gstdecodebin3-tv.c:2205-2236 | slots to activate and slots set aside can be activated; slots are set aside only in DVR playback |
| StreamSwitchTv.ClassifyTvFuture | gst/playback/gstdecodebin3-tv.c:2237-2243 | the ids already played are rewritten request ids |
| StreamSwitchTv.ClassifyRequestTv | gst/playback/gstdecodebin3-tv.c:2190-2244 | the first loop files the ids as ClassifyTv says and rewrites the request as Rewritten says |
| StreamSwitchTv.FileRequestTv | gst/playback/gstdecodebin3-tv.c:2190-2244 | one pass of the first loop |
| StreamSwitchTv.IgnoredOfType | gst/playback/gstdecodebin3-tv.c:2281-2296 | the count of slots set aside of a type is positive exactly when one exists |
| StreamSwitchTv.CountIgnored | gst/playback/gstdecodebin3-tv.c:2281-2296 | the inner loop counts the slots set aside of the type |
| StreamSwitchTv.MaintainedIds | gst/playback/gstdecodebin3-tv.c:2281-2296 | ids kept for the slots set aside are the slot's active id, and none exactly without an active stream or set-aside slot of its type |
| StreamSwitchTv.SweepSlotsDeact | gst/playback/gstdecodebin3-tv.c:2246-2306 | the slots to deactivate are exactly the slots with an output kept neither by the request nor by the slots set aside, in slot order |
| StreamSwitchTv.SweepSlotsMaintained | gst/playback/gstdecodebin3-tv.c:2246-2306 | the ids kept are the active ids of slots with an output whose type a set-aside slot has |
| StreamSwitchTv.SlotsToDeactivateTv | gst/playback/gstdecodebin3-tv.c:2246-2306 | the second loop computes SweepSlots |
| StreamSwitchTv.SwitchTvUnassignsUnwanted | gst/playback/gstdecodebin3-tv.c:2343-2415 | the TV switch queues for unassignment exactly the slots with an output neither the request nor the DVR case keeps |
| StreamSwitchTv.UnassignsExactlyTv | gst/playback/gstdecodebin3-tv.c:2343-2415 | the unassignment probes queued are exactly those of the slots to deactivate, whatever order the pairing leaves them in |
| StreamSwitchTv.SwitchTvReassignsActive | gst/playback/gstdecodebin3-tv.c:2311-2341 | every slot the TV switch hands an output to has an active stream whose id goes to to_activate |
| StreamSwitchTv.ReassignAllActive | gst/playback/gstdecodebin3-tv.c:2325-2330 | when every slot taken has an active stream, to_activate gets one id per taken slot |
| StreamSwitchTv.PlanSwitchTvIsBase | gst/playback/gstdecodebin3-tv.c:2158-2433 | outside DVR playback, with no previous streams and every slot without output having an active stream, the TV switch plans what the base switch plans |
| StreamSwitchTv.RewrittenPlain | gst/playback/gstdecodebin3-tv.c:2190-2244 | without previous streams the request is not rewritten |
| StreamSwitchTv.ClassifyTvPlain | gst/playback/gstdecodebin3-tv.c:2190-2244 | without previous streams and outside DVR playback, the TV first loop files ids as the base loop does and sets no slot aside |
| StreamSwitchTv.SweepSlotsPlain | gst/playback/gstdecodebin3-tv.c:2246-2306 | without slots set aside, the TV second loop deactivates what the base loop deactivates and keeps no ids |
| StreamSwitchTv.ComputeSwitchTv | gst/playback/gstdecodebin3-tv.c:2186-2415 | the loops of priv_handle_stream_switch compute PlanSwitchTv on the snapshot |
| StreamSwitchTv.HandleStreamSwitchTv | gst/playback/gstdecodebin3-tv.c:2158-2433 | always TRUE; a stale seqnum changes nothing; otherwise PlanSwitchTv's result is applied |
| ParsebinTv.AlwaysSrcCounterMeaning | gst/playback/gstparsebin-tv.c:92-122 | the counter is -1 exactly when some source template is not ALWAYS, and otherwise counts the source templates |
| ParsebinTv.IsCompositorFactory | gst/playback/gstparsebin-tv.c:90-123 | TRUE exactly when the klass contains Parser, some sink template is REQUEST, and there is exactly one source template, which is ALWAYS |
| ParsebinTv.ContinueAutoplugChain | gst/playback/gstparsebin-tv.c:539-575 | TRUE for cenc caps; FALSE exactly for clear caps on the svp secure area not marked unparsed (parsed defaults to TRUE) |
| ParsebinTv.GetCompositor | gst/playback/gstparsebin-tv.c:1232-1253 | the compositor of the first child chain of the type that has one; null exactly when none has |
| ParsebinTv.ResetChainTvFields | gst/playback/gstparsebin-tv.c:1256-1273 | type UNKNOWN, main_input and need_compositor FALSE, compositor and fallback element NULL |
| ParsebinTv.ChainUpwardUnique | gst/playback/gstparsebin-tv.c:1420-1443 | the line of ancestors up from a chain is determined by the chain |
| ParsebinTv.ClearDrainedChain | gst/playback/gstparsebin-tv.c:1433-1443 | TRUE, with drained cleared on the chain and every ancestor group and chain up to the root, and nothing else written |
| ParsebinTv.ClearDrainedGroup | gst/playback/gstparsebin-tv.c:1420-1430 | TRUE, with drained cleared on the group and every ancestor up to the root |
| ParsebinTv.HaveCompositeStream | gst/playback/gstparsebin-tv.c:1276-1283 | FALSE exactly while the bin has a compositor but no composite stream yet |
| ParsebinTv.CompositeAfter | gst/playback/gstparsebin-tv.c:1404-1411 | the flag afterwards holds exactly when it held or the bin has a compositor and the id contains composite |
| ParsebinTv.UpdateCompositeStream | gst/playback/gstparsebin-tv.c:1404-1411 | the flag only ever goes from FALSE to TRUE, as CompositeAfter says |
| ParsebinTv.CompositeGate | gst/playback/gstparsebin-tv.c:1404-1411 | a composite id opens the gate with a compositor, any other id leaves it, and a second update changes nothing |
| ParsebinTv.WithoutBlacklisted | gst/playback/gstparsebin-tv.c:22-26 | the copy keeps its scope and every tag except bitrate, minimum and maximum bitrate, with the same values |
| ParsebinTv.MergeReplace | gst/playback/gstparsebin-tv.c:1380-1385 | REPLACE merge: incoming values win, old tags not incoming stay, nothing else appears |
| ParsebinTv.UpdateTags | gst/playback/gstparsebin-tv.c:1368-1401 | only stream-scope tags with an active stream change it: its tags become the merge of the filtered incoming tags |
| ParsebinTv.UpdatedTagsMeaning | gst/playback/gstparsebin-tv.c:1368-1401 | the bitrate tags never change, every other incoming tag is taken, old tags the incoming list lacks are kept |
| UrisourcebinTv.StreamCapsCompatible | gst/playback/gsturisourcebin-tv.c:32-82 | FALSE without pending caps; TRUE when the slot stream has none; otherwise TRUE exactly when the first structure names are equal |
| UrisourcebinTv.TagsAsWrittenIgnoreSlotCode | gst/playback/gsturisourcebin-tv.c:116-136 | as written, two streams without language names match as soon as the pending one has a code |
| UrisourcebinTv.TagsAsWrittenMatchDifferentCodes | gst/playback/gsturisourcebin-tv.c:127 | an eng and a kor stream known by code only match as written but not as intended |
| UrisourcebinTv.StreamTagsCompatibleMeaning | gst/playback/gsturisourcebin-tv.c:106-149 | both tag lists exist and agree on a language name, or have none and agree on a code; the test is symmetric |
| UrisourcebinTv.ScanPendingMeaning | gst/playback/gsturisourcebin-tv.c:183-238 | the first loop finds only pending pads that qualify, and nothing exactly when none qualifies |
| UrisourcebinTv.PendingPadForMeaning | gst/playback/gsturisourcebin-tv.c:159-252 | the pad found is never the slot's current one, is a pending pad that qualifies, and none exactly when no pad qualifies |
| UrisourcebinTv.NoSlotCapsFirstOther | gst/playback/gsturisourcebin-tv.c:187-190 | without slot caps the first pending pad other than the current one is taken |
| UrisourcebinTv.ChooseCandidate | gst/playback/gsturisourcebin-tv.c:209-238 | the cascade over the caps candidates for a given tag test: null exactly without candidates, otherwise one of them |
| UrisourcebinTv.ChooseCandidateCascade | gst/playback/gsturisourcebin-tv.c:209-238 | for the as-written and the intended tag test alike: a unique type match first, then a unique tag match, otherwise the first candidate |
| UrisourcebinTv.CascadeTagTestDiffers | gst/playback/gsturisourcebin-tv.c:127 | English then Korean candidates known by code only, for a Korean slot stream: the cascade as written takes the English one, the intended one the Korean one |
| UrisourcebinTv.TypeCandidates | gst/playback/gsturisourcebin-tv.c:215-225 | the type candidates are caps candidates with the slot stream's type |
| UrisourcebinTv.TypeCandidatesExact | gst/playback/gsturisourcebin-tv.c:85-102 | _stream_type_is_compatible keeps exactly the caps candidates whose stream type equals the slot stream's |
| UrisourcebinTv.TagCandidates | gst/playback/gsturisourcebin-tv.c:215-225 | the tag candidates are the caps candidates that pass the given tag test, in order |
| UrisourcebinTv.ScanPendingPads | gst/playback/gsturisourcebin-tv.c:183-206 | the first loop returns the shortcut pad or the caps candidates in list order, as ScanPending says |
| UrisourcebinTv.ChooseAmong | gst/playback/gsturisourcebin-tv.c:209-238 | the second loop and the cascade return ChooseCandidate with the as-written tag test |
| UrisourcebinTv.FindPendingPadForSlot | gst/playback/gsturisourcebin-tv.c:159-252 | priv_find_pending_pad_for_slot returns PendingPadFor of the pending pads, with the as-written tag test |
| UrisourcebinTv.DemuxPadEvents | gst/playback/gsturisourcebin-tv.c:267-311 | always OK; STREAM_START stores the pad's stream when it has one, clears the slot's EOS mark and is stolen; other events pass untouched |

## Left out

- Locking and threads: each region under the selection lock is one atomic method; the unlock and relock around message posting and idle probes is not modelled.
- Idle pad probes and `gst_element_call_async` are recorded as queued `Deferred` entries; what `slot_unassign_probe` and `idle_reconfigure` later do is not modelled.
- The select-stream signal is a function parameter; the signal emission itself is not modelled. Its result may be any integer, and only 1 and -1 have an effect.
- GstStream objects are compared by value, not by pointer. `g_list_remove` on a pointer becomes removal of the first equal element.
- ParsebinTv.UpdateTags: `gst_stream_set_tags` (gst/playback/gstparsebin-tv.c:1386) changes a GstStream shared by reference, which elements downstream also see, for example through `gst_pad_get_stream`. The model updates only the pad's own copy of the stream, so the new tags do not reach the other holders of that stream.
- Caps intersection, subset, fixation and negotiation are not modelled. Only the first caps structure's name and fields are read, and `gst_caps_is_subset_structure` is a parameter. UrisourcebinTv.CapsShortcut models `gst_caps_is_equal` (gst/playback/gsturisourcebin-tv.c:194) as structural equality of the caps values, so two caps that are equal as sets but written differently count as different.
- Tag-list merge internals: a tag list is a map from tag names to values.
- The segment rate is floating point, so it becomes the boolean `rateIsOne`.
- Decoder creation, `reconfigure_output_stream` / `priv_reconfigure_output_stream`, pad linking and ghost-pad targets are foreign calls. They are reduced to the flags `hasDecoder` and `linked`.
- Message construction and posting: a message is returned as a value (`SelectedMessage`, or an optional stream list for a collection).
- `check_all_slot_for_eos` models only the drain decision. Sending EOS and the custom events are left out. The input's `pending_pads_are_eos` is a field.
- Decodebin.Decodebin3.CreateNewSlot: the multiqueue pad request and the probes installed on the pads are left out. A boolean parameter stands for getting a pad.
- Decodebin.Decodebin3.FreeOutputStream: models only the unbinding part. Removing the decoder and the ghost pad is reduced to two flags.
- StreamSwitch.HandleStreamSwitch: the switch is computed on a snapshot of the slots (`SlotView`) and then applied. Copying and freeing the request list are not modelled.
- Decodebin.Decodebin3.GetOutputForSlot: in DVR playback, the clean-up of `to_activate` follows the intended filter `DropIdsOfType`, not the loop as written, which reads a freed link (see Findings).
- Decodebin.Decodebin3.AssignOutput: the same DVR clean-up follows `DropIdsOfType` (see Findings).
- Decodebin.Decodebin3.QueueSteal: the same DVR clean-up follows `DropIdsOfType` (see Findings).
- Decodebin.DropIdsOfType: states the intended clean-up; the loop as written is `DropScanAsWritten` (see Findings).
- StreamSwitch.ReassignIds: a taken slot without active stream adds nothing, where the source appends NULL (see Findings); `to_activate` holds ids only.
- StreamSwitch.PairSlots: to_reassign is the corrected `ReassignIds`, without the source's NULL entries (see Findings).
- StreamSwitch.ReassignIdsExact: states the corrected to_reassign; the as-written one is `ReassignIdsAsWritten` (see Findings).
- StreamSwitch.HandleStreamSwitch: the new `to_activate` lacks the NULL entries the source stores for taken slots without active stream (see Findings).
- DecodebinTv.GetExpectedActiveSelection: the first loop checks membership in the list it is building, which is still empty at that point, so only active ids are reused. This is modelled as written.
- Invariant "no id becomes active unless it was requested": it is stated per operation, in the ensures of `GetOutputForSlot` and `ReassignSlot`. It is not a preserved invariant, because the TV STREAM_START change (`DecodebinTv.ChangeActiveStream`) puts a new id on the active list even when the old one was never requested.
- `g_list_sort` (a merge sort) is modelled by an insertion sort (`SortStreamList`). `TvStreams.SortedPermutationUnique` shows that both give the same list for one collection's streams: single-bit types, distinct ids. Streams with equal keys, for which sort_streams answers -1 both ways, are not covered.
- Stream ids are non-null strings. Places where the source tolerates a NULL id use `Option`.
- `priv_decodebin3_init`, the dispose functions and the resource-request and platform glue are left out, because they only initialise or free fields outside the selection state.
- ParsebinTv.ClearDrainedChain: the parent links are given as the alternating lists of chains and groups up to the root (`ChainUpward`). Parse trees whose parent links form a cycle are not modelled.
- UrisourcebinTv.DemuxPadEvents: the event is reduced to its kind, and taking a reference on the stream and freeing it are not modelled.
- The autoplugging machinery of parsebin, `gstplaybin3-tv.c`, the subtitle meta library and the test programs are not part of this model.

## Findings

| source | as written | input that shows it | evidently intended | confidence | as-written member | corrected member |
|---|---|---|---|---|---|---|
| gst/playback/gsturisourcebin-tv.c:127 | the slot stream's language code is read from the pending stream's tags, so priv_find_pending_pad_for_slot (which uses this test at line 223) cannot tell code-only languages apart | pending tags {language-code: eng}, slot tags {language-code: kor}, no language names; in the search, candidates English then Korean for a Korean slot give the English one | compare the pending code with the slot's own code | high, not executed | UrisourcebinTv.TagsAsWrittenMatchDifferentCodes, UrisourcebinTv.CascadeTagTestDiffers | UrisourcebinTv.StreamTagsCompatibleMeaning |
| gst/playback/gstdecodebin3.c:1866-1878 | in DVR playback, `g_list_remove` frees the link `tmp` the loop stands on, and the loop step then reads `tmp->next` | to_activate = [v1], v1 a video stream of the active collection, and get_output_for_slot steals an output for a new video stream | drop every waiting id of the new stream's type, then go on | high, not executed | Decodebin.DropScanUseAfterFree, Decodebin.DropScanReadsFreedExactly | Decodebin.DropIdsOfType |
| gst/playback/gstdecodebin3.c:3014-3016 | a taken slot to activate whose requested id is only its pending stream has no active stream, so NULL is appended to to_reassign, which becomes to_activate; no slot's id equals NULL (2701-2726), so reassign_slot never takes it off and is_selection_done (1927) never reports | request [x]; slot S1 holds x as pending stream only, without output; slot S2 of the same type has an output nobody requests | append nothing, or the pending stream's id, for such a slot | medium, not executed | StreamSwitch.ReassignNullEntry, StreamSwitch.ReassignIdsAsWritten | StreamSwitch.ReassignIdsExact |
| gst/playback/gstdecodebin3.c:2843-2846 | the log statement dereferences `tslot` before the NULL check on the next line | to_activate = [an id no slot carries, an id whose slot fits], with the log level enabled | check `tslot` for NULL before reading its fields | high, not executed | Decodebin.TargetScanCrashes | Decodebin.TargetScanAgreesWithoutLog |
