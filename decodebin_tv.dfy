// The TV build's replacements for decodebin3's selection hooks
// (gstdecodebin3-tv.c): the default selection that reuses nothing before
// the collection is posted, the active collection built from the slots, the
// completion message, the exposed-pad list, and the STREAM_START, SEGMENT
// and buffer branches of the multiqueue source-pad probe.

module DecodebinTv {
  import opened Streams
  import opened Selection
  import opened TvStreams
  import opened Decodebin

  /** The id update_active_collection looks up for a slot without an active stream. */
  const NONE_ID := "<NONE>"

  // ---------------------------------------------------------------------
  // Demuxer detection

  /** What one pad template adds to the number of source pads an element may produce. */
  function PotentialSrcPads(t: PadTemplate): nat
  {
    if t.direction != DirSrc then 0
    else if t.presence == PresenceRequest then 2
    else if ContainsSubstring(t.nameTemplate, "%") then 2
    else 1
  }

  function PotentialSrcPadCount(templates: seq<PadTemplate>): nat
  {
    if templates == [] then 0
    else PotentialSrcPadCount(templates[..|templates| - 1]) + PotentialSrcPads(templates[|templates| - 1])
  }

  /** A source template on which the element may make several pads. */
  predicate MultiPadSource(t: PadTemplate)
  {
    t.direction == DirSrc && (t.presence == PresenceRequest || ContainsSubstring(t.nameTemplate, "%"))
  }

  /**
   * is_demuxer_element: the element's klass names a demuxer and its source
   * templates may give it at least two source pads.
   */
  method IsDemuxerElement(klass: string, templates: seq<PadTemplate>) returns (r: bool)
    ensures r <==> ContainsSubstring(klass, "Demux") && PotentialSrcPadCount(templates) >= 2
  {
    if !ContainsSubstring(klass, "Demux") {
      return false;
    }
    var potential := 0;
    for i := 0 to |templates|
      invariant potential == PotentialSrcPadCount(templates[..i])
    {
      var t := templates[i];
      assert templates[..i + 1][..i] == templates[..i];
      if t.direction == DirSrc {
        match t.presence {
          case PresenceAlways =>
            potential := potential + (if ContainsSubstring(t.nameTemplate, "%") then 2 else 1);
          case PresenceSometimes =>
            potential := potential + (if ContainsSubstring(t.nameTemplate, "%") then 2 else 1);
          case PresenceRequest =>
            potential := potential + 2;
        }
      }
    }
    assert templates[..|templates|] == templates;
    return potential >= 2;
  }

  /**
   * The count reaches two exactly when one source template may make several
   * pads or two templates are source templates.
   */
  lemma {:induction false} PotentialSrcPadsMeaning(templates: seq<PadTemplate>)
    ensures PotentialSrcPadCount(templates) >= 2 <==>
      (exists i :: 0 <= i < |templates| && MultiPadSource(templates[i])) ||
      (exists i, j :: 0 <= i < j < |templates| && templates[i].direction == DirSrc && templates[j].direction == DirSrc)
  {
    if templates != [] {
      var pre := templates[..|templates| - 1];
      var t := templates[|templates| - 1];
      PotentialSrcPadsMeaning(pre);
      PotentialSrcPadsNone(pre);
      assert forall i :: 0 <= i < |pre| ==> pre[i] == templates[i];
      if PotentialSrcPadCount(pre) == 1 {
        var k := PotentialSrcPadsOne(pre);
        if t.direction == DirSrc {
          assert templates[k].direction == DirSrc;
        }
      }
      if exists i, j :: 0 <= i < j < |templates| && templates[i].direction == DirSrc && templates[j].direction == DirSrc {
        var i, j :| 0 <= i < j < |templates| && templates[i].direction == DirSrc && templates[j].direction == DirSrc;
        if j < |pre| {
          assert pre[i].direction == DirSrc && pre[j].direction == DirSrc;
        } else {
          assert pre[i].direction == DirSrc;
          assert PotentialSrcPadCount(pre) > 0;
        }
      }
    }
  }

  /** A count of zero means no source template at all. */
  lemma {:induction false} PotentialSrcPadsNone(templates: seq<PadTemplate>)
    ensures PotentialSrcPadCount(templates) == 0 <==> forall i :: 0 <= i < |templates| ==> templates[i].direction != DirSrc
  {
    if templates != [] {
      var pre := templates[..|templates| - 1];
      PotentialSrcPadsNone(pre);
      assert forall i :: 0 <= i < |pre| ==> pre[i] == templates[i];
    }
  }

  /** A count of one comes from a single source template that makes one pad. */
  lemma {:induction false} PotentialSrcPadsOne(templates: seq<PadTemplate>) returns (k: nat)
    requires PotentialSrcPadCount(templates) == 1
    ensures k < |templates| && templates[k].direction == DirSrc && !MultiPadSource(templates[k])
    ensures forall i :: 0 <= i < |templates| && i != k ==> templates[i].direction != DirSrc
  {
    var pre := templates[..|templates| - 1];
    var t := templates[|templates| - 1];
    assert forall i :: 0 <= i < |pre| ==> pre[i] == templates[i];
    if PotentialSrcPadCount(pre) == 1 {
      k := PotentialSrcPadsOne(pre);
    } else {
      PotentialSrcPadsNone(pre);
      k := |templates| - 1;
    }
  }

  // ---------------------------------------------------------------------
  // The slots' active streams

  /** caps_in_slots: some slot's active stream has id `sid` and caps. */
  function CapsInSlots(slots: seq<Slot>, sid: string): (r: bool)
    reads slots`activeStream
    ensures r <==> exists i :: (0 <= i < |slots| && slots[i].activeStream.Some? &&
      slots[i].activeStream.value.id == sid && slots[i].activeStream.value.caps.Some?)
  {
    if slots == [] then false
    else
      var s := slots[0].activeStream;
      assert forall i :: 1 <= i < |slots| ==> slots[i] == slots[1..][i - 1];
      (s.Some? && s.value.id == sid && s.value.caps.Some?) || CapsInSlots(slots[1..], sid)
  }

  /** The slots' active streams, slot by slot. */
  function SlotStreams(slots: seq<Slot>): (r: seq<Option<Stream>>)
    reads slots`activeStream
    ensures |r| == |slots|
  {
    if slots == [] then [] else SlotStreams(slots[..|slots| - 1]) + [slots[|slots| - 1].activeStream]
  }

  lemma {:induction false} SlotStreamsAt(slots: seq<Slot>, i: int)
    requires 0 <= i < |slots|
    ensures SlotStreams(slots)[i] == slots[i].activeStream
    decreases |slots|
  {
    var pre := slots[..|slots| - 1];
    if i < |pre| {
      SlotStreamsAt(pre, i);
    }
  }

  /** The active streams, in slot order, skipping slots without one. */
  function ActiveStreams(ss: seq<Option<Stream>>): (r: seq<Stream>)
    ensures |r| <= |ss|
  {
    if ss == [] then []
    else
      var last := ss[|ss| - 1];
      ActiveStreams(ss[..|ss| - 1]) + (if last.Some? then [last.value] else [])
  }

  /** A stream is among the active streams exactly when some slot has it active. */
  lemma {:induction false} ActiveStreamsMembers(ss: seq<Option<Stream>>, x: Stream)
    ensures x in ActiveStreams(ss) <==> Some(x) in ss
    decreases |ss|
  {
    if ss != [] {
      var pre := ss[..|ss| - 1];
      ActiveStreamsMembers(pre, x);
      assert ss == pre + [ss[|ss| - 1]];
    }
  }

  /** No slot has an active stream exactly when the active streams are empty. */
  lemma ActiveStreamsEmpty(ss: seq<Option<Stream>>)
    ensures ActiveStreams(ss) == [] <==> forall i :: 0 <= i < |ss| ==> ss[i].None?
  {
    if ActiveStreams(ss) != [] {
      ActiveStreamsMembers(ss, ActiveStreams(ss)[0]);
    } else {
      forall i | 0 <= i < |ss|
        ensures ss[i].None?
      {
        if ss[i].Some? {
          ActiveStreamsMembers(ss, ss[i].value);
        }
      }
    }
  }

  /**
   * get_active_collection: the slots' active streams in the order
   * sort_streams gives, or no collection when no slot has an active stream.
   */
  function ActiveCollection(ss: seq<Option<Stream>>): (r: Option<seq<Stream>>)
    ensures r.None? <==> ActiveStreams(ss) == []
    ensures r.Some? ==> multiset(r.value) == multiset(ActiveStreams(ss)) && |r.value| > 0
  {
    var a := ActiveStreams(ss);
    if a == [] then None
    else
      var sorted := SortStreamList(a);
      assert |sorted| == |a| by { assert |multiset(sorted)| == |multiset(a)|; }
      Some(sorted)
  }

  /** There is no active collection exactly when no slot has an active stream. */
  lemma ActiveCollectionNone(slots: seq<Slot>)
    ensures ActiveCollection(SlotStreams(slots)).None? <==> forall i :: 0 <= i < |slots| ==> slots[i].activeStream.None?
  {
    var ss := SlotStreams(slots);
    ActiveStreamsEmpty(ss);
    forall i | 0 <= i < |slots|
      ensures ss[i] == slots[i].activeStream
    {
      SlotStreamsAt(slots, i);
    }
  }

  /**
   * When the active streams are one collection's worth (single-bit types,
   * distinct ids), the active collection is ordered by sort_streams, and it
   * is the only list so ordered that holds them.
   */
  lemma ActiveCollectionSorted(ss: seq<Option<Stream>>, other: seq<Stream>)
    requires Sortable(ActiveStreams(ss)) && ActiveCollection(ss).Some?
    ensures SortedByStreamOrder(ActiveCollection(ss).value)
    ensures Sortable(other) && multiset(other) == multiset(ActiveStreams(ss)) && SortedByStreamOrder(other) ==>
      other == ActiveCollection(ss).value
  {
    var a := ActiveStreams(ss);
    var r := SortStreamList(a);
    SortStreamListSorted(a);
    SortStreamListSortable(a);
    if Sortable(other) && multiset(other) == multiset(a) && SortedByStreamOrder(other) {
      SortedPermutationUnique(other, r);
    }
  }

  method GetActiveCollection(dbin: Decodebin3) returns (c: Option<seq<Stream>>)
    ensures c == ActiveCollection(SlotStreams(dbin.slots))
  {
    var unsorted: seq<Stream> := [];
    for i := 0 to |dbin.slots|
      invariant unsorted == ActiveStreams(SlotStreams(dbin.slots[..i]))
    {
      var s := dbin.slots[i];
      assert dbin.slots[..i + 1][..i] == dbin.slots[..i];
      if s.activeStream.Some? {
        unsorted := unsorted + [s.activeStream.value];
      }
    }
    assert dbin.slots[..|dbin.slots|] == dbin.slots;
    var sorted := SortStreamList(unsorted);
    if |sorted| == 0 {
      assert |multiset(unsorted)| == 0;
      return None;
    }
    return Some(sorted);
  }

  // ---------------------------------------------------------------------
  // Default selection

  /** The ids the TV selection may keep without the signal's say-so: none before the collection is posted. */
  function Reusable(posted: bool, ids: seq<string>): seq<string>
  {
    if posted then ids else []
  }

  /** Before the collection is posted, the first pass picks exactly the streams the signal selects. */
  lemma UnpostedSelectionSignalOnly(coll: seq<Stream>, hook: SelectHook, ids: seq<string>, x: Stream)
    ensures x in Pass1(coll, hook, Reusable(false, ids)).streams <==> x in coll && hook(x) == 1
  {
    Pass1Members(coll, hook, [], x);
  }

  /**
   * priv_update_requested_selection: unless a SELECT_STREAMS is pending,
   * replace the requested selection by the default selection over `coll`
   * (when that is not empty) and mark it updated. The ids already requested
   * or active are reused only once the collection has been posted.
   */
  method UpdateRequestedSelection(dbin: Decodebin3, coll: seq<Stream>, hook: SelectHook)
    modifies dbin`requested, dbin`selectionUpdated
    ensures var sel := DefaultSelection(coll, hook, Reusable(dbin.collectionPosted, old(dbin.requested) + dbin.active));
      if dbin.pendingSelectStreams != [] || sel == [] then
        dbin.requested == old(dbin.requested) && dbin.selectionUpdated == old(dbin.selectionUpdated)
      else
        dbin.requested == sel && dbin.selectionUpdated
  {
    if dbin.pendingSelectStreams != [] {
      return;
    }
    var tmp := ComputeSelection(coll, hook, if dbin.collectionPosted then dbin.requested + dbin.active else []);
    if tmp != [] {
      dbin.requested := tmp;
      dbin.selectionUpdated := true;
    }
  }

  /** What get_expected_active_selection returns. */
  function ExpectedSelection(pending: bool, posted: bool, active: seq<string>, coll: seq<Stream>, hook: SelectHook): seq<string>
  {
    if pending then [] else DefaultSelection(coll, hook, Reusable(posted, active))
  }

  /**
   * get_expected_active_selection: the default selection over `coll` reusing
   * only active ids (the list being built is still empty when the first
   * loop consults it), empty while a SELECT_STREAMS is pending; a non-empty
   * result marks the selection updated.
   */
  method GetExpectedActiveSelection(dbin: Decodebin3, coll: seq<Stream>, hook: SelectHook) returns (expected: seq<string>)
    modifies dbin`selectionUpdated
    ensures expected == ExpectedSelection(dbin.pendingSelectStreams != [], dbin.collectionPosted, dbin.active, coll, hook)
    ensures dbin.selectionUpdated == (old(dbin.selectionUpdated) || expected != [])
  {
    if dbin.pendingSelectStreams != [] {
      return [];
    }
    expected := ComputeSelection(coll, hook, if dbin.collectionPosted then dbin.active else []);
    if expected != [] {
      dbin.selectionUpdated := true;
    }
  }

  // ---------------------------------------------------------------------
  // The active collection

  /** The active id of a slot, or "<NONE>". */
  function ActiveIdOrNone(active: Option<Stream>): string
  {
    if active.Some? then active.value.id else NONE_ID
  }

  /**
   * The decisions of update_active_collection: the expected selection it
   * computes, whether it updates the requested selection, whether it posts
   * the active collection.
   */
  datatype ActiveUpdate = ActiveUpdate(expected: seq<string>, reselect: bool, post: bool)

  function PlanActiveUpdate(posted: bool, pending: bool, active: seq<string>, coll: Option<seq<Stream>>,
                            ac: Option<seq<Stream>>, slotSid: string, updateSelection: bool, hook: SelectHook): (u: ActiveUpdate)
    ensures u.post ==> ac.Some?
    ensures u.reselect ==> ac.Some?
    ensures posted && ac.Some? ==> u.post && u.reselect == updateSelection
    ensures !posted && ac.Some? && coll.Some? && |coll.value| == |ac.value| ==> u.post && u.reselect == updateSelection
    ensures u.expected != [] ==> !posted && !pending && !u.post
  {
    // before the first post, while the active collection is not yet complete
    var incomplete := !posted && coll.Some? && ac.Some? && |coll.value| != |ac.value|;
    var expected := if incomplete then ExpectedSelection(pending, posted, active, coll.value, hook) else [];
    ActiveUpdate(expected,
                 ac.Some? && updateSelection && !(incomplete && slotSid !in expected),
                 ac.Some? && (posted || (coll.Some? && |coll.value| == |ac.value|)))
  }

  /**
   * update_active_collection: rebuild the active collection; before the
   * collection has been posted, wait until it is as large as the input
   * collection, and skip the selection update for a slot whose stream the
   * expected selection does not name; afterwards always post. Returns the
   * collection to post, if any.
   */
  method UpdateActiveCollection(dbin: Decodebin3, slot: Slot, updateSelection: bool, hook: SelectHook)
    returns (msg: Option<seq<Stream>>)
    modifies dbin`activeCollection, dbin`collectionPosted, dbin`requested, dbin`selectionUpdated
    ensures dbin.activeCollection == ActiveCollection(old(SlotStreams(dbin.slots)))
    ensures var u := PlanActiveUpdate(old(dbin.collectionPosted), dbin.pendingSelectStreams != [], dbin.active,
                                      dbin.collection, dbin.activeCollection, ActiveIdOrNone(slot.activeStream),
                                      updateSelection, hook);
      Publication(msg, dbin.collectionPosted, dbin.requested, dbin.selectionUpdated) ==
      PublishedState(u, dbin.activeCollection, dbin.pendingSelectStreams != [], dbin.active,
                     old(dbin.collectionPosted), old(dbin.requested), old(dbin.selectionUpdated), hook)
  {
    var collection := GetActiveCollection(dbin);
    msg := PublishActiveCollection(dbin, slot, collection, updateSelection, hook);
    // stored first in the source; nothing in between reads the field
    dbin.activeCollection := collection;
  }

  /** The slots' streams depend on their active-stream fields only. */
  twostate lemma SlotStreamsFramed(slots: seq<Slot>)
    requires forall i :: 0 <= i < |slots| ==> old(slots[i].activeStream) == slots[i].activeStream
    ensures SlotStreams(slots) == old(SlotStreams(slots))
  {
  }

  /** What update_active_collection leaves: the posted message and the three fields it writes. */
  datatype Publication = Publication(msg: Option<seq<Stream>>, posted: bool, requested: seq<string>, updated: bool)

  /**
   * The state update_active_collection leaves under the plan `u` for the
   * active collection `ac`, from the posted flag, requested selection and
   * updated flag `posted0`, `requested0` and `updated0`: the collection is
   * posted when the plan says so, and the requested selection is replaced
   * by a non-empty default selection over `ac` when the plan reselects and
   * no SELECT_STREAMS is `pending`.
   */
  function PublishedState(u: ActiveUpdate, ac: Option<seq<Stream>>, pending: bool, active: seq<string>,
                          posted0: bool, requested0: seq<string>, updated0: bool, hook: SelectHook): Publication
  {
    var sel := if u.reselect && !pending && ac.Some? then
      DefaultSelection(ac.value, hook, Reusable(posted0, requested0 + active))
    else [];
    Publication(if u.post then ac else None, posted0 || u.post, if sel != [] then sel else requested0,
                updated0 || u.expected != [] || sel != [])
  }

  /**
   * The rest of update_active_collection for the active collection `ac`:
   * the startup check, the selection update and the post.
   */
  method PublishActiveCollection(dbin: Decodebin3, slot: Slot, ac: Option<seq<Stream>>, updateSelection: bool,
                                 hook: SelectHook)
    returns (msg: Option<seq<Stream>>)
    modifies dbin`collectionPosted, dbin`requested, dbin`selectionUpdated
    ensures var u := PlanActiveUpdate(old(dbin.collectionPosted), dbin.pendingSelectStreams != [], dbin.active,
                                      dbin.collection, ac, ActiveIdOrNone(slot.activeStream), updateSelection, hook);
      Publication(msg, dbin.collectionPosted, dbin.requested, dbin.selectionUpdated) ==
      PublishedState(u, ac, dbin.pendingSelectStreams != [], dbin.active,
                     old(dbin.collectionPosted), old(dbin.requested), old(dbin.selectionUpdated), hook)
  {
    var doPost, update := StartupCheck(dbin, slot, ac, updateSelection, hook);
    msg := None;
    if ac.Some? {
      if update {
        UpdateRequestedSelection(dbin, ac.value, hook);
      }
      if doPost {
        msg := ac;
        dbin.collectionPosted := true;
      }
    }
  }

  /**
   * The first half of update_active_collection, for the active collection
   * `ac`: whether to post, and whether to keep the selection update.
   */
  method StartupCheck(dbin: Decodebin3, slot: Slot, ac: Option<seq<Stream>>, updateSelection: bool, hook: SelectHook)
    returns (doPost: bool, update: bool)
    modifies dbin`selectionUpdated
    ensures var u := PlanActiveUpdate(dbin.collectionPosted, dbin.pendingSelectStreams != [], dbin.active,
                                      dbin.collection, ac, ActiveIdOrNone(slot.activeStream), updateSelection, hook);
      (ac.Some? ==> doPost == u.post && update == u.reselect) &&
      dbin.selectionUpdated == (old(dbin.selectionUpdated) || u.expected != [])
  {
    doPost := false;
    update := updateSelection;
    if !dbin.collectionPosted {
      if dbin.collection.Some? && ac.Some? {
        if |dbin.collection.value| == |ac.value| {
          doPost := true;
        } else {
          var expected := GetExpectedActiveSelection(dbin, dbin.collection.value, hook);
          var activeSid := if slot.activeStream.Some? then slot.activeStream.value.id else NONE_ID;
          if StreamInList(expected, activeSid).None? {
            update := false;
          }
        }
      }
    } else {
      doPost := true;
    }
  }

  // ---------------------------------------------------------------------
  // Completion

  /** The slots the outputs are bound to. */
  function BoundSlots(outputs: seq<OutputStream>): set<Slot>
    reads outputs`slot
  {
    set o | o in outputs && o.slot != null :: o.slot
  }

  /**
   * priv_is_selection_done: the base condition, once the collection has
   * been posted; the message carries the active collection, and every slot
   * bound to an output forgets its old stream.
   */
  method IsSelectionDone(dbin: Decodebin3) returns (msg: Option<SelectedMessage>)
    modifies dbin`selectionUpdated, BoundSlots(dbin.outputs)`oldStream
    ensures msg.Some? <==> old(dbin.SelectionComplete()) && dbin.collectionPosted
    ensures msg.Some? ==>
      msg.value == StreamsSelected(dbin.selectStreamsSeqnum, dbin.activeCollection, old(SelectedStreams(dbin.outputs))) &&
      !dbin.selectionUpdated && forall s :: s in BoundSlots(dbin.outputs) ==> s.oldStream.None?
    ensures msg.None? ==>
      dbin.selectionUpdated == old(dbin.selectionUpdated) && forall s :: s in BoundSlots(dbin.outputs) ==> s.oldStream == old(s.oldStream)
  {
    if !dbin.selectionUpdated {
      return None;
    }
    if !dbin.collectionPosted {
      return None;
    }
    if dbin.toActivate != [] {
      return None;
    }
    for i := 0 to |dbin.requested|
      invariant forall j :: 0 <= j < i ==> dbin.requested[j] in dbin.active
    {
      if StreamInList(dbin.active, dbin.requested[i]).None? {
        return None;
      }
    }
    var streams: seq<Stream> := [];
    for i := 0 to |dbin.outputs|
      invariant streams == old(SelectedStreams(dbin.outputs[..i]))
      invariant forall j :: 0 <= j < i && dbin.outputs[j].slot != null ==> dbin.outputs[j].slot.oldStream.None?
    {
      var out := dbin.outputs[i];
      assert old(SelectedStreams(dbin.outputs[..i + 1])) ==
        old(SelectedStreams(dbin.outputs[..i]) +
            (if out.slot != null && out.slot.activeStream.Some? then [out.slot.activeStream.value] else [])) by {
        assert dbin.outputs[..i + 1][..i] == dbin.outputs[..i];
      }
      if out.slot != null {
        if out.slot.activeStream.Some? {
          streams := streams + [out.slot.activeStream.value];
        }
        if out.slot.oldStream.Some? {
          out.slot.oldStream := None;
        }
      }
    }
    assert dbin.outputs[..|dbin.outputs|] == dbin.outputs;
    dbin.selectionUpdated := false;
    return Some(StreamsSelected(dbin.selectStreamsSeqnum, dbin.activeCollection, streams));
  }

  // ---------------------------------------------------------------------
  // Exposed pads

  /** pad_in_list: the pad itself (not merely its stream id) is on the list. */
  function PadInList(pads: seq<Pad>, pad: Pad): (r: bool)
    ensures r <==> pad in pads
  {
    if pads == [] then false
    else
      assert pads == [pads[0]] + pads[1..];
      pads[0] == pad || PadInList(pads[1..], pad)
  }

  /**
   * priv_append_exposed_pad: unless a resource request is underway, add the
   * pad once.
   */
  method AppendExposedPad(dbin: Decodebin3, pad: Pad)
    modifies dbin`exposedPads
    ensures dbin.exposedPads == if !dbin.requestResource && pad !in old(dbin.exposedPads) then old(dbin.exposedPads) + [pad]
                                else old(dbin.exposedPads)
  {
    if !dbin.requestResource {
      if !PadInList(dbin.exposedPads, pad) {
        dbin.exposedPads := dbin.exposedPads + [pad];
      }
    }
  }

  /** Appending a pad only when it is absent keeps the list free of duplicates. */
  lemma AppendKeepsDistinct(pads: seq<Pad>, pad: Pad)
    requires Distinct(pads) && pad !in pads
    ensures Distinct(pads + [pad])
  {
  }

  /** The pads whose stream id differs from `sid` (g_strcmp0: two missing ids are equal). */
  function WithoutStreamId(pads: seq<Pad>, sid: Option<string>): (r: seq<Pad>)
    ensures IsSubsequence(r, pads)
  {
    if pads == [] then []
    else
      var pre := pads[..|pads| - 1];
      var last := pads[|pads| - 1];
      assert pads == pre + [last];
      var r := WithoutStreamId(pre, sid);
      if last.streamId != sid then
        SubsequenceSnoc(r, pre, last);
        r + [last]
      else
        SubsequenceExtend(r, pre, last);
        r
  }

  /** The pads kept are exactly the pads whose stream id differs from `sid`. */
  lemma {:induction false} WithoutStreamIdMembers(pads: seq<Pad>, sid: Option<string>)
    ensures forall i :: 0 <= i < |WithoutStreamId(pads, sid)| ==>
      WithoutStreamId(pads, sid)[i] in pads && WithoutStreamId(pads, sid)[i].streamId != sid
    ensures forall i :: 0 <= i < |pads| && pads[i].streamId != sid ==> pads[i] in WithoutStreamId(pads, sid)
  {
    if pads != [] {
      var pre := pads[..|pads| - 1];
      var last := pads[|pads| - 1];
      assert pads == pre + [last];
      WithoutStreamIdMembers(pre, sid);
    }
  }

  /** Removing pads never introduces a duplicate. */
  lemma {:induction false} WithoutStreamIdDistinct(pads: seq<Pad>, sid: Option<string>)
    requires Distinct(pads)
    ensures Distinct(WithoutStreamId(pads, sid))
  {
    if pads != [] {
      var pre := pads[..|pads| - 1];
      var last := pads[|pads| - 1];
      assert Distinct(pre);
      WithoutStreamIdDistinct(pre, sid);
      WithoutStreamIdMembers(pre, sid);
      assert last !in pre;
    }
  }

  /**
   * priv_remove_exposed_pad: delete, in place, every exposed pad that has
   * the same stream id as `pad`.
   */
  method RemoveExposedPad(dbin: Decodebin3, pad: Pad)
    modifies dbin`exposedPads
    ensures dbin.exposedPads == WithoutStreamId(old(dbin.exposedPads), pad.streamId)
  {
    var sid := pad.streamId;
    ghost var orig := dbin.exposedPads;
    var i := 0;
    ghost var j := 0;
    while i < |dbin.exposedPads|
      invariant 0 <= i <= |dbin.exposedPads| && 0 <= j <= |orig|
      invariant dbin.exposedPads[..i] == WithoutStreamId(orig[..j], sid)
      invariant dbin.exposedPads[i..] == orig[j..]
      decreases |dbin.exposedPads| - i
    {
      var opad := dbin.exposedPads[i];
      assert orig[j] == opad && orig[..j + 1] == orig[..j] + [opad];
      assert orig[..j + 1][..j] == orig[..j];
      if sid == opad.streamId {
        dbin.exposedPads := RemoveAt(dbin.exposedPads, i);
        assert dbin.exposedPads[i..] == orig[j + 1..];
      } else {
        assert dbin.exposedPads[..i + 1] == dbin.exposedPads[..i] + [opad];
        i := i + 1;
      }
      j := j + 1;
    }
    assert orig[j..] == [] && orig[..j] == orig;
    assert dbin.exposedPads == dbin.exposedPads[..i];
  }

  // ---------------------------------------------------------------------
  // The multiqueue source-pad probe

  /**
   * A STREAM_START event: whether its structure carries the
   * "decodebin3-flushing-stream-start" field, and its stream if any.
   */
  datatype StreamStartEvent = StreamStartEvent(flushingMarker: bool, stream: Option<Stream>)

  /**
   * The list surgery for a stream change: when `from` is on the list, drop
   * it and append `to` at the end.
   */
  function ReplaceId(list: seq<string>, from: string, to: string): seq<string>
  {
    if from in list then RemoveFirst(list, from) + [to] else list
  }

  /**
   * A stream change leaves a list without the old id untouched; otherwise
   * the list keeps its length, loses one occurrence of the old id and ends
   * with the new one.
   */
  lemma ReplaceIdContents(list: seq<string>, from: string, to: string)
    ensures from !in list ==> ReplaceId(list, from, to) == list
    ensures from in list ==> (var r := ReplaceId(list, from, to);
      |r| == |list| && r[|r| - 1] == to && multiset(r) == multiset(list) - multiset{from} + multiset{to})
  {
    RemoveFirstMultiset(list, from);
  }

  /** Stream changes keep a list free of duplicates, and the old id leaves it. */
  lemma ReplaceIdDistinct(list: seq<string>, from: string, to: string)
    requires Distinct(list) && from in list && (to == from || to !in list)
    ensures Distinct(ReplaceId(list, from, to))
    ensures from != to ==> from !in ReplaceId(list, from, to)
  {
    RemoveFirstDistinct(list, from);
    var r := RemoveFirst(list, from);
    assert to !in r;
    assert Distinct(r + [to]);
  }

  /**
   * The STREAM_START branch, from the stream change to the update of the
   * active collection: a flushing STREAM_START is dropped (`handled`), one
   * without a stream is ignored; otherwise the slot is no longer drained; a
   * first stream becomes the active stream and updates the selection; a
   * different stream replaces the previous id in the active and requested
   * lists, becomes the active stream and keeps the previous one as old
   * stream. Returns the collection to post, if any. (The probe then looks
   * the output up with get_output_for_slot and resets it, ResetOutput.)
   */
  method StreamStart(dbin: Decodebin3, slot: Slot, ev: StreamStartEvent, hook: SelectHook)
    returns (handled: bool, msg: Option<seq<Stream>>)
    modifies slot`isDrained, slot`activeStream, slot`oldStream, dbin`active, dbin`requested, dbin`selectionUpdated
    modifies dbin`activeCollection, dbin`collectionPosted
    ensures handled <==> ev.flushingMarker
    ensures ev.flushingMarker || ev.stream.None? || old(slot.activeStream) == ev.stream ==>
      msg.None? && dbin.active == old(dbin.active) && dbin.requested == old(dbin.requested) &&
      dbin.selectionUpdated == old(dbin.selectionUpdated) && dbin.activeCollection == old(dbin.activeCollection) &&
      dbin.collectionPosted == old(dbin.collectionPosted) && slot.activeStream == old(slot.activeStream) &&
      slot.oldStream == old(slot.oldStream)
    ensures ev.flushingMarker || ev.stream.None? ==> slot.isDrained == old(slot.isDrained)
    ensures !ev.flushingMarker && ev.stream.Some? ==> !slot.isDrained && slot.activeStream == ev.stream
    ensures !ev.flushingMarker && ev.stream.Some? && old(slot.activeStream) != ev.stream ==>
      var prev := old(slot.activeStream);
      var sid := ev.stream.value.id;
      var change := prev.Some?;
      var act := if change then ReplaceId(old(dbin.active), prev.value.id, sid) else old(dbin.active);
      var req := if change then ReplaceId(old(dbin.requested), prev.value.id, sid) else old(dbin.requested);
      var upd := old(dbin.selectionUpdated) || (change && prev.value.id in old(dbin.requested));
      var u := PlanActiveUpdate(old(dbin.collectionPosted), dbin.pendingSelectStreams != [], act,
                                dbin.collection, dbin.activeCollection, sid, !change, hook);
      slot.oldStream == (if change then prev else old(slot.oldStream)) &&
      dbin.active == act &&
      Publication(msg, dbin.collectionPosted, dbin.requested, dbin.selectionUpdated) ==
      PublishedState(u, dbin.activeCollection, dbin.pendingSelectStreams != [], act,
                     old(dbin.collectionPosted), req, upd, hook)
    ensures !ev.flushingMarker && ev.stream.Some? && old(slot.activeStream) != ev.stream ==>
      dbin.activeCollection == ActiveCollection(SlotStreams(dbin.slots))
  {
    if ev.flushingMarker {
      return true, None;
    }
    handled := false;
    msg := None;
    if ev.stream.None? {
      return;
    }
    var stream := ev.stream.value;
    slot.isDrained := false;
    if slot.activeStream != Some(stream) {
      msg := AcceptStream(dbin, slot, stream, hook);
    }
  }

  /** STREAM_START with a stream that is not the active one. */
  method AcceptStream(dbin: Decodebin3, slot: Slot, stream: Stream, hook: SelectHook)
    returns (msg: Option<seq<Stream>>)
    requires slot.activeStream != Some(stream)
    modifies slot`activeStream, slot`oldStream, dbin`active, dbin`requested, dbin`selectionUpdated
    modifies dbin`activeCollection, dbin`collectionPosted
    ensures var prev := old(slot.activeStream);
      var change := prev.Some?;
      var act := if change then ReplaceId(old(dbin.active), prev.value.id, stream.id) else old(dbin.active);
      var req := if change then ReplaceId(old(dbin.requested), prev.value.id, stream.id) else old(dbin.requested);
      var upd := old(dbin.selectionUpdated) || (change && prev.value.id in old(dbin.requested));
      var u := PlanActiveUpdate(old(dbin.collectionPosted), dbin.pendingSelectStreams != [], act,
                                dbin.collection, dbin.activeCollection, stream.id, !change, hook);
      slot.activeStream == Some(stream) &&
      slot.oldStream == (if change then prev else old(slot.oldStream)) &&
      dbin.active == act &&
      Publication(msg, dbin.collectionPosted, dbin.requested, dbin.selectionUpdated) ==
      PublishedState(u, dbin.activeCollection, dbin.pendingSelectStreams != [], act,
                     old(dbin.collectionPosted), req, upd, hook)
    ensures dbin.activeCollection == ActiveCollection(SlotStreams(dbin.slots))
  {
    if slot.activeStream.None? {
      msg := FirstStream(dbin, slot, stream, hook);
    } else {
      msg := SwitchStream(dbin, slot, stream, hook);
    }
  }

  /** A slot's first stream: it becomes the active stream and updates the selection. */
  method FirstStream(dbin: Decodebin3, slot: Slot, stream: Stream, hook: SelectHook)
    returns (msg: Option<seq<Stream>>)
    requires slot.activeStream.None?
    modifies slot`activeStream, dbin`requested, dbin`selectionUpdated, dbin`activeCollection, dbin`collectionPosted
    ensures var u := PlanActiveUpdate(old(dbin.collectionPosted), dbin.pendingSelectStreams != [], dbin.active,
                                      dbin.collection, dbin.activeCollection, stream.id, true, hook);
      slot.activeStream == Some(stream) &&
      Publication(msg, dbin.collectionPosted, dbin.requested, dbin.selectionUpdated) ==
      PublishedState(u, dbin.activeCollection, dbin.pendingSelectStreams != [], dbin.active,
                     old(dbin.collectionPosted), old(dbin.requested), old(dbin.selectionUpdated), hook)
    ensures dbin.activeCollection == ActiveCollection(SlotStreams(dbin.slots))
  {
    slot.activeStream := Some(stream);
    label first:
    msg := UpdateActiveCollection(dbin, slot, true, hook);
    SlotStreamsFramed@first(dbin.slots);
  }

  /**
   * A different stream on a slot with an active stream: the previous id is
   * replaced in the active and requested lists, and the active collection
   * is rebuilt without updating the selection.
   */
  method SwitchStream(dbin: Decodebin3, slot: Slot, stream: Stream, hook: SelectHook)
    returns (msg: Option<seq<Stream>>)
    requires slot.activeStream.Some? && slot.activeStream != Some(stream)
    modifies slot`activeStream, slot`oldStream, dbin`active, dbin`requested, dbin`selectionUpdated
    modifies dbin`activeCollection, dbin`collectionPosted
    ensures var prev := old(slot.activeStream.value.id);
      var act := ReplaceId(old(dbin.active), prev, stream.id);
      var u := PlanActiveUpdate(old(dbin.collectionPosted), dbin.pendingSelectStreams != [], act,
                                dbin.collection, dbin.activeCollection, stream.id, false, hook);
      slot.activeStream == Some(stream) && slot.oldStream == old(slot.activeStream) &&
      dbin.active == act &&
      Publication(msg, dbin.collectionPosted, dbin.requested, dbin.selectionUpdated) ==
      PublishedState(u, dbin.activeCollection, dbin.pendingSelectStreams != [], act,
                     old(dbin.collectionPosted), ReplaceId(old(dbin.requested), prev, stream.id),
                     old(dbin.selectionUpdated) || prev in old(dbin.requested), hook)
    ensures dbin.activeCollection == ActiveCollection(SlotStreams(dbin.slots))
  {
    ChangeActiveStream(dbin, slot, stream);
    label changed:
    msg := UpdateActiveCollection(dbin, slot, false, hook);
    assert ActiveIdOrNone(old@changed(slot.activeStream)) == stream.id;
    SlotStreamsFramed@changed(dbin.slots);
  }

  /** The stream-change step of STREAM_START (before the active collection is rebuilt). */
  method ChangeActiveStream(dbin: Decodebin3, slot: Slot, stream: Stream)
    requires slot.activeStream.Some?
    modifies slot`activeStream, slot`oldStream, dbin`active, dbin`requested, dbin`selectionUpdated
    ensures dbin.active == ReplaceId(old(dbin.active), old(slot.activeStream.value.id), stream.id)
    ensures dbin.requested == ReplaceId(old(dbin.requested), old(slot.activeStream.value.id), stream.id)
    ensures dbin.selectionUpdated == (old(dbin.selectionUpdated) || old(slot.activeStream.value.id) in old(dbin.requested))
    ensures slot.oldStream == old(slot.activeStream) && slot.activeStream == Some(stream)
  {
    var lastSid := slot.activeStream.value.id;
    if StreamInList(dbin.active, lastSid).Some? {
      dbin.active := RemoveFirst(dbin.active, lastSid) + [stream.id];
    }
    var found := StreamInList(dbin.requested, lastSid);
    if found.Some? {
      dbin.requested := RemoveFirst(dbin.requested, found.value) + [stream.id];
      dbin.selectionUpdated := true;
    }
    slot.oldStream := slot.activeStream;
    slot.activeStream := Some(stream);
  }

  /** STREAM_START and FLUSH_STOP on a slot with an output: forget the last pushed time and the segment. */
  method ResetOutput(o: OutputStream)
    modifies o`lastPushedTs, o`segment
    ensures o.lastPushedTs == CLOCK_TIME_NONE && o.segment.format == FormatUndefined
  {
    o.lastPushedTs := CLOCK_TIME_NONE;
    o.segment := Segment(FormatUndefined, true);
  }

  /**
   * The format an output operates in after a SEGMENT event: the first
   * segment may set it unless it is in BYTES; after that it never changes.
   * `accepted` is false when the probe drops the event.
   */
  datatype SegmentOutcome = SegmentOutcome(accepted: bool, format: Format)

  function SegmentStep(current: Format, incoming: Format): (r: SegmentOutcome)
    ensures current != FormatUndefined ==> r.format == current
    ensures current != FormatBytes ==> r.format != FormatBytes
    ensures r.accepted <==> r.format == incoming
  {
    if current == FormatUndefined then
      if incoming == FormatBytes then SegmentOutcome(false, current) else SegmentOutcome(true, incoming)
    else if current != incoming then SegmentOutcome(false, current)
    else SegmentOutcome(true, incoming)
  }

  /**
   * The SEGMENT branch, with `o` the output get_output_for_slot returned:
   * a segment the output's format does not allow is dropped (`handled`);
   * otherwise the output takes a copy of it.
   */
  method SegmentEvent(o: OutputStream?, segment: Option<Segment>) returns (handled: bool)
    modifies {o}`segment
    ensures o == null || segment.None? ==> !handled
    ensures o != null && segment.Some? ==>
      var step := SegmentStep(old(o.segment.format), segment.value.format);
      handled == !step.accepted &&
      o.segment == (if step.accepted then segment.value else old(o.segment))
  {
    if o != null && segment.Some? {
      if o.segment.format == FormatUndefined {
        if segment.value.format == FormatBytes {
          return true;
        }
      } else if o.segment.format != segment.value.format {
        return true;
      }
    }
    if o != null && segment.Some? {
      o.segment := segment.value;
    }
    return false;
  }

  /**
   * The buffer branch, with `o` the output get_output_for_slot returned:
   * on an output with a defined segment at rate 1.0, a buffer whose valid
   * timestamp goes back behind the last pushed one is dropped; otherwise the
   * last pushed time advances as PtsStep says.
   */
  method BufferProbe(o: OutputStream?, pts: ClockTime, duration: ClockTime) returns (drop: bool)
    modifies {o}`lastPushedTs
    ensures o == null || o.segment.format == FormatUndefined || !o.segment.rateIsOne ==>
      !drop && (o != null ==> o.lastPushedTs == old(o.lastPushedTs))
    ensures o != null && o.segment.format != FormatUndefined && o.segment.rateIsOne ==>
      drop == PtsStep(pts, old(o.lastPushedTs), duration).drop &&
      o.lastPushedTs == PtsStep(pts, old(o.lastPushedTs), duration).lastPushed
  {
    if o == null || o.segment.format == FormatUndefined {
      return false;
    }
    if !o.segment.rateIsOne {
      return false;
    }
    var cur := pts;
    var prev := o.lastPushedTs;
    if !ValidTime(cur) && !ValidTime(prev) {
      return false;
    }
    var cache := duration;
    if ValidTime(cur) && ValidTime(prev) {
      var diff := PtsDiff(cur, prev);
      if !ValidTime(cache) {
        cache := if diff != -0x8000_0000_0000_0000 then (if diff > MAX_CACHE_TIME then MAX_CACHE_TIME else ToClockTime(diff))
                 else MAX_CACHE_TIME;
      }
      if prev > cur {
        return true;
      }
    }
    if !ValidTime(cache) {
      cache := MAX_CACHE_TIME;
    }
    assert cache == CacheTime(cur, prev, duration);
    if ValidTime(cur) {
      prev := cur;
    } else if ValidTime(prev) {
      prev := (prev + cache) % 0x1_0000_0000_0000_0000;
    }
    if ValidTime(prev) {
      o.lastPushedTs := prev;
    }
    return false;
  }
}
