// The TV build's additions to urisourcebin (gsturisourcebin-tv.c): matching
// an output slot whose demuxer pad went away to another pending demuxer pad,
// and the STREAM_START handling on demuxer source pads.

module UrisourcebinTv {
  import opened Streams

  // ---------------------------------------------------------------------
  // Data

  /** The parts of a ChildSrcPadInfo the matching reads and the probe writes. */
  class ChildSrcPadInfo {
    var stream: Option<Stream>
    var curCaps: Caps
    var outputSlot: OutputSlotInfo?
  }

  /** An OutputSlotInfo: the pad info it is linked to, the current caps of its sink pad, its EOS mark. */
  class OutputSlotInfo {
    var linkedInfo: ChildSrcPadInfo?
    var sinkCaps: Option<Caps>
    var isEos: bool
  }

  /**
   * The pending demuxer pads, each given by its "urisourcebin.srcpadinfo"
   * data, null for a pad without one.
   */
  class URISourceBin {
    var pendingPads: seq<ChildSrcPadInfo?>
  }

  /** gst_caps_is_subset_structure, whose code is not part of this model. */
  type SubsetOracle = (Caps, Structure) -> bool

  /**
   * A test of a pending stream's tags against the slot stream's: the source
   * uses StreamTagsCompatibleAsWritten, StreamTagsCompatible is the intended one.
   */
  type TagTest = (Stream, Stream) -> bool

  // ---------------------------------------------------------------------
  // The three compatibility tests

  /**
   * _stream_caps_is_compatible: a pending stream without caps never fits, a
   * slot stream without caps takes anything, and otherwise the first
   * structures must have the same name.
   */
  function StreamCapsCompatible(pending: Stream, slot: Stream): (r: bool)
    ensures pending.caps.None? ==> !r
    ensures pending.caps.Some? && slot.caps.None? ==> r
    ensures pending.caps.Some? && slot.caps.Some? && |pending.caps.value| > 0 && |slot.caps.value| > 0 ==>
      (r <==> pending.caps.value[0].name == slot.caps.value[0].name)
    ensures r ==> pending.caps.Some?
  {
    if pending.caps.None? then false
    else if slot.caps.None? then true
    else if |pending.caps.value| == 0 || |slot.caps.value| == 0 then false
    else pending.caps.value[0].name == slot.caps.value[0].name
  }

  /** _stream_type_is_compatible. */
  predicate StreamTypeCompatible(pending: Stream, slot: Stream)
  {
    pending.stype == slot.stype
  }

  /** The language name of a tag list, and its language code only when it has no name. */
  function LanguageName(tags: TagList): Option<string>
  {
    GetTagString(tags, TAG_LANGUAGE_NAME)
  }

  function CodeWithoutName(tags: TagList): Option<string>
  {
    if LanguageName(tags).None? then GetTagString(tags, TAG_LANGUAGE_CODE) else None
  }

  /**
   * _stream_tags_is_compatible as written: the slot's language code is
   * looked up in the PENDING stream's tags.
   */
  function StreamTagsCompatibleAsWritten(pending: Stream, slot: Stream): bool
  {
    if pending.tags.None? || slot.tags.None? then false
    else
      var pendingLang := LanguageName(pending.tags.value);
      var pendingCode := CodeWithoutName(pending.tags.value);
      var slotLang := LanguageName(slot.tags.value);
      var slotCode := if slotLang.None? then GetTagString(pending.tags.value, TAG_LANGUAGE_CODE) else None;
      if pendingLang.Some? && slotLang.Some? && pendingLang == slotLang then true
      else pendingCode.Some? && slotCode.Some? && pendingCode == slotCode
  }

  /**
   * As written, two streams without language names are tag-compatible as
   * soon as the pending one has a language code, whatever the slot's code.
   */
  lemma TagsAsWrittenIgnoreSlotCode(pending: Stream, slot: Stream)
    requires pending.tags.Some? && slot.tags.Some?
    requires LanguageName(pending.tags.value).None? && LanguageName(slot.tags.value).None?
    requires GetTagString(pending.tags.value, TAG_LANGUAGE_CODE).Some?
    ensures StreamTagsCompatibleAsWritten(pending, slot)
  {
  }

  /** An English and a Korean stream, both known only by their language codes, match as written. */
  lemma TagsAsWrittenMatchDifferentCodes()
    ensures var pending := Stream("a", TYPE_AUDIO, StreamFlags(false, false, false), None,
                                  Some(TagList(ScopeStream, map[TAG_LANGUAGE_CODE := TagString("eng")])));
            var slot := Stream("b", TYPE_AUDIO, StreamFlags(false, false, false), None,
                               Some(TagList(ScopeStream, map[TAG_LANGUAGE_CODE := TagString("kor")])));
            StreamTagsCompatibleAsWritten(pending, slot) && !StreamTagsCompatible(pending, slot)
  {
    var eng := TagList(ScopeStream, map[TAG_LANGUAGE_CODE := TagString("eng")]);
    var kor := TagList(ScopeStream, map[TAG_LANGUAGE_CODE := TagString("kor")]);
    assert GetTagString(eng, TAG_LANGUAGE_NAME).None? && GetTagString(kor, TAG_LANGUAGE_NAME).None?;
    assert GetTagString(eng, TAG_LANGUAGE_CODE) == Some("eng");
    assert GetTagString(kor, TAG_LANGUAGE_CODE) == Some("kor");
  }

  /**
   * _stream_tags_is_compatible with the slot's code read from the slot's
   * tags: both tag lists exist, and their language names are equal, or
   * neither has a name and their language codes are equal.
   */
  function StreamTagsCompatible(pending: Stream, slot: Stream): bool
  {
    if pending.tags.None? || slot.tags.None? then false
    else
      var pendingLang := LanguageName(pending.tags.value);
      var pendingCode := CodeWithoutName(pending.tags.value);
      var slotLang := LanguageName(slot.tags.value);
      var slotCode := CodeWithoutName(slot.tags.value);
      if pendingLang.Some? && slotLang.Some? && pendingLang == slotLang then true
      else pendingCode.Some? && slotCode.Some? && pendingCode == slotCode
  }

  /**
   * Two streams are tag-compatible exactly when they agree on a language
   * name, or have none and agree on a language code; so the test is
   * symmetric.
   */
  lemma StreamTagsCompatibleMeaning(pending: Stream, slot: Stream)
    ensures StreamTagsCompatible(pending, slot) <==>
      pending.tags.Some? && slot.tags.Some? &&
      ((LanguageName(pending.tags.value).Some? && LanguageName(pending.tags.value) == LanguageName(slot.tags.value)) ||
       (LanguageName(pending.tags.value).None? && LanguageName(slot.tags.value).None? &&
        GetTagString(pending.tags.value, TAG_LANGUAGE_CODE).Some? &&
        GetTagString(pending.tags.value, TAG_LANGUAGE_CODE) == GetTagString(slot.tags.value, TAG_LANGUAGE_CODE)))
    ensures StreamTagsCompatible(pending, slot) == StreamTagsCompatible(slot, pending)
  {
  }

  // ---------------------------------------------------------------------
  // priv_find_pending_pad_for_slot

  /** The first loop's outcome: a pad found at once, or the caps candidates in list order. */
  datatype Scan = Shortcut(info: ChildSrcPadInfo) | Candidates(cands: seq<ChildSrcPadInfo>)

  /** Candidates found before a scan's outcome. */
  function After(cs: seq<ChildSrcPadInfo>, s: Scan): Scan
  {
    match s
    case Shortcut(p) => Shortcut(p)
    case Candidates(ds) => Candidates(cs + ds)
  }

  /** Without GstStream objects a pad is taken when its caps equal the slot caps or hold their first structure. */
  predicate CapsShortcut(cur: Caps, slotCaps: Caps, subset: SubsetOracle)
  {
    cur == slotCaps || (|slotCaps| > 0 && subset(cur, slotCaps[0]))
  }

  /** The first loop over the pending pads, from `pads[0]` on. */
  function ScanPending(pads: seq<ChildSrcPadInfo?>, inInfo: ChildSrcPadInfo?, slotCaps: Option<Caps>,
                       subset: SubsetOracle): Scan
    requires slotCaps.Some? ==> inInfo != null
    reads pads, inInfo
    ensures var s := ScanPending(pads, inInfo, slotCaps, subset);
      s.Candidates? ==> forall i :: 0 <= i < |s.cands| ==> s.cands[i] in pads
  {
    if pads == [] then Candidates([])
    else ScanOne(pads[0], ScanPending(pads[1..], inInfo, slotCaps, subset), inInfo, slotCaps, subset)
  }

  /** One pending pad `p` in front of the outcome `rest` of the pads after it. */
  function ScanOne(p: ChildSrcPadInfo?, rest: Scan, inInfo: ChildSrcPadInfo?, slotCaps: Option<Caps>,
                   subset: SubsetOracle): (r: Scan)
    requires slotCaps.Some? ==> inInfo != null
    reads p, inInfo
    ensures r.Candidates? && rest.Candidates? ==> r.cands == rest.cands || r.cands == [p] + rest.cands
  {
    if p == null || p == inInfo then rest
    else if slotCaps.None? then Shortcut(p)
    else if inInfo.stream.None? || p.stream.None? then
      if CapsShortcut(p.curCaps, slotCaps.value, subset) then Shortcut(p) else rest
    else if StreamCapsCompatible(p.stream.value, inInfo.stream.value) then After([p], rest)
    else rest
  }

  /** The scan from index `i` is pad `i` in front of the scan from `i + 1`. */
  lemma ScanFrom(pads: seq<ChildSrcPadInfo?>, i: nat, inInfo: ChildSrcPadInfo?, slotCaps: Option<Caps>,
                 subset: SubsetOracle)
    requires i < |pads| && (slotCaps.Some? ==> inInfo != null)
    ensures ScanPending(pads[i..], inInfo, slotCaps, subset) ==
      ScanOne(pads[i], ScanPending(pads[i + 1..], inInfo, slotCaps, subset), inInfo, slotCaps, subset)
  {
    assert pads[i..][1..] == pads[i + 1..];
  }

  /** Candidates found earlier go in front of those found later. */
  lemma AfterAppend(cs: seq<ChildSrcPadInfo>, p: ChildSrcPadInfo, rest: Scan)
    ensures After(cs, After([p], rest)) == After(cs + [p], rest)
  {
    if rest.Candidates? {
      assert cs + ([p] + rest.cands) == (cs + [p]) + rest.cands;
    }
  }

  predicate TypeFits(c: ChildSrcPadInfo, inStream: Stream)
    reads c
  {
    c.stream.Some? && StreamTypeCompatible(c.stream.value, inStream)
  }

  predicate TagsFit(c: ChildSrcPadInfo, inStream: Stream, tagsOk: TagTest)
    reads c
  {
    c.stream.Some? && tagsOk(c.stream.value, inStream)
  }

  /** The candidates whose stream type is the slot stream's, in order. */
  function TypeCandidates(cs: seq<ChildSrcPadInfo>, inStream: Stream): (r: seq<ChildSrcPadInfo>)
    reads cs
    ensures forall i :: 0 <= i < |r| ==> r[i] in cs && TypeFits(r[i], inStream)
  {
    if cs == [] then []
    else
      var pre := TypeCandidates(cs[..|cs| - 1], inStream);
      var last := cs[|cs| - 1];
      assert forall i :: 0 <= i < |pre| ==> pre[i] in cs[..|cs| - 1];
      if TypeFits(last, inStream) then pre + [last] else pre
  }

  /**
   * The type step keeps exactly the caps candidates whose stream has the
   * slot stream's type.
   */
  lemma {:induction false} TypeCandidatesExact(cs: seq<ChildSrcPadInfo>, inStream: Stream)
    ensures forall c :: c in TypeCandidates(cs, inStream) <==>
      c in cs && c.stream.Some? && c.stream.value.stype == inStream.stype
  {
    if cs != [] {
      var pre := cs[..|cs| - 1];
      TypeCandidatesExact(pre, inStream);
      assert cs == pre + [cs[|cs| - 1]];
    }
  }

  /** The candidates whose language matches the slot stream's, in order. */
  function TagCandidates(cs: seq<ChildSrcPadInfo>, inStream: Stream, tagsOk: TagTest): (r: seq<ChildSrcPadInfo>)
    reads cs
    ensures forall i :: 0 <= i < |r| ==> r[i] in cs && TagsFit(r[i], inStream, tagsOk)
  {
    if cs == [] then []
    else
      var pre := TagCandidates(cs[..|cs| - 1], inStream, tagsOk);
      var last := cs[|cs| - 1];
      assert forall i :: 0 <= i < |pre| ==> pre[i] in cs[..|cs| - 1];
      if TagsFit(last, inStream, tagsOk) then pre + [last] else pre
  }

  /**
   * The cascade over the caps candidates: the only one; else the only
   * type-compatible one; else the only tag-compatible one; else the first.
   */
  function ChooseCandidate(cs: seq<ChildSrcPadInfo>, inStream: Stream, tagsOk: TagTest): (r: ChildSrcPadInfo?)
    reads cs
    ensures r == null <==> cs == []
    ensures r != null ==> r in cs
  {
    if cs == [] then null
    else if |cs| == 1 then cs[0]
    else
      var byType := TypeCandidates(cs, inStream);
      var byTags := TagCandidates(cs, inStream, tagsOk);
      if |byType| == 1 then byType[0]
      else if |byTags| == 1 then byTags[0]
      else cs[0]
  }

  /** What priv_find_pending_pad_for_slot returns when its cascade tests tags with `tagsOk`. */
  function PendingPadFor(pads: seq<ChildSrcPadInfo?>, inInfo: ChildSrcPadInfo?, slotCaps: Option<Caps>,
                         subset: SubsetOracle, tagsOk: TagTest): ChildSrcPadInfo?
    requires slotCaps.Some? ==> inInfo != null
    reads pads, inInfo
  {
    match ScanPending(pads, inInfo, slotCaps, subset)
    case Shortcut(p) => p
    case Candidates(cs) =>
      if cs == [] then null
      else
        // every candidate got there through a stream of its own and of the slot
        if inInfo != null && inInfo.stream.Some? then ChooseCandidate(cs, inInfo.stream.value, tagsOk) else cs[0]
  }

  /** A pad the first loop would accept, one way or another. */
  predicate Qualifies(p: ChildSrcPadInfo?, inInfo: ChildSrcPadInfo?, slotCaps: Option<Caps>, subset: SubsetOracle)
    requires slotCaps.Some? ==> inInfo != null
    reads p, inInfo
  {
    p != null && p != inInfo &&
    (slotCaps.None? ||
     (if inInfo.stream.None? || p.stream.None? then CapsShortcut(p.curCaps, slotCaps.value, subset)
      else StreamCapsCompatible(p.stream.value, inInfo.stream.value)))
  }

  /** The scan finds only pending pads that qualify, and finds nothing only when none does. */
  lemma {:induction false} ScanPendingMeaning(pads: seq<ChildSrcPadInfo?>, inInfo: ChildSrcPadInfo?,
                                              slotCaps: Option<Caps>, subset: SubsetOracle)
    requires slotCaps.Some? ==> inInfo != null
    ensures var s := ScanPending(pads, inInfo, slotCaps, subset);
      (s.Shortcut? ==> s.info in pads && Qualifies(s.info, inInfo, slotCaps, subset)) &&
      (s.Candidates? ==> forall i :: 0 <= i < |s.cands| ==> s.cands[i] in pads && Qualifies(s.cands[i], inInfo, slotCaps, subset)) &&
      (s == Candidates([]) <==> forall i :: 0 <= i < |pads| ==> !Qualifies(pads[i], inInfo, slotCaps, subset))
  {
    if pads != [] {
      ScanPendingMeaning(pads[1..], inInfo, slotCaps, subset);
      assert forall i :: 1 <= i < |pads| ==> pads[i] == pads[1..][i - 1];
      var s := ScanPending(pads, inInfo, slotCaps, subset);
      var rest := ScanPending(pads[1..], inInfo, slotCaps, subset);
      if s.Candidates? && s.cands != [] && s.cands != rest.cands {
        assert s.cands[0] == pads[0];
      }
    }
  }

  /**
   * The pad found is never the slot's current one, it is a pending pad that
   * qualifies, and there is none only when no pending pad qualifies.
   */
  lemma PendingPadForMeaning(pads: seq<ChildSrcPadInfo?>, inInfo: ChildSrcPadInfo?, slotCaps: Option<Caps>,
                             subset: SubsetOracle, tagsOk: TagTest)
    requires slotCaps.Some? ==> inInfo != null
    ensures var r := PendingPadFor(pads, inInfo, slotCaps, subset, tagsOk);
      (r != null ==> r != inInfo && r in pads && Qualifies(r, inInfo, slotCaps, subset)) &&
      (r == null <==> forall i :: 0 <= i < |pads| ==> !Qualifies(pads[i], inInfo, slotCaps, subset))
  {
    ScanPendingMeaning(pads, inInfo, slotCaps, subset);
  }

  /** Without slot caps, the first pending pad other than the slot's current one is taken. */
  lemma {:induction false} NoSlotCapsFirstOther(pads: seq<ChildSrcPadInfo?>, inInfo: ChildSrcPadInfo?,
                                                subset: SubsetOracle, tagsOk: TagTest, k: nat)
    requires k < |pads| && pads[k] != null && pads[k] != inInfo
    requires forall j :: 0 <= j < k ==> pads[j] == null || pads[j] == inInfo
    ensures PendingPadFor(pads, inInfo, None, subset, tagsOk) == pads[k]
  {
    if k > 0 {
      assert forall j :: 0 <= j < k - 1 ==> pads[1..][j] == pads[j + 1];
      NoSlotCapsFirstOther(pads[1..], inInfo, subset, tagsOk, k - 1);
    }
  }

  /** The cascade prefers a unique type match, then a unique language match, and otherwise takes the first candidate. */
  lemma ChooseCandidateCascade(cs: seq<ChildSrcPadInfo>, inStream: Stream, tagsOk: TagTest)
    requires |cs| > 1
    ensures |TypeCandidates(cs, inStream)| == 1 ==> ChooseCandidate(cs, inStream, tagsOk) == TypeCandidates(cs, inStream)[0]
    ensures |TypeCandidates(cs, inStream)| != 1 && |TagCandidates(cs, inStream, tagsOk)| == 1 ==>
      ChooseCandidate(cs, inStream, tagsOk) == TagCandidates(cs, inStream, tagsOk)[0]
    ensures |TypeCandidates(cs, inStream)| != 1 && |TagCandidates(cs, inStream, tagsOk)| != 1 ==>
      ChooseCandidate(cs, inStream, tagsOk) == cs[0]
  {
  }

  /**
   * Two audio candidates known only by language code, English first and
   * Korean second, for a Korean slot stream: as written both pass the tag
   * test, so the cascade falls through to the first (English) candidate;
   * with the intended test only the Korean one passes and is taken.
   */
  lemma CascadeTagTestDiffers(eng: ChildSrcPadInfo, kor: ChildSrcPadInfo)
    requires eng != kor
    requires eng.stream == Some(Stream("a", TYPE_AUDIO, StreamFlags(false, false, false), None,
                                       Some(TagList(ScopeStream, map[TAG_LANGUAGE_CODE := TagString("eng")]))))
    requires kor.stream == Some(Stream("b", TYPE_AUDIO, StreamFlags(false, false, false), None,
                                       Some(TagList(ScopeStream, map[TAG_LANGUAGE_CODE := TagString("kor")]))))
    ensures var slot := Stream("c", TYPE_AUDIO, StreamFlags(false, false, false), None,
                               Some(TagList(ScopeStream, map[TAG_LANGUAGE_CODE := TagString("kor")])));
      ChooseCandidate([eng, kor], slot, StreamTagsCompatibleAsWritten) == eng &&
      ChooseCandidate([eng, kor], slot, StreamTagsCompatible) == kor
  {
    var engTags := TagList(ScopeStream, map[TAG_LANGUAGE_CODE := TagString("eng")]);
    var korTags := TagList(ScopeStream, map[TAG_LANGUAGE_CODE := TagString("kor")]);
    assert GetTagString(engTags, TAG_LANGUAGE_NAME).None? && GetTagString(korTags, TAG_LANGUAGE_NAME).None?;
    assert GetTagString(engTags, TAG_LANGUAGE_CODE) == Some("eng");
    assert GetTagString(korTags, TAG_LANGUAGE_CODE) == Some("kor");
    var slot := Stream("c", TYPE_AUDIO, StreamFlags(false, false, false), None, Some(korTags));
    var cs := [eng, kor];
    assert cs[..1] == [eng] && [eng][..0] == [];
    assert StreamTagsCompatibleAsWritten(eng.stream.value, slot) && StreamTagsCompatibleAsWritten(kor.stream.value, slot);
    assert !StreamTagsCompatible(eng.stream.value, slot) && StreamTagsCompatible(kor.stream.value, slot);
    assert cs[..|cs| - 1] == [eng] && [eng][..|[eng]| - 1] == [];
    assert TypeCandidates([eng], slot) == [eng];
    assert TypeCandidates(cs, slot) == cs;
    assert TagCandidates([eng], slot, StreamTagsCompatibleAsWritten) == [eng];
    assert TagCandidates(cs, slot, StreamTagsCompatibleAsWritten) == cs;
    assert TagCandidates([eng], slot, StreamTagsCompatible) == [];
    assert TagCandidates(cs, slot, StreamTagsCompatible) == [kor];
  }

  /**
   * priv_find_pending_pad_for_slot: the pending pad to relink the slot to,
   * or null.
   */
  method FindPendingPadForSlot(urisrc: URISourceBin, slot: OutputSlotInfo, subset: SubsetOracle)
    returns (ret: ChildSrcPadInfo?)
    requires slot.sinkCaps.Some? ==> slot.linkedInfo != null
    ensures ret == PendingPadFor(urisrc.pendingPads, slot.linkedInfo, slot.sinkCaps, subset, StreamTagsCompatibleAsWritten)
  {
    var inInfo := slot.linkedInfo;
    var found, candCaps := ScanPendingPads(urisrc.pendingPads, inInfo, slot.sinkCaps, subset);
    if found != null {
      return found;
    }
    if candCaps == [] {
      return null;
    }
    ret := ChooseAmong(candCaps, inInfo.stream.value);
  }

  /**
   * The first loop of priv_find_pending_pad_for_slot: a pad taken at once,
   * or the caps-compatible candidates appended in list order.
   */
  method ScanPendingPads(pads: seq<ChildSrcPadInfo?>, inInfo: ChildSrcPadInfo?, slotCaps: Option<Caps>,
                         subset: SubsetOracle)
    returns (found: ChildSrcPadInfo?, candCaps: seq<ChildSrcPadInfo>)
    requires slotCaps.Some? ==> inInfo != null
    ensures found != null ==> ScanPending(pads, inInfo, slotCaps, subset) == Shortcut(found)
    ensures found == null ==> ScanPending(pads, inInfo, slotCaps, subset) == Candidates(candCaps)
    ensures found == null && candCaps != [] ==> inInfo != null && inInfo.stream.Some?
  {
    candCaps := [];
    var i := 0;
    while i < |pads|
      invariant 0 <= i <= |pads|
      invariant ScanPending(pads, inInfo, slotCaps, subset) == After(candCaps, ScanPending(pads[i..], inInfo, slotCaps, subset))
      invariant candCaps != [] ==> inInfo != null && inInfo.stream.Some?
    {
      var curInfo := pads[i];
      ScanFrom(pads, i, inInfo, slotCaps, subset);
      ghost var rest := ScanPending(pads[i + 1..], inInfo, slotCaps, subset);
      if curInfo != null {
        if inInfo == curInfo {
          i := i + 1;
          continue;
        }
        if slotCaps.None? {
          return curInfo, candCaps;
        }
        if inInfo.stream.None? || curInfo.stream.None? {
          if curInfo.curCaps == slotCaps.value {
            return curInfo, candCaps;
          } else if |slotCaps.value| > 0 && subset(curInfo.curCaps, slotCaps.value[0]) {
            return curInfo, candCaps;
          }
        } else if StreamCapsCompatible(curInfo.stream.value, inInfo.stream.value) {
          AfterAppend(candCaps, curInfo, rest);
          candCaps := candCaps + [curInfo];
        }
      }
      i := i + 1;
    }
    assert pads[|pads|..] == [];
    return null, candCaps;
  }

  /** The cascade of priv_find_pending_pad_for_slot over two or more caps candidates. */
  method ChooseAmong(candCaps: seq<ChildSrcPadInfo>, inStream: Stream) returns (ret: ChildSrcPadInfo?)
    ensures ret == ChooseCandidate(candCaps, inStream, StreamTagsCompatibleAsWritten)
  {
    if candCaps == [] {
      return null;
    }
    if |candCaps| == 1 {
      return candCaps[0];
    }
    var candType: seq<ChildSrcPadInfo> := [];
    var candTags: seq<ChildSrcPadInfo> := [];
    for k := 0 to |candCaps|
      invariant candType == TypeCandidates(candCaps[..k], inStream)
      invariant candTags == TagCandidates(candCaps[..k], inStream, StreamTagsCompatibleAsWritten)
    {
      var tmp := candCaps[k];
      assert candCaps[..k + 1][..k] == candCaps[..k];
      if tmp.stream.Some? && StreamTypeCompatible(tmp.stream.value, inStream) {
        candType := candType + [tmp];
      }
      if tmp.stream.Some? && StreamTagsCompatibleAsWritten(tmp.stream.value, inStream) {
        candTags := candTags + [tmp];
      }
    }
    assert candCaps[..|candCaps|] == candCaps;
    if |candType| == 1 {
      return candType[0];
    }
    if candTags != [] && |candTags| == 1 {
      return candTags[0];
    }
    return candCaps[0];
  }

  // ---------------------------------------------------------------------
  // priv_demux_pad_events

  datatype EventKind = EventStreamStart | EventOther

  datatype PadProbeReturn = ProbeOk | ProbeDrop

  /**
   * priv_demux_pad_events: a STREAM_START stores the pad's stream (when it
   * has one) on the pad info, clears its output slot's EOS mark and is
   * stolen; any other event is let through. `padStream` is what
   * gst_pad_get_stream returns.
   */
  method DemuxPadEvents(padStream: Option<Stream>, ev: EventKind, child: ChildSrcPadInfo)
    returns (ret: PadProbeReturn, steal: bool)
    requires ev == EventStreamStart ==> child.outputSlot != null
    modifies child`stream, {child.outputSlot}`isEos
    ensures ret == ProbeOk
    ensures steal <==> ev == EventStreamStart
    ensures ev == EventStreamStart ==>
      child.stream == (if padStream.Some? then padStream else old(child.stream)) && !child.outputSlot.isEos
    ensures ev != EventStreamStart ==> child.stream == old(child.stream)
    ensures ev != EventStreamStart && child.outputSlot != null ==> child.outputSlot.isEos == old(child.outputSlot.isEos)
  {
    ret := ProbeOk;
    match ev
    case EventStreamStart =>
      if padStream.Some? {
        child.stream := padStream;
      }
      child.outputSlot.isEos := false;
      steal := true;
    case EventOther =>
      steal := false;
  }
}
