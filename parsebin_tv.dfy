// The TV build's additions to parsebin (gstparsebin-tv.c): which factories
// are compositors, when autoplugging continues past a parsed secure-video
// stream, the compositor lookup in a group, the drained flags cleared up the
// chain/group tree, the composite-stream gate and the stream-tag merge.

module ParsebinTv {
  import opened Streams

  // ---------------------------------------------------------------------
  // The parse tree

  /** A GstElement, compared by identity. */
  class Element { }

  /** The TV fields of a GstParseChain, with the ones the core reads. */
  class ParseChain {
    var drained: bool
    var parent: ParseGroup?
    var stype: StreamType
    var compositor: Element?
    var mainInput: bool
    var needCompositor: bool
    var fallbackElement: Element?
  }

  class ParseGroup {
    var drained: bool
    var parent: ParseChain?
    var children: seq<ParseChain>
  }

  /** The two compositor flags of a GstParseBin. */
  class ParseBin {
    var haveCompositor: bool
    var haveCompositeStream: bool
  }

  /** The active stream of a GstParsePad. */
  class ParsePad {
    var activeStream: Option<Stream>
  }

  // ---------------------------------------------------------------------
  // is_compositor_factory

  predicate RequestSink(t: PadTemplate)
  {
    t.direction == DirSink && t.presence == PresenceRequest
  }

  /** The number of source templates. */
  function SrcTemplateCount(ts: seq<PadTemplate>): nat
  {
    if ts == [] then 0
    else SrcTemplateCount(ts[..|ts| - 1]) + (if ts[|ts| - 1].direction == DirSrc then 1 else 0)
  }

  /**
   * A compositor: a "Parser" with a request sink template and exactly one
   * source template, which is an always template.
   */
  predicate CompositorFactory(klass: string, ts: seq<PadTemplate>)
  {
    ContainsSubstring(klass, "Parser") &&
    (exists i :: 0 <= i < |ts| && RequestSink(ts[i])) &&
    (forall i :: 0 <= i < |ts| && ts[i].direction == DirSrc ==> ts[i].presence == PresenceAlways) &&
    SrcTemplateCount(ts) == 1
  }

  /**
   * The counter the loop keeps: one per always source template, becoming -1
   * for good at the first source template of another presence.
   */
  function AlwaysSrcCounter(ts: seq<PadTemplate>): int
  {
    if ts == [] then 0
    else
      var c := AlwaysSrcCounter(ts[..|ts| - 1]);
      var t := ts[|ts| - 1];
      if t.direction != DirSrc then c
      else if t.presence == PresenceAlways then (if c >= 0 then c + 1 else c)
      else -1
  }

  /** The counter is -1 exactly when some source template is not an always one, and otherwise counts them. */
  lemma {:induction false} AlwaysSrcCounterMeaning(ts: seq<PadTemplate>)
    ensures AlwaysSrcCounter(ts) == -1 <==>
      exists i :: 0 <= i < |ts| && ts[i].direction == DirSrc && ts[i].presence != PresenceAlways
    ensures AlwaysSrcCounter(ts) != -1 ==> AlwaysSrcCounter(ts) == SrcTemplateCount(ts)
  {
    if ts != [] {
      var pre := ts[..|ts| - 1];
      AlwaysSrcCounterMeaning(pre);
      assert forall i :: 0 <= i < |pre| ==> pre[i] == ts[i];
      if AlwaysSrcCounter(pre) == -1 {
        var i :| 0 <= i < |pre| && pre[i].direction == DirSrc && pre[i].presence != PresenceAlways;
        assert ts[i] == pre[i];
      }
    }
  }

  /** is_compositor_factory: the factory's klass and static pad templates. */
  method IsCompositorFactory(klass: string, ts: seq<PadTemplate>) returns (r: bool)
    ensures r <==> CompositorFactory(klass, ts)
  {
    if !ContainsSubstring(klass, "Parser") {
      return false;
    }
    var hasRequestSink := false;
    var numAlwaysSrc := 0;
    for i := 0 to |ts|
      invariant hasRequestSink <==> exists k :: 0 <= k < i && RequestSink(ts[k])
      invariant numAlwaysSrc == AlwaysSrcCounter(ts[..i])
    {
      var t := ts[i];
      assert ts[..i + 1][..i] == ts[..i];
      if t.direction == DirSink {
        if t.presence == PresenceRequest {
          hasRequestSink := true;
        }
      } else if t.direction == DirSrc {
        if t.presence == PresenceAlways {
          if numAlwaysSrc >= 0 {
            numAlwaysSrc := numAlwaysSrc + 1;
          }
        } else {
          numAlwaysSrc := -1;
        }
      }
    }
    assert ts[..|ts|] == ts;
    AlwaysSrcCounterMeaning(ts);
    r := hasRequestSink && numAlwaysSrc == 1;
  }

  // ---------------------------------------------------------------------
  // continue_autoplug_chain

  /** gst_structure_get_string: the field's value when it is a string. */
  function StringField(s: Structure, name: string): Option<string>
  {
    if name in s.fields && s.fields[name].StringValue? then Some(s.fields[name].s) else None
  }

  /** gst_structure_get_boolean into a variable holding `default`. */
  function BoolFieldOr(s: Structure, name: string, default: bool): bool
  {
    if name in s.fields && s.fields[name].BoolValue? then s.fields[name].b else default
  }

  /**
   * continue_autoplug_chain, on the first structure of the pad's caps:
   * a "cenc" (encrypted) stream is always autoplugged further; a clear one
   * stops only when it is on the "svp" secure area and is not marked
   * unparsed ("parsed" defaults to true).
   */
  function ContinueAutoplugChain(s: Structure): (r: bool)
    ensures ContainsSubstring(s.name, "cenc") ==> r
    ensures !r <==>
      !ContainsSubstring(s.name, "cenc") &&
      "secure_area" in s.fields && s.fields["secure_area"] == StringValue("svp") &&
      !("parsed" in s.fields && s.fields["parsed"] == BoolValue(false))
  {
    if ContainsSubstring(s.name, "cenc") then true
    else
      var secureArea := StringField(s, "secure_area");
      var isParsed := BoolFieldOr(s, "parsed", true);
      if secureArea == Some("svp") && isParsed then false else true
  }

  // ---------------------------------------------------------------------
  // gst_parse_chain_get_compositor

  predicate HasCompositorFor(c: ParseChain, t: StreamType)
    reads c
  {
    c.stype == t && c.compositor != null
  }

  /** The compositor of the first child chain of type `t` that has one, or null. */
  method GetCompositor(group: ParseGroup, t: StreamType) returns (r: Element?)
    ensures r == null <==> forall i :: 0 <= i < |group.children| ==> !HasCompositorFor(group.children[i], t)
    ensures r != null ==> exists i :: (0 <= i < |group.children| && HasCompositorFor(group.children[i], t) &&
      r == group.children[i].compositor &&
      forall j :: 0 <= j < i ==> !HasCompositorFor(group.children[j], t))
  {
    var children := group.children;
    for i := 0 to |children|
      invariant forall j :: 0 <= j < i ==> !HasCompositorFor(children[j], t)
    {
      var chain := children[i];
      if t != chain.stype {
        continue;
      }
      if chain.compositor != null {
        return chain.compositor;
      }
    }
    return null;
  }

  // ---------------------------------------------------------------------
  // priv_parse_chain_new / priv_parse_chain_free

  /** Both reset the chain's TV fields to their initial values. */
  method ResetChainTvFields(chain: ParseChain)
    modifies chain`stype, chain`compositor, chain`mainInput, chain`needCompositor, chain`fallbackElement
    ensures chain.stype == TYPE_UNKNOWN && chain.compositor == null && chain.fallbackElement == null
    ensures !chain.mainInput && !chain.needCompositor
  {
    chain.stype := TYPE_UNKNOWN;
    chain.compositor := null;
    chain.mainInput := false;
    chain.needCompositor := false;
    chain.fallbackElement := null;
  }

  // ---------------------------------------------------------------------
  // gst_parse_chain_clear_drained / gst_parse_group_clear_drained

  /**
   * `chains` and `groups` alternate from `chains[0]` upwards to the root:
   * each chain's parent is the group at its index, each group's parent is the
   * next chain, and the topmost element has no parent.
   */
  ghost predicate ChainUpward(chains: seq<ParseChain>, groups: seq<ParseGroup>)
    reads chains, groups
  {
    |chains| > 0 && (|groups| == |chains| || |groups| == |chains| - 1) &&
    (forall i :: 0 <= i < |chains| ==> chains[i].parent == (if i < |groups| then groups[i] else null)) &&
    (forall i :: 0 <= i < |groups| ==> groups[i].parent == (if i + 1 < |chains| then chains[i + 1] else null))
  }

  /** The same, from `groups[0]` upwards. */
  ghost predicate GroupUpward(groups: seq<ParseGroup>, chains: seq<ParseChain>)
    reads chains, groups
  {
    |groups| > 0 && (|chains| == |groups| || |chains| == |groups| - 1) &&
    (forall i :: 0 <= i < |groups| ==> groups[i].parent == (if i < |chains| then chains[i] else null)) &&
    (forall i :: 0 <= i < |chains| ==> chains[i].parent == (if i + 1 < |groups| then groups[i + 1] else null))
  }

  /** The line upwards from a chain is determined by the chain: it is its line of ancestors. */
  lemma {:induction false} ChainUpwardUnique(c1: seq<ParseChain>, g1: seq<ParseGroup>, c2: seq<ParseChain>, g2: seq<ParseGroup>)
    requires ChainUpward(c1, g1) && ChainUpward(c2, g2) && c1[0] == c2[0]
    ensures c1 == c2 && g1 == g2
    decreases |c1|
  {
    if |g1| == 0 {
      assert c1[0].parent == null;
    } else {
      assert |g2| > 0 && g1[0] == g2[0];
      if |c1| == 1 {
        assert g1[0].parent == null;
      } else {
        assert |c2| > 1 && c1[1] == c2[1];
        ChainUpwardUnique(c1[1..], g1[1..], c2[1..], g2[1..]);
        assert c1 == [c1[0]] + c1[1..] && c2 == [c2[0]] + c2[1..];
        assert g1 == [g1[0]] + g1[1..] && g2 == [g2[0]] + g2[1..];
      }
    }
  }

  /** gst_parse_chain_clear_drained: clears `drained` on the chain and all its ancestors. */
  method ClearDrainedChain(chains: seq<ParseChain>, groups: seq<ParseGroup>) returns (r: bool)
    requires ChainUpward(chains, groups)
    modifies chains`drained, groups`drained
    ensures r
    ensures forall i :: 0 <= i < |chains| ==> !chains[i].drained
    ensures forall i :: 0 <= i < |groups| ==> !groups[i].drained
    decreases |chains| + |groups|
  {
    var chain := chains[0];
    chain.drained := false;
    if chain.parent != null {
      r := ClearDrainedGroup(groups, chains[1..]);
    } else {
      r := true;
    }
  }

  /** gst_parse_group_clear_drained: clears `drained` on the group and all its ancestors. */
  method ClearDrainedGroup(groups: seq<ParseGroup>, chains: seq<ParseChain>) returns (r: bool)
    requires GroupUpward(groups, chains)
    modifies chains`drained, groups`drained
    ensures r
    ensures forall i :: 0 <= i < |chains| ==> !chains[i].drained
    ensures forall i :: 0 <= i < |groups| ==> !groups[i].drained
    decreases |chains| + |groups|
  {
    var group := groups[0];
    group.drained := false;
    if group.parent != null {
      r := ClearDrainedChain(chains, groups[1..]);
    } else {
      r := true;
    }
  }

  // ---------------------------------------------------------------------
  // The composite stream

  /**
   * priv_have_composite_stream: false only while the bin has a compositor
   * but has not yet seen the composite stream.
   */
  function HaveCompositeStream(pb: ParseBin): (r: bool)
    reads pb`haveCompositor, pb`haveCompositeStream
    ensures r <==> (pb.haveCompositor ==> pb.haveCompositeStream)
  {
    if pb.haveCompositor && !pb.haveCompositeStream then false else true
  }

  /** The composite flag after a stream id was seen. */
  function CompositeAfter(haveCompositor: bool, haveComposite: bool, streamId: string): (r: bool)
    ensures r <==> haveComposite || (haveCompositor && ContainsSubstring(streamId, "composite"))
  {
    if haveCompositor && ContainsSubstring(streamId, "composite") && !haveComposite then true
    else haveComposite
  }

  /** priv_update_compsite_stream: the flag only ever goes from false to true. */
  method UpdateCompositeStream(pb: ParseBin, streamId: string)
    modifies pb`haveCompositeStream
    ensures pb.haveCompositeStream == CompositeAfter(pb.haveCompositor, old(pb.haveCompositeStream), streamId)
  {
    if pb.haveCompositor && ContainsSubstring(streamId, "composite") && !pb.haveCompositeStream {
      pb.haveCompositeStream := true;
    }
  }

  /** Seeing a composite stream id opens the gate for good; no other id changes it. */
  lemma CompositeGate(haveCompositor: bool, haveComposite: bool, streamId: string)
    ensures ContainsSubstring(streamId, "composite") ==>
      (haveCompositor ==> CompositeAfter(haveCompositor, haveComposite, streamId))
    ensures !ContainsSubstring(streamId, "composite") ==>
      CompositeAfter(haveCompositor, haveComposite, streamId) == haveComposite
    ensures CompositeAfter(haveCompositor, CompositeAfter(haveCompositor, haveComposite, streamId), streamId) ==
      CompositeAfter(haveCompositor, haveComposite, streamId)
  {
  }

  // ---------------------------------------------------------------------
  // priv_parse_pad_update_tags

  /** The tags never copied onto a GstStream. */
  const BLACKLISTED_TAGS: set<string> := {TAG_BITRATE, TAG_MINIMUM_BITRATE, TAG_MAXIMUM_BITRATE}

  function WithoutBlacklisted(tags: TagList): (r: TagList)
    ensures r.scope == tags.scope
    ensures forall k :: k in r.values <==> k in tags.values && k !in BLACKLISTED_TAGS
    ensures forall k :: k in r.values ==> r.values[k] == tags.values[k]
  {
    tags.(values := tags.values - BLACKLISTED_TAGS)
  }

  /**
   * gst_tag_list_merge with GST_TAG_MERGE_REPLACE: the incoming tags win;
   * tags only in the old list `prev` stay; a missing old list is an empty
   * stream-scope list.
   */
  function MergeReplace(prev: Option<TagList>, incoming: TagList): (r: TagList)
    ensures r.scope == (if prev.Some? then prev.value.scope else ScopeStream)
    ensures forall k :: k in incoming.values ==> k in r.values && r.values[k] == incoming.values[k]
    ensures forall k :: k in r.values && k !in incoming.values ==>
      prev.Some? && k in prev.value.values && r.values[k] == prev.value.values[k]
    ensures prev.Some? ==> forall k :: k in prev.value.values ==> k in r.values
  {
    var base := if prev.Some? then prev.value else TagList(ScopeStream, map[]);
    base.(values := base.values + incoming.values)
  }

  /** The stream's new tags, when the update applies. */
  function UpdatedStreamTags(stream: Stream, tags: TagList): TagList
  {
    MergeReplace(stream.tags, WithoutBlacklisted(tags))
  }

  /**
   * priv_parse_pad_update_tags: stream-scope tags, when the pad has an
   * active stream, are merged into that stream's tags, minus the bitrates.
   */
  method UpdateTags(pad: ParsePad, tags: Option<TagList>)
    modifies pad`activeStream
    ensures if tags.Some? && tags.value.scope == ScopeStream && old(pad.activeStream).Some? then
        pad.activeStream == Some(old(pad.activeStream).value.(tags := Some(UpdatedStreamTags(old(pad.activeStream).value, tags.value))))
      else pad.activeStream == old(pad.activeStream)
  {
    if tags.Some? && tags.value.scope == ScopeStream && pad.activeStream.Some? {
      var stream := pad.activeStream.value;
      var copy := WithoutBlacklisted(tags.value);
      var newTags := MergeReplace(stream.tags, copy);
      pad.activeStream := Some(stream.(tags := Some(newTags)));
    }
  }

  /**
   * The update never changes the stream's bitrate tags, takes every other
   * incoming tag, and keeps every old tag the incoming list does not name.
   */
  lemma UpdatedTagsMeaning(stream: Stream, tags: TagList, k: string)
    ensures var r := UpdatedStreamTags(stream, tags);
      k in BLACKLISTED_TAGS ==>
        (k in r.values <==> stream.tags.Some? && k in stream.tags.value.values) &&
        (k in r.values ==> r.values[k] == stream.tags.value.values[k])
    ensures var r := UpdatedStreamTags(stream, tags);
      k !in BLACKLISTED_TAGS && k in tags.values ==> k in r.values && r.values[k] == tags.values[k]
    ensures var r := UpdatedStreamTags(stream, tags);
      stream.tags.Some? && k in stream.tags.value.values && k !in tags.values ==>
        k in r.values && r.values[k] == stream.tags.value.values[k]
  {
  }
}
