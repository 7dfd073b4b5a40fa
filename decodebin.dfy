// decodebin3's selection state (gstdecodebin3.c): the multiqueue slots, the
// output streams, the three stream-id lists (requested, active, to
// activate) and the operations that move ids and outputs between them.
// Every region the source runs under SELECTION_LOCK is one method here.

module Decodebin {
  import opened Streams
  import opened Selection
  import opened TvStreams

  /** GST_GROUP_ID_INVALID */
  const GROUP_ID_INVALID: uint32 := 0

  /** The value of a GstSegment the model keeps: its format, and whether its rate is 1.0. */
  datatype Format = FormatUndefined | FormatDefault | FormatBytes | FormatTime | FormatBuffers | FormatPercent | FormatOther(code: int)

  datatype Segment = Segment(format: Format, rateIsOne: bool)

  /** An idle pad probe installed now and run later on the slot's source pad. */
  datatype Deferred = UnassignSlot(unassign: Slot) | ReconfigureSlot(reconfigure: Slot)

  /** The STREAMS_SELECTED message: its seqnum, its collection and the streams it lists. */
  datatype SelectedMessage = StreamsSelected(seqnum: uint32, collection: Option<seq<Stream>>, streams: seq<Stream>)

  /** DecodebinInputStream: one stream coming out of a parsebin. */
  class InputStream {
    var activeStream: Option<Stream>
    var sawEos: bool

    constructor (stream: Option<Stream>)
      ensures activeStream == stream && !sawEos
    {
      activeStream := stream;
      sawEos := false;
    }
  }

  /** DecodebinInput: a sink of decodebin3 with its parsebin. */
  class Input {
    var collection: Option<seq<Stream>>
    var groupId: uint32
    /** What pending_pads_are_eos answers for this input (its pending pads are not modelled). */
    var pendingPadsEos: bool

    constructor ()
      ensures collection.None? && groupId == GROUP_ID_INVALID && pendingPadsEos
    {
      collection := None;
      groupId := GROUP_ID_INVALID;
      pendingPadsEos := true;
    }
  }

  /** MultiQueueSlot: one lane of the multiqueue. */
  class Slot {
    const id: uint32
    const stype: StreamType
    var input: InputStream?
    var parentInput: Input?
    var pendingStream: Option<Stream>
    var activeStream: Option<Stream>
    var oldStream: Option<Stream>
    var output: OutputStream?
    var isDrained: bool

    constructor (id: uint32, stype: StreamType)
      ensures this.id == id && this.stype == stype
      ensures input == null && parentInput == null && output == null
      ensures pendingStream.None? && activeStream.None? && oldStream.None? && !isDrained
    {
      this.id := id;
      this.stype := stype;
      input := null;
      parentInput := null;
      pendingStream := None;
      activeStream := None;
      oldStream := None;
      output := null;
      isDrained := false;
    }
  }

  /** DecodebinOutputStream: a decoder and the source pad decodebin3 exposes for it. */
  class OutputStream {
    const stype: StreamType
    const padName: string
    var slot: Slot?
    /** Whether a decoder element is plugged (the element itself is not modelled). */
    var hasDecoder: bool
    var linked: bool
    var srcExposed: bool
    var lastPushedTs: ClockTime
    var segment: Segment

    constructor (stype: StreamType, padName: string)
      ensures this.stype == stype && this.padName == padName
      ensures slot == null && !hasDecoder && !linked && !srcExposed
      ensures lastPushedTs == CLOCK_TIME_NONE && segment.format == FormatUndefined
    {
      this.stype := stype;
      this.padName := padName;
      slot := null;
      hasDecoder := false;
      linked := false;
      srcExposed := false;
      lastPushedTs := CLOCK_TIME_NONE;
      segment := Segment(FormatUndefined, true);
    }
  }

  /** A parsebin source pad; exposed pads are compared by identity or by stream id. */
  class Pad {
    const streamId: Option<string>

    constructor (streamId: Option<string>)
      ensures this.streamId == streamId
    {
      this.streamId := streamId;
    }
  }

  // ---------------------------------------------------------------------
  // Lookups that do not need the element

  /** stream_in_list: the matching id of the list, or NULL. */
  function StreamInList(list: seq<string>, sid: string): (r: Option<string>)
    ensures r.Some? <==> sid in list
    ensures r.Some? ==> r.value == sid
  {
    if list == [] then None
    else if list[0] == sid then Some(list[0])
    else
      assert list == [list[0]] + list[1..];
      StreamInList(list[1..], sid)
  }

  /** The collections of a list of inputs, in list order. */
  function InputCollections(inputs: seq<Input>): (r: seq<Option<seq<Stream>>>)
    reads inputs
    ensures |r| == |inputs|
    ensures forall i :: 0 <= i < |inputs| ==> r[i] == inputs[i].collection
  {
    if inputs == [] then [] else InputCollections(inputs[..|inputs| - 1]) + [inputs[|inputs| - 1].collection]
  }

  function CountPresent(cs: seq<Option<seq<Stream>>>): (n: nat)
    ensures n <= |cs|
    ensures n == 0 <==> forall i :: 0 <= i < |cs| ==> cs[i].None?
  {
    if cs == [] then 0 else CountPresent(cs[..|cs| - 1]) + (if cs[|cs| - 1].Some? then 1 else 0)
  }

  /** The present collections one after the other. */
  function ConcatPresent(cs: seq<Option<seq<Stream>>>): (r: seq<Stream>)
    ensures forall i, x :: 0 <= i < |cs| && cs[i].Some? && x in cs[i].value ==> x in r
    ensures forall x :: x in r ==> exists i :: 0 <= i < |cs| && cs[i].Some? && x in cs[i].value
  {
    if cs == [] then []
    else
      var pre := cs[..|cs| - 1];
      var last := cs[|cs| - 1];
      var r := ConcatPresent(pre) + (if last.Some? then last.value else []);
      assert forall i :: 0 <= i < |pre| ==> pre[i] == cs[i];
      r
  }

  /** The first present collection, if any. */
  function FirstPresent(cs: seq<Option<seq<Stream>>>): (r: Option<seq<Stream>>)
    ensures r.None? <==> CountPresent(cs) == 0
    ensures r.Some? ==> exists i :: 0 <= i < |cs| && cs[i] == r && forall j :: 0 <= j < i ==> cs[j].None?
  {
    if cs == [] then None
    else if cs[0].Some? then Some(cs[0].value)
    else
      CountPresentHeadNone(cs);
      var r := FirstPresent(cs[1..]);
      if r.Some? then
        var i :| 0 <= i < |cs[1..]| && cs[1..][i] == r && forall j :: 0 <= j < i ==> cs[1..][j].None?;
        assert cs[i + 1] == r;
        r
      else r
  }

  lemma {:induction false} CountPresentHeadNone(cs: seq<Option<seq<Stream>>>)
    requires cs != [] && cs[0].None?
    ensures CountPresent(cs) == CountPresent(cs[1..])
    decreases |cs|
  {
    if |cs| > 1 {
      var pre := cs[..|cs| - 1];
      assert pre[1..] == cs[1..][..|cs[1..]| - 1];
      CountPresentHeadNone(pre);
    }
  }

  /**
   * get_merged_collection: with at most one input holding a collection,
   * that collection itself; otherwise all present collections joined,
   * main input first, then the other inputs in list order.
   */
  function MergedCollection(main: Option<seq<Stream>>, others: seq<Option<seq<Stream>>>): Option<seq<Stream>>
  {
    var all := [main] + others;
    if CountPresent(all) <= 1 then FirstPresent(all) else Some(ConcatPresent(all))
  }

  lemma MergedCollectionContents(main: Option<seq<Stream>>, others: seq<Option<seq<Stream>>>)
    ensures CountPresent([main] + others) == 0 ==> MergedCollection(main, others).None?
    ensures CountPresent([main] + others) >= 1 ==> MergedCollection(main, others).Some?
    ensures forall i, x :: 0 <= i < |others| && others[i].Some? && x in others[i].value ==>
      x in MergedCollection(main, others).value
    ensures main.Some? ==> forall x :: x in main.value ==> x in MergedCollection(main, others).value
  {
    var all := [main] + others;
    var r := MergedCollection(main, others);
    assert all[0] == main;
    assert forall i :: 0 <= i < |others| ==> all[i + 1] == others[i];
    if CountPresent(all) == 1 {
      OnlyPresentIsFirst(all);
      forall i, x | 0 <= i < |others| && others[i].Some? && x in others[i].value ensures x in r.value {
        assert all[i + 1] == FirstPresent(all);
      }
    }
  }

  /** With exactly one present collection, every present entry is the first present one. */
  lemma {:induction false} OnlyPresentIsFirst(cs: seq<Option<seq<Stream>>>)
    requires CountPresent(cs) == 1
    ensures forall i :: 0 <= i < |cs| && cs[i].Some? ==> cs[i] == FirstPresent(cs)
  {
    forall i | 0 <= i < |cs| && cs[i].Some? ensures cs[i] == FirstPresent(cs) {
      var f := FirstPresent(cs);
      var k :| 0 <= k < |cs| && cs[k] == f && forall j :: 0 <= j < k ==> cs[j].None?;
      if i != k {
        TwoPresent(cs, k, i);
        assert false;
      }
    }
  }

  lemma {:induction false} TwoPresent(cs: seq<Option<seq<Stream>>>, i: nat, j: nat)
    requires i < |cs| && j < |cs| && i != j && cs[i].Some? && cs[j].Some?
    ensures CountPresent(cs) >= 2
    decreases |cs|
  {
    var n := |cs| - 1;
    var pre := cs[..n];
    if i == n || j == n {
      var other := if i == n then j else i;
      assert pre[other] == cs[other];
      assert CountPresent(pre) != 0;
    } else {
      assert pre[i] == cs[i] && pre[j] == cs[j];
      TwoPresent(pre, i, j);
    }
  }

  lemma {:induction false} CountPresentPrefix(cs: seq<Option<seq<Stream>>>, n: nat)
    requires n <= |cs|
    ensures CountPresent(cs[..n]) <= CountPresent(cs)
    decreases |cs|
  {
    if n < |cs| {
      var pre := cs[..|cs| - 1];
      assert pre[..n] == cs[..n];
      CountPresentPrefix(pre, n);
    } else {
      assert cs[..n] == cs;
    }
  }

  // ---------------------------------------------------------------------
  // Slots and outputs, read through the heap

  /** The slot's current, pending (when different) or old stream carries `sid`. */
  predicate SlotHasStreamId(s: Slot, sid: string)
    reads s`activeStream, s`pendingStream, s`oldStream
  {
    (s.activeStream.Some? && s.activeStream.value.id == sid) ||
    (s.pendingStream.Some? && s.pendingStream != s.activeStream && s.pendingStream.value.id == sid) ||
    (s.oldStream.Some? && s.oldStream.value.id == sid)
  }

  /** The position of the first slot that carries `sid`, or |slots|. */
  function SlotIndexForStreamId(slots: seq<Slot>, sid: string): (k: nat)
    reads slots`activeStream, slots`pendingStream, slots`oldStream
    ensures k <= |slots|
    ensures k < |slots| ==> SlotHasStreamId(slots[k], sid)
    ensures forall j :: 0 <= j < k ==> !SlotHasStreamId(slots[j], sid)
  {
    if slots == [] then 0
    else if SlotHasStreamId(slots[0], sid) then 0
    else
      var k := SlotIndexForStreamId(slots[1..], sid);
      assert forall j :: 1 <= j < |slots| ==> slots[j] == slots[1..][j - 1];
      k + 1
  }

  /** find_slot_for_stream_id: the first slot that carries `sid`, or NULL. */
  function FindSlotForStreamId(slots: seq<Slot>, sid: string): (r: Slot?)
    reads slots`activeStream, slots`pendingStream, slots`oldStream
    ensures r == null <==> forall i :: 0 <= i < |slots| ==> !SlotHasStreamId(slots[i], sid)
    ensures r != null ==> r in slots && SlotHasStreamId(r, sid)
  {
    var k := SlotIndexForStreamId(slots, sid);
    if k < |slots| then slots[k] else null
  }

  predicate SlotSawEos(s: Slot)
    reads s, s.input
  {
    s.input == null || s.input.sawEos
  }

  /** The drain condition of check_all_slot_for_eos for one slot. */
  predicate SlotDrained(s: Slot)
    reads s, s.input
  {
    s.output != null ==> s.isDrained && SlotSawEos(s)
  }

  /** The active streams of the slots bound to the outputs, in output order. */
  function SelectedStreams(outputs: seq<OutputStream>): (r: seq<Stream>)
    reads outputs, set o | o in outputs :: o.slot
    ensures |r| <= |outputs|
    ensures forall x :: x in r <==> exists i :: 0 <= i < |outputs| && OutputCarries(outputs[i], x)
  {
    if outputs == [] then []
    else
      var pre := outputs[..|outputs| - 1];
      var o := outputs[|outputs| - 1];
      var r := SelectedStreams(pre) + (if o.slot != null && o.slot.activeStream.Some? then [o.slot.activeStream.value] else []);
      assert forall i :: 0 <= i < |pre| ==> pre[i] == outputs[i];
      r
  }

  /** The output is bound to a slot whose active stream is `x`. */
  predicate OutputCarries(o: OutputStream, x: Stream)
    reads o, o.slot
  {
    o.slot != null && o.slot.activeStream == Some(x)
  }

  /** The pad name prefix create_output_stream picks for a type. */
  function PadPrefix(t: StreamType): (p: string)
    ensures p in {"video", "audio", "text", "src"}
  {
    if t.video then "video" else if t.audio then "audio" else if t.text then "text" else "src"
  }

  /** %u */
  function DecimalString(n: nat): (s: string)
    ensures |s| >= 1
    ensures forall i :: 0 <= i < |s| ==> '0' <= s[i] <= '9'
    ensures n >= 10 ==> |s| >= 2
  {
    if n < 10 then [DigitChar(n)] else DecimalString(n / 10) + [DigitChar(n % 10)]
  }

  function DigitChar(d: nat): (c: char)
    requires d < 10
    ensures '0' <= c <= '9'
  {
    ['0', '1', '2', '3', '4', '5', '6', '7', '8', '9'][d]
  }

  lemma DigitCharInjective(a: nat, b: nat)
    requires a < 10 && b < 10 && DigitChar(a) == DigitChar(b)
    ensures a == b
  {
  }

  lemma {:induction false} DecimalStringInjective(a: nat, b: nat)
    requires DecimalString(a) == DecimalString(b)
    ensures a == b
    decreases a
  {
    var sa, sb := DecimalString(a), DecimalString(b);
    if a < 10 && b < 10 {
      DigitCharInjective(a, b);
    } else if a >= 10 && b >= 10 {
      assert sa[|sa| - 1] == DigitChar(a % 10) && sb[|sb| - 1] == DigitChar(b % 10);
      DigitCharInjective(a % 10, b % 10);
      assert sa[..|sa| - 1] == DecimalString(a / 10);
      assert sb[..|sb| - 1] == DecimalString(b / 10);
      DecimalStringInjective(a / 10, b / 10);
    }
  }

  /** g_strdup_printf ("%s_%u", prefix, counter) */
  function PadName(t: StreamType, counter: uint32): string
  {
    PadPrefix(t) + "_" + DecimalString(counter)
  }

  /** Two outputs get the same pad name only for the same prefix and the same counter value. */
  lemma PadNamesDistinct(t1: StreamType, c1: uint32, t2: StreamType, c2: uint32)
    requires PadPrefix(t1) != PadPrefix(t2) || c1 != c2
    ensures PadName(t1, c1) != PadName(t2, c2)
  {
    var p1, p2 := PadPrefix(t1), PadPrefix(t2);
    var n1, n2 := PadName(t1, c1), PadName(t2, c2);
    if p1 != p2 {
      // the four prefixes start with different letters
      assert n1[0] == p1[0] && n2[0] == p2[0];
    } else if n1 == n2 {
      assert n1[|p1| + 1..] == DecimalString(c1);
      assert n2[|p2| + 1..] == DecimalString(c2);
      DecimalStringInjective(c1, c2);
    }
  }

  // ---------------------------------------------------------------------
  // Free slots for get_slot_for_input

  /** An unbound slot of the input's type. */
  predicate FreeFor(s: Slot, t: StreamType)
    reads s
  {
    s.input == null && s.stype == t
  }

  /** The slot's active stream has the input's stream id. */
  predicate SameActiveId(s: Slot, sid: Option<string>)
    reads s
  {
    sid.Some? && s.activeStream.Some? && s.activeStream.value.id == sid.value
  }

  /** The last free slot whose active id is the input's, or -1. */
  function LastIdMatch(slots: seq<Slot>, t: StreamType, sid: Option<string>): (k: int)
    reads slots
    ensures -1 <= k < |slots|
    ensures k >= 0 ==> FreeFor(slots[k], t) && SameActiveId(slots[k], sid)
    ensures forall j :: k < j < |slots| ==> !(FreeFor(slots[j], t) && SameActiveId(slots[j], sid))
  {
    if slots == [] then -1
    else
      var n := |slots| - 1;
      if FreeFor(slots[n], t) && SameActiveId(slots[n], sid) then n
      else
        var k := LastIdMatch(slots[..n], t, sid);
        assert forall j :: 0 <= j < n ==> slots[..n][j] == slots[j];
        k
  }

  /** The first free slot, or |slots|. */
  function FirstFree(slots: seq<Slot>, t: StreamType): (k: nat)
    reads slots
    ensures k <= |slots|
    ensures k < |slots| ==> FreeFor(slots[k], t)
    ensures forall j :: 0 <= j < k ==> !FreeFor(slots[j], t)
  {
    if slots == [] then 0
    else if FreeFor(slots[0], t) then 0
    else
      var k := FirstFree(slots[1..], t);
      assert forall j :: 1 <= j < |slots| ==> slots[j] == slots[1..][j - 1];
      k + 1
  }

  /**
   * The slot get_slot_for_input reuses: the free slot of the same stream id
   * (the last one in the list when there are several), otherwise the first
   * free slot of the type; |slots| when there is none.
   */
  function PreferredFreeSlot(slots: seq<Slot>, t: StreamType, sid: Option<string>): (k: nat)
    reads slots
    ensures k <= |slots|
    ensures k < |slots| <==> exists j :: 0 <= j < |slots| && FreeFor(slots[j], t)
  {
    var m := LastIdMatch(slots, t, sid);
    if m >= 0 then m else FirstFree(slots, t)
  }

  /** The first slot already bound to `input`, or |slots|. */
  function FirstBoundTo(slots: seq<Slot>, input: InputStream): (k: nat)
    reads slots
    ensures k <= |slots|
    ensures k < |slots| ==> slots[k].input == input
    ensures forall j :: 0 <= j < k ==> slots[j].input != input
  {
    if slots == [] then 0
    else if slots[0].input == input then 0
    else
      var k := FirstBoundTo(slots[1..], input);
      assert forall j :: 1 <= j < |slots| ==> slots[j] == slots[1..][j - 1];
      k + 1
  }

  /** The stream type and id get_slot_for_input reads from an input stream. */
  function InputType(s: Option<Stream>): StreamType
  {
    if s.Some? then s.value.stype else NO_TYPE
  }

  function InputId(s: Option<Stream>): Option<string>
  {
    if s.Some? then Some(s.value.id) else None
  }

  /**
   * The first loop of get_merged_collection: the first present collection,
   * stopping with `needsMerge` at the second one.
   */
  method SingleCollection(all: seq<Option<seq<Stream>>>) returns (needsMerge: bool, res: Option<seq<Stream>>)
    requires all != []
    ensures needsMerge <==> CountPresent(all) >= 2
    ensures !needsMerge ==> res == FirstPresent(all)
  {
    res := all[0];
    needsMerge := false;
    assert all[..1][..0] == [];
    var i := 1;
    while i < |all|
      invariant 1 <= i <= |all|
      invariant CountPresent(all[..i]) <= 1
      invariant res == FirstPresent(all[..i])
      decreases |all| - i
    {
      if all[i].Some? {
        if res.Some? {
          SecondPresent(all, i);
          needsMerge := true;
          return;
        }
        SinglePresentStep(all, i);
        res := all[i];
      } else {
        SinglePresentStep(all, i);
      }
      i := i + 1;
    }
    assert all[..|all|] == all;
  }

  /** One more collection, while at most one was present and not both are. */
  lemma SinglePresentStep(all: seq<Option<seq<Stream>>>, i: nat)
    requires i < |all| && CountPresent(all[..i]) <= 1
    requires !(all[i].Some? && FirstPresent(all[..i]).Some?)
    ensures CountPresent(all[..i + 1]) <= 1
    ensures FirstPresent(all[..i + 1]) == if all[i].Some? then all[i] else FirstPresent(all[..i])
  {
    assert all[..i + 1][..i] == all[..i];
    FirstPresentSnoc(all[..i + 1]);
  }

  /** A second present collection: there are at least two. */
  lemma SecondPresent(all: seq<Option<seq<Stream>>>, i: nat)
    requires i < |all| && all[i].Some? && FirstPresent(all[..i]).Some?
    ensures CountPresent(all) >= 2
  {
    assert all[..i + 1][..i] == all[..i];
    assert CountPresent(all[..i + 1]) == CountPresent(all[..i]) + 1;
    CountPresentPrefix(all, i + 1);
  }

  /** Appending one more collection keeps the first present one. */
  lemma {:induction false} FirstPresentSnoc(cs: seq<Option<seq<Stream>>>)
    requires cs != []
    ensures FirstPresent(cs[..|cs| - 1]).Some? ==> FirstPresent(cs) == FirstPresent(cs[..|cs| - 1])
    ensures FirstPresent(cs[..|cs| - 1]).None? ==> FirstPresent(cs) == cs[|cs| - 1]
    decreases |cs|
  {
    var n := |cs| - 1;
    if n == 0 {
      assert cs[..n] == [];
    } else if cs[0].None? {
      assert cs[..n][1..] == cs[1..][..n - 1];
      FirstPresentSnoc(cs[1..]);
    }
  }

  /** The second part of get_merged_collection: every present collection's streams, in order. */
  method JoinCollections(all: seq<Option<seq<Stream>>>) returns (merged: seq<Stream>)
    ensures merged == ConcatPresent(all)
  {
    merged := [];
    for j := 0 to |all|
      invariant merged == ConcatPresent(all[..j])
    {
      assert all[..j + 1][..j] == all[..j];
      if all[j].Some? {
        merged := merged + all[j].value;
      }
    }
    assert all[..|all|] == all;
  }

  // ---------------------------------------------------------------------
  // Outputs

  /**
   * An output find_free_compatible_output may take: same type as the
   * stream, bound to a slot whose active stream is no longer requested.
   */
  predicate FreeCompatible(o: OutputStream, t: StreamType, requested: seq<string>)
    reads o, o.slot
  {
    o.stype == t && o.slot != null && o.slot.activeStream.Some? && o.slot.activeStream.value.id !in requested
  }

  /** The position of the first free compatible output, or |outputs|. */
  function FirstFreeCompatible(outputs: seq<OutputStream>, t: StreamType, requested: seq<string>): (k: nat)
    reads outputs, set o | o in outputs :: o.slot
    ensures k <= |outputs|
    ensures k < |outputs| ==> FreeCompatible(outputs[k], t, requested)
    ensures forall j :: 0 <= j < k ==> !FreeCompatible(outputs[j], t, requested)
  {
    if outputs == [] then 0
    else if FreeCompatible(outputs[0], t, requested) then 0
    else
      var k := FirstFreeCompatible(outputs[1..], t, requested);
      assert forall j :: 1 <= j < |outputs| ==> outputs[j] == outputs[1..][j - 1];
      k + 1
  }

  /** The type of stream `sid` in a collection, when the collection holds it. */
  predicate HasTypeIn(coll: Option<seq<Stream>>, sid: string, t: StreamType)
  {
    coll.Some? && FindStream(coll.value, sid).Some? && FindStream(coll.value, sid).value.stype == t
  }

  /**
   * The DVR clean-up of get_output_for_slot: the to-activate ids whose
   * stream in the active collection has type `t` are dropped.
   */
  function DropIdsOfType(ids: seq<string>, coll: Option<seq<Stream>>, t: StreamType): (r: seq<string>)
    ensures forall x :: x in r <==> x in ids && !HasTypeIn(coll, x, t)
    ensures IsSubsequence(r, ids)
  {
    if ids == [] then []
    else
      var pre := DropIdsOfType(ids[..|ids| - 1], coll, t);
      var last := ids[|ids| - 1];
      assert ids == ids[..|ids| - 1] + [last];
      if HasTypeIn(coll, last, t) then
        SubsequenceExtend(pre, ids[..|ids| - 1], last);
        pre
      else
        SubsequenceSnoc(pre, ids[..|ids| - 1], last);
        pre + [last]
  }

  datatype DropScan = ReadsFreed(at: nat) | Kept(kept: seq<string>)

  /**
   * The DVR clean-up loop as written: g_list_remove frees the very link the
   * loop stands on, and the loop's step then reads that link's `next`. The
   * scan ends at the first id of type `t`, whose freed link is read.
   */
  function DropScanAsWritten(ids: seq<string>, coll: Option<seq<Stream>>, t: StreamType): (r: DropScan)
    ensures r.ReadsFreed? ==> r.at < |ids| && HasTypeIn(coll, ids[r.at], t)
  {
    if ids == [] then Kept([])
    else if HasTypeIn(coll, ids[0], t) then ReadsFreed(0)
    else
      match DropScanAsWritten(ids[1..], coll, t)
      case ReadsFreed(i) => ReadsFreed(i + 1)
      case Kept(rest) => Kept([ids[0]] + rest)
  }

  /**
   * The loop as written reads a freed link exactly when some waiting id has
   * the type, at the first such id; otherwise it leaves the list as it is.
   */
  lemma {:induction false} DropScanReadsFreedExactly(ids: seq<string>, coll: Option<seq<Stream>>, t: StreamType)
    ensures DropScanAsWritten(ids, coll, t) ==
      (if FirstOfType(ids, coll, t) < |ids| then ReadsFreed(FirstOfType(ids, coll, t)) else Kept(ids))
  {
    if ids != [] && !HasTypeIn(coll, ids[0], t) {
      DropScanReadsFreedExactly(ids[1..], coll, t);
      assert [ids[0]] + ids[1..] == ids;
    }
  }

  /** When no waiting id has the type, the loop as written and the filter agree. */
  lemma {:induction false} DropIdsOfTypeNoneOfType(ids: seq<string>, coll: Option<seq<Stream>>, t: StreamType)
    requires forall j :: 0 <= j < |ids| ==> !HasTypeIn(coll, ids[j], t)
    ensures DropIdsOfType(ids, coll, t) == ids
    ensures DropScanAsWritten(ids, coll, t) == Kept(ids)
  {
    DropIdsOfTypeKeepsAll(ids, coll, t);
    DropScanReadsFreedExactly(ids, coll, t);
  }

  lemma {:induction false} DropIdsOfTypeKeepsAll(ids: seq<string>, coll: Option<seq<Stream>>, t: StreamType)
    requires forall j :: 0 <= j < |ids| ==> !HasTypeIn(coll, ids[j], t)
    ensures DropIdsOfType(ids, coll, t) == ids
  {
    if ids != [] {
      var pre := ids[..|ids| - 1];
      var last := ids[|ids| - 1];
      assert forall j :: 0 <= j < |pre| ==> pre[j] == ids[j];
      DropIdsOfTypeKeepsAll(pre, coll, t);
      assert !HasTypeIn(coll, last, t);
      assert DropIdsOfType(ids, coll, t) == DropIdsOfType(pre, coll, t) + [last];
      assert ids == pre + [last];
    }
  }

  /** One waiting video id and a new video stream: the loop as written reads the link it just freed. */
  lemma DropScanUseAfterFree()
    ensures var coll := Some([Stream("v1", TYPE_VIDEO, StreamFlags(false, false, false), None, None)]);
      DropScanAsWritten(["v1"], coll, TYPE_VIDEO) == ReadsFreed(0) &&
      DropIdsOfType(["v1"], coll, TYPE_VIDEO) == []
  {
    var coll := Some([Stream("v1", TYPE_VIDEO, StreamFlags(false, false, false), None, None)]);
    assert FindStream(coll.value, "v1") == Some(coll.value[0]);
    assert HasTypeIn(coll, "v1", TYPE_VIDEO);
    assert ["v1"][..0] == [];
  }

  // ---------------------------------------------------------------------
  // reassign_slot: the DVR swap and the search for a target slot

  /** The position of the first id whose stream in `coll` has type `t`, or |ids|. */
  function FirstOfType(ids: seq<string>, coll: Option<seq<Stream>>, t: StreamType): (k: nat)
    ensures k <= |ids|
    ensures k < |ids| ==> HasTypeIn(coll, ids[k], t)
    ensures forall j :: 0 <= j < k ==> !HasTypeIn(coll, ids[j], t)
  {
    if ids == [] then 0
    else if HasTypeIn(coll, ids[0], t) then 0
    else
      var k := FirstOfType(ids[1..], coll, t);
      assert forall j :: 1 <= j < |ids| ==> ids[j] == ids[1..][j - 1];
      k + 1
  }

  /**
   * The DVR step of reassign_slot: when a requested id and a to-activate
   * id both name a stream of the deactivated type in the active
   * collection, and they differ, the requested one replaces the other at
   * the end of the to-activate list.
   */
  function DvrSwap(toActivate: seq<string>, requested: seq<string>, coll: Option<seq<Stream>>, t: StreamType): (r: seq<string>)
  {
    var i := FirstOfType(requested, coll, t);
    var j := FirstOfType(toActivate, coll, t);
    if i < |requested| && j < |toActivate| && requested[i] != toActivate[j] then
      RemoveFirst(toActivate, toActivate[j]) + [requested[i]]
    else toActivate
  }

  /**
   * The swap keeps the list's length; when it happens, the to-activate id
   * of the type gives way to the requested one, which goes last.
   */
  lemma DvrSwapReplaces(toActivate: seq<string>, requested: seq<string>, coll: Option<seq<Stream>>, t: StreamType)
    ensures var r := DvrSwap(toActivate, requested, coll, t);
      var i := FirstOfType(requested, coll, t);
      var j := FirstOfType(toActivate, coll, t);
      |r| == |toActivate| &&
      if i < |requested| && j < |toActivate| && requested[i] != toActivate[j] then
        multiset(r) == multiset(toActivate) - multiset{toActivate[j]} + multiset{requested[i]} &&
        r[|r| - 1] == requested[i] && HasTypeIn(coll, r[|r| - 1], t)
      else r == toActivate
  {
    var i := FirstOfType(requested, coll, t);
    var j := FirstOfType(toActivate, coll, t);
    if i < |requested| && j < |toActivate| && requested[i] != toActivate[j] {
      RemoveFirstMultiset(toActivate, toActivate[j]);
    }
  }

  /**
   * What the target search learns about one to-activate id: no slot
   * carries it, or a slot does and does or does not fit (same type as
   * the output, no output of its own). `freed` counts as having no
   * output: reassign_slot has just unbound it.
   */
  datatype Lookup = NoSlot | SlotFound(fits: bool)

  function LookupFor(slots: seq<Slot>, sid: string, t: StreamType, freed: Slot?): Lookup
    reads slots`activeStream, slots`pendingStream, slots`oldStream, slots`output
  {
    var ts := FindSlotForStreamId(slots, sid);
    if ts == null then NoSlot else SlotFound(ts.stype == t && (ts.output == null || ts == freed))
  }

  function Outcomes(ids: seq<string>, slots: seq<Slot>, t: StreamType, freed: Slot?): (r: seq<Lookup>)
    reads slots`activeStream, slots`pendingStream, slots`oldStream, slots`output
    ensures |r| == |ids|
    ensures forall i :: 0 <= i < |ids| ==> r[i] == LookupFor(slots, ids[i], t, freed)
  {
    if ids == [] then [] else [LookupFor(slots, ids[0], t, freed)] + Outcomes(ids[1..], slots, t, freed)
  }

  /** The first id whose slot fits, if any. */
  function TargetIndex(outs: seq<Lookup>): (r: Option<nat>)
    ensures r.Some? ==> r.value < |outs| && outs[r.value] == SlotFound(true)
    ensures forall j :: 0 <= j < |outs| && (r.None? || j < r.value) ==> outs[j] != SlotFound(true)
  {
    if outs == [] then None
    else if outs[0] == SlotFound(true) then Some(0)
    else
      var r := TargetIndex(outs[1..]);
      assert forall j :: 1 <= j < |outs| ==> outs[j] == outs[1..][j - 1];
      if r.Some? then Some(r.value + 1) else None
  }

  /** TargetIndex is the only index that is first to fit. */
  lemma TargetIndexUnique(outs: seq<Lookup>, k: Option<nat>)
    requires k.Some? ==> k.value < |outs| && outs[k.value] == SlotFound(true)
    requires forall j :: 0 <= j < |outs| && (k.None? || j < k.value) ==> outs[j] != SlotFound(true)
    ensures TargetIndex(outs) == k
  {
  }

  datatype Scan = Crashed | Target(index: nat) | NoTarget

  /**
   * The target search as written: the log statement that opens each
   * iteration dereferences the slot found for the id before the code
   * checks it for NULL, so with that log level enabled an id no slot
   * carries ends the program.
   */
  function TargetScanAsWritten(outs: seq<Lookup>, logEnabled: bool): (r: Scan)
    ensures r.Target? ==> r.index < |outs| && outs[r.index] == SlotFound(true)
  {
    if outs == [] then NoTarget
    else if logEnabled && outs[0] == NoSlot then Crashed
    else if outs[0] == SlotFound(true) then Target(0)
    else
      match TargetScanAsWritten(outs[1..], logEnabled)
      case Target(i) => Target(i + 1)
      case other => other
  }

  /** The crash: an id without a slot ahead of an id whose slot fits. */
  lemma TargetScanCrashes()
    ensures TargetScanAsWritten([NoSlot, SlotFound(true)], true) == Crashed
    ensures TargetIndex([NoSlot, SlotFound(true)]) == Some(1)
  {
    assert [NoSlot, SlotFound(true)][1..] == [SlotFound(true)];
  }

  /** Without that log level the code as written finds the corrected target. */
  lemma {:induction false} TargetScanAgreesWithoutLog(outs: seq<Lookup>)
    ensures TargetScanAsWritten(outs, false) == (if TargetIndex(outs).Some? then Target(TargetIndex(outs).value) else NoTarget)
  {
    if outs != [] && outs[0] != SlotFound(true) {
      TargetScanAgreesWithoutLog(outs[1..]);
    }
  }

  predicate Linked(slots: seq<Slot>, outputs: seq<OutputStream>)
    reads slots`output, outputs`slot
  {
    Distinct(slots) && Distinct(outputs) &&
    (forall s :: s in slots && s.output != null ==> s.output in outputs && s.output.slot == s) &&
    (forall o :: o in outputs && o.slot != null ==> o.slot in slots && o.slot.output == o && o.slot.stype == o.stype)
  }

  // ---------------------------------------------------------------------
  // The element

  class Decodebin3 {
    // selection state (SELECTION_LOCK)
    var requested: seq<string>
    var active: seq<string>
    var toActivate: seq<string>
    var selectionUpdated: bool
    var selectStreamsSeqnum: uint32
    var pendingSelectStreams: seq<string>
    var collection: Option<seq<Stream>>
    var slots: seq<Slot>
    var outputs: seq<OutputStream>
    var slotId: uint32
    // TV state
    var activeCollection: Option<seq<Stream>>
    var collectionPosted: bool
    var dvrPlayback: bool
    var requestResource: bool
    var exposedPads: seq<Pad>
    // pad counters of create_output_stream
    var vpadcount: uint32
    var apadcount: uint32
    var tpadcount: uint32
    var opadcount: uint32
    // inputs (INPUT_LOCK)
    var mainInput: Input
    var otherInputs: seq<Input>
    var currentGroupId: uint32
    /** Idle probes installed and not yet run, oldest first. */
    var deferred: seq<Deferred>

    /** gst_decodebin3_init with priv_decodebin3_init. */
    constructor ()
      ensures requested == [] && active == [] && toActivate == [] && !selectionUpdated
      ensures pendingSelectStreams == [] && collection.None? && slots == [] && outputs == []
      ensures slotId == 0 && activeCollection.None? && !collectionPosted && !dvrPlayback && !requestResource
      ensures exposedPads == [] && vpadcount == 0 && apadcount == 0 && tpadcount == 0 && opadcount == 0
      ensures fresh(mainInput) && otherInputs == [] && currentGroupId == GROUP_ID_INVALID && deferred == []
      ensures Valid()
    {
      requested := [];
      active := [];
      toActivate := [];
      selectionUpdated := false;
      selectStreamsSeqnum := 0;
      pendingSelectStreams := [];
      collection := None;
      slots := [];
      outputs := [];
      slotId := 0;
      activeCollection := None;
      collectionPosted := false;
      dvrPlayback := false;
      requestResource := false;
      exposedPads := [];
      vpadcount := 0;
      apadcount := 0;
      tpadcount := 0;
      opadcount := 0;
      mainInput := new Input();
      otherInputs := [];
      currentGroupId := GROUP_ID_INVALID;
      deferred := [];
    }

    /** The element's slots and outputs are linked consistently. */
    predicate Valid()
      reads this`slots, this`outputs, slots`output, outputs`slot
    {
      Linked(slots, outputs)
    }

    // -------------------------------------------------------------------
    // Default selection

    /**
     * update_requested_selection: unless a SELECT_STREAMS is pending or
     * there is no collection, replace the requested selection by the
     * default selection (when that is not empty) and mark it updated.
     */
    method UpdateRequestedSelection(hook: SelectHook)
      modifies this`requested, this`selectionUpdated
      ensures pendingSelectStreams != [] || collection.None? ==>
        requested == old(requested) && selectionUpdated == old(selectionUpdated)
      ensures pendingSelectStreams == [] && collection.Some? ==>
        var sel := DefaultSelection(collection.value, hook, old(requested) + old(active));
        if sel == [] then requested == old(requested) && selectionUpdated == old(selectionUpdated)
        else requested == sel && selectionUpdated
    {
      if pendingSelectStreams != [] || collection.None? {
        return;
      }
      var tmp := ComputeSelection(collection.value, hook, requested + active);
      if tmp != [] {
        requested := tmp;
        selectionUpdated := true;
      }
    }

    /** get_merged_collection */
    method GetMergedCollection() returns (r: Option<seq<Stream>>)
      ensures r == MergedCollection(mainInput.collection, InputCollections(otherInputs))
    {
      var all := [mainInput.collection] + InputCollections(otherInputs);
      var needsMerge, res := SingleCollection(all);
      if !needsMerge {
        return res;
      }
      var merged := JoinCollections(all);
      return Some(merged);
    }

    // -------------------------------------------------------------------
    // Inputs and slots

    /**
     * set_input_group_id: the input takes the group id. When it differs
     * from the element's current group the caller must replace it by the
     * current group (which it becomes itself while no group is current).
     */
    method SetInputGroupId(input: Input, groupId: uint32) returns (replace: bool, newGroupId: uint32)
      modifies input`groupId, this`currentGroupId
      ensures input.groupId == groupId
      ensures replace <==> groupId != old(currentGroupId)
      ensures currentGroupId == (if replace && old(currentGroupId) == GROUP_ID_INVALID then groupId else old(currentGroupId))
      ensures newGroupId == (if replace then currentGroupId else groupId)
    {
      if input.groupId != groupId {
        input.groupId := groupId;
      }
      if groupId != currentGroupId {
        if currentGroupId == GROUP_ID_INVALID {
          currentGroupId := groupId;
        }
        return true, currentGroupId;
      }
      return false, groupId;
    }

    /**
     * create_new_slot: the slot counter always advances; the slot exists
     * only if the multiqueue gave a sink pad with an internal source pad
     * (`padAvailable`), and is then appended to the slot list.
     */
    method CreateNewSlot(stype: StreamType, padAvailable: bool) returns (slot: Slot?)
      requires Valid()
      modifies this`slotId, this`slots
      ensures Valid()
      ensures slotId == Inc32(old(slotId))
      ensures !padAvailable ==> slot == null && slots == old(slots)
      ensures padAvailable ==> slot != null && fresh(slot) && slots == old(slots) + [slot]
      ensures padAvailable ==>
        slot.id == old(slotId) && slot.stype == stype && slot.input == null &&
        slot.output == null && slot.activeStream.None? && slot.pendingStream.None?
    {
      var id := slotId;
      slotId := Inc32(slotId);
      if !padAvailable {
        return null;
      }
      slot := new Slot(id, stype);
      slots := slots + [slot];
    }

    /**
     * get_slot_for_input: the slot already bound to the input; otherwise an
     * unbound slot of the input's type, preferring the one whose active
     * stream has the input's id; otherwise a new slot, unless the input has
     * no stream type.
     */
    method GetSlotForInput(input: InputStream, padAvailable: bool) returns (slot: Slot?)
      requires Valid()
      modifies this`slotId, this`slots, slots`input
      ensures Valid()
      ensures var b := old(FirstBoundTo(slots, input));
        b < |old(slots)| ==>
          slot == old(slots)[b] && slots == old(slots) && slotId == old(slotId) &&
          forall s :: s in slots ==> s.input == old(s.input)
      ensures var b := old(FirstBoundTo(slots, input));
        var t := InputType(old(input.activeStream));
        var k := old(PreferredFreeSlot(slots, t, InputId(input.activeStream)));
        b == |old(slots)| && k < |old(slots)| ==>
          slot == old(slots)[k] && slot.input == input && slots == old(slots) && slotId == old(slotId) &&
          forall s :: s in slots && s != slot ==> s.input == old(s.input)
      ensures var b := old(FirstBoundTo(slots, input));
        var t := InputType(old(input.activeStream));
        var k := old(PreferredFreeSlot(slots, t, InputId(input.activeStream)));
        b == |old(slots)| && k == |old(slots)| ==>
          (forall s :: s in old(slots) ==> s.input == old(s.input)) &&
          if t == NO_TYPE then
            slot == null && slots == old(slots) && slotId == old(slotId)
          else
            slotId == Inc32(old(slotId)) &&
            (!padAvailable ==> slot == null && slots == old(slots)) &&
            (padAvailable ==>
               slot != null && fresh(slot) && slots == old(slots) + [slot] &&
               slot.stype == t && slot.id == old(slotId) && slot.input == null)
    {
      var t := NO_TYPE;
      var sid: Option<string> := None;
      if input.activeStream.Some? {
        t := input.activeStream.value.stype;
        sid := Some(input.activeStream.value.id);
      }
      var i := 0;
      while i < |slots|
        invariant 0 <= i <= |slots|
        invariant forall j :: 0 <= j < i ==> slots[j].input != input
        decreases |slots| - i
      {
        if slots[i].input == input {
          return slots[i];
        }
        i := i + 1;
      }
      assert FirstBoundTo(slots, input) == |slots|;
      var empty := FindFreeSlot(t, sid);
      if empty != null {
        empty.input := input;
        return empty;
      }
      if t != NO_TYPE {
        slot := CreateNewSlot(t, padAvailable);
        return;
      }
      return null;
    }

    /**
     * The search of get_slot_for_input for an unbound slot of type `t`,
     * from the last slot to the first: the slot whose active stream is
     * `sid` if one is free, else the first free one, else null.
     */
    method FindFreeSlot(t: StreamType, sid: Option<string>) returns (empty: Slot?)
      ensures var k := PreferredFreeSlot(slots, t, sid);
        (empty == null <==> k == |slots|) && (k < |slots| ==> empty == slots[k])
    {
      ghost var idx := |slots|;
      empty := null;
      var k := |slots|;
      while k > 0
        invariant 0 <= k <= |slots|
        invariant k <= idx <= |slots|
        invariant idx < |slots| ==> FreeFor(slots[idx], t) && empty == slots[idx]
        invariant idx == |slots| ==> empty == null
        invariant forall j :: k <= j < idx ==> !FreeFor(slots[j], t)
        invariant forall j :: k <= j < |slots| ==> !(FreeFor(slots[j], t) && SameActiveId(slots[j], sid))
        decreases k
      {
        var s := slots[k - 1];
        if s.input == null && t == s.stype {
          empty := s;
          idx := k - 1;
          if sid.Some? && s.activeStream.Some? && sid.value == s.activeStream.value.id {
            k := k - 1;
            break;
          }
        }
        k := k - 1;
      }
      assert idx < |slots| ==> idx == PreferredFreeSlot(slots, t, sid);
    }

    /**
     * link_input_to_slot: refused when the slot is bound to another input;
     * otherwise the slot takes the input, its parent and, as the stream
     * to come, the input's active stream.
     */
    method LinkInputToSlot(parent: Input, input: InputStream, slot: Slot) returns (linked: bool)
      requires Valid() && slot in slots
      modifies slot`pendingStream, slot`input, slot`parentInput
      ensures Valid()
      ensures linked <==> old(slot.input) == null || old(slot.input) == input
      ensures !linked ==>
        slot.input == old(slot.input) && slot.pendingStream == old(slot.pendingStream) &&
        slot.parentInput == old(slot.parentInput)
      ensures linked ==> slot.input == input && slot.parentInput == parent && slot.pendingStream == input.activeStream
    {
      if slot.input != null && slot.input != input {
        return false;
      }
      slot.pendingStream := input.activeStream;
      slot.input := input;
      slot.parentInput := parent;
      return true;
    }

    // -------------------------------------------------------------------
    // Outputs

    /** find_free_compatible_output */
    method FindFreeCompatibleOutput(stream: Stream) returns (o: OutputStream?)
      ensures var k := FirstFreeCompatible(outputs, stream.stype, requested);
        o == if k < |outputs| then outputs[k] else null
    {
      var i := 0;
      while i < |outputs|
        invariant 0 <= i <= |outputs|
        invariant forall j :: 0 <= j < i ==> !FreeCompatible(outputs[j], stream.stype, requested)
        decreases |outputs| - i
      {
        var out := outputs[i];
        if out.stype == stream.stype && out.slot != null && out.slot.activeStream.Some? {
          if StreamInList(requested, out.slot.activeStream.value.id).None? {
            return out;
          }
        }
        i := i + 1;
      }
      return null;
    }

    /** The pad counter create_output_stream uses for a type. */
    function PadCounter(t: StreamType): uint32
      reads this
    {
      if t.video then vpadcount else if t.audio then apadcount else if t.text then tpadcount else opadcount
    }

    /**
     * create_output_stream: a new unbound output named after its type and
     * that type's counter, which advances; appended to the output list.
     */
    method CreateOutputStream(stype: StreamType) returns (o: OutputStream)
      requires Valid()
      modifies this`outputs, this`vpadcount, this`apadcount, this`tpadcount, this`opadcount
      ensures Valid()
      ensures fresh(o) && outputs == old(outputs) + [o]
      ensures o.stype == stype && o.slot == null && !o.hasDecoder && !o.srcExposed
      ensures o.lastPushedTs == CLOCK_TIME_NONE && o.segment.format == FormatUndefined
      ensures o.padName == PadName(stype, old(PadCounter(stype)))
      ensures PadCounter(stype) == Inc32(old(PadCounter(stype)))
      ensures forall t :: PadPrefix(t) != PadPrefix(stype) ==> PadCounter(t) == old(PadCounter(t))
    {
      var name := NextPadName(stype);
      o := new OutputStream(stype, name);
      outputs := outputs + [o];
      assert Linked(slots, outputs) by {
        assert forall s :: s in slots && s.output != null ==> s.output in old(outputs);
        assert forall x :: x in outputs && x.slot != null ==> x in old(outputs);
      }
    }

    /** The source pad name of create_output_stream; the type's counter advances. */
    method NextPadName(stype: StreamType) returns (name: string)
      modifies this`vpadcount, this`apadcount, this`tpadcount, this`opadcount
      ensures name == PadName(stype, old(PadCounter(stype)))
      ensures PadCounter(stype) == Inc32(old(PadCounter(stype)))
      ensures forall t :: PadPrefix(t) != PadPrefix(stype) ==> PadCounter(t) == old(PadCounter(t))
    {
      if stype.video {
        name := PadName(stype, vpadcount);
        vpadcount := Inc32(vpadcount);
      } else if stype.audio {
        name := PadName(stype, apadcount);
        apadcount := Inc32(apadcount);
      } else if stype.text {
        name := PadName(stype, tpadcount);
        tpadcount := Inc32(tpadcount);
      } else {
        name := PadName(stype, opadcount);
        opadcount := Inc32(opadcount);
      }
    }

    /**
     * free_output_stream, as far as the selection state goes: the output
     * and its slot let go of each other and the decoder and exposed pad
     * are gone. The caller removes the output from the list.
     */
    method FreeOutputStream(output: OutputStream)
      requires Valid() && (output in outputs || output.slot == null)
      requires output !in outputs ==> forall s :: s in slots ==> s.output != output
      modifies output`slot, output`hasDecoder, output`linked, output`srcExposed, slots`output
      ensures Valid()
      ensures output.slot == null && !output.hasDecoder && !output.srcExposed && !output.linked
      ensures forall s :: s in slots ==> s.output == if s == old(output.slot) then null else old(s.output)
    {
      if output.slot != null {
        output.slot.output := null;
        output.slot := null;
      }
      output.hasDecoder := false;
      output.linked := false;
      output.srcExposed := false;
    }

    /**
     * get_output_for_slot: the slot's own output if it has one; nothing when
     * its stream is not requested; when a free compatible output exists,
     * the stream is queued for activation, leaves the requested list and
     * the output's slot is unassigned later (no output now); otherwise a
     * new output of the slot's type, bound to it, and the stream becomes
     * active.
     */
    method GetOutputForSlot(slot: Slot) returns (o: OutputStream?)
      requires Valid() && slot in slots
      modifies this`toActivate, this`requested, this`deferred, this`active, this`outputs
      modifies this`vpadcount, this`apadcount, this`tpadcount, this`opadcount, slot`output
      ensures Valid()
      ensures old(slot.output) != null ==>
        o == old(slot.output) && requested == old(requested) && active == old(active) &&
        toActivate == old(toActivate) && deferred == old(deferred) && outputs == old(outputs)
      ensures old(slot.output) == null && (slot.activeStream.None? || slot.activeStream.value.id !in old(requested)) ==>
        o == null && requested == old(requested) && active == old(active) &&
        toActivate == old(toActivate) && deferred == old(deferred) && outputs == old(outputs) && slot.output == null
      ensures old(slot.output) == null && slot.activeStream.Some? && slot.activeStream.value.id in old(requested) ==>
        var sid := slot.activeStream.value.id;
        var k := old(FirstFreeCompatible(outputs, slot.activeStream.value.stype, requested));
        if k < |old(outputs)| then
          var steal := old(outputs[k]);
          o == null && outputs == old(outputs) && active == old(active) && slot.output == null &&
          if dvrPlayback && sid in old(toActivate) then
            requested == old(requested) && toActivate == old(toActivate) && deferred == old(deferred)
          else
            requested == RemoveFirst(old(requested), sid) &&
            toActivate == (if dvrPlayback then DropIdsOfType(old(toActivate), activeCollection, slot.activeStream.value.stype)
                           else old(toActivate)) + [sid] &&
            deferred == old(deferred) + [UnassignSlot(steal.slot)]
        else
          o != null && fresh(o) && outputs == old(outputs) + [o] && o.slot == slot && slot.output == o &&
          o.stype == slot.stype && o.padName == PadName(slot.stype, old(PadCounter(slot.stype))) &&
          active == old(active) + [sid] && requested == old(requested) &&
          toActivate == old(toActivate) && deferred == old(deferred)
    {
      if slot.output != null {
        return slot.output;
      }
      if slot.activeStream.None? || StreamInList(requested, slot.activeStream.value.id).None? {
        return null;
      }
      o := AssignOutput(slot);
    }

    /**
     * get_output_for_slot for a slot without output whose stream is
     * requested: steal a free compatible output or create one.
     */
    method AssignOutput(slot: Slot) returns (o: OutputStream?)
      requires Valid() && slot in slots && slot.output == null && slot.activeStream.Some?
      modifies this`toActivate, this`requested, this`deferred, this`active, this`outputs
      modifies this`vpadcount, this`apadcount, this`tpadcount, this`opadcount, slot`output
      ensures Valid()
      ensures
        var sid := slot.activeStream.value.id;
        var k := old(FirstFreeCompatible(outputs, slot.activeStream.value.stype, requested));
        if k < |old(outputs)| then
          var steal := old(outputs[k]);
          o == null && outputs == old(outputs) && active == old(active) && slot.output == null &&
          if dvrPlayback && sid in old(toActivate) then
            requested == old(requested) && toActivate == old(toActivate) && deferred == old(deferred)
          else
            requested == RemoveFirst(old(requested), sid) &&
            toActivate == (if dvrPlayback then DropIdsOfType(old(toActivate), activeCollection, slot.activeStream.value.stype)
                           else old(toActivate)) + [sid] &&
            deferred == old(deferred) + [UnassignSlot(steal.slot)]
        else
          o != null && fresh(o) && outputs == old(outputs) + [o] && o.slot == slot && slot.output == o &&
          o.stype == slot.stype && o.padName == PadName(slot.stype, old(PadCounter(slot.stype))) &&
          active == old(active) + [sid] && requested == old(requested) &&
          toActivate == old(toActivate) && deferred == old(deferred)
    {
      var stream := slot.activeStream.value;
      var sid := stream.id;
      var steal := FindFreeCompatibleOutput(stream);
      if steal != null {
        if dvrPlayback && StreamInList(toActivate, sid).Some? {
          return null;
        }
        QueueSteal(sid, stream.stype, steal.slot);
        return null;
      }
      o := AttachNewOutput(slot, sid);
    }

    /**
     * The stealing branch of get_output_for_slot: `sid` waits in the
     * to-activate list (which under DVR playback first loses the ids of
     * the same type) instead of the requested list, and the slot holding
     * the stolen output is to be unassigned.
     */
    method QueueSteal(sid: string, stype: StreamType, from: Slot)
      modifies this`toActivate, this`requested, this`deferred
      ensures requested == RemoveFirst(old(requested), sid)
      ensures toActivate == (if dvrPlayback then DropIdsOfType(old(toActivate), activeCollection, stype)
                             else old(toActivate)) + [sid]
      ensures deferred == old(deferred) + [UnassignSlot(from)]
    {
      if dvrPlayback {
        toActivate := DropIdsOfType(toActivate, activeCollection, stype);
      }
      toActivate := toActivate + [sid];
      requested := RemoveFirst(requested, sid);
      deferred := deferred + [UnassignSlot(from)];
    }

    /** The creating branch of get_output_for_slot. */
    method AttachNewOutput(slot: Slot, sid: string) returns (o: OutputStream)
      requires Valid() && slot in slots && slot.output == null
      modifies this`outputs, this`vpadcount, this`apadcount, this`tpadcount, this`opadcount, slot`output, this`active
      ensures Valid()
      ensures fresh(o) && outputs == old(outputs) + [o] && o.slot == slot && slot.output == o
      ensures o.stype == slot.stype && o.padName == PadName(slot.stype, old(PadCounter(slot.stype)))
      ensures active == old(active) + [sid]
    {
      o := CreateOutputStream(slot.stype);
      o.slot := slot;
      slot.output := o;
      active := active + [sid];
    }

    // -------------------------------------------------------------------
    // Completion

    /**
     * A selection was made and has fully taken effect: nothing waits for
     * activation and every requested id is active.
     */
    predicate SelectionComplete()
      reads this
    {
      selectionUpdated && toActivate == [] && forall x :: x in requested ==> x in active
    }

    /**
     * is_selection_done: once the latest selection is complete, the
     * STREAMS_SELECTED message for it (the streams of the slots the outputs
     * are bound to), and the selection no longer counts as updated.
     */
    method IsSelectionDone() returns (msg: Option<SelectedMessage>)
      modifies this`selectionUpdated
      ensures msg.Some? <==> old(SelectionComplete())
      ensures msg.Some? ==>
        msg.value == StreamsSelected(selectStreamsSeqnum, collection, SelectedStreams(outputs)) && !selectionUpdated
      ensures msg.None? ==> selectionUpdated == old(selectionUpdated)
    {
      if !selectionUpdated {
        return None;
      }
      if toActivate != [] {
        return None;
      }
      for i := 0 to |requested|
        invariant forall j :: 0 <= j < i ==> requested[j] in active
      {
        if StreamInList(active, requested[i]).None? {
          return None;
        }
      }
      var streams: seq<Stream> := [];
      for i := 0 to |outputs|
        invariant streams == SelectedStreams(outputs[..i])
      {
        assert outputs[..i + 1][..i] == outputs[..i];
        var out := outputs[i];
        if out.slot != null && out.slot.activeStream.Some? {
          streams := streams + [out.slot.activeStream.value];
        }
      }
      assert outputs[..|outputs|] == outputs;
      selectionUpdated := false;
      return Some(StreamsSelected(selectStreamsSeqnum, collection, streams));
    }

    /**
     * check_all_slot_for_eos' decision: every slot with an output is drained
     * and has seen EOS on its input, and no input has a pending pad that is
     * not at EOS.
     */
    predicate AllDrained()
      reads this, slots, set s | s in slots :: s.input, mainInput, otherInputs
    {
      (forall s :: s in slots ==> SlotDrained(s)) &&
      mainInput.pendingPadsEos && forall i :: i in otherInputs ==> i.pendingPadsEos
    }

    method CheckAllSlotForEos() returns (allDrained: bool)
      ensures allDrained <==> AllDrained()
    {
      for i := 0 to |slots|
        invariant forall j :: 0 <= j < i ==> SlotDrained(slots[j])
      {
        var s := slots[i];
        if s.output != null {
          if !s.isDrained {
            assert s in slots && !SlotDrained(s);
            return false;
          }
          var eos := s.input == null || s.input.sawEos;
          if !eos {
            assert s in slots && !SlotDrained(s);
            return false;
          }
        }
      }
      if !mainInput.pendingPadsEos {
        return false;
      }
      for i := 0 to |otherInputs|
        invariant forall j :: 0 <= j < i ==> otherInputs[j].pendingPadsEos
      {
        if !otherInputs[i].pendingPadsEos {
          return false;
        }
      }
      return true;
    }

    // -------------------------------------------------------------------
    // Reassignment

    /** The two search loops of reassign_slot's DVR step. */
    method FindIdOfType(ids: seq<string>, t: StreamType) returns (k: nat)
      ensures k == FirstOfType(ids, activeCollection, t)
    {
      k := 0;
      while k < |ids|
        invariant k <= |ids|
        invariant forall j :: 0 <= j < k ==> !HasTypeIn(activeCollection, ids[j], t)
        decreases |ids| - k
      {
        if activeCollection.Some? {
          var stream := FindStream(activeCollection.value, ids[k]);
          if stream.Some? && stream.value.stype == t {
            return;
          }
        }
        k := k + 1;
      }
    }

    /**
     * The to-activate list after the DVR step of reassign_slot, `t` being
     * the deactivated stream's type; unchanged outside DVR playback.
     */
    method DvrSwapped(t: StreamType) returns (ta: seq<string>)
      ensures ta == if dvrPlayback then DvrSwap(toActivate, requested, activeCollection, t) else toActivate
    {
      ta := toActivate;
      if !dvrPlayback {
        return;
      }
      var i := FindIdOfType(requested, t);
      if i < |requested| {
        var j := FindIdOfType(toActivate, t);
        if j < |toActivate| && requested[i] != toActivate[j] {
          ta := RemoveFirst(toActivate, toActivate[j]) + [requested[i]];
        }
      }
    }

    /**
     * The search of reassign_slot for a to-activate stream whose slot can
     * take the output. It runs once `freed` has let go of its output;
     * here `freed` simply counts as having none.
     */
    method FindReassignTarget(ids: seq<string>, t: StreamType, freed: Slot, ghost outs: seq<Lookup>) returns (k: Option<nat>, ts: Slot?)
      requires |outs| == |ids| && forall j :: 0 <= j < |ids| ==> outs[j] == LookupFor(slots, ids[j], t, freed)
      ensures k == TargetIndex(outs)
      ensures k.Some? ==>
        k.value < |ids| && ts == FindSlotForStreamId(slots, ids[k.value]) &&
        ts != null && ts in slots && ts.stype == t && (ts.output == null || ts == freed)
    {
      var i := 0;
      while i < |ids|
        invariant i <= |ids|
        invariant forall j :: 0 <= j < i ==> outs[j] != SlotFound(true)
        decreases |ids| - i
      {
        ts := FindSlotForStreamId(slots, ids[i]);
        if ts != null && ts.stype == t && (ts.output == null || ts == freed) {
          TargetIndexUnique(outs, Some(i));
          return Some(i), ts;
        }
        i := i + 1;
      }
      TargetIndexUnique(outs, None);
      return None, null;
    }

    /** The to-activate list reassign_slot searches once `slot`'s stream is deactivated. */
    function SearchList(slot: Slot): (r: seq<string>)
      requires slot.activeStream.Some?
      reads this, slot
      ensures !dvrPlayback ==> r == toActivate
    {
      if dvrPlayback then DvrSwap(toActivate, requested, activeCollection, slot.activeStream.value.stype) else toActivate
    }

    /**
     * The position in SearchList(slot) of the stream that takes over
     * `slot`'s output, the slot itself counting as free.
     */
    function ReassignTarget(slot: Slot): (r: Option<nat>)
      requires slot.activeStream.Some? && slot.output != null
      reads this, slot, slots`activeStream, slots`pendingStream, slots`oldStream, slots`output
      ensures r.Some? ==> r.value < |SearchList(slot)|
    {
      TargetIndex(Outcomes(SearchList(slot), slots, slot.output.stype, slot))
    }

    /**
     * reassign_slot: a slot whose active stream is no longer requested
     * gives up its output. The output goes to the first to-activate stream
     * whose slot is of the output's type and has no output, which becomes
     * requested and active; with no such stream the output is removed and
     * the selection may be complete. Under DVR playback a requested stream
     * of the same type first takes the place of a to-activate one.
     */
    method ReassignSlot(slot: Slot) returns (done: bool, msg: Option<SelectedMessage>)
      requires Valid() && slot in slots
      modifies this`active, this`toActivate, this`requested, this`outputs, this`deferred, this`selectionUpdated
      modifies slots`output, outputs`slot, outputs`hasDecoder, outputs`linked, outputs`srcExposed
      ensures Valid()
      ensures done <==>
        old(slot.activeStream).Some? && old(slot.output) != null && old(slot.activeStream).value.id !in old(requested)
      ensures !done ==>
        msg.None? && requested == old(requested) && active == old(active) && toActivate == old(toActivate) &&
        outputs == old(outputs) && deferred == old(deferred) && slot.output == old(slot.output)
      ensures done ==> !old(slot.output).linked
      ensures done && old(ReassignTarget(slot)).Some? ==>
        var ta := old(SearchList(slot));
        var tsid := ta[old(ReassignTarget(slot)).value];
        var ts := old(FindSlotForStreamId(slots, tsid));
        var out := old(slot.output);
        ts != null && out.slot == ts && ts.output == out && (ts != slot ==> slot.output == null) &&
        requested == (if tsid in old(requested) then old(requested) else old(requested) + [tsid]) &&
        toActivate == RemoveFirst(ta, tsid) && active == RemoveFirst(old(active), old(slot.activeStream).value.id) + [tsid] &&
        outputs == old(outputs) && deferred == old(deferred) + [ReconfigureSlot(ts)] && msg.None?
      ensures done && old(ReassignTarget(slot)).None? ==>
        var ta := old(SearchList(slot));
        var out := old(slot.output);
        out.slot == null && slot.output == null && outputs == RemoveFirst<OutputStream>(old(outputs), out) &&
        requested == old(requested) && toActivate == ta && active == RemoveFirst(old(active), old(slot.activeStream).value.id) &&
        deferred == old(deferred) &&
        (msg.Some? <==> old(selectionUpdated) && ta == [] && forall x :: x in requested ==> x in active) &&
        (msg.Some? ==> msg.value == StreamsSelected(selectStreamsSeqnum, collection, SelectedStreams(outputs)))
    {
      var output := slot.output;
      if slot.activeStream.None? || output == null {
        return false, None;
      }
      var stream := slot.activeStream.value;
      var sid := stream.id;
      if StreamInList(requested, sid).Some? {
        return false, None;
      }
      var ta, k, ts := PlanReassign(slot);
      msg := HandOver(slot, output, sid, ta, k, ts);
      return true, msg;
    }

    /**
     * The searches of reassign_slot, which change nothing: the DVR step's
     * to-activate list and the position in it of the target, with its slot.
     */
    method PlanReassign(slot: Slot) returns (ta: seq<string>, k: Option<nat>, ts: Slot?)
      requires slot.activeStream.Some? && slot.output != null
      ensures ta == old(SearchList(slot)) && k == old(ReassignTarget(slot))
      ensures k.Some? ==>
        k.value < |ta| && ts == old(FindSlotForStreamId(slots, ta[k.value])) &&
        ts != null && ts in slots && ts.stype == slot.output.stype && (ts.output == null || ts == slot)
    {
      var output := slot.output;
      ta := DvrSwapped(slot.activeStream.value.stype);
      forall i | 0 <= i < |ta|
        ensures LookupFor(slots, ta[i], output.stype, slot) == old(LookupFor(slots, ta[i], output.stype, slot))
        ensures FindSlotForStreamId(slots, ta[i]) == old(FindSlotForStreamId(slots, ta[i]))
      {
      }
      k, ts := FindReassignTarget(ta, output.stype, slot, old(Outcomes(ta, slots, output.stype, slot)));
    }

    /**
     * The end of reassign_slot: the output moves to `ts`, the slot of
     * `ta[k]`, or, with no target, is removed.
     */
    method HandOver(slot: Slot, output: OutputStream, sid: string, ta: seq<string>, k: Option<nat>, ts: Slot?)
      returns (msg: Option<SelectedMessage>)
      requires Valid() && slot in slots && slot.output == output
      requires k.Some? ==>
        k.value < |ta| && ts != null && ts in slots && ts.stype == output.stype && (ts.output == null || ts == slot)
      modifies this`active, this`toActivate, this`requested, this`outputs, this`deferred, this`selectionUpdated
      modifies slots`output, outputs`slot, outputs`hasDecoder, outputs`linked, outputs`srcExposed
      ensures Valid()
      ensures !output.linked
      ensures k.Some? ==>
        var tsid := ta[k.value];
        output.slot == ts && ts.output == output && (ts != slot ==> slot.output == null) &&
        requested == (if tsid in old(requested) then old(requested) else old(requested) + [tsid]) &&
        toActivate == RemoveFirst(ta, tsid) && active == RemoveFirst(old(active), sid) + [tsid] &&
        outputs == old(outputs) && deferred == old(deferred) + [ReconfigureSlot(ts)] && msg.None?
      ensures k.None? ==>
        output.slot == null && slot.output == null && outputs == RemoveFirst(old(outputs), output) &&
        requested == old(requested) && toActivate == ta && active == RemoveFirst(old(active), sid) &&
        deferred == old(deferred) &&
        (msg.Some? <==> old(selectionUpdated) && ta == [] && forall x :: x in requested ==> x in active) &&
        (msg.Some? ==> msg.value == StreamsSelected(selectStreamsSeqnum, collection, SelectedStreams(outputs)))
    {
      if k.Some? {
        MoveOutput(slot, output, sid, ta, ts, ta[k.value]);
        return None;
      }
      msg := RemoveOutput(slot, output, sid, ta);
    }

    /**
     * reassign_slot with a target: the slot lets go of its output and its
     * stream stops being active, the to-activate list becomes `ta`, and
     * the output moves to `ts`, whose stream `tsid` becomes requested and
     * active.
     */
    method MoveOutput(slot: Slot, output: OutputStream, sid: string, ta: seq<string>, ts: Slot, tsid: string)
      requires Valid() && slot in slots && slot.output == output
      requires ts in slots && ts.stype == output.stype && (ts.output == null || ts == slot)
      modifies slot`output, ts`output, output`slot, output`linked
      modifies this`active, this`toActivate, this`requested, this`deferred
      ensures Valid()
      ensures !output.linked && output.slot == ts && ts.output == output && (ts != slot ==> slot.output == null)
      ensures active == RemoveFirst(old(active), sid) + [tsid]
      ensures requested == (if tsid in old(requested) then old(requested) else old(requested) + [tsid])
      ensures toActivate == RemoveFirst(ta, tsid)
      ensures deferred == old(deferred) + [ReconfigureSlot(ts)]
    {
      Unbind(slot, output);
      MoveSelection(sid, ta, tsid);
      Bind(ts, output);
      deferred := deferred + [ReconfigureSlot(ts)];
    }

    /** The selection lists of reassign_slot with a target: `tsid` takes the place of `sid`. */
    method MoveSelection(sid: string, ta: seq<string>, tsid: string)
      modifies this`active, this`toActivate, this`requested
      ensures active == RemoveFirst(old(active), sid) + [tsid]
      ensures requested == (if tsid in old(requested) then old(requested) else old(requested) + [tsid])
      ensures toActivate == RemoveFirst(ta, tsid)
    {
      active := RemoveFirst(active, sid);
      requested := if StreamInList(requested, tsid).None? then requested + [tsid] else requested;
      toActivate := RemoveFirst(ta, tsid);
      active := active + [tsid];
    }

    /**
     * reassign_slot without a target: the slot lets go of its output, its
     * stream stops being active, the to-activate list becomes `ta`, the
     * output leaves the list and is freed, and the selection may now be
     * complete.
     */
    method RemoveOutput(slot: Slot, output: OutputStream, sid: string, ta: seq<string>)
      returns (msg: Option<SelectedMessage>)
      requires Valid() && slot in slots && slot.output == output
      modifies slots`output, output`slot, output`hasDecoder, output`linked, output`srcExposed
      modifies this`active, this`toActivate, this`outputs, this`selectionUpdated
      ensures Valid()
      ensures !output.linked && output.slot == null && slot.output == null
      ensures active == RemoveFirst(old(active), sid) && toActivate == ta
      ensures outputs == RemoveFirst(old(outputs), output)
      ensures msg.Some? <==> old(selectionUpdated) && ta == [] && forall x :: x in requested ==> x in active
      ensures msg.Some? ==> msg.value == StreamsSelected(selectStreamsSeqnum, collection, SelectedStreams(outputs))
    {
      Unbind(slot, output);
      active := RemoveFirst(active, sid);
      toActivate := ta;
      DropOutput(output);
      ghost var left := outputs;
      ghost var complete := SelectionComplete();
      msg := IsSelectionDone();
      assert msg.Some? <==> complete;
      assert outputs == left;
    }

    /** The slot and its output let go of each other; the output is no longer linked. */
    method Unbind(slot: Slot, output: OutputStream)
      requires Valid() && slot in slots && slot.output == output
      modifies slot`output, output`slot, output`linked
      ensures Valid()
      ensures slot.output == null && output.slot == null && !output.linked
    {
      output.linked := false;
      slot.output := null;
      output.slot := null;
      forall s | s in slots && s.output != null
        ensures s.output in outputs && s.output.slot == s
      {
        assert s != slot && s.output == old(s.output) && s.output != output;
      }
      forall o | o in outputs && o.slot != null
        ensures o.slot in slots && o.slot.output == o && o.slot.stype == o.stype
      {
        assert o != output && o.slot == old(o.slot) && o.slot != slot;
      }
    }

    /** The slot and the output take each other. */
    method Bind(ts: Slot, output: OutputStream)
      requires Valid() && output in outputs && output.slot == null
      requires ts in slots && ts.output == null && ts.stype == output.stype
      modifies ts`output, output`slot
      ensures Valid()
      ensures ts.output == output && output.slot == ts
    {
      ts.output := output;
      output.slot := ts;
      forall s | s in slots && s.output != null
        ensures s.output in outputs && s.output.slot == s
      {
        if s != ts {
          assert s.output == old(s.output) && s.output != output;
        }
      }
      forall o | o in outputs && o.slot != null
        ensures o.slot in slots && o.slot.output == o && o.slot.stype == o.stype
      {
        if o != output {
          assert o.slot == old(o.slot) && o.slot != ts;
        }
      }
    }

    /** The output leaves the list and is freed. */
    method DropOutput(output: OutputStream)
      requires Valid() && output in outputs && output.slot == null
      modifies this`outputs, output`slot, output`hasDecoder, output`linked, output`srcExposed, slots`output
      ensures Valid()
      ensures outputs == RemoveFirst(old(outputs), output) && output.slot == null && !output.linked
    {
      RemoveFirstDistinct(outputs, output);
      outputs := RemoveFirst(outputs, output);
      FreeOutputStream(output);
    }
  }
}
