// The pure helpers of the TV variant of decodebin3 (gstdecodebin3-tv.c):
// the order in which the active collection lists its streams, the stream
// type guessed from caps, the id lookups over collections, the upstream
// change test and the PTS-continuity arithmetic of the multiqueue probe.

module TvStreams {
  import opened Streams

  // ---------------------------------------------------------------------
  // sort_streams

  /**
   * sort_streams: -1 when `sa` goes first, 1 otherwise. It never answers 0,
   * not even for equal streams.
   */
  function SortStreams(sa: Stream, sb: Stream): (r: int)
    ensures r == -1 || r == 1
  {
    var ta := sa.stype;
    var tb := sb.stype;
    if ta != tb then
      if ta.video then -1
      else if ta.audio then (if !tb.video then -1 else 1)
      else if ta.text then (if !tb.video && !tb.audio then -1 else 1)
      else if ta.container then (if tb.unknown then -1 else 1)
      else 1
    else if sa.flags.select && !sb.flags.select then -1
    else if !sa.flags.select && sb.flags.select then 1
    // strcmp (ida, idb) > 0 ? 1 : -1
    else if StrLess(sb.id, sa.id) then 1
    else -1
  }

  /** The documented type order: video, audio, text, container, unknown. */
  function TypeRank(t: StreamType): (n: nat)
    requires IsBasicType(t)
    ensures n <= 4
  {
    if t == TYPE_VIDEO then 0
    else if t == TYPE_AUDIO then 1
    else if t == TYPE_TEXT then 2
    else if t == TYPE_CONTAINER then 3
    else 4
  }

  /** The lexicographic key order (type rank, SELECT flag set first, stream id). */
  predicate KeyLess(a: Stream, b: Stream)
    requires IsBasicType(a.stype) && IsBasicType(b.stype)
  {
    TypeRank(a.stype) < TypeRank(b.stype) ||
    (a.stype == b.stype &&
     ((a.flags.select && !b.flags.select) ||
      (a.flags.select == b.flags.select && StrLess(a.id, b.id))))
  }

  /** Two streams the comparator cannot tell apart. */
  predicate SameKey(a: Stream, b: Stream)
  {
    a.stype == b.stype && a.flags.select == b.flags.select && a.id == b.id
  }

  /** On single-bit types and distinguishable streams, sort_streams is exactly the key order. */
  lemma SortStreamsIsKeyOrder(a: Stream, b: Stream)
    requires IsBasicType(a.stype) && IsBasicType(b.stype) && !SameKey(a, b)
    ensures SortStreams(a, b) == -1 <==> KeyLess(a, b)
  {
    if a.stype == b.stype && a.flags.select == b.flags.select {
      StrLessTotal(a.id, b.id);
    }
  }

  /** Equal keys: both orders answer -1, i.e. "a before b" and "b before a". */
  lemma SortStreamsEqualKeys(a: Stream, b: Stream)
    requires SameKey(a, b)
    ensures SortStreams(a, b) == -1 && SortStreams(b, a) == -1
  {
    StrLessIrreflexive(a.id);
  }

  /** A stream with no type bit goes after every typed stream, and every typed stream after it. */
  lemma SortStreamsNoTypeInconsistent(a: Stream, b: Stream)
    requires a.stype == NO_TYPE && b.stype == TYPE_UNKNOWN
    ensures SortStreams(a, b) == 1 && SortStreams(b, a) == 1
  {
  }

  lemma KeyLessIrreflexive(a: Stream)
    requires IsBasicType(a.stype)
    ensures !KeyLess(a, a)
  {
    StrLessIrreflexive(a.id);
  }

  lemma KeyLessTransitive(a: Stream, b: Stream, c: Stream)
    requires IsBasicType(a.stype) && IsBasicType(b.stype) && IsBasicType(c.stype)
    requires KeyLess(a, b) && KeyLess(b, c)
    ensures KeyLess(a, c)
  {
    if a.stype == b.stype && b.stype == c.stype && a.flags.select == b.flags.select && b.flags.select == c.flags.select {
      StrLessTransitive(a.id, b.id, c.id);
    }
  }

  lemma KeyLessAsymmetric(a: Stream, b: Stream)
    requires IsBasicType(a.stype) && IsBasicType(b.stype)
    requires KeyLess(a, b)
    ensures !KeyLess(b, a)
  {
    if KeyLess(b, a) {
      KeyLessTransitive(a, b, a);
      KeyLessIrreflexive(a);
    }
  }

  // ---------------------------------------------------------------------
  // g_list_sort (unsorted_streams, sort_streams)

  /** Streams of single-bit types with pairwise distinct ids (one collection's worth). */
  predicate Sortable(s: seq<Stream>)
  {
    (forall i :: 0 <= i < |s| ==> IsBasicType(s[i].stype)) &&
    (forall i, j :: 0 <= i < j < |s| ==> s[i].id != s[j].id)
  }

  predicate AllBasic(s: seq<Stream>)
  {
    forall i :: 0 <= i < |s| ==> IsBasicType(s[i].stype)
  }

  /** Every earlier stream is before every later one according to sort_streams. */
  predicate SortedByStreamOrder(s: seq<Stream>)
  {
    forall i, j :: 0 <= i < j < |s| ==> SortStreams(s[i], s[j]) == -1
  }

  predicate KeySorted(s: seq<Stream>)
    requires AllBasic(s)
  {
    forall i, j :: 0 <= i < j < |s| ==> KeyLess(s[i], s[j])
  }

  /** Insert `x` before the first element it sorts before (a stable insertion step). */
  function InsertStream(x: Stream, s: seq<Stream>): (r: seq<Stream>)
    ensures multiset(r) == multiset(s) + multiset{x}
    ensures |r| == |s| + 1
  {
    if s == [] then [x]
    else if SortStreams(x, s[0]) <= 0 then [x] + s
    else
      assert s == [s[0]] + s[1..];
      [s[0]] + InsertStream(x, s[1..])
  }

  /** The list g_list_sort returns: a sorted permutation of its input. */
  function SortStreamList(s: seq<Stream>): (r: seq<Stream>)
    ensures multiset(r) == multiset(s)
  {
    if s == [] then []
    else
      assert s == [s[0]] + s[1..];
      InsertStream(s[0], SortStreamList(s[1..]))
  }

  /** A stream before every element of a key-sorted list extends it. */
  lemma PrependKeySorted(h: Stream, t: seq<Stream>)
    requires IsBasicType(h.stype) && AllBasic(t) && KeySorted(t)
    requires forall y :: y in t ==> KeyLess(h, y)
    ensures AllBasic([h] + t) && KeySorted([h] + t)
  {
    var r := [h] + t;
    forall i | 0 <= i < |r| ensures IsBasicType(r[i].stype) {
      if i > 0 { assert r[i] == t[i - 1]; }
    }
    forall i, j | 0 <= i < j < |r| ensures KeyLess(r[i], r[j]) {
      assert r[j] == t[j - 1];
      if i > 0 { assert r[i] == t[i - 1]; }
    }
  }

  /** A stream before the head of a key-sorted list is before all of it. */
  lemma BeforeHeadBeforeAll(x: Stream, s: seq<Stream>)
    requires IsBasicType(x.stype) && AllBasic(s) && KeySorted(s) && s != [] && KeyLess(x, s[0])
    ensures forall y :: y in s ==> KeyLess(x, y)
  {
    forall y | y in s ensures KeyLess(x, y) {
      var k :| 0 <= k < |s| && s[k] == y;
      if k > 0 { KeyLessTransitive(x, s[0], s[k]); }
    }
  }

  /** The head of a key-sorted list stays before everything once `x`, after it, is inserted into the tail. */
  lemma HeadBeforeInsert(x: Stream, s: seq<Stream>)
    requires IsBasicType(x.stype) && AllBasic(s) && KeySorted(s) && s != [] && KeyLess(s[0], x)
    requires AllBasic(InsertStream(x, s[1..]))
    ensures forall y :: y in InsertStream(x, s[1..]) ==> KeyLess(s[0], y)
  {
    var rest := s[1..];
    var t := InsertStream(x, rest);
    forall y | y in t ensures KeyLess(s[0], y) {
      assert y in multiset(t);
      if y != x {
        assert y in rest;
        var k :| 0 <= k < |rest| && rest[k] == y;
        assert s[k + 1] == y;
      }
    }
  }

  lemma {:induction false} InsertKeySorted(x: Stream, s: seq<Stream>)
    requires IsBasicType(x.stype) && AllBasic(s) && KeySorted(s)
    requires forall y :: y in s ==> y.id != x.id
    ensures AllBasic(InsertStream(x, s)) && KeySorted(InsertStream(x, s))
  {
    if s == [] {
      assert InsertStream(x, s) == [x];
    } else if SortStreams(x, s[0]) <= 0 {
      assert InsertStream(x, s) == [x] + s;
      SortStreamsIsKeyOrder(x, s[0]);
      BeforeHeadBeforeAll(x, s);
      PrependKeySorted(x, s);
    } else {
      var rest := s[1..];
      assert InsertStream(x, s) == [s[0]] + InsertStream(x, rest);
      SortStreamsIsKeyOrder(x, s[0]);
      StrLessTotal(x.id, s[0].id);
      assert forall i :: 0 <= i < |rest| ==> rest[i] == s[i + 1];
      InsertKeySorted(x, rest);
      HeadBeforeInsert(x, s);
      PrependKeySorted(s[0], InsertStream(x, rest));
    }
  }

  /** For one collection's active streams, the sorted list is ordered by sort_streams. */
  lemma {:induction false} SortStreamListSorted(s: seq<Stream>)
    requires Sortable(s)
    ensures SortedByStreamOrder(SortStreamList(s))
  {
    SortStreamListKeySorted(s);
    var r := SortStreamList(s);
    forall i, j | 0 <= i < j < |r| ensures SortStreams(r[i], r[j]) == -1 {
      KeyLessIrreflexive(r[i]);
      assert !SameKey(r[i], r[j]);
      SortStreamsIsKeyOrder(r[i], r[j]);
    }
  }

  lemma {:induction false} SortStreamListKeySorted(s: seq<Stream>)
    requires Sortable(s)
    ensures AllBasic(SortStreamList(s)) && KeySorted(SortStreamList(s))
  {
    if s != [] {
      var rest := s[1..];
      assert Sortable(rest);
      SortStreamListKeySorted(rest);
      var t := SortStreamList(rest);
      forall y | y in t ensures y.id != s[0].id {
        assert y in multiset(rest);
        var k :| 0 <= k < |rest| && rest[k] == y;
        assert s[k + 1] == y;
      }
      InsertKeySorted(s[0], t);
    }
  }

  /** Putting a stream of a single-bit type with a new id in front keeps a list sortable. */
  lemma PrependSortable(h: Stream, t: seq<Stream>)
    requires Sortable(t) && IsBasicType(h.stype)
    requires forall y :: y in t ==> y.id != h.id
    ensures Sortable([h] + t)
  {
    var r := [h] + t;
    forall i, j | 0 <= i < j < |r| ensures r[i].id != r[j].id {
      if i == 0 { assert r[j] in t; } else { assert r[i] == t[i - 1] && r[j] == t[j - 1]; }
    }
  }

  /** Inserting a stream of a single-bit type whose id is new keeps a list sortable. */
  lemma {:induction false} InsertSortable(x: Stream, s: seq<Stream>)
    requires Sortable(s) && IsBasicType(x.stype)
    requires forall y :: y in s ==> y.id != x.id
    ensures Sortable(InsertStream(x, s))
  {
    if s == [] {
    } else if SortStreams(x, s[0]) <= 0 {
      PrependSortable(x, s);
    } else {
      var rest := s[1..];
      assert s == [s[0]] + rest;
      InsertSortable(x, rest);
      var t := InsertStream(x, rest);
      forall y | y in t ensures y.id != s[0].id {
        assert y in multiset(t);
        if y != x {
          var k :| 0 <= k < |rest| && rest[k] == y;
          assert s[k + 1] == y;
        }
      }
      PrependSortable(s[0], t);
    }
  }

  /** The sorted list of a sortable list is sortable. */
  lemma {:induction false} SortStreamListSortable(s: seq<Stream>)
    requires Sortable(s)
    ensures Sortable(SortStreamList(s))
  {
    if s != [] {
      var rest := s[1..];
      assert forall i :: 0 <= i < |rest| ==> rest[i] == s[i + 1];
      SortStreamListSortable(rest);
      var t := SortStreamList(rest);
      forall y | y in t ensures y.id != s[0].id {
        assert y in multiset(rest);
        var k :| 0 <= k < |rest| && rest[k] == y;
      }
      InsertSortable(s[0], t);
    }
  }

  /**
   * Any two lists ordered by sort_streams that hold the same streams are
   * equal, so the list of the insertion model is the one g_list_sort
   * (a merge sort) returns.
   */
  lemma {:induction false} SortedPermutationUnique(a: seq<Stream>, b: seq<Stream>)
    requires Sortable(a) && Sortable(b) && multiset(a) == multiset(b)
    requires SortedByStreamOrder(a) && SortedByStreamOrder(b)
    ensures a == b
  {
    if a != [] {
      SortedHeadsEqual(a, b);
      TailSorted(a);
      TailSorted(b);
      TailMultiset(a);
      TailMultiset(b);
      SortedPermutationUnique(a[1..], b[1..]);
      assert a == [a[0]] + a[1..] && b == [b[0]] + b[1..];
    }
  }

  lemma TailSorted(a: seq<Stream>)
    requires a != [] && Sortable(a) && SortedByStreamOrder(a)
    ensures Sortable(a[1..]) && SortedByStreamOrder(a[1..])
  {
    forall i, j | 0 <= i < j < |a| - 1
      ensures a[1..][i].id != a[1..][j].id && SortStreams(a[1..][i], a[1..][j]) == -1
    {
      assert a[1..][i] == a[i + 1] && a[1..][j] == a[j + 1];
    }
  }

  lemma TailMultiset(a: seq<Stream>)
    requires a != []
    ensures multiset(a[1..]) == multiset(a) - multiset{a[0]}
  {
    assert a == [a[0]] + a[1..];
  }

  /** Two sorted lists with the same streams start with the same stream. */
  lemma SortedHeadsEqual(a: seq<Stream>, b: seq<Stream>)
    requires Sortable(a) && Sortable(b) && multiset(a) == multiset(b)
    requires SortedByStreamOrder(a) && SortedByStreamOrder(b)
    requires a != []
    ensures b != [] && a[0] == b[0]
  {
    assert a[0] in multiset(b);
    assert b != [];
    assert b[0] in multiset(a);
    if a[0] != b[0] {
      var i :| 0 <= i < |a| && a[i] == b[0];
      var j :| 0 <= j < |b| && b[j] == a[0];
      assert SortStreams(a[0], b[0]) == -1;
      assert SortStreams(b[0], a[0]) == -1;
      assert a[0].id != b[0].id;
      SortStreamsIsKeyOrder(a[0], b[0]);
      SortStreamsIsKeyOrder(b[0], a[0]);
      KeyLessAsymmetric(a[0], b[0]);
      assert false;
    }
  }

  // ---------------------------------------------------------------------
  // guess_stream_type_from_caps

  /** The stream type of caps, from the media type of their first structure. */
  function GuessStreamTypeFromCaps(caps: Caps): (r: StreamType)
    ensures IsBasicType(r)
    ensures r == TYPE_VIDEO <==>
      |caps| > 0 && (HasPrefix(caps[0].name, "video/") || HasPrefix(caps[0].name, "image/"))
    ensures r == TYPE_AUDIO <==> |caps| > 0 && HasPrefix(caps[0].name, "audio/")
    ensures r == TYPE_TEXT <==>
      |caps| > 0 && (HasPrefix(caps[0].name, "text/") || HasPrefix(caps[0].name, "subpicture/") ||
                     HasPrefix(caps[0].name, "application/ttml+xml"))
    ensures r != TYPE_CONTAINER
  {
    if |caps| < 1 then TYPE_UNKNOWN
    else
      var name := caps[0].name;
      PrefixesDisjoint(name);
      if HasPrefix(name, "video/") || HasPrefix(name, "image/") then TYPE_VIDEO
      else if HasPrefix(name, "audio/") then TYPE_AUDIO
      else if HasPrefix(name, "text/") || HasPrefix(name, "subpicture/") || HasPrefix(name, "application/ttml+xml") then TYPE_TEXT
      else TYPE_UNKNOWN
  }

  /** The media-type prefixes of the three groups exclude each other. */
  lemma PrefixesDisjoint(name: string)
    ensures HasPrefix(name, "video/") || HasPrefix(name, "image/") ==>
      !HasPrefix(name, "audio/") && !HasPrefix(name, "text/") && !HasPrefix(name, "subpicture/") &&
      !HasPrefix(name, "application/ttml+xml")
    ensures HasPrefix(name, "audio/") ==>
      !HasPrefix(name, "text/") && !HasPrefix(name, "subpicture/") && !HasPrefix(name, "application/ttml+xml")
  {
    if HasPrefix(name, "video/") || HasPrefix(name, "image/") || HasPrefix(name, "audio/") {
      assert name[0] == 'v' || name[0] == 'i' || name[0] == 'a';
      if name[0] == 'a' {
        assert HasPrefix(name, "audio/");
        assert name[1] == 'u';
      }
    }
  }

  // ---------------------------------------------------------------------
  // Id lookups over collections

  /** collection_has_stream: the matching id of the collection, or NULL. */
  function CollectionHasStream(coll: seq<Stream>, sid: string): (r: Option<string>)
    ensures r.Some? <==> sid in Ids(coll)
    ensures r.Some? ==> r.value == sid
  {
    var k := FirstWithId(coll, sid);
    if k < |coll| then
      assert Ids(coll)[k] == sid;
      Some(coll[k].id)
    else
      assert sid !in Ids(coll) by {
        forall j | 0 <= j < |coll| ensures Ids(coll)[j] != sid { }
      }
      None
  }

  /** Every id of `xs` is the id of some stream of `ys` (one of the two loops). */
  function AllIdsIn(xs: seq<Stream>, ys: seq<Stream>): (r: bool)
    ensures r <==> forall i :: 0 <= i < |xs| ==> xs[i].id in Ids(ys)
  {
    if xs == [] then true
    else CollectionHasStream(ys, xs[0].id).Some? && AllIdsIn(xs[1..], ys)
  }

  /**
   * ongoing_change_upstream: once the collection has been posted and both
   * collections exist, TRUE when they differ in size or in the ids they hold.
   */
  function OngoingChangeUpstream(posted: bool, collection: Option<seq<Stream>>, active: Option<seq<Stream>>): (r: bool)
    ensures !posted || collection.None? || active.None? ==> !r
    ensures posted && collection.Some? && active.Some? ==>
      (r <==> |collection.value| != |active.value| ||
              (exists i :: 0 <= i < |active.value| && active.value[i].id !in Ids(collection.value)) ||
              (exists i :: 0 <= i < |collection.value| && collection.value[i].id !in Ids(active.value)))
  {
    if !posted then false
    else if collection.Some? && active.Some? then
      if |collection.value| != |active.value| then true
      else if !AllIdsIn(active.value, collection.value) then true
      else if !AllIdsIn(collection.value, active.value) then true
      else false
    else false
  }

  /** The active collection built from the same streams in another order is no upstream change. */
  lemma NoChangeForReorderedCollection(posted: bool, coll: seq<Stream>, active: seq<Stream>)
    requires multiset(coll) == multiset(active)
    ensures !OngoingChangeUpstream(posted, Some(coll), Some(active))
  {
    assert |coll| == |multiset(coll)| == |active|;
    forall i | 0 <= i < |active| ensures active[i].id in Ids(coll) {
      assert active[i] in multiset(coll);
      var k :| 0 <= k < |coll| && coll[k] == active[i];
      assert Ids(coll)[k] == active[i].id;
    }
    forall i | 0 <= i < |coll| ensures coll[i].id in Ids(active) {
      assert coll[i] in multiset(active);
      var k :| 0 <= k < |active| && active[k] == coll[i];
      assert Ids(active)[k] == coll[i].id;
    }
  }

  // ---------------------------------------------------------------------
  // PTS continuity (buffer branch of priv_multiqueue_src_probe)

  /** GstClockTime: an unsigned 64-bit nanosecond count; all ones is GST_CLOCK_TIME_NONE. */
  type ClockTime = x: int | 0 <= x < 0x1_0000_0000_0000_0000

  const CLOCK_TIME_NONE: ClockTime := 0xFFFF_FFFF_FFFF_FFFF
  /** 250 * GST_MSECOND */
  const MAX_CACHE_TIME: ClockTime := 250_000_000

  predicate ValidTime(t: ClockTime)
  {
    t != CLOCK_TIME_NONE
  }

  /** The gint64 value of an unsigned 64-bit difference (GST_CLOCK_DIFF). */
  function ToInt64(x: ClockTime): (r: int)
    ensures -0x8000_0000_0000_0000 <= r < 0x8000_0000_0000_0000
    ensures x < 0x8000_0000_0000_0000 ==> r == x
  {
    if x < 0x8000_0000_0000_0000 then x else x - 0x1_0000_0000_0000_0000
  }

  /** The gint64 assigned to a GstClockTime. */
  function ToClockTime(d: int): (t: ClockTime)
    requires -0x8000_0000_0000_0000 <= d < 0x8000_0000_0000_0000
    ensures d >= 0 ==> t == d
  {
    if d >= 0 then d else d + 0x1_0000_0000_0000_0000
  }

  /** |prev - cur| as the source computes it, a GstClockTimeDiff. */
  function PtsDiff(cur: ClockTime, prev: ClockTime): int
  {
    if prev > cur then ToInt64(prev - cur) else ToInt64(cur - prev)
  }

  /**
   * The caching time the step assumes: the buffer duration when valid;
   * otherwise, with both timestamps valid, the distance between them
   * capped at 250 ms; otherwise 250 ms.
   */
  function CacheTime(cur: ClockTime, prev: ClockTime, duration: ClockTime): (c: ClockTime)
    ensures ValidTime(duration) ==> c == duration
    ensures !ValidTime(duration) && !(ValidTime(cur) && ValidTime(prev)) ==> c == MAX_CACHE_TIME
    ensures !ValidTime(duration) && ValidTime(cur) && ValidTime(prev) &&
            (prev - cur < 0x8000_0000_0000_0000 && cur - prev < 0x8000_0000_0000_0000) ==>
      c <= MAX_CACHE_TIME && (c == MAX_CACHE_TIME || c == if prev > cur then prev - cur else cur - prev)
  {
    if ValidTime(duration) then duration
    else if ValidTime(cur) && ValidTime(prev) then
      var diff := PtsDiff(cur, prev);
      // GST_CLOCK_STIME_IS_VALID (diff): the diff is not G_MININT64
      if diff != -0x8000_0000_0000_0000 then (if diff > MAX_CACHE_TIME then MAX_CACHE_TIME else ToClockTime(diff))
      else MAX_CACHE_TIME
    else MAX_CACHE_TIME
  }

  /** The outcome of one buffer on an output with a defined segment at rate 1.0. */
  datatype PtsOutcome = PtsOutcome(drop: bool, lastPushed: ClockTime)

  /**
   * The decision for a buffer with timestamp `cur` when `prev` was the last
   * pushed timestamp: drop iff both are valid and the timestamp went back;
   * otherwise remember `cur`, or `prev` advanced by the caching time.
   */
  function PtsStep(cur: ClockTime, prev: ClockTime, duration: ClockTime): (o: PtsOutcome)
    ensures o.drop <==> ValidTime(cur) && ValidTime(prev) && prev > cur
    ensures o.drop || (!ValidTime(cur) && !ValidTime(prev)) ==> o.lastPushed == prev
    ensures !o.drop && ValidTime(cur) ==> o.lastPushed == cur
  {
    if !ValidTime(cur) && !ValidTime(prev) then PtsOutcome(false, prev)
    else if ValidTime(cur) && ValidTime(prev) && prev > cur then PtsOutcome(true, prev)
    else
      var cache := CacheTime(cur, prev, duration);
      var next := if ValidTime(cur) then cur else (prev + cache) % 0x1_0000_0000_0000_0000;
      PtsOutcome(false, if ValidTime(next) then next else prev)
  }

  /** A buffer with no timestamp after a valid one advances the last pushed time by the caching time (mod 2^64). */
  lemma PtsStepExtrapolates(prev: ClockTime, duration: ClockTime)
    requires ValidTime(prev)
    requires prev + CacheTime(CLOCK_TIME_NONE, prev, duration) < CLOCK_TIME_NONE
    ensures !PtsStep(CLOCK_TIME_NONE, prev, duration).drop
    ensures PtsStep(CLOCK_TIME_NONE, prev, duration).lastPushed ==
      prev + (if ValidTime(duration) then duration else MAX_CACHE_TIME)
  {
  }

  /** A valid timestamp that does not go back is pushed, and the next equal timestamp is pushed too. */
  lemma PtsStepMonotone(cur: ClockTime, prev: ClockTime, duration: ClockTime)
    requires ValidTime(cur) && (!ValidTime(prev) || prev <= cur)
    ensures !PtsStep(cur, prev, duration).drop
    ensures !PtsStep(cur, PtsStep(cur, prev, duration).lastPushed, duration).drop
  {
  }
}
