// Values shared by every part of the model: streams as GstStream describes
// them (id, type bitmask, flags, caps, tags), caps structures, tag lists,
// 32-bit unsigned counters and the list helpers the GList code relies on.

module Streams {

  datatype Option<T> = None | Some(value: T)

  /** guint / guint32: every counter of the source wraps at 2^32. */
  type uint32 = x: int | 0 <= x < 0x1_0000_0000

  function Inc32(x: uint32): (r: uint32)
    ensures x < 0xFFFF_FFFF ==> r == x + 1
    ensures x == 0xFFFF_FFFF ==> r == 0
  {
    (x + 1) % 0x1_0000_0000
  }

  /**
   * GstStreamType, a bitmask over the five bits GStreamer defines
   * (UNKNOWN = 1, AUDIO = 2, VIDEO = 4, CONTAINER = 8, TEXT = 16), one
   * boolean per bit. A stream may carry no bit at all (type 0).
   */
  datatype StreamType = StreamType(unknown: bool, audio: bool, video: bool, container: bool, text: bool)

  const NO_TYPE := StreamType(false, false, false, false, false)
  const TYPE_UNKNOWN := StreamType(true, false, false, false, false)
  const TYPE_AUDIO := StreamType(false, true, false, false, false)
  const TYPE_VIDEO := StreamType(false, false, true, false, false)
  const TYPE_CONTAINER := StreamType(false, false, false, true, false)
  const TYPE_TEXT := StreamType(false, false, false, false, true)

  /** a | b */
  function Union(a: StreamType, b: StreamType): (r: StreamType)
    ensures SubMask(a, r) && SubMask(b, r)
  {
    StreamType(a.unknown || b.unknown, a.audio || b.audio, a.video || b.video,
               a.container || b.container, a.text || b.text)
  }

  /** (a & b) != 0 */
  predicate Overlaps(a: StreamType, b: StreamType)
  {
    (a.unknown && b.unknown) || (a.audio && b.audio) || (a.video && b.video) ||
    (a.container && b.container) || (a.text && b.text)
  }

  /** (a & b) == a: every bit of `a` is set in `b`. */
  predicate SubMask(a: StreamType, b: StreamType)
  {
    (a.unknown ==> b.unknown) && (a.audio ==> b.audio) && (a.video ==> b.video) &&
    (a.container ==> b.container) && (a.text ==> b.text)
  }

  /** The five types GStreamer defines, each a single bit. */
  predicate IsBasicType(t: StreamType)
  {
    t == TYPE_UNKNOWN || t == TYPE_AUDIO || t == TYPE_VIDEO || t == TYPE_CONTAINER || t == TYPE_TEXT
  }

  /** GstStreamFlags (SPARSE = 1, SELECT = 2, UNSELECT = 4); only SELECT is consulted. */
  datatype StreamFlags = StreamFlags(sparse: bool, select: bool, unselect: bool)

  /** A field value of a GstStructure, as far as the model reads one. */
  datatype FieldValue = StringValue(s: string) | BoolValue(b: bool) | IntValue(i: int) | OtherValue

  datatype Structure = Structure(name: string, fields: map<string, FieldValue>)

  /** GstCaps: an ordered list of structures (possibly empty). */
  type Caps = seq<Structure>

  datatype TagValue = TagString(s: string) | TagUint(n: nat) | TagOther

  datatype TagScope = ScopeStream | ScopeGlobal

  /** GstTagList: one value per tag name, plus the list's scope. */
  datatype TagList = TagList(scope: TagScope, values: map<string, TagValue>)

  const TAG_LANGUAGE_CODE := "language-code"
  const TAG_LANGUAGE_NAME := "language-name"
  const TAG_BITRATE := "bitrate"
  const TAG_MINIMUM_BITRATE := "minimum-bitrate"
  const TAG_MAXIMUM_BITRATE := "maximum-bitrate"

  /** gst_tag_list_get_string: the value of a string tag, if there is one. */
  function GetTagString(tags: TagList, tag: string): (r: Option<string>)
    ensures r.Some? <==> tag in tags.values && tags.values[tag].TagString?
    ensures r.Some? ==> tags.values[tag] == TagString(r.value)
  {
    if tag in tags.values && tags.values[tag].TagString? then Some(tags.values[tag].s) else None
  }

  /** GstPadDirection and GstPadPresence, and a pad template as far as the model reads one. */
  datatype PadDirection = DirUnknown | DirSrc | DirSink

  datatype PadPresence = PresenceAlways | PresenceSometimes | PresenceRequest

  datatype PadTemplate = PadTemplate(direction: PadDirection, presence: PadPresence, nameTemplate: string)

  /**
   * A GstStream. Streams are compared by value in the model where the
   * source compares GstStream pointers.
   */
  datatype Stream = Stream(id: string, stype: StreamType, flags: StreamFlags,
                           caps: Option<Caps>, tags: Option<TagList>)

  // ---------------------------------------------------------------------
  // Strings

  predicate HasPrefix(s: string, prefix: string)
  {
    |prefix| <= |s| && s[..|prefix|] == prefix
  }

  /** strstr / g_strrstr != NULL: `pat` occurs somewhere in `s`. */
  predicate ContainsSubstring(s: string, pat: string)
  {
    exists k :: 0 <= k <= |s| - |pat| && OccursAt(s, pat, k)
  }

  predicate OccursAt(s: string, pat: string, k: int)
  {
    0 <= k <= |s| - |pat| && s[k..k + |pat|] == pat
  }

  /**
   * strcmp (a, b) < 0. Characters are compared by code point, which is the
   * order strcmp gives on their UTF-8 bytes.
   */
  predicate StrLess(a: string, b: string)
    decreases |a|
  {
    if |a| == 0 then |b| > 0
    else if |b| == 0 then false
    else if a[0] != b[0] then a[0] < b[0]
    else StrLess(a[1..], b[1..])
  }

  lemma {:induction false} StrLessIrreflexive(a: string)
    ensures !StrLess(a, a)
    decreases |a|
  {
    if |a| > 0 { StrLessIrreflexive(a[1..]); }
  }

  lemma {:induction false} StrLessTotal(a: string, b: string)
    requires a != b
    ensures StrLess(a, b) != StrLess(b, a)
    decreases |a|
  {
    if |a| > 0 && |b| > 0 && a[0] == b[0] {
      assert a == [a[0]] + a[1..] && b == [b[0]] + b[1..];
      StrLessTotal(a[1..], b[1..]);
    }
  }

  lemma {:induction false} StrLessTransitive(a: string, b: string, c: string)
    requires StrLess(a, b) && StrLess(b, c)
    ensures StrLess(a, c)
    decreases |a|
  {
    if |a| > 0 && a[0] == b[0] && b[0] == c[0] {
      StrLessTransitive(a[1..], b[1..], c[1..]);
    }
  }

  // ---------------------------------------------------------------------
  // GList helpers over values

  function Ids(streams: seq<Stream>): (r: seq<string>)
    ensures |r| == |streams|
    ensures forall k :: 0 <= k < |streams| ==> r[k] == streams[k].id
  {
    if streams == [] then [] else Ids(streams[..|streams| - 1]) + [streams[|streams| - 1].id]
  }

  /** g_list_remove: drop the first element equal to `x`, if any. */
  function RemoveFirst<T(==)>(s: seq<T>, x: T): (r: seq<T>)
    ensures x !in s ==> r == s
    ensures x in s ==> |r| == |s| - 1
    ensures forall y :: y in r ==> y in s
    ensures forall y :: y in s && y != x ==> y in r
  {
    if s == [] then []
    else if s[0] == x then
      assert s == [s[0]] + s[1..];
      s[1..]
    else
      assert s == [s[0]] + s[1..];
      [s[0]] + RemoveFirst(s[1..], x)
  }

  lemma {:induction false} RemoveFirstMultiset<T>(s: seq<T>, x: T)
    ensures multiset(RemoveFirst(s, x)) == multiset(s) - multiset{x}
  {
    if s != [] {
      assert s == [s[0]] + s[1..];
      if s[0] != x {
        RemoveFirstMultiset(s[1..], x);
      }
    }
  }

  /** g_list_delete_link at position `k`. */
  function RemoveAt<T>(s: seq<T>, k: nat): (r: seq<T>)
    requires k < |s|
    ensures |r| == |s| - 1
    ensures forall i :: 0 <= i < k ==> r[i] == s[i]
    ensures forall i :: k <= i < |r| ==> r[i] == s[i + 1]
  {
    s[..k] + s[k + 1..]
  }

  lemma RemoveAtMultiset<T>(s: seq<T>, k: nat)
    requires k < |s|
    ensures multiset(RemoveAt(s, k)) + multiset{s[k]} == multiset(s)
  {
    assert s == s[..k] + [s[k]] + s[k + 1..];
  }

  /** The position of the first stream with id `sid`, or |coll| when there is none. */
  function FirstWithId(coll: seq<Stream>, sid: string): (k: nat)
    ensures k <= |coll|
    ensures forall j :: 0 <= j < k ==> coll[j].id != sid
    ensures k < |coll| ==> coll[k].id == sid
  {
    if coll == [] then 0
    else if coll[0].id == sid then 0
    else 1 + FirstWithId(coll[1..], sid)
  }

  /** find_stream_in_collection: the first stream of the collection with id `sid`. */
  function FindStream(coll: seq<Stream>, sid: string): (r: Option<Stream>)
    ensures r.Some? <==> sid in Ids(coll)
    ensures r.Some? ==> r.value.id == sid && r.value == coll[FirstWithId(coll, sid)]
  {
    var k := FirstWithId(coll, sid);
    if k < |coll| then
      assert Ids(coll)[k] == sid;
      Some(coll[k])
    else
      assert sid !in Ids(coll) by {
        forall j | 0 <= j < |coll| ensures Ids(coll)[j] != sid { }
      }
      None
  }

  /** No element occurs twice (a GList of distinct pointers). */
  predicate Distinct<T(==)>(s: seq<T>)
  {
    forall i, j :: 0 <= i < j < |s| ==> s[i] != s[j]
  }

  lemma {:induction false} RemoveFirstDistinct<T>(s: seq<T>, x: T)
    requires Distinct(s)
    ensures Distinct(RemoveFirst(s, x))
    ensures x !in RemoveFirst(s, x)
  {
    if s != [] && s[0] != x {
      assert Distinct(s[1..]);
      RemoveFirstDistinct(s[1..], x);
      assert s[0] !in RemoveFirst(s[1..], x);
    } else if s != [] {
      assert Distinct(s[1..]);
      assert x !in s[1..];
    }
  }
}
