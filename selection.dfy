// The default stream selection that decodebin3 computes when a collection
// arrives and no SELECT_STREAMS is underway (update_requested_selection in
// gstdecodebin3.c and its TV variants): a first pass keeps the streams the
// select-stream signal asks for or that are already requested/active, a
// second pass adds one stream of every type the first pass left uncovered.

module Selection {
  import opened Streams

  /**
   * The select-stream signal: for a stream of the collection it answers 1
   * (select), 0 (do not select) or -1 (no opinion, the default).
   */
  type SelectHook = Stream -> int

  /** The pass-1 condition: the signal says 1, or it says -1 and the id may be reused. */
  predicate ChosenInPass1(s: Stream, hook: SelectHook, reusable: seq<string>)
  {
    hook(s) == 1 || (hook(s) == -1 && s.id in reusable)
  }

  /** The streams a pass appended, and `used_types` after it. */
  datatype Picks = Picks(streams: seq<Stream>, used: StreamType)

  /** Pass 1 (the loop at "3." in the source) over a prefix of the collection. */
  function Pass1(coll: seq<Stream>, hook: SelectHook, reusable: seq<string>): Picks
  {
    if coll == [] then Picks([], NO_TYPE)
    else
      var p := Pass1(coll[..|coll| - 1], hook, reusable);
      var s := coll[|coll| - 1];
      if ChosenInPass1(s, hook, reusable) then Picks(p.streams + [s], Union(p.used, s.stype)) else p
  }

  /** Pass 2 (the loop at "4."): add a stream whose type shares no bit with `used_types`. */
  function Pass2(coll: seq<Stream>, used0: StreamType): Picks
  {
    if coll == [] then Picks([], used0)
    else
      var p := Pass2(coll[..|coll| - 1], used0);
      var s := coll[|coll| - 1];
      if !Overlaps(p.used, s.stype) then Picks(p.streams + [s], Union(p.used, s.stype)) else p
  }

  /** The list the source stores in `requested_selection` (when it is not empty). */
  function DefaultSelection(coll: seq<Stream>, hook: SelectHook, reusable: seq<string>): seq<string>
  {
    var p1 := Pass1(coll, hook, reusable);
    Ids(p1.streams) + Ids(Pass2(coll, p1.used).streams)
  }

  /** The types covered once both passes are over. */
  function CoveredTypes(coll: seq<Stream>, hook: SelectHook, reusable: seq<string>): StreamType
  {
    Pass2(coll, Pass1(coll, hook, reusable).used).used
  }

  // ---------------------------------------------------------------------
  // Order: what a pass selects is a subsequence of the collection

  /** `a` is `b` with some elements deleted (order kept). */
  predicate IsSubsequence<T(==)>(a: seq<T>, b: seq<T>)
    decreases |b|
  {
    if a == [] then true
    else if b == [] then false
    else if a[0] == b[0] then IsSubsequence(a[1..], b[1..])
    else IsSubsequence(a, b[1..])
  }

  lemma {:induction false} SubsequenceExtend<T>(a: seq<T>, b: seq<T>, x: T)
    requires IsSubsequence(a, b)
    ensures IsSubsequence(a, b + [x])
    decreases |b|
  {
    if a != [] {
      assert (b + [x])[0] == b[0] && (b + [x])[1..] == b[1..] + [x];
      if a[0] == b[0] { SubsequenceExtend(a[1..], b[1..], x); }
      else { SubsequenceExtend(a, b[1..], x); }
    }
  }

  lemma {:induction false} SubsequenceSnoc<T>(a: seq<T>, b: seq<T>, x: T)
    requires IsSubsequence(a, b)
    ensures IsSubsequence(a + [x], b + [x])
    decreases |b|
  {
    if b == [] {
      assert a == [];
      assert a + [x] == [x] == b + [x];
    } else if a == [] {
      assert (b + [x])[1..] == b[1..] + [x];
      if b[0] != x { SubsequenceSnoc(a, b[1..], x); }
    } else {
      assert (a + [x])[0] == a[0] && (a + [x])[1..] == a[1..] + [x];
      assert (b + [x])[0] == b[0] && (b + [x])[1..] == b[1..] + [x];
      if a[0] == b[0] { SubsequenceSnoc(a[1..], b[1..], x); }
      else { SubsequenceSnoc(a, b[1..], x); }
    }
  }

  lemma {:induction false} SubsequenceMembers<T>(a: seq<T>, b: seq<T>)
    requires IsSubsequence(a, b)
    ensures forall x :: x in a ==> x in b
    decreases |b|
  {
    if a != [] && b != [] {
      if a[0] == b[0] { SubsequenceMembers(a[1..], b[1..]); }
      else { SubsequenceMembers(a, b[1..]); }
      assert forall x :: x in a ==> x == a[0] || x in a[1..];
    }
  }

  /** Pass 1 keeps collection order. */
  lemma {:induction false} Pass1InCollectionOrder(coll: seq<Stream>, hook: SelectHook, reusable: seq<string>)
    ensures IsSubsequence(Pass1(coll, hook, reusable).streams, coll)
  {
    if coll != [] {
      var pre := coll[..|coll| - 1];
      var s := coll[|coll| - 1];
      assert coll == pre + [s];
      Pass1InCollectionOrder(pre, hook, reusable);
      if ChosenInPass1(s, hook, reusable) {
        SubsequenceSnoc(Pass1(pre, hook, reusable).streams, pre, s);
      } else {
        SubsequenceExtend(Pass1(pre, hook, reusable).streams, pre, s);
      }
    }
  }

  /** Pass 2 keeps collection order. */
  lemma {:induction false} Pass2InCollectionOrder(coll: seq<Stream>, used0: StreamType)
    ensures IsSubsequence(Pass2(coll, used0).streams, coll)
  {
    if coll != [] {
      var pre := coll[..|coll| - 1];
      var s := coll[|coll| - 1];
      assert coll == pre + [s];
      var p := Pass2(pre, used0);
      Pass2InCollectionOrder(pre, used0);
      if !Overlaps(p.used, s.stype) {
        SubsequenceSnoc(p.streams, pre, s);
      } else {
        SubsequenceExtend(p.streams, pre, s);
      }
    }
  }

  /** Every selected id is the id of a stream of the collection. */
  lemma SelectionFromCollection(coll: seq<Stream>, hook: SelectHook, reusable: seq<string>)
    ensures forall x :: x in DefaultSelection(coll, hook, reusable) ==> x in Ids(coll)
  {
    var p1 := Pass1(coll, hook, reusable);
    var p2 := Pass2(coll, p1.used);
    Pass1InCollectionOrder(coll, hook, reusable);
    Pass2InCollectionOrder(coll, p1.used);
    SubsequenceMembers(p1.streams, coll);
    SubsequenceMembers(p2.streams, coll);
    forall x | x in DefaultSelection(coll, hook, reusable) ensures x in Ids(coll) {
      var sel := Ids(p1.streams) + Ids(p2.streams);
      var k :| 0 <= k < |sel| && sel[k] == x;
      if k < |p1.streams| {
        assert p1.streams[k] in p1.streams;
        var j :| 0 <= j < |coll| && coll[j] == p1.streams[k];
        assert Ids(coll)[j] == x;
      } else {
        assert p2.streams[k - |p1.streams|] in p2.streams;
        var j :| 0 <= j < |coll| && coll[j] == p2.streams[k - |p1.streams|];
        assert Ids(coll)[j] == x;
      }
    }
  }

  // ---------------------------------------------------------------------
  // Pass 1 picks exactly the streams the condition accepts

  lemma {:induction false} Pass1Members(coll: seq<Stream>, hook: SelectHook, reusable: seq<string>, x: Stream)
    ensures x in Pass1(coll, hook, reusable).streams <==> x in coll && ChosenInPass1(x, hook, reusable)
  {
    if coll != [] {
      var pre := coll[..|coll| - 1];
      assert coll == pre + [coll[|coll| - 1]];
      Pass1Members(pre, hook, reusable, x);
    }
  }

  // ---------------------------------------------------------------------
  // Coverage and one-per-type

  lemma {:induction false} Pass2UsedGrows(coll: seq<Stream>, used0: StreamType)
    ensures SubMask(used0, Pass2(coll, used0).used)
  {
    if coll != [] {
      Pass2UsedGrows(coll[..|coll| - 1], used0);
    }
  }

  lemma {:induction false} Pass2Covers(coll: seq<Stream>, used0: StreamType)
    ensures forall k :: 0 <= k < |coll| ==> coll[k].stype == NO_TYPE || Overlaps(coll[k].stype, Pass2(coll, used0).used)
  {
    if coll != [] {
      var pre := coll[..|coll| - 1];
      Pass2Covers(pre, used0);
      assert forall k :: 0 <= k < |coll| - 1 ==> coll[k] == pre[k];
    }
  }

  /**
   * After both passes every stream type of the collection overlaps
   * `used_types`: no type is left without a selected stream.
   */
  lemma SelectionCoversAllTypes(coll: seq<Stream>, hook: SelectHook, reusable: seq<string>)
    ensures forall k :: 0 <= k < |coll| ==>
              coll[k].stype == NO_TYPE || Overlaps(coll[k].stype, CoveredTypes(coll, hook, reusable))
  {
    Pass2Covers(coll, Pass1(coll, hook, reusable).used);
  }

  /** Every picked stream's type lies within `used`. */
  predicate PicksWithinUsed(p: Picks)
  {
    forall i :: 0 <= i < |p.streams| ==> SubMask(p.streams[i].stype, p.used)
  }

  lemma {:induction false} Pass2PicksWithinUsed(coll: seq<Stream>, used0: StreamType)
    ensures PicksWithinUsed(Pass2(coll, used0))
  {
    if coll != [] {
      var p := Pass2(coll[..|coll| - 1], used0);
      var q := Pass2(coll, used0);
      Pass2PicksWithinUsed(coll[..|coll| - 1], used0);
      assert PicksWithinUsed(p);
      var s := coll[|coll| - 1];
      if !Overlaps(p.used, s.stype) {
        assert q.streams == p.streams + [s] && q.used == Union(p.used, s.stype);
        forall i | 0 <= i < |q.streams| ensures SubMask(q.streams[i].stype, q.used) {
          if i < |p.streams| {
            assert q.streams[i] == p.streams[i];
            assert SubMask(p.streams[i].stype, p.used);
          }
        }
      } else {
        assert q == p;
      }
    }
  }

  /** No picked stream shares a type bit with `used0`. */
  predicate PicksAvoid(p: Picks, used0: StreamType)
  {
    forall i :: 0 <= i < |p.streams| ==> !Overlaps(p.streams[i].stype, used0)
  }

  /** No two picked streams share a type bit. */
  predicate PicksPairwiseDisjoint(p: Picks)
  {
    forall i, j :: 0 <= i < j < |p.streams| ==> !Overlaps(p.streams[i].stype, p.streams[j].stype)
  }

  /**
   * Pass 2 adds at most one stream per still-uncovered type: the types it
   * adds share no bit with pass 1's types nor with each other.
   */
  lemma {:induction false} Pass2OnePerType(coll: seq<Stream>, used0: StreamType)
    ensures PicksAvoid(Pass2(coll, used0), used0)
    ensures PicksPairwiseDisjoint(Pass2(coll, used0))
  {
    if coll != [] {
      var p := Pass2(coll[..|coll| - 1], used0);
      var q := Pass2(coll, used0);
      Pass2OnePerType(coll[..|coll| - 1], used0);
      Pass2PicksWithinUsed(coll[..|coll| - 1], used0);
      Pass2UsedGrows(coll[..|coll| - 1], used0);
      assert PicksAvoid(p, used0) && PicksPairwiseDisjoint(p) && PicksWithinUsed(p);
      var s := coll[|coll| - 1];
      if !Overlaps(p.used, s.stype) {
        assert q.streams == p.streams + [s] && q.used == Union(p.used, s.stype);
        assert !Overlaps(s.stype, used0);
        forall i | 0 <= i < |p.streams| ensures !Overlaps(q.streams[i].stype, s.stype) {
          assert q.streams[i] == p.streams[i];
          assert SubMask(p.streams[i].stype, p.used);
        }
        forall i, j | 0 <= i < j < |q.streams| ensures !Overlaps(q.streams[i].stype, q.streams[j].stype) {
          if j < |p.streams| {
            assert q.streams[i] == p.streams[i] && q.streams[j] == p.streams[j];
          }
        }
        forall i | 0 <= i < |q.streams| ensures !Overlaps(q.streams[i].stype, used0) {
          if i < |p.streams| { assert q.streams[i] == p.streams[i]; }
        }
      } else {
        assert q == p;
      }
    }
  }

  /** A non-empty collection always yields a non-empty selection. */
  lemma {:induction false} SelectionNonEmpty(coll: seq<Stream>, hook: SelectHook, reusable: seq<string>)
    requires coll != []
    ensures DefaultSelection(coll, hook, reusable) != []
  {
    var p1 := Pass1(coll, hook, reusable);
    if p1.streams == [] {
      Pass1Empty(coll, hook, reusable);
      Pass2FirstPicked(coll);
    }
  }

  lemma {:induction false} Pass1Empty(coll: seq<Stream>, hook: SelectHook, reusable: seq<string>)
    requires Pass1(coll, hook, reusable).streams == []
    ensures Pass1(coll, hook, reusable).used == NO_TYPE
  {
    if coll != [] {
      Pass1Empty(coll[..|coll| - 1], hook, reusable);
    }
  }

  lemma {:induction false} Pass2FirstPicked(coll: seq<Stream>)
    requires coll != []
    ensures Pass2(coll, NO_TYPE).streams != []
  {
    if |coll| > 1 {
      Pass2FirstPicked(coll[..|coll| - 1]);
    }
  }

  // ---------------------------------------------------------------------
  // The two loops

  /**
   * The loops that compute the default selection: pass 1's ids then pass 2's.
   * `reusable` is the list of ids the first loop may keep without the
   * signal's say-so (requested and active ids in the base element).
   */
  method ComputeSelection(coll: seq<Stream>, hook: SelectHook, reusable: seq<string>) returns (tmp: seq<string>)
    ensures tmp == DefaultSelection(coll, hook, reusable)
  {
    var first, used := SelectionFirstPass(coll, hook, reusable);
    var second := SelectionSecondPass(coll, used);
    tmp := first + second;
  }

  /** The first loop: streams the signal or the earlier selection picks. */
  method SelectionFirstPass(coll: seq<Stream>, hook: SelectHook, reusable: seq<string>) returns (ids: seq<string>, used: StreamType)
    ensures ids == Ids(Pass1(coll, hook, reusable).streams)
    ensures used == Pass1(coll, hook, reusable).used
  {
    ids := [];
    used := NO_TYPE;
    ghost var picks: seq<Stream> := [];
    for i := 0 to |coll|
      invariant Pass1(coll[..i], hook, reusable) == Picks(picks, used)
      invariant ids == Ids(picks)
    {
      var s := coll[i];
      var request := hook(s);
      assert coll[..i + 1][..i] == coll[..i];
      if request == 1 || (request == -1 && s.id in reusable) {
        ids := ids + [s.id];
        used := Union(used, s.stype);
        assert (picks + [s])[..|picks|] == picks;
        picks := picks + [s];
      }
    }
    assert coll[..|coll|] == coll;
  }

  /** The second loop: one stream of every type not yet used. */
  method SelectionSecondPass(coll: seq<Stream>, used0: StreamType) returns (ids: seq<string>)
    ensures ids == Ids(Pass2(coll, used0).streams)
  {
    ids := [];
    var used := used0;
    ghost var picks: seq<Stream> := [];
    for i := 0 to |coll|
      invariant Pass2(coll[..i], used0) == Picks(picks, used)
      invariant ids == Ids(picks)
    {
      var s := coll[i];
      assert coll[..i + 1][..i] == coll[..i];
      if !Overlaps(used, s.stype) {
        ids := ids + [s.id];
        used := Union(used, s.stype);
        assert (picks + [s])[..|picks|] == picks;
        picks := picks + [s];
      }
    }
    assert coll[..|coll|] == coll;
  }
}
