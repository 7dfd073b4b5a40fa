// handle_stream_switch (gstdecodebin3.c): a SELECT_STREAMS answered against
// the multiqueue slots. The function reads the slots and changes none of
// them, so it is modelled on a snapshot of what it reads of each slot; its
// writes go to the selection lists and to the queue of idle probes.

module StreamSwitch {
  import opened Streams
  import opened Selection
  import opened Decodebin

  /** What handle_stream_switch reads of a slot: its type, its three streams, whether it has an output. */
  datatype SlotView = SlotView(slot: Slot, stype: StreamType, pending: Option<Stream>, active: Option<Stream>,
                               previous: Option<Stream>, hasOutput: bool)

  function ViewOf(s: Slot): SlotView
    reads s`pendingStream, s`activeStream, s`oldStream, s`output
  {
    SlotView(s, s.stype, s.pendingStream, s.activeStream, s.oldStream, s.output != null)
  }

  function Views(slots: seq<Slot>): (r: seq<SlotView>)
    reads slots`pendingStream, slots`activeStream, slots`oldStream, slots`output
  {
    if slots == [] then [] else Views(slots[..|slots| - 1]) + [ViewOf(slots[|slots| - 1])]
  }

  /** The snapshot holds one view per slot, in slot order. */
  lemma {:induction false} ViewsPointwise(slots: seq<Slot>)
    ensures |Views(slots)| == |slots| && forall i :: 0 <= i < |slots| ==> Views(slots)[i] == ViewOf(slots[i])
  {
    if slots != [] {
      ViewsPointwise(slots[..|slots| - 1]);
    }
  }

  // ---------------------------------------------------------------------
  // find_slot_for_stream_id and stream_in_collection on the snapshot

  predicate ViewHasStreamId(v: SlotView, sid: string)
  {
    (v.active.Some? && v.active.value.id == sid) ||
    (v.pending.Some? && v.pending != v.active && v.pending.value.id == sid) ||
    (v.previous.Some? && v.previous.value.id == sid)
  }

  /** The position of the first slot carrying `sid`, or |views| when none does. */
  function FindView(views: seq<SlotView>, sid: string): (k: nat)
    ensures k <= |views|
    ensures k < |views| ==> ViewHasStreamId(views[k], sid)
    ensures forall j :: 0 <= j < k ==> !ViewHasStreamId(views[j], sid)
  {
    if views == [] then 0
    else if ViewHasStreamId(views[0], sid) then 0
    else 1 + FindView(views[1..], sid)
  }

  /** On the snapshot, the lookup finds the slot find_slot_for_stream_id finds. */
  lemma FindViewAgrees(slots: seq<Slot>, sid: string)
    ensures FindView(Views(slots), sid) == SlotIndexForStreamId(slots, sid)
    ensures FindView(Views(slots), sid) < |slots| <==> FindSlotForStreamId(slots, sid) != null
  {
    var v := Views(slots);
    ViewsPointwise(slots);
    var k, m := FindView(v, sid), SlotIndexForStreamId(slots, sid);
    assert forall i :: 0 <= i < |slots| ==> (ViewHasStreamId(v[i], sid) <==> SlotHasStreamId(slots[i], sid));
  }

  /** stream_in_collection: the id is that of a stream of the collection. */
  predicate InCollection(coll: Option<seq<Stream>>, sid: string)
  {
    coll.Some? && sid in Ids(coll.value)
  }

  // ---------------------------------------------------------------------
  // The first loop: the requested ids against the slots

  /**
   * How the first loop files the requested ids: ids of the collection that
   * no slot carries yet, ids nobody knows, slots to activate (no output
   * yet) and ids already played by an output.
   */
  datatype Request = Request(pending: seq<string>, unknown: seq<string>, activate: seq<SlotView>, future: seq<string>)

  function Classify(ids: seq<string>, views: seq<SlotView>, coll: Option<seq<Stream>>): Request
  {
    if ids == [] then Request([], [], [], [])
    else FileId(Classify(ids[..|ids| - 1], views, coll), ids[|ids| - 1], views, coll)
  }

  /** Where the first loop files one id. */
  function FileId(r: Request, sid: string, views: seq<SlotView>, coll: Option<seq<Stream>>): Request
  {
    var k := FindView(views, sid);
    if k == |views| then
      if InCollection(coll, sid) then r.(pending := r.pending + [sid]) else r.(unknown := r.unknown + [sid])
    else if !views[k].hasOutput then r.(activate := r.activate + [views[k]])
    else r.(future := r.future + [sid])
  }

  lemma ClassifySnoc(ids: seq<string>, sid: string, views: seq<SlotView>, coll: Option<seq<Stream>>)
    ensures Classify(ids + [sid], views, coll) == FileId(Classify(ids, views, coll), sid, views, coll)
  {
    assert (ids + [sid])[..|ids|] == ids;
  }

  /**
   * Every id is filed once; pending ids are ids of the collection that no
   * slot carries, unknown ids are ids of neither, future ids are carried
   * by a slot that has an output, and the slots to activate have none.
   */
  lemma {:induction false} ClassifySound(ids: seq<string>, views: seq<SlotView>, coll: Option<seq<Stream>>)
    ensures var r := Classify(ids, views, coll);
      |r.pending| + |r.unknown| + |r.activate| + |r.future| == |ids| &&
      (forall x :: x in r.pending ==> x in ids && FindView(views, x) == |views| && InCollection(coll, x)) &&
      (forall x :: x in r.unknown ==> x in ids && FindView(views, x) == |views| && !InCollection(coll, x)) &&
      (forall i :: 0 <= i < |r.activate| ==> r.activate[i] in views && !r.activate[i].hasOutput) &&
      (forall x :: x in r.future ==> x in ids && FindView(views, x) < |views| && views[FindView(views, x)].hasOutput)
  {
    if ids != [] {
      var pre := ids[..|ids| - 1];
      assert ids == pre + [ids[|ids| - 1]];
      ClassifySound(pre, views, coll);
    }
  }

  /** Every requested id is filed: pending, unknown, already played, or its slot is to be activated. */
  lemma {:induction false} ClassifyCovers(ids: seq<string>, views: seq<SlotView>, coll: Option<seq<Stream>>)
    ensures var r := Classify(ids, views, coll);
      forall x :: x in ids ==>
        (x in r.pending || x in r.unknown || x in r.future ||
         (FindView(views, x) < |views| && views[FindView(views, x)] in r.activate))
  {
    if ids != [] {
      var pre := ids[..|ids| - 1];
      assert ids == pre + [ids[|ids| - 1]];
      ClassifyCovers(pre, views, coll);
    }
  }

  // ---------------------------------------------------------------------
  // The second loop: slots to deactivate

  /**
   * A slot with an output that the request no longer wants: neither its
   * active stream nor a differing pending stream is requested.
   */
  predicate Unwanted(v: SlotView, ids: seq<string>)
  {
    v.hasOutput &&
    !(v.active.Some? && v.active.value.id in ids) &&
    !(v.pending.Some? && v.pending != v.active && v.pending.value.id in ids)
  }

  function Deactivations(views: seq<SlotView>, ids: seq<string>): seq<SlotView>
  {
    if views == [] then []
    else
      var r := Deactivations(views[..|views| - 1], ids);
      if Unwanted(views[|views| - 1], ids) then r + [views[|views| - 1]] else r
  }

  /** The slots to deactivate are exactly the unwanted slots, in slot order. */
  lemma {:induction false} DeactivationsExact(views: seq<SlotView>, ids: seq<string>)
    ensures var r := Deactivations(views, ids);
      (forall i :: 0 <= i < |r| ==> r[i] in views && Unwanted(r[i], ids)) &&
      (forall i :: 0 <= i < |views| && Unwanted(views[i], ids) ==> views[i] in r) &&
      IsSubsequence(r, views)
  {
    if views != [] {
      var pre := views[..|views| - 1];
      var last := views[|views| - 1];
      assert views == pre + [last];
      DeactivationsExact(pre, ids);
      var r := Deactivations(pre, ids);
      if Unwanted(last, ids) {
        SubsequenceSnoc(r, pre, last);
      } else {
        SubsequenceExtend(r, pre, last);
      }
    }
  }

  // ---------------------------------------------------------------------
  // The pairing loop

  /** The position of the first slot of type `t`, or |vs|. */
  function FirstOfStype(vs: seq<SlotView>, t: StreamType): (k: nat)
    ensures k <= |vs|
    ensures k < |vs| ==> vs[k].stype == t
    ensures forall j :: 0 <= j < k ==> vs[j].stype != t
  {
    if vs == [] then 0
    else if vs[0].stype == t then 0
    else 1 + FirstOfStype(vs[1..], t)
  }

  /**
   * Each slot to deactivate, in order, takes the first remaining slot to
   * activate of its type. The i-th slot of `given` hands its output to
   * the i-th slot of `taken`.
   */
  datatype Pairing = Pairing(given: seq<SlotView>, taken: seq<SlotView>, leftDeact: seq<SlotView>, leftAct: seq<SlotView>)

  function Pair(deact: seq<SlotView>, act: seq<SlotView>): (r: Pairing)
    ensures |r.given| == |r.taken|
    decreases |deact|
  {
    if deact == [] then Pairing([], [], [], act)
    else
      var d := deact[0];
      var k := FirstOfStype(act, d.stype);
      if k < |act| then
        var r := Pair(deact[1..], RemoveFirst(act, act[k]));
        Pairing([d] + r.given, [act[k]] + r.taken, r.leftDeact, r.leftAct)
      else
        var r := Pair(deact[1..], act);
        Pairing(r.given, r.taken, [d] + r.leftDeact, r.leftAct)
  }

  /** One step of Pair, unfolded. */
  lemma PairStep(deact: seq<SlotView>, act: seq<SlotView>)
    requires deact != []
    ensures var d := deact[0];
      var k := FirstOfStype(act, d.stype);
      if k < |act| then
        var r := Pair(deact[1..], RemoveFirst(act, act[k]));
        Pair(deact, act) == Pairing([d] + r.given, [act[k]] + r.taken, r.leftDeact, r.leftAct)
      else
        var r := Pair(deact[1..], act);
        Pair(deact, act) == Pairing(r.given, r.taken, [d] + r.leftDeact, r.leftAct)
  {
  }

  /** A pairing of a prefix done, followed by the pairing of the rest. */
  function Join(given: seq<SlotView>, taken: seq<SlotView>, left: seq<SlotView>, r: Pairing): Pairing
  {
    Pairing(given + r.given, taken + r.taken, left + r.leftDeact, r.leftAct)
  }

  /** One more slot to deactivate moves from the rest into the prefix. */
  lemma PairAdvance(whole: Pairing, rest: seq<SlotView>, acts: seq<SlotView>,
                    given: seq<SlotView>, taken: seq<SlotView>, left: seq<SlotView>)
    requires rest != [] && whole == Join(given, taken, left, Pair(rest, acts))
    ensures var k := FirstOfStype(acts, rest[0].stype);
      if k < |acts| then
        whole == Join(given + [rest[0]], taken + [acts[k]], left, Pair(rest[1..], RemoveFirst(acts, acts[k])))
      else
        whole == Join(given, taken, left + [rest[0]], Pair(rest[1..], acts))
  {
    PairStep(rest, acts);
    var k := FirstOfStype(acts, rest[0].stype);
    if k < |acts| {
      var r := Pair(rest[1..], RemoveFirst(acts, acts[k]));
      assert given + ([rest[0]] + r.given) == (given + [rest[0]]) + r.given;
      assert taken + ([acts[k]] + r.taken) == (taken + [acts[k]]) + r.taken;
    } else {
      var r := Pair(rest[1..], acts);
      assert left + ([rest[0]] + r.leftDeact) == (left + [rest[0]]) + r.leftDeact;
    }
  }

  /** Every pair joins two slots of the same type. */
  lemma {:induction false} PairTyped(deact: seq<SlotView>, act: seq<SlotView>)
    ensures var r := Pair(deact, act);
      forall i :: 0 <= i < |r.given| ==> r.given[i].stype == r.taken[i].stype
    decreases |deact|
  {
    if deact != [] {
      var d := deact[0];
      var k := FirstOfStype(act, d.stype);
      PairStep(deact, act);
      if k < |act| {
        PairTyped(deact[1..], RemoveFirst(act, act[k]));
        var r := Pair(deact[1..], RemoveFirst(act, act[k]));
        var g, t := [d] + r.given, [act[k]] + r.taken;
        forall i | 0 <= i < |g| ensures g[i].stype == t[i].stype {
          if i > 0 {
            assert g[i] == r.given[i - 1] && t[i] == r.taken[i - 1];
          }
        }
      } else {
        PairTyped(deact[1..], act);
      }
    }
  }

  /** Each slot to deactivate is either paired or left over, once. */
  lemma {:induction false} PairSplitsDeactivations(deact: seq<SlotView>, act: seq<SlotView>)
    ensures var r := Pair(deact, act);
      multiset(r.given) + multiset(r.leftDeact) == multiset(deact)
    decreases |deact|
  {
    if deact != [] {
      var d := deact[0];
      assert deact == [d] + deact[1..];
      var k := FirstOfStype(act, d.stype);
      PairStep(deact, act);
      if k < |act| {
        PairSplitsDeactivations(deact[1..], RemoveFirst(act, act[k]));
      } else {
        PairSplitsDeactivations(deact[1..], act);
      }
    }
  }

  /** Each slot to activate is taken by at most one pair or left over. */
  lemma {:induction false} PairSplitsActivations(deact: seq<SlotView>, act: seq<SlotView>)
    ensures var r := Pair(deact, act);
      multiset(r.taken) + multiset(r.leftAct) == multiset(act)
    decreases |deact|
  {
    if deact != [] {
      var d := deact[0];
      var k := FirstOfStype(act, d.stype);
      PairStep(deact, act);
      if k < |act| {
        var x := act[k];
        var rest := RemoveFirst(act, x);
        var r := Pair(deact[1..], rest);
        PairSplitsActivations(deact[1..], rest);
        RemoveFirstMultiset(act, x);
        assert x in multiset(act);
        assert multiset([x] + r.taken) == multiset{x} + multiset(r.taken);
        assert multiset{x} + (multiset(act) - multiset{x}) == multiset(act);
      } else {
        PairSplitsActivations(deact[1..], act);
      }
    }
  }

  /** What is left on either side has no partner of its type on the other. */
  lemma {:induction false} PairMaximal(deact: seq<SlotView>, act: seq<SlotView>)
    ensures var r := Pair(deact, act);
      forall i, j :: 0 <= i < |r.leftDeact| && 0 <= j < |r.leftAct| ==> r.leftDeact[i].stype != r.leftAct[j].stype
    decreases |deact|
  {
    if deact != [] {
      var d := deact[0];
      var k := FirstOfStype(act, d.stype);
      PairStep(deact, act);
      if k < |act| {
        PairMaximal(deact[1..], RemoveFirst(act, act[k]));
      } else {
        var r := Pair(deact[1..], act);
        PairMaximal(deact[1..], act);
        PairSplitsActivations(deact[1..], act);
        var ld := [d] + r.leftDeact;
        forall i, j | 0 <= i < |ld| && 0 <= j < |r.leftAct| ensures ld[i].stype != r.leftAct[j].stype {
          if i == 0 {
            assert r.leftAct[j] in multiset(r.leftAct);
            assert r.leftAct[j] in multiset(act);
          } else {
            assert ld[i] == r.leftDeact[i - 1];
          }
        }
      }
    }
  }

  // ---------------------------------------------------------------------
  // The new lists

  /** The active ids of the slots taken by a pair (to_reassign); a slot without one adds nothing. */
  function ReassignIds(taken: seq<SlotView>): seq<string>
  {
    if taken == [] then []
    else
      var v := taken[|taken| - 1];
      ReassignIds(taken[..|taken| - 1]) + (if v.active.Some? then [v.active.value.id] else [])
  }

  /** to_reassign holds the active ids of the taken slots and nothing else. */
  lemma {:induction false} ReassignIdsExact(taken: seq<SlotView>)
    ensures |ReassignIds(taken)| <= |taken|
    ensures forall x :: x in ReassignIds(taken) <==>
      exists i :: 0 <= i < |taken| && taken[i].active.Some? && taken[i].active.value.id == x
  {
    if taken != [] {
      var pre := taken[..|taken| - 1];
      var v := taken[|taken| - 1];
      ReassignIdsExact(pre);
      assert forall i :: 0 <= i < |pre| ==> taken[i] == pre[i];
      forall x ensures x in ReassignIds(taken) <==>
        exists i :: 0 <= i < |taken| && taken[i].active.Some? && taken[i].active.value.id == x
      {
        if x in ReassignIds(taken) && x !in ReassignIds(pre) {
          assert taken[|taken| - 1].active.Some? && taken[|taken| - 1].active.value.id == x;
        }
        if exists i :: 0 <= i < |taken| && taken[i].active.Some? && taken[i].active.value.id == x {
          var i :| 0 <= i < |taken| && taken[i].active.Some? && taken[i].active.value.id == x;
          if i < |pre| {
            assert pre[i] == taken[i];
          }
        }
      }
    }
  }

  /**
   * to_reassign as the source builds it: the id of every taken slot's
   * active stream, and NULL (here None) for a taken slot without one, since
   * gst_stream_get_stream_id of a NULL stream returns NULL.
   */
  function ReassignIdsAsWritten(taken: seq<SlotView>): (r: seq<Option<string>>)
    ensures |r| == |taken|
    ensures forall i :: 0 <= i < |taken| ==> (r[i].Some? <==> taken[i].active.Some?)
  {
    if taken == [] then []
    else
      var v := taken[|taken| - 1];
      var pre := ReassignIdsAsWritten(taken[..|taken| - 1]);
      assert forall i :: 0 <= i < |taken| - 1 ==> taken[..|taken| - 1][i] == taken[i];
      pre + [if v.active.Some? then Some(v.active.value.id) else None]
  }

  /** The ids of a list, without its NULL entries. */
  function PresentIds(xs: seq<Option<string>>): seq<string>
  {
    if xs == [] then []
    else PresentIds(xs[..|xs| - 1]) + (if xs[|xs| - 1].Some? then [xs[|xs| - 1].value] else [])
  }

  /** The model's to_reassign is the source's without its NULL entries. */
  lemma {:induction false} ReassignIdsDropsNull(taken: seq<SlotView>)
    ensures PresentIds(ReassignIdsAsWritten(taken)) == ReassignIds(taken)
  {
    if taken != [] {
      ReassignIdsDropsNull(taken[..|taken| - 1]);
      var xs := ReassignIdsAsWritten(taken);
      assert xs[..|xs| - 1] == ReassignIdsAsWritten(taken[..|taken| - 1]);
    }
  }

  /**
   * A taken slot that holds the requested id only as its pending stream
   * puts NULL on the source's to_activate, which no slot's id matches, so
   * the list never empties and is_selection_done never reports; the model
   * leaves the list empty.
   */
  lemma ReassignNullEntry(v: SlotView)
    requires v.active.None?
    ensures ReassignIdsAsWritten([v]) == [None]
    ensures ReassignIds([v]) == []
  {
    assert [v][..0] == [];
  }

  /** The ids the unpaired slots to activate ask for: their active stream, else their pending one. */
  function FutureIds(left: seq<SlotView>): seq<string>
  {
    if left == [] then []
    else
      var v := left[|left| - 1];
      FutureIds(left[..|left| - 1]) +
        (if v.active.Some? then [v.active.value.id]
         else if v.pending.Some? then [v.pending.value.id]
         else [])
  }

  /** Every unpaired slot to activate asks for its active stream, or failing that its pending one. */
  lemma {:induction false} FutureIdsCover(left: seq<SlotView>)
    ensures |FutureIds(left)| <= |left|
    ensures forall i :: 0 <= i < |left| && left[i].active.Some? ==> left[i].active.value.id in FutureIds(left)
    ensures forall i :: 0 <= i < |left| && left[i].active.None? && left[i].pending.Some? ==>
      left[i].pending.value.id in FutureIds(left)
  {
    if left != [] {
      var pre := left[..|left| - 1];
      FutureIdsCover(pre);
      assert forall i :: 0 <= i < |pre| ==> left[i] == pre[i];
    }
  }

  function Reconfigures(vs: seq<SlotView>): (r: seq<Deferred>)
    ensures |r| == |vs| && forall i :: 0 <= i < |vs| ==> r[i] == ReconfigureSlot(vs[i].slot)
  {
    seq(|vs|, i requires 0 <= i < |vs| => ReconfigureSlot(vs[i].slot))
  }

  function Unassigns(vs: seq<SlotView>): (r: seq<Deferred>)
    ensures |r| == |vs| && forall i :: 0 <= i < |vs| ==> r[i] == UnassignSlot(vs[i].slot)
  {
    seq(|vs|, i requires 0 <= i < |vs| => UnassignSlot(vs[i].slot))
  }

  // ---------------------------------------------------------------------
  // handle_stream_switch

  /**
   * What a switch writes: the new requested list, the new to_activate list
   * (None when the request only names streams no slot carries yet, which
   * leaves it alone) and the idle probes queued on the slots.
   */
  datatype Switch = Switch(requested: seq<string>, toActivate: Option<seq<string>>, queued: seq<Deferred>)

  /** The switch a request makes against a snapshot of the slots. */
  function PlanSwitch(views: seq<SlotView>, ids: seq<string>, coll: Option<seq<Stream>>): Switch
  {
    var c := Classify(ids, views, coll);
    var p := Pair(Deactivations(views, ids), c.activate);
    var unassign := p.given + p.leftDeact;
    var onlyPending := p.leftAct == [] && c.pending != [];
    Switch(if onlyPending then ids else c.future + FutureIds(p.leftAct) + c.pending,
           if onlyPending then None else Some(ReassignIds(p.taken)),
           (if p.leftAct != [] && unassign == [] then Reconfigures(p.leftAct) else []) + Unassigns(unassign))
  }

  /** An id the unpaired slots ask for is carried by one of them. */
  lemma {:induction false} FutureIdsCarried(left: seq<SlotView>)
    ensures forall x :: x in FutureIds(left) ==> exists i :: 0 <= i < |left| && ViewHasStreamId(left[i], x)
  {
    if left != [] {
      var pre := left[..|left| - 1];
      FutureIdsCarried(pre);
      forall x | x in FutureIds(left) ensures exists i :: 0 <= i < |left| && ViewHasStreamId(left[i], x) {
        if x in FutureIds(pre) {
          var i :| 0 <= i < |pre| && ViewHasStreamId(pre[i], x);
          assert left[i] == pre[i];
        } else {
          assert ViewHasStreamId(left[|left| - 1], x);
        }
      }
    }
  }

  /** Only the Unassigns part of a queue unassigns. */
  lemma QueuedUnassigns(r: seq<Deferred>, u: seq<SlotView>, sl: Slot)
    requires forall j :: 0 <= j < |r| ==> r[j].ReconfigureSlot?
    ensures UnassignSlot(sl) in r + Unassigns(u) <==> exists m :: 0 <= m < |u| && u[m].slot == sl
  {
    var q := r + Unassigns(u);
    if UnassignSlot(sl) in q {
      var j :| 0 <= j < |q| && q[j] == UnassignSlot(sl);
      assert j >= |r| && q[j] == Unassigns(u)[j - |r|];
    }
    if exists m :: 0 <= m < |u| && u[m].slot == sl {
      var m :| 0 <= m < |u| && u[m].slot == sl;
      assert q[|r| + m] == UnassignSlot(sl);
    }
  }

  /** A rearrangement of the unwanted slots covers the slots of the unwanted slots. */
  lemma UnwantedSlots(u: seq<SlotView>, d: seq<SlotView>, views: seq<SlotView>, ids: seq<string>, sl: Slot)
    requires multiset(u) == multiset(d)
    requires forall i :: 0 <= i < |d| ==> d[i] in views && Unwanted(d[i], ids)
    requires forall i :: 0 <= i < |views| && Unwanted(views[i], ids) ==> views[i] in d
    ensures (exists m :: 0 <= m < |u| && u[m].slot == sl) <==>
      exists i :: 0 <= i < |views| && views[i].slot == sl && Unwanted(views[i], ids)
  {
    if exists m :: 0 <= m < |u| && u[m].slot == sl {
      var m :| 0 <= m < |u| && u[m].slot == sl;
      assert u[m] in multiset(d);
      var k :| 0 <= k < |d| && d[k] == u[m];
      var i :| 0 <= i < |views| && views[i] == d[k];
    }
    if exists i :: 0 <= i < |views| && views[i].slot == sl && Unwanted(views[i], ids) {
      var i :| 0 <= i < |views| && views[i].slot == sl && Unwanted(views[i], ids);
      assert views[i] in multiset(u);
      var m :| 0 <= m < |u| && u[m] == views[i];
    }
  }

  /** The slots a switch unassigns are exactly the slots with an output that the request no longer wants. */
  lemma SwitchUnassignsUnwanted(views: seq<SlotView>, ids: seq<string>, coll: Option<seq<Stream>>)
    ensures var q := PlanSwitch(views, ids, coll).queued;
      forall sl :: UnassignSlot(sl) in q <==> exists i :: 0 <= i < |views| && views[i].slot == sl && Unwanted(views[i], ids)
  {
    var c := Classify(ids, views, coll);
    var d := Deactivations(views, ids);
    var p := Pair(d, c.activate);
    var u := p.given + p.leftDeact;
    var r := if p.leftAct != [] && u == [] then Reconfigures(p.leftAct) else [];
    assert PlanSwitch(views, ids, coll).queued == r + Unassigns(u);
    DeactivationsExact(views, ids);
    PairSplitsDeactivations(d, c.activate);
    assert multiset(u) == multiset(d);
    forall sl ensures UnassignSlot(sl) in r + Unassigns(u) <==>
      exists i :: 0 <= i < |views| && views[i].slot == sl && Unwanted(views[i], ids)
    {
      QueuedUnassigns(r, u, sl);
      UnwantedSlots(u, d, views, ids, sl);
    }
  }

  /** A slot a switch reconfigures is one without an output. */
  lemma SwitchReconfiguresIdle(views: seq<SlotView>, ids: seq<string>, coll: Option<seq<Stream>>)
    ensures var q := PlanSwitch(views, ids, coll).queued;
      forall j :: 0 <= j < |q| && q[j].ReconfigureSlot? ==> exists i :: 0 <= i < |views| && views[i].slot == q[j].reconfigure && !views[i].hasOutput
  {
    var c := Classify(ids, views, coll);
    var d := Deactivations(views, ids);
    var p := Pair(d, c.activate);
    var u := p.given + p.leftDeact;
    var r := if p.leftAct != [] && u == [] then Reconfigures(p.leftAct) else [];
    assert PlanSwitch(views, ids, coll).queued == r + Unassigns(u);
    var q := r + Unassigns(u);
    ClassifySound(ids, views, coll);
    PairSplitsActivations(d, c.activate);
    forall j | 0 <= j < |q| && q[j].ReconfigureSlot?
      ensures exists i :: 0 <= i < |views| && views[i].slot == q[j].reconfigure && !views[i].hasOutput
    {
      assert j < |r| && q[j] == r[j] && r[j] == ReconfigureSlot(p.leftAct[j].slot);
      assert p.leftAct[j] in multiset(c.activate);
      var k :| 0 <= k < |c.activate| && c.activate[k] == p.leftAct[j];
      var i :| 0 <= i < |views| && views[i] == c.activate[k];
    }
  }

  /**
   * Unless the request only names streams no slot carries yet, every id
   * the switch requests is a stream of the collection or is carried by a
   * slot: ids nobody knows are dropped.
   */
  lemma SwitchRequestsKnown(views: seq<SlotView>, ids: seq<string>, coll: Option<seq<Stream>>)
    ensures var s := PlanSwitch(views, ids, coll);
      s.toActivate.Some? ==> forall x :: x in s.requested ==> InCollection(coll, x) || FindView(views, x) < |views|
    ensures var s := PlanSwitch(views, ids, coll);
      s.toActivate.None? ==> s.requested == ids
  {
    var c := Classify(ids, views, coll);
    var p := Pair(Deactivations(views, ids), c.activate);
    ClassifySound(ids, views, coll);
    PairSplitsActivations(Deactivations(views, ids), c.activate);
    assert multiset(p.leftAct) <= multiset(c.activate);
    LeftIdsKnown(views, c.activate, p.leftAct);
  }

  /** The ids asked for by slots drawn from `views` name slots of `views`. */
  lemma LeftIdsKnown(views: seq<SlotView>, act: seq<SlotView>, left: seq<SlotView>)
    requires forall i :: 0 <= i < |act| ==> act[i] in views
    requires multiset(left) <= multiset(act)
    ensures forall x :: x in FutureIds(left) ==> FindView(views, x) < |views|
  {
    FutureIdsCarried(left);
    forall x | x in FutureIds(left) ensures FindView(views, x) < |views| {
      var i :| 0 <= i < |left| && ViewHasStreamId(left[i], x);
      assert left[i] in multiset(act);
      var k :| 0 <= k < |act| && act[k] == left[i];
      var j :| 0 <= j < |views| && views[j] == act[k];
      assert ViewHasStreamId(views[j], x);
    }
  }

  /** The body of handle_stream_switch on the snapshot: its four loops in order. */
  method ComputeSwitch(views: seq<SlotView>, ids: seq<string>, coll: Option<seq<Stream>>) returns (s: Switch)
    ensures s == PlanSwitch(views, ids, coll)
  {
    var c := ClassifyRequest(ids, views, coll);
    var deact := SlotsToDeactivate(views, ids);
    var p, reassign := PairSlots(deact, c.activate);
    var future := FutureRequests(p.leftAct);
    var unassign := p.given + p.leftDeact;
    var queued := [];
    if p.leftAct != [] && unassign == [] {
      queued := Reconfigures(p.leftAct);
    }
    queued := queued + Unassigns(unassign);
    if p.leftAct == [] && c.pending != [] {
      s := Switch(ids, None, queued);
    } else {
      s := Switch(c.future + future + c.pending, Some(reassign), queued);
    }
  }

  /**
   * handle_stream_switch: a request answering an older SELECT_STREAMS is
   * ignored. Otherwise the pending request is dropped, the selection lists
   * are rewritten as PlanSwitch says and its idle probes are queued.
   */
  method HandleStreamSwitch(dbin: Decodebin3, ids: seq<string>, seqnum: uint32) returns (ret: bool)
    modifies dbin`pendingSelectStreams, dbin`requested, dbin`toActivate, dbin`selectionUpdated, dbin`deferred
    ensures ret
    ensures seqnum != dbin.selectStreamsSeqnum ==>
      dbin.pendingSelectStreams == old(dbin.pendingSelectStreams) && dbin.requested == old(dbin.requested) &&
      dbin.toActivate == old(dbin.toActivate) && dbin.selectionUpdated == old(dbin.selectionUpdated) &&
      dbin.deferred == old(dbin.deferred)
    ensures seqnum == dbin.selectStreamsSeqnum ==>
      var s := PlanSwitch(old(Views(dbin.slots)), ids, dbin.collection);
      dbin.pendingSelectStreams == [] && dbin.selectionUpdated && dbin.requested == s.requested &&
      dbin.toActivate == (if s.toActivate.Some? then s.toActivate.value else old(dbin.toActivate)) &&
      dbin.deferred == old(dbin.deferred) + s.queued
  {
    ret := true;
    if seqnum != dbin.selectStreamsSeqnum {
      return;
    }
    var s := ComputeSwitch(Views(dbin.slots), ids, dbin.collection);
    ApplySwitch(dbin, s);
  }

  /** The writes that end handle_stream_switch. */
  method ApplySwitch(dbin: Decodebin3, s: Switch)
    modifies dbin`pendingSelectStreams, dbin`requested, dbin`toActivate, dbin`selectionUpdated, dbin`deferred
    ensures dbin.pendingSelectStreams == [] && dbin.selectionUpdated && dbin.requested == s.requested
    ensures dbin.toActivate == (if s.toActivate.Some? then s.toActivate.value else old(dbin.toActivate))
    ensures dbin.deferred == old(dbin.deferred) + s.queued
  {
    var act := if s.toActivate.Some? then s.toActivate.value else dbin.toActivate;
    dbin.pendingSelectStreams, dbin.requested, dbin.toActivate, dbin.selectionUpdated, dbin.deferred :=
      [], s.requested, act, true, dbin.deferred + s.queued;
  }

  /** The first loop: the requested ids filed against the slots. */
  method ClassifyRequest(ids: seq<string>, views: seq<SlotView>, coll: Option<seq<Stream>>) returns (c: Request)
    ensures c == Classify(ids, views, coll)
  {
    c := Request([], [], [], []);
    for i := 0 to |ids|
      invariant c == Classify(ids[..i], views, coll)
    {
      var sid := ids[i];
      ghost var prev := c;
      var k := FindView(views, sid);
      if k == |views| {
        if InCollection(coll, sid) {
          c := c.(pending := c.pending + [sid]);
        } else {
          c := c.(unknown := c.unknown + [sid]);
        }
      } else if !views[k].hasOutput {
        c := c.(activate := c.activate + [views[k]]);
      } else {
        c := c.(future := c.future + [sid]);
      }
      assert c == FileId(prev, sid, views, coll);
      ClassifySnoc(ids[..i], sid, views, coll);
      assert ids[..i + 1] == ids[..i] + [sid];
    }
    assert ids[..|ids|] == ids;
  }

  /** The second loop: the slots with an output that no requested id keeps. */
  method SlotsToDeactivate(views: seq<SlotView>, ids: seq<string>) returns (deact: seq<SlotView>)
    ensures deact == Deactivations(views, ids)
  {
    deact := [];
    for i := 0 to |views|
      invariant deact == Deactivations(views[..i], ids)
    {
      assert views[..i + 1][..i] == views[..i];
      var v := views[i];
      if v.hasOutput {
        var deactivate := true;
        if v.active.Some? && StreamInList(ids, v.active.value.id).Some? {
          deactivate := false;
        }
        if deactivate && v.pending.Some? && v.pending != v.active && StreamInList(ids, v.pending.value.id).Some? {
          deactivate := false;
        }
        if deactivate {
          deact := deact + [v];
        }
      }
    }
    assert views[..|views|] == views;
  }

  /** The inner loop of the pairing: the first remaining slot to activate of type `t`. */
  method FindStype(acts: seq<SlotView>, t: StreamType) returns (j: nat)
    ensures j == FirstOfStype(acts, t)
  {
    j := 0;
    while j < |acts| && acts[j].stype != t
      invariant 0 <= j <= |acts|
      invariant forall m :: 0 <= m < j ==> acts[m].stype != t
    {
      j := j + 1;
    }
  }

  /**
   * The pairing loop: every slot to deactivate takes the first remaining
   * slot to activate of its type; the taken slots' active ids form
   * to_reassign.
   */
  method PairSlots(deact: seq<SlotView>, act: seq<SlotView>) returns (p: Pairing, reassign: seq<string>)
    ensures p == Pair(deact, act)
    ensures reassign == ReassignIds(p.taken)
  {
    var given, taken, left, acts := [], [], [], act;
    reassign := [];
    var i := 0;
    while i < |deact|
      invariant 0 <= i <= |deact|
      invariant Pair(deact, act) == Join(given, taken, left, Pair(deact[i..], acts))
      invariant reassign == ReassignIds(taken)
    {
      var d := deact[i];
      var j := FindStype(acts, d.stype);
      PairAdvance(Pair(deact, act), deact[i..], acts, given, taken, left);
      assert deact[i..][1..] == deact[i + 1..];
      if j < |acts| {
        var a := acts[j];
        assert (taken + [a])[..|taken|] == taken;
        if a.active.Some? {
          reassign := reassign + [a.active.value.id];
        }
        given, taken := given + [d], taken + [a];
        acts := RemoveFirst(acts, a);
      } else {
        left := left + [d];
      }
      i := i + 1;
    }
    assert given + [] == given && taken + [] == taken && left + [] == left;
    p := Pairing(given, taken, left, acts);
  }

  /** The last loop: the ids of the slots still to activate, which need an output of their own. */
  method FutureRequests(left: seq<SlotView>) returns (future: seq<string>)
    ensures future == FutureIds(left)
  {
    future := [];
    for k := 0 to |left|
      invariant future == FutureIds(left[..k])
    {
      assert left[..k + 1][..k] == left[..k];
      var v := left[k];
      if v.active.Some? {
        future := future + [v.active.value.id];
      } else if v.pending.Some? {
        future := future + [v.pending.value.id];
      } else {
        // the source logs "No stream for slot" and adds nothing
      }
    }
    assert left[..|left|] == left;
  }
}
