// priv_handle_stream_switch (gstdecodebin3-tv.c): the switch the TV build
// runs instead of handle_stream_switch. On top of the base switch it sets
// aside slots whose stream a DVR upstream is about to change (and keeps
// the outputs of their type), accepts a request for a slot's previous
// stream as a request for its active one, and only activates slots that
// have an active stream.

module StreamSwitchTv {
  import opened Streams
  import opened Selection
  import opened Decodebin
  import opened StreamSwitch

  // ---------------------------------------------------------------------
  // The first loop

  /** The first loop's lists; `ignore` holds the slots the DVR upstream will change (slots_to_ignore). */
  datatype TvRequest = TvRequest(pending: seq<string>, unknown: seq<string>, activate: seq<SlotView>,
                                 ignore: seq<SlotView>, future: seq<string>)

  /** A slot that can be activated: it has an active stream and no output yet. */
  predicate Activatable(v: SlotView)
  {
    !v.hasOutput && v.active.Some?
  }

  /** DVR playback, and the id left the collection but is still in the active collection. */
  predicate ChangedUpstream(sid: string, coll: Option<seq<Stream>>, activeColl: Option<seq<Stream>>, dvr: bool)
  {
    dvr && !InCollection(coll, sid) && InCollection(activeColl, sid)
  }

  /**
   * The id a request stands for: a request for the previous stream of a
   * slot that is not to be activated stands for the slot's active stream.
   */
  function Rewrite(views: seq<SlotView>, sid: string): string
  {
    var k := FindView(views, sid);
    if k < |views| && !Activatable(views[k]) && views[k].active.Some? && views[k].previous.Some? &&
       sid == views[k].previous.value.id
    then views[k].active.value.id
    else sid
  }

  /** A request is rewritten only into the active id of the slot holding the requested id as its previous stream. */
  lemma RewriteMeaning(views: seq<SlotView>, sid: string)
    ensures var x := Rewrite(views, sid);
      x != sid ==> var k := FindView(views, sid);
        k < |views| && !Activatable(views[k]) && views[k].previous.Some? && views[k].previous.value.id == sid &&
        views[k].active.Some? && x == views[k].active.value.id
    ensures FindView(views, sid) == |views| ==> Rewrite(views, sid) == sid
  {
  }

  /** new_select_streams once the first loop has rewritten it. */
  function Rewritten(views: seq<SlotView>, ids: seq<string>): (r: seq<string>)
    ensures |r| == |ids| && forall i :: 0 <= i < |ids| ==> r[i] == Rewrite(views, ids[i])
  {
    seq(|ids|, i requires 0 <= i < |ids| => Rewrite(views, ids[i]))
  }

  function ClassifyTv(ids: seq<string>, views: seq<SlotView>, coll: Option<seq<Stream>>,
                      activeColl: Option<seq<Stream>>, dvr: bool): TvRequest
  {
    if ids == [] then TvRequest([], [], [], [], [])
    else FileIdTv(ClassifyTv(ids[..|ids| - 1], views, coll, activeColl, dvr), ids[|ids| - 1], views, coll, activeColl, dvr)
  }

  /** Where the first loop of the TV switch files one id. */
  function FileIdTv(r: TvRequest, sid: string, views: seq<SlotView>, coll: Option<seq<Stream>>,
                    activeColl: Option<seq<Stream>>, dvr: bool): TvRequest
  {
    var k := FindView(views, sid);
    if k == |views| then
      if InCollection(coll, sid) then r.(pending := r.pending + [sid]) else r.(unknown := r.unknown + [sid])
    else if Activatable(views[k]) then
      if ChangedUpstream(sid, coll, activeColl, dvr) then r.(ignore := r.ignore + [views[k]])
      else r.(activate := r.activate + [views[k]])
    else r.(future := r.future + [Rewrite(views, sid)])
  }

  lemma ClassifyTvSnoc(ids: seq<string>, sid: string, views: seq<SlotView>, coll: Option<seq<Stream>>,
                       activeColl: Option<seq<Stream>>, dvr: bool)
    ensures ClassifyTv(ids + [sid], views, coll, activeColl, dvr) ==
      FileIdTv(ClassifyTv(ids, views, coll, activeColl, dvr), sid, views, coll, activeColl, dvr)
  {
    assert (ids + [sid])[..|ids|] == ids;
  }

  /** Every id is filed once; pending and unknown ids are carried by no slot, and split by the collection. */
  lemma {:induction false} ClassifyTvIds(ids: seq<string>, views: seq<SlotView>, coll: Option<seq<Stream>>,
                                         activeColl: Option<seq<Stream>>, dvr: bool)
    ensures var r := ClassifyTv(ids, views, coll, activeColl, dvr);
      |r.pending| + |r.unknown| + |r.activate| + |r.ignore| + |r.future| == |ids| &&
      (forall x :: x in r.pending ==> x in ids && FindView(views, x) == |views| && InCollection(coll, x)) &&
      (forall x :: x in r.unknown ==> x in ids && FindView(views, x) == |views| && !InCollection(coll, x))
  {
    if ids != [] {
      var pre := ids[..|ids| - 1];
      var sid := ids[|ids| - 1];
      assert ids == pre + [sid];
      ClassifyTvIds(pre, views, coll, activeColl, dvr);
      var r0 := ClassifyTv(pre, views, coll, activeColl, dvr);
      var r := ClassifyTv(ids, views, coll, activeColl, dvr);
      assert r == FileIdTv(r0, sid, views, coll, activeColl, dvr);
      if FindView(views, sid) == |views| {
        assert r.activate == r0.activate && r.ignore == r0.ignore && r.future == r0.future;
        if InCollection(coll, sid) {
          assert r.pending == r0.pending + [sid] && r.unknown == r0.unknown;
        } else {
          assert r.unknown == r0.unknown + [sid] && r.pending == r0.pending;
        }
      } else {
        assert r.pending == r0.pending && r.unknown == r0.unknown;
      }
    }
  }

  /**
   * The slots to activate and those set aside can be activated; slots are
   * set aside only in DVR playback.
   */
  lemma {:induction false} ClassifyTvSlots(ids: seq<string>, views: seq<SlotView>, coll: Option<seq<Stream>>,
                                           activeColl: Option<seq<Stream>>, dvr: bool)
    ensures AllActivatable(ClassifyTv(ids, views, coll, activeColl, dvr).activate, views)
    ensures AllActivatable(ClassifyTv(ids, views, coll, activeColl, dvr).ignore, views)
    ensures !dvr ==> ClassifyTv(ids, views, coll, activeColl, dvr).ignore == []
  {
    if ids != [] {
      var sid := ids[|ids| - 1];
      var pre := ids[..|ids| - 1];
      ClassifyTvSlots(pre, views, coll, activeColl, dvr);
      var r0 := ClassifyTv(pre, views, coll, activeColl, dvr);
      var r := ClassifyTv(ids, views, coll, activeColl, dvr);
      assert r == FileIdTv(r0, sid, views, coll, activeColl, dvr);
      var k := FindView(views, sid);
      if k < |views| && Activatable(views[k]) {
        assert views[k] in views;
        if ChangedUpstream(sid, coll, activeColl, dvr) {
          assert r.ignore == r0.ignore + [views[k]] && r.activate == r0.activate;
          ActivatableAppend(r0.ignore, views[k], views);
        } else {
          assert r.activate == r0.activate + [views[k]] && r.ignore == r0.ignore;
          ActivatableAppend(r0.activate, views[k], views);
        }
      } else {
        assert r.activate == r0.activate && r.ignore == r0.ignore;
      }
    }
  }

  /** Every slot of `a` is one of `views` and may be activated. */
  predicate AllActivatable(a: seq<SlotView>, views: seq<SlotView>)
  {
    forall i :: 0 <= i < |a| ==> a[i] in views && Activatable(a[i])
  }

  lemma ActivatableAppend(a: seq<SlotView>, v: SlotView, views: seq<SlotView>)
    requires AllActivatable(a, views) && v in views && Activatable(v)
    ensures AllActivatable(a + [v], views)
  {
    forall i | 0 <= i < |a + [v]| ensures (a + [v])[i] in views && Activatable((a + [v])[i]) {
      if i < |a| { assert (a + [v])[i] == a[i]; }
    }
  }

  /** The ids already played are requested ids as the first loop rewrites them. */
  lemma {:induction false} ClassifyTvFuture(ids: seq<string>, views: seq<SlotView>, coll: Option<seq<Stream>>,
                                            activeColl: Option<seq<Stream>>, dvr: bool)
    ensures forall x :: x in ClassifyTv(ids, views, coll, activeColl, dvr).future ==> x in Rewritten(views, ids)
  {
    if ids != [] {
      var pre := ids[..|ids| - 1];
      ClassifyTvFuture(pre, views, coll, activeColl, dvr);
      assert Rewritten(views, ids) == Rewritten(views, pre) + [Rewrite(views, ids[|ids| - 1])];
    }
  }

  // ---------------------------------------------------------------------
  // The second loop

  /** How many slots set aside have type `t`. */
  function IgnoredOfType(ignore: seq<SlotView>, t: StreamType): (n: nat)
    ensures n <= |ignore|
    ensures n > 0 <==> exists i :: 0 <= i < |ignore| && ignore[i].stype == t
  {
    if ignore == [] then 0
    else
      var pre := ignore[..|ignore| - 1];
      var m := IgnoredOfType(pre, t);
      assert forall i :: 0 <= i < |pre| ==> pre[i] == ignore[i];
      m + (if ignore[|ignore| - 1].stype == t then 1 else 0)
  }

  /** The request keeps the slot: it names its active stream or, when it has one, its previous stream, or a differing pending stream. */
  predicate KeptByRequest(v: SlotView, ids: seq<string>)
  {
    (v.active.Some? && (v.active.value.id in ids || (v.previous.Some? && v.previous.value.id in ids))) ||
    (v.pending.Some? && v.pending != v.active && v.pending.value.id in ids)
  }

  /** The active id of a slot kept for the slots set aside, once per slot set aside of its stream's type. */
  function MaintainedIds(v: SlotView, ignore: seq<SlotView>): (r: seq<string>)
    ensures forall x :: x in r ==> v.active.Some? && x == v.active.value.id
    ensures r == [] <==> v.active.None? || IgnoredOfType(ignore, v.active.value.stype) == 0
  {
    if v.active.Some? then
      var n := IgnoredOfType(ignore, v.active.value.stype);
      var r := seq(n, _ => v.active.value.id);
      assert n > 0 ==> r[0] == v.active.value.id;
      r
    else []
  }

  /** A slot with an output that neither the request nor the slots set aside keep. */
  predicate UnwantedTv(v: SlotView, ids: seq<string>, ignore: seq<SlotView>)
  {
    v.hasOutput && !KeptByRequest(v, ids) && MaintainedIds(v, ignore) == []
  }

  /** The second loop's results: the slots to deactivate and the ids kept for the slots set aside. */
  datatype Sweep = Sweep(deact: seq<SlotView>, maintained: seq<string>)

  function SweepSlots(views: seq<SlotView>, ids: seq<string>, ignore: seq<SlotView>): Sweep
  {
    if views == [] then Sweep([], [])
    else
      var r := SweepSlots(views[..|views| - 1], ids, ignore);
      var v := views[|views| - 1];
      if !v.hasOutput then r
      else Sweep(if UnwantedTv(v, ids, ignore) then r.deact + [v] else r.deact, r.maintained + MaintainedIds(v, ignore))
  }

  /** The slots to deactivate are exactly the unwanted slots, in slot order. */
  lemma {:induction false} SweepSlotsDeact(views: seq<SlotView>, ids: seq<string>, ignore: seq<SlotView>)
    ensures var w := SweepSlots(views, ids, ignore);
      (forall i :: 0 <= i < |w.deact| ==> w.deact[i] in views && UnwantedTv(w.deact[i], ids, ignore)) &&
      (forall i :: 0 <= i < |views| && UnwantedTv(views[i], ids, ignore) ==> views[i] in w.deact) &&
      IsSubsequence(w.deact, views)
  {
    if views != [] {
      var pre := views[..|views| - 1];
      var v := views[|views| - 1];
      assert views == pre + [v];
      SweepSlotsDeact(pre, ids, ignore);
      var r := SweepSlots(pre, ids, ignore);
      if v.hasOutput && UnwantedTv(v, ids, ignore) {
        SubsequenceSnoc(r.deact, pre, v);
      } else {
        SubsequenceExtend(r.deact, pre, v);
      }
    }
  }

  /** Some slot with an output has `x` as its active stream, of a type some set-aside slot also has. */
  predicate MaintainedFrom(views: seq<SlotView>, ignore: seq<SlotView>, x: string)
  {
    exists i :: 0 <= i < |views| && MaintainedAt(views, ignore, i) && views[i].active.value.id == x
  }

  /** The slot at `i` has an output and an active stream whose type a set-aside slot also has. */
  predicate MaintainedAt(views: seq<SlotView>, ignore: seq<SlotView>, i: int)
    requires 0 <= i < |views|
  {
    views[i].hasOutput && views[i].active.Some? && IgnoredOfType(ignore, views[i].active.value.stype) > 0
  }

  /**
   * The ids kept for the slots set aside are the active ids of the slots
   * with an output whose stream type a slot set aside has.
   */
  lemma {:induction false} SweepSlotsMaintained(views: seq<SlotView>, ids: seq<string>, ignore: seq<SlotView>)
    ensures forall x :: x in SweepSlots(views, ids, ignore).maintained ==> MaintainedFrom(views, ignore, x)
    ensures forall i :: 0 <= i < |views| && MaintainedAt(views, ignore, i) ==>
      views[i].active.value.id in SweepSlots(views, ids, ignore).maintained
  {
    if views != [] {
      var pre := views[..|views| - 1];
      var v := views[|views| - 1];
      SweepSlotsMaintained(pre, ids, ignore);
      var r := SweepSlots(pre, ids, ignore);
      var w := SweepSlots(views, ids, ignore);
      assert forall i :: 0 <= i < |pre| ==> views[i] == pre[i];
      forall x | x in w.maintained
        ensures MaintainedFrom(views, ignore, x)
      {
        if x in r.maintained {
          assert MaintainedFrom(pre, ignore, x);
          var i :| 0 <= i < |pre| && MaintainedAt(pre, ignore, i) && pre[i].active.value.id == x;
          assert MaintainedAt(views, ignore, i);
        } else {
          assert x in MaintainedIds(v, ignore);
          assert MaintainedAt(views, ignore, |views| - 1);
        }
      }
      forall i | 0 <= i < |views| && MaintainedAt(views, ignore, i)
        ensures views[i].active.value.id in w.maintained
      {
        if i < |pre| {
          assert MaintainedAt(pre, ignore, i);
        } else {
          var m := MaintainedIds(v, ignore);
          assert m[0] in m;
        }
      }
    }
  }

  // ---------------------------------------------------------------------
  // The switch

  /** The switch the TV build makes for a request against a snapshot of the slots. */
  function PlanSwitchTv(views: seq<SlotView>, ids: seq<string>, coll: Option<seq<Stream>>,
                        activeColl: Option<seq<Stream>>, dvr: bool): Switch
  {
    var c := ClassifyTv(ids, views, coll, activeColl, dvr);
    var w := SweepSlots(views, ids, c.ignore);
    var p := Pair(w.deact, c.activate);
    var unassign := p.given + p.leftDeact;
    var onlyPending := p.leftAct == [] && c.pending != [];
    Switch(if onlyPending then Rewritten(views, ids) else c.future + w.maintained + FutureIds(p.leftAct) + c.pending,
           if onlyPending then None else Some(ReassignIds(p.taken)),
           (if p.leftAct != [] && unassign == [] then Reconfigures(p.leftAct) else []) + Unassigns(unassign))
  }

  /** The slots a permutation of the swept slots names are exactly the unwanted slots. */
  lemma UnwantedTvSlots(u: seq<SlotView>, d: seq<SlotView>, views: seq<SlotView>, ids: seq<string>,
                        ignore: seq<SlotView>, sl: Slot)
    requires multiset(u) == multiset(d)
    requires forall i :: 0 <= i < |d| ==> d[i] in views && UnwantedTv(d[i], ids, ignore)
    requires forall i :: 0 <= i < |views| && UnwantedTv(views[i], ids, ignore) ==> views[i] in d
    ensures (exists m :: 0 <= m < |u| && u[m].slot == sl) <==>
      exists i :: 0 <= i < |views| && views[i].slot == sl && UnwantedTv(views[i], ids, ignore)
  {
    if exists m :: 0 <= m < |u| && u[m].slot == sl {
      var m :| 0 <= m < |u| && u[m].slot == sl;
      assert u[m] in multiset(d);
      var k :| 0 <= k < |d| && d[k] == u[m];
      var i :| 0 <= i < |views| && views[i] == d[k];
    }
    if exists i :: 0 <= i < |views| && views[i].slot == sl && UnwantedTv(views[i], ids, ignore) {
      var i :| 0 <= i < |views| && views[i].slot == sl && UnwantedTv(views[i], ids, ignore);
      assert views[i] in multiset(u);
      var m :| 0 <= m < |u| && u[m] == views[i];
    }
  }

  /** The TV switch unassigns exactly the slots with an output that neither the request nor the DVR case keeps. */
  lemma SwitchTvUnassignsUnwanted(views: seq<SlotView>, ids: seq<string>, coll: Option<seq<Stream>>,
                                  activeColl: Option<seq<Stream>>, dvr: bool)
    ensures var c := ClassifyTv(ids, views, coll, activeColl, dvr);
      var q := PlanSwitchTv(views, ids, coll, activeColl, dvr).queued;
      forall sl :: UnassignSlot(sl) in q <==>
        exists i :: 0 <= i < |views| && views[i].slot == sl && UnwantedTv(views[i], ids, c.ignore)
  {
    var c := ClassifyTv(ids, views, coll, activeColl, dvr);
    var d := SweepSlots(views, ids, c.ignore).deact;
    var p := Pair(d, c.activate);
    var u := p.given + p.leftDeact;
    var r := if p.leftAct != [] && u == [] then Reconfigures(p.leftAct) else [];
    assert PlanSwitchTv(views, ids, coll, activeColl, dvr).queued == r + Unassigns(u);
    SweepSlotsDeact(views, ids, c.ignore);
    PairSplitsDeactivations(d, c.activate);
    assert multiset(u) == multiset(d);
    UnassignsExactlyTv(r, u, d, views, ids, c.ignore);
  }

  /** Reconfigure probes followed by unassign probes for a permutation of the swept slots. */
  lemma UnassignsExactlyTv(r: seq<Deferred>, u: seq<SlotView>, d: seq<SlotView>, views: seq<SlotView>,
                           ids: seq<string>, ignore: seq<SlotView>)
    requires forall j :: 0 <= j < |r| ==> r[j].ReconfigureSlot?
    requires multiset(u) == multiset(d)
    requires forall i :: 0 <= i < |d| ==> d[i] in views && UnwantedTv(d[i], ids, ignore)
    requires forall i :: 0 <= i < |views| && UnwantedTv(views[i], ids, ignore) ==> views[i] in d
    ensures forall sl :: UnassignSlot(sl) in r + Unassigns(u) <==>
      exists i :: 0 <= i < |views| && views[i].slot == sl && UnwantedTv(views[i], ids, ignore)
  {
    forall sl ensures UnassignSlot(sl) in r + Unassigns(u) <==>
      exists i :: 0 <= i < |views| && views[i].slot == sl && UnwantedTv(views[i], ids, ignore)
    {
      QueuedUnassigns(r, u, sl);
      UnwantedTvSlots(u, d, views, ids, ignore, sl);
    }
  }

  /**
   * Every slot the TV switch hands an output to has an active stream, so
   * every one of them puts its id on to_activate.
   */
  lemma SwitchTvReassignsActive(views: seq<SlotView>, ids: seq<string>, coll: Option<seq<Stream>>,
                                activeColl: Option<seq<Stream>>, dvr: bool)
    ensures var c := ClassifyTv(ids, views, coll, activeColl, dvr);
      var p := Pair(SweepSlots(views, ids, c.ignore).deact, c.activate);
      (forall i :: 0 <= i < |p.taken| ==> p.taken[i].active.Some?) &&
      |ReassignIds(p.taken)| == |p.taken|
  {
    var c := ClassifyTv(ids, views, coll, activeColl, dvr);
    var p := Pair(SweepSlots(views, ids, c.ignore).deact, c.activate);
    ClassifyTvSlots(ids, views, coll, activeColl, dvr);
    PairSplitsActivations(SweepSlots(views, ids, c.ignore).deact, c.activate);
    forall i | 0 <= i < |p.taken| ensures p.taken[i].active.Some? {
      assert p.taken[i] in multiset(c.activate);
      var k :| 0 <= k < |c.activate| && c.activate[k] == p.taken[i];
    }
    ReassignAllActive(p.taken);
  }

  lemma {:induction false} ReassignAllActive(taken: seq<SlotView>)
    requires forall i :: 0 <= i < |taken| ==> taken[i].active.Some?
    ensures |ReassignIds(taken)| == |taken|
  {
    if taken != [] {
      ReassignAllActive(taken[..|taken| - 1]);
    }
  }

  // ---------------------------------------------------------------------
  // Without the TV cases the TV switch is the base switch

  /** A snapshot where no slot has a previous stream and every slot without an output has an active stream. */
  predicate PlainViews(views: seq<SlotView>)
  {
    forall i :: 0 <= i < |views| ==> views[i].previous.None? && (views[i].hasOutput || views[i].active.Some?)
  }

  lemma {:induction false} ClassifyTvPlain(ids: seq<string>, views: seq<SlotView>, coll: Option<seq<Stream>>,
                                           activeColl: Option<seq<Stream>>)
    requires PlainViews(views)
    ensures var c := Classify(ids, views, coll);
      ClassifyTv(ids, views, coll, activeColl, false) == TvRequest(c.pending, c.unknown, c.activate, [], c.future)
  {
    if ids != [] {
      ClassifyTvPlain(ids[..|ids| - 1], views, coll, activeColl);
    }
  }

  lemma {:induction false} SweepSlotsPlain(views: seq<SlotView>, ids: seq<string>)
    requires PlainViews(views)
    ensures SweepSlots(views, ids, []) == Sweep(Deactivations(views, ids), [])
  {
    if views != [] {
      var pre := views[..|views| - 1];
      assert PlainViews(pre) by {
        assert forall i :: 0 <= i < |pre| ==> pre[i] == views[i];
      }
      SweepSlotsPlain(pre, ids);
      var v := views[|views| - 1];
      assert MaintainedIds(v, []) == [];
      assert v.hasOutput ==> (UnwantedTv(v, ids, []) <==> Unwanted(v, ids));
    }
  }

  /**
   * Outside DVR playback, with no slot holding a previous stream and no
   * slot without an output lacking an active stream, the TV switch does
   * what the base switch does.
   */
  lemma PlanSwitchTvIsBase(views: seq<SlotView>, ids: seq<string>, coll: Option<seq<Stream>>, activeColl: Option<seq<Stream>>)
    requires PlainViews(views)
    ensures PlanSwitchTv(views, ids, coll, activeColl, false) == PlanSwitch(views, ids, coll)
  {
    var c := Classify(ids, views, coll);
    ClassifyTvPlain(ids, views, coll, activeColl);
    assert ClassifyTv(ids, views, coll, activeColl, false) == TvRequest(c.pending, c.unknown, c.activate, [], c.future);
    SweepSlotsPlain(views, ids);
    var w := SweepSlots(views, ids, []);
    assert w.deact == Deactivations(views, ids) && w.maintained == [];
    RewrittenPlain(views, ids);
    var p := Pair(w.deact, c.activate);
    assert c.future + w.maintained + FutureIds(p.leftAct) + c.pending == c.future + FutureIds(p.leftAct) + c.pending;
  }

  /** Without previous streams the first loop rewrites nothing. */
  lemma RewrittenPlain(views: seq<SlotView>, ids: seq<string>)
    requires PlainViews(views)
    ensures Rewritten(views, ids) == ids
  {
    forall i | 0 <= i < |ids| ensures Rewrite(views, ids[i]) == ids[i] {
      var k := FindView(views, ids[i]);
      if k < |views| {
        assert views[k].previous.None?;
      }
    }
  }

  // ---------------------------------------------------------------------
  // The methods

  /** The first loop of priv_handle_stream_switch, and new_select_streams as it leaves it. */
  method ClassifyRequestTv(ids: seq<string>, views: seq<SlotView>, coll: Option<seq<Stream>>,
                           activeColl: Option<seq<Stream>>, dvr: bool) returns (c: TvRequest, rewritten: seq<string>)
    ensures c == ClassifyTv(ids, views, coll, activeColl, dvr)
    ensures rewritten == Rewritten(views, ids)
  {
    c := TvRequest([], [], [], [], []);
    rewritten := [];
    for i := 0 to |ids|
      invariant c == ClassifyTv(ids[..i], views, coll, activeColl, dvr)
      invariant rewritten == Rewritten(views, ids[..i])
    {
      var sid := ids[i];
      var x;
      c, x := FileRequestTv(c, sid, views, coll, activeColl, dvr);
      rewritten := rewritten + [x];
      ClassifyTvSnoc(ids[..i], sid, views, coll, activeColl, dvr);
      RewrittenSnoc(views, ids[..i], sid);
      assert ids[..i + 1] == ids[..i] + [sid];
    }
    assert ids[..|ids|] == ids;
  }

  lemma RewrittenSnoc(views: seq<SlotView>, ids: seq<string>, sid: string)
    ensures Rewritten(views, ids + [sid]) == Rewritten(views, ids) + [Rewrite(views, sid)]
  {
    var l := Rewritten(views, ids + [sid]);
    var r := Rewritten(views, ids) + [Rewrite(views, sid)];
    forall i | 0 <= i < |l| ensures l[i] == r[i] {
      if i < |ids| { assert (ids + [sid])[i] == ids[i]; }
    }
  }

  /** One pass of the first loop: file `sid`, and the id new_select_streams keeps for it. */
  method FileRequestTv(prev: TvRequest, sid: string, views: seq<SlotView>, coll: Option<seq<Stream>>,
                       activeColl: Option<seq<Stream>>, dvr: bool) returns (c: TvRequest, x: string)
    ensures c == FileIdTv(prev, sid, views, coll, activeColl, dvr)
    ensures x == Rewrite(views, sid)
  {
    c := prev;
    var k := FindView(views, sid);
    x := sid;
    if k == |views| {
      if InCollection(coll, sid) {
        c := c.(pending := c.pending + [sid]);
      } else {
        c := c.(unknown := c.unknown + [sid]);
      }
    } else if Activatable(views[k]) {
      if ChangedUpstream(sid, coll, activeColl, dvr) {
        c := c.(ignore := c.ignore + [views[k]]);
      } else {
        c := c.(activate := c.activate + [views[k]]);
      }
    } else {
      var v := views[k];
      if v.active.Some? && v.previous.Some? && sid == v.previous.value.id {
        x := v.active.value.id;
      }
      c := c.(future := c.future + [x]);
    }
  }

  /** The number of slots set aside of type `t`, counted as the inner loop meets them. */
  method CountIgnored(ignore: seq<SlotView>, t: StreamType) returns (n: nat)
    ensures n == IgnoredOfType(ignore, t)
  {
    n := 0;
    for j := 0 to |ignore|
      invariant n == IgnoredOfType(ignore[..j], t)
    {
      assert ignore[..j + 1][..j] == ignore[..j];
      if ignore[j].stype == t {
        n := n + 1;
      }
    }
    assert ignore[..|ignore|] == ignore;
  }

  /** The second loop of priv_handle_stream_switch. */
  method SlotsToDeactivateTv(views: seq<SlotView>, ids: seq<string>, ignore: seq<SlotView>)
    returns (deact: seq<SlotView>, maintained: seq<string>)
    ensures Sweep(deact, maintained) == SweepSlots(views, ids, ignore)
  {
    deact, maintained := [], [];
    for i := 0 to |views|
      invariant Sweep(deact, maintained) == SweepSlots(views[..i], ids, ignore)
    {
      assert views[..i + 1][..i] == views[..i];
      var v := views[i];
      if v.hasOutput {
        var deactivate := true;
        if v.active.Some? {
          if StreamInList(ids, v.active.value.id).Some? {
            deactivate := false;
          } else if v.previous.Some? && StreamInList(ids, v.previous.value.id).Some? {
            deactivate := false;
          }
        }
        if deactivate && v.pending.Some? && v.pending != v.active && StreamInList(ids, v.pending.value.id).Some? {
          deactivate := false;
        }
        var kept: seq<string> := [];
        if v.active.Some? {
          var n := CountIgnored(ignore, v.active.value.stype);
          kept := seq(n, _ => v.active.value.id);
        }
        if kept != [] {
          deactivate := false;
        }
        maintained := maintained + kept;
        if deactivate {
          deact := deact + [v];
        }
      }
    }
    assert views[..|views|] == views;
  }

  /** The body of priv_handle_stream_switch on the snapshot. */
  method ComputeSwitchTv(views: seq<SlotView>, ids: seq<string>, coll: Option<seq<Stream>>,
                         activeColl: Option<seq<Stream>>, dvr: bool) returns (s: Switch)
    ensures s == PlanSwitchTv(views, ids, coll, activeColl, dvr)
  {
    var c, rewritten := ClassifyRequestTv(ids, views, coll, activeColl, dvr);
    var deact, maintained := SlotsToDeactivateTv(views, ids, c.ignore);
    var p, reassign := PairSlots(deact, c.activate);
    var future := FutureRequests(p.leftAct);
    var unassign := p.given + p.leftDeact;
    var queued := [];
    if p.leftAct != [] && unassign == [] {
      queued := Reconfigures(p.leftAct);
    }
    queued := queued + Unassigns(unassign);
    if p.leftAct == [] && c.pending != [] {
      s := Switch(rewritten, None, queued);
    } else {
      s := Switch(c.future + maintained + future + c.pending, Some(reassign), queued);
    }
  }

  /**
   * priv_handle_stream_switch: a request answering an older SELECT_STREAMS
   * is ignored; otherwise the pending request is dropped, the selection
   * lists are rewritten as PlanSwitchTv says and its idle probes queued.
   */
  method HandleStreamSwitchTv(dbin: Decodebin3, ids: seq<string>, seqnum: uint32) returns (ret: bool)
    modifies dbin`pendingSelectStreams, dbin`requested, dbin`toActivate, dbin`selectionUpdated, dbin`deferred
    ensures ret
    ensures seqnum != dbin.selectStreamsSeqnum ==>
      dbin.pendingSelectStreams == old(dbin.pendingSelectStreams) && dbin.requested == old(dbin.requested) &&
      dbin.toActivate == old(dbin.toActivate) && dbin.selectionUpdated == old(dbin.selectionUpdated) &&
      dbin.deferred == old(dbin.deferred)
    ensures seqnum == dbin.selectStreamsSeqnum ==>
      var s := PlanSwitchTv(old(Views(dbin.slots)), ids, dbin.collection, dbin.activeCollection, dbin.dvrPlayback);
      dbin.pendingSelectStreams == [] && dbin.selectionUpdated && dbin.requested == s.requested &&
      dbin.toActivate == (if s.toActivate.Some? then s.toActivate.value else old(dbin.toActivate)) &&
      dbin.deferred == old(dbin.deferred) + s.queued
  {
    ret := true;
    if seqnum != dbin.selectStreamsSeqnum {
      return;
    }
    var s := ComputeSwitchTv(Views(dbin.slots), ids, dbin.collection, dbin.activeCollection, dbin.dvrPlayback);
    ApplySwitch(dbin, s);
  }
}
