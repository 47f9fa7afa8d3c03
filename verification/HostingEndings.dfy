/** What the bulk endings do to each CID: reconciling many, sweep, ban and takedown. */
module HostingEndings {
  import opened Prelude
  import opened Pricing
  import opened Hosting
  import opened HostingInvariant

  // ---------- reconciling many CIDs ----------

  ghost predicate Distinct(order: seq<Cid>) {
    forall j, k | 0 <= j < k < |order| :: order[j] != order[k]
  }

  /** s' has the claims of s, possibly changed, and the pins of s, possibly with more behind them. */
  ghost predicate OnlyHandsOver(s: Tables, s': Tables) {
    && s'.(claims := s.claims, pins := s.pins, clock := s.clock) == s
    && |s'.claims| == |s.claims| && s.pins <= s'.pins
    && forall i | 0 <= i < |s.claims| :: s'.claims[i].cid == s.claims[i].cid
  }

  /** Nothing about the CID differs between s and s'. */
  ghost predicate SameOn(s: Tables, s': Tables, cid: Cid) {
    && |s'.claims| == |s.claims|
    && (forall i | 0 <= i < |s.claims| && s.claims[i].cid == cid :: s'.claims[i] == s.claims[i])
    && (Hosted(s', cid) <==> Hosted(s, cid))
    && QueueHead(s'.claims, cid) == QueueHead(s.claims, cid)
  }

  /** On the CID, the head of the queue has taken over at time t, and no other claim has changed. */
  ghost predicate HandedOver(s: Tables, s': Tables, cid: Cid, t: Time) {
    var h := QueueHead(s.claims, cid);
    && h.Some? && |s'.claims| == |s.claims| && Hosted(s', cid)
    && s'.claims[h.value].pin.Some? && |s.pins| <= s'.claims[h.value].pin.value < |s'.pins|
    && s'.claims[h.value] == Activated(s.claims[h.value], s'.claims[h.value].pin.value, t)
    && (forall i | 0 <= i < |s.claims| && s.claims[i].cid == cid && i != h.value :: s'.claims[i] == s.claims[i])
  }

  lemma ReconcileHere(s: Tables, cid: Cid, t: Time)
    ensures var s' := Reconcile(s, cid, t);
      && OnlyHandsOver(s, s')
      && if Activates(s, cid).Some? then HandedOver(s, s', cid, t) else s' == s
  {
    var s' := Reconcile(s, cid, t);
    if Activates(s, cid).Some? {
      HostedHasPin(s', cid);
      assert IsHost(s'.pins[|s.pins|], cid);
    }
  }

  lemma ReconcileElsewhere(s: Tables, other: Cid, t: Time, cid: Cid)
    requires other != cid
    ensures SameOn(s, Reconcile(s, other, t), cid)
  {
    var s' := Reconcile(s, other, t);
    QueueFrame(s.claims, s'.claims, cid);
    HostedFrame(s, s', cid);
  }

  /** More pins on other CIDs do not host this one. */
  lemma HostedFrame(s: Tables, s': Tables, cid: Cid)
    requires s.pins <= s'.pins && forall p | |s.pins| <= p < |s'.pins| :: !IsHost(s'.pins[p], cid)
    ensures Hosted(s', cid) <==> Hosted(s, cid)
  {
    if Hosted(s, cid) {
      assert IsHost(s'.pins[FindHost(s.pins, cid).value], cid);
    }
    if Hosted(s', cid) {
      assert IsHost(s.pins[FindHost(s'.pins, cid).value], cid);
    }
  }

  lemma {:induction false} ReconcileAllFrame(s: Tables, order: seq<Cid>, clocks: seq<Time>)
    requires |clocks| == |order|
    ensures OnlyHandsOver(s, ReconcileAll(s, order, clocks))
    decreases |order|
  {
    var n := |order|;
    if n > 0 {
      ReconcileAllFrame(s, order[..n - 1], clocks[..n - 1]);
      ReconcileHere(ReconcileAll(s, order[..n - 1], clocks[..n - 1]), order[n - 1], clocks[n - 1]);
    }
  }

  lemma {:induction false} ReconcileAllElsewhere(s: Tables, order: seq<Cid>, clocks: seq<Time>, cid: Cid)
    requires |clocks| == |order| && cid !in order
    ensures SameOn(s, ReconcileAll(s, order, clocks), cid)
    decreases |order|
  {
    var n := |order|;
    if n > 0 {
      ReconcileAllElsewhere(s, order[..n - 1], clocks[..n - 1], cid);
      ReconcileElsewhere(ReconcileAll(s, order[..n - 1], clocks[..n - 1]), order[n - 1], clocks[n - 1], cid);
    }
  }

  /** Each CID of the list is reconciled as if it were alone. */
  lemma {:induction false} ReconcileAllHere(s: Tables, order: seq<Cid>, clocks: seq<Time>, k: nat)
    requires |clocks| == |order| && Distinct(order) && k < |order|
    ensures var s' := ReconcileAll(s, order, clocks);
      && OnlyHandsOver(s, s')
      && if Activates(s, order[k]).Some? then HandedOver(s, s', order[k], clocks[k]) else SameOn(s, s', order[k])
    decreases |order|
  {
    var n, cid := |order|, order[k];
    var o, c := order[..n - 1], clocks[..n - 1];
    var m := ReconcileAll(s, o, c);
    ReconcileAllFrame(s, order, clocks);
    ReconcileAllFrame(s, o, c);
    if k == n - 1 {
      ReconcileAllElsewhere(s, o, c, cid);
      ReconcileHere(m, cid, clocks[k]);
    } else {
      ReconcileAllHere(s, o, c, k);
      ReconcileElsewhere(m, order[n - 1], clocks[n - 1], cid);
    }
  }

  lemma SameUnpins(s: Tables, s': Tables, cid: Cid)
    requires SameOn(s, s', cid)
    ensures Unpins(s', cid) <==> Unpins(s, cid) {}

  lemma {:induction false} UnpinnedMembers(s: Tables, order: seq<Cid>, clocks: seq<Time>, cid: Cid)
    requires |clocks| == |order| && Distinct(order)
    ensures cid in Unpinned(s, order, clocks) <==> cid in order && Unpins(s, cid)
    decreases |order|
  {
    var n := |order|;
    if n > 0 {
      var o, c := order[..n - 1], clocks[..n - 1];
      UnpinnedMembers(s, o, c, cid);
      ReconcileAllElsewhere(s, o, c, order[n - 1]);
      assert order == o + [order[n - 1]];
      SameUnpins(s, ReconcileAll(s, o, c), order[n - 1]);
    }
  }

  /** A claim that changes in a reconciliation is a dormant one becoming active. */
  ghost predicate Promotion(c: Claim, d: Claim) {
    d == c || (c.state.Dormant? && d.pin.Some? && d == Activated(c, d.pin.value, d.startTs))
  }

  lemma {:induction false} ReconcileAllPromotes(s: Tables, order: seq<Cid>, clocks: seq<Time>)
    requires |clocks| == |order|
    ensures var s' := ReconcileAll(s, order, clocks);
      |s'.claims| == |s.claims| && forall i | 0 <= i < |s.claims| :: Promotion(s.claims[i], s'.claims[i])
    decreases |order|
  {
    var n := |order|;
    if n > 0 { ReconcileAllPromotes(s, order[..n - 1], clocks[..n - 1]); }
  }

  /** The reported guardians are those who were waiting and now host, each reported once. */
  lemma {:induction false} PromotedAreTheNewHosts(s: Tables, order: seq<Cid>, clocks: seq<Time>)
    requires |clocks| == |order|
    ensures var s', ids := ReconcileAll(s, order, clocks), Promoted(s, order, clocks);
      && |s'.claims| == |s.claims|
      && (forall i: nat :: i in ids <==> i < |s.claims| && s.claims[i].state.Dormant? && s'.claims[i].state.Active?)
      && (forall j, k | 0 <= j < k < |ids| :: ids[j] != ids[k])
    decreases |order|
  {
    var n := |order|;
    if n > 0 {
      var o, c := order[..n - 1], clocks[..n - 1];
      PromotedAreTheNewHosts(s, o, c);
      ReconcileAllPromotes(s, o, c);
      NewHostIsNew(s, ReconcileAll(s, o, c), Promoted(s, o, c), order[n - 1], clocks[n - 1]);
    }
  }

  lemma NewHostIsNew(s: Tables, m: Tables, ids: seq<nat>, cid: Cid, t: Time)
    requires |m.claims| == |s.claims| && forall i | 0 <= i < |s.claims| :: Promotion(s.claims[i], m.claims[i])
    requires forall i: nat :: i in ids <==> i < |s.claims| && s.claims[i].state.Dormant? && m.claims[i].state.Active?
    ensures var s', next := Reconcile(m, cid, t), Activates(m, cid);
      var ids' := ids + if next.Some? then [next.value] else [];
      && |s'.claims| == |s.claims|
      && (next.Some? ==> next.value !in ids)
      && (forall i: nat :: i in ids' <==> i < |s.claims| && s.claims[i].state.Dormant? && s'.claims[i].state.Active?)
  {
  }

  /** A step of endings followed by promotions takes every claim through at most one move. */
  lemma EndThenPromote(cfg: Config, s: Tables, x: Tables, order: seq<Cid>, clocks: seq<Time>)
    requires |clocks| == |order| && |x.claims| == |s.claims|
    requires forall i | 0 <= i < |s.claims| ::
      && RowOk(cfg, s.claims[i]) && ClaimStep(s.claims[i], x.claims[i])
      && (x.claims[i].state.Dormant? ==> x.claims[i] == s.claims[i])
    ensures ClaimSteps(s, ReconcileAll(x, order, clocks))
  {
    ReconcileAllPromotes(x, order, clocks);
  }

  // ---------- the sweep: expiries ----------

  predicate Due(c: Claim, t: Time) { c.state.Active? && c.expiryTs < t }

  function ExpiredClaim(c: Claim, t: Time): Claim {
    if Due(c, t) then c.(state := ClaimState.Expired) else c
  }

  function ExpiredPin(pin: Pin, t: Time): Pin {
    if pin.status.Pinned? && pin.expiresAt < t then pin.(status := PinExpired, changedAt := Some(t)) else pin
  }

  /**
    * Once the due claims' own pins are down, no live pin is past its clock: the sweep's second pass
    * changes no row, and the pins that went are the pins whose own clock had run out.
    */
  lemma PinPassFindsNothing(cfg: Config, s: Tables, t: Time)
    requires Rows(cfg, s)
    ensures var ids := DueClaims(s, t);
      DuePins(End(s, ids, ClaimState.Expired, PinsOf(s, ids), PinExpired, t), t) == {}
    ensures var x := Expire(s, t);
      && x == End(s, DueClaims(s, t), ClaimState.Expired, PinsOf(s, DueClaims(s, t)), PinExpired, t)
      && (forall i | 0 <= i < |s.claims| :: x.claims[i] == ExpiredClaim(s.claims[i], t))
      && (forall p | 0 <= p < |s.pins| :: x.pins[p] == ExpiredPin(s.pins[p], t))
  {
    var ids := DueClaims(s, t);
    var pids := PinsOf(s, ids);
    var x := End(s, ids, ClaimState.Expired, pids, PinExpired, t);
    PinsOfMatch(cfg, s, ids);
    forall p: nat | p < |s.pins| ensures p in pids <==> s.pins[p].status.Pinned? && s.pins[p].expiresAt < t {
      assert PinOk(s, p);
    }
    assert DuePins(x, t) == {};
    var y := End(x, {}, ClaimState.Expired, {}, PinExpired, t);
    assert y.claims == x.claims && y.pins == x.pins;
  }

  lemma ExpireKeeps(cfg: Config, s: Tables, t: Time)
    requires Inv(cfg, s) && s.clock <= t
    ensures var x := Expire(s, t); && Core(cfg, x) && ClaimSteps(s, x) && AliveBut(x, Candidates(x, t)) && x.clock == t
  {
    var ids := DueClaims(s, t);
    var x := Expire(s, t);
    PinPassFindsNothing(cfg, s, t);
    PinsOfMatch(cfg, s, ids);
    EndKeeps(cfg, s, ids, ClaimState.Expired, PinsOf(s, ids), PinExpired, t);
    forall p | 0 <= p < |s.pins| && p in PinsOf(s, ids) ensures s.pins[p].cid in Candidates(x, t) {
      assert x.pins[p].status.PinExpired? && x.pins[p].changedAt == Some(t);
    }
    EndAlive(s, ids, ClaimState.Expired, PinsOf(s, ids), PinExpired, t, Candidates(x, t));
  }

  /** The sweep at time t takes the CID's last host. */
  ghost predicate LosesLast(s: Tables, cid: Cid, t: Time) {
    && Hosted(s, cid)
    && forall i | 0 <= i < |s.claims| && s.claims[i].state.Active? && s.claims[i].cid == cid :: Due(s.claims[i], t)
  }

  lemma QueueAfterExpire(cfg: Config, s: Tables, t: Time, cid: Cid)
    requires Rows(cfg, s)
    ensures QueueHead(Expire(s, t).claims, cid) == QueueHead(s.claims, cid)
  {
    PinPassFindsNothing(cfg, s, t);
    QueueSurvives(s.claims, Expire(s, t).claims, cid);
  }

  /** Claims that are not waiting may change without any effect on the queue. */
  lemma QueueSurvives(before: seq<Claim>, after: seq<Claim>, cid: Cid)
    requires |before| == |after|
    requires forall i | 0 <= i < |before| && (before[i].state.Dormant? || after[i].state.Dormant?) ::
      after[i] == before[i]
    ensures QueueHead(after, cid) == QueueHead(before, cid)
  {
    var a, b := QueueHead(before, cid), QueueHead(after, cid);
    assert a.Some? ==> InQueue(after[a.value], cid);
    assert b.Some? ==> InQueue(before[b.value], cid);
  }

  /** Who is hosted after the expiries, before anyone takes over. */
  lemma HostedAfterExpire(cfg: Config, s: Tables, t: Time, cid: Cid)
    requires Rows(cfg, s) && Rows(cfg, Expire(s, t))
    ensures Hosted(Expire(s, t), cid) <==> Hosted(s, cid) && !LosesLast(s, cid, t)
  {
    var x := Expire(s, t);
    PinPassFindsNothing(cfg, s, t);
    HostedByClaim(cfg, s, cid);
    HostedByClaim(cfg, x, cid);
    if Hosted(x, cid) {
      var i :| 0 <= i < |x.claims| && x.claims[i].state.Active? && x.claims[i].cid == cid;
      assert s.claims[i].state.Active? && s.claims[i].cid == cid && !Due(s.claims[i], t);
    } else if Hosted(s, cid) {
      forall i | 0 <= i < |s.claims| && s.claims[i].state.Active? && s.claims[i].cid == cid
        ensures Due(s.claims[i], t)
      {
        assert x.claims[i].cid == cid;
      }
    }
  }

  lemma LosersAreCandidates(cfg: Config, s: Tables, t: Time, cid: Cid)
    requires Rows(cfg, s) && LosesLast(s, cid, t)
    ensures cid in Candidates(Expire(s, t), t)
  {
    var x, p := Expire(s, t), FindHost(s.pins, cid).value;
    PinPassFindsNothing(cfg, s, t);
    assert PinOk(s, p);
    assert Due(s.claims[Holder(s, p)], t);
    assert x.pins[p].cid == cid && x.pins[p].status.PinExpired? && x.pins[p].changedAt == Some(t);
  }

  lemma EmptyQueueIfDead(s: Tables, cid: Cid)
    requires AliveBut(s, {}) && !Hosted(s, cid)
    ensures QueueHead(s.claims, cid).None?
  {
    forall i | 0 <= i < |s.claims| ensures !InQueue(s.claims[i], cid) { assert Guarded(s, {}, i); }
  }

  // ---------- the sweep, CID by CID ----------

  /** What the sweep does to the claims and to the standing of one CID. */
  ghost predicate SweptOn(s: Tables, s': Tables, cid: Cid, t: Time) {
    var h := QueueHead(s.claims, cid);
    var over := LosesLast(s, cid, t) && h.Some?;
    && |s'.claims| == |s.claims|
    && (Hosted(s', cid) <==> Hosted(s, cid) && (LosesLast(s, cid, t) ==> over))
    && (forall i | 0 <= i < |s.claims| && s.claims[i].cid == cid && !(over && i == h.value) ::
        s'.claims[i] == ExpiredClaim(s.claims[i], t))
    && (over ==>
          && s'.claims[h.value].pin.Some? && |s.pins| <= s'.claims[h.value].pin.value < |s'.pins|
          && s'.claims[h.value].startTs >= t
          && s'.claims[h.value]
             == Activated(s.claims[h.value], s'.claims[h.value].pin.value, s'.claims[h.value].startTs))
  }

  /**
    * The sweep refines its per-CID description: exactly the due claims expire, and the head of the queue
    * takes over exactly where the last host went.  A CID is reported for unpinning only when it has
    * neither host nor guardian, and always when it lost its last host with nobody waiting.
    */
  lemma SweepPerCid(cfg: Config, s: Tables, t: Time, order: seq<Cid>, clocks: seq<Time>, cid: Cid)
    requires Inv(cfg, s) && Visits(s, t, order, clocks, Candidates(Expire(s, t), t))
    ensures var s', unpin := Sweep(s, t, order, clocks), Unpinned(Expire(s, t), order, clocks);
      && SweptOn(s, s', cid, t)
      && (LosesLast(s, cid, t) && QueueHead(s.claims, cid).None? ==> cid in unpin)
      && (cid in unpin ==> !Hosted(s', cid) && QueueHead(s'.claims, cid).None?)
  {
    var x := Expire(s, t);
    ExpireKeeps(cfg, s, t);
    SweepFromExpired(cfg, s, x, t, order, clocks, cid);
  }

  lemma SweepFromExpired(cfg: Config, s: Tables, x: Tables, t: Time, order: seq<Cid>, clocks: seq<Time>, cid: Cid)
    requires Rows(cfg, s) && AliveBut(s, {}) && x == Expire(s, t) && Rows(cfg, x)
    requires |clocks| == |order| && Ticks(t, clocks) && Enumerates(order, Candidates(x, t))
    ensures var s', unpin := Sweep(s, t, order, clocks), Unpinned(x, order, clocks);
      && SweptOn(s, s', cid, t)
      && (LosesLast(s, cid, t) && QueueHead(s.claims, cid).None? ==> cid in unpin)
      && (cid in unpin ==> !Hosted(s', cid) && QueueHead(s'.claims, cid).None?)
  {
    var s' := ReconcileAll(x, order, clocks);
    HostedAfterExpire(cfg, s, t, cid);
    QueueAfterExpire(cfg, s, t, cid);
    UnpinnedMembers(x, order, clocks, cid);
    PinPassFindsNothing(cfg, s, t);
    if !Hosted(s, cid) { EmptyQueueIfDead(s, cid); }
    if cid in order {
      var k :| 0 <= k < |order| && order[k] == cid;
      ReconcileAllHere(x, order, clocks, k);
      SweptFromExpired(s, x, s', cid, t, clocks[k]);
    } else {
      ReconcileAllElsewhere(x, order, clocks, cid);
      if LosesLast(s, cid, t) { LosersAreCandidates(cfg, s, t, cid); }
      SweptFromExpired(s, x, s', cid, t, t);
    }
  }

  lemma SweptFromExpired(s: Tables, x: Tables, s': Tables, cid: Cid, t: Time, t': Time)
    requires |x.claims| == |s.claims| && |x.pins| == |s.pins| && t <= t'
    requires forall i | 0 <= i < |s.claims| :: x.claims[i] == ExpiredClaim(s.claims[i], t)
    requires Hosted(x, cid) <==> Hosted(s, cid) && !LosesLast(s, cid, t)
    requires QueueHead(x.claims, cid) == QueueHead(s.claims, cid)
    requires !Hosted(s, cid) ==> QueueHead(s.claims, cid).None?
    requires if Activates(x, cid).Some? then HandedOver(x, s', cid, t') else SameOn(x, s', cid)
    ensures SweptOn(s, s', cid, t) {}

  /** The pins that were there before: those past their own clock have expired, the others are untouched. */
  lemma SweepPins(cfg: Config, s: Tables, t: Time, order: seq<Cid>, clocks: seq<Time>, p: nat)
    requires Rows(cfg, s) && |clocks| == |order| && p < |s.pins|
    ensures var s' := Sweep(s, t, order, clocks); p < |s'.pins| && s'.pins[p] == ExpiredPin(s.pins[p], t)
  {
    PinPassFindsNothing(cfg, s, t);
    ReconcileAllFrame(Expire(s, t), order, clocks);
  }

  lemma SweepKeeps(cfg: Config, s: Tables, t: Time, order: seq<Cid>, clocks: seq<Time>)
    requires Inv(cfg, s) && Visits(s, t, order, clocks, Candidates(Expire(s, t), t))
    ensures Inv(cfg, Sweep(s, t, order, clocks)) && ClaimSteps(s, Sweep(s, t, order, clocks))
  {
    var x := Expire(s, t);
    ExpireKeeps(cfg, s, t);
    ReconcileAllRestores(cfg, x, order, clocks, Candidates(x, t));
    PinPassFindsNothing(cfg, s, t);
    forall i | 0 <= i < |s.claims| ensures RowOk(cfg, s.claims[i]) { assert ClaimOk(cfg, s, i); }
    EndThenPromote(cfg, s, x, order, clocks);
  }

  /** Where no guardian waits on a dead CID there is nothing to reconcile. */
  lemma {:induction false} ReconcileSettled(s: Tables, order: seq<Cid>, clocks: seq<Time>)
    requires AliveBut(s, {}) && |clocks| == |order|
    ensures ReconcileAll(s, order, clocks) == s
    decreases |order|
  {
    var n := |order|;
    if n > 0 {
      ReconcileSettled(s, order[..n - 1], clocks[..n - 1]);
      if !Hosted(s, order[n - 1]) { EmptyQueueIfDead(s, order[n - 1]); }
    }
  }

  lemma NothingDue(cfg: Config, s: Tables, t: Time)
    requires Rows(cfg, s) && forall i | 0 <= i < |s.claims| :: !Due(s.claims[i], t)
    ensures Expire(s, t) == s.(clock := t)
  {
    PinPassFindsNothing(cfg, s, t);
    var x := Expire(s, t);
    forall p | 0 <= p < |s.pins| ensures x.pins[p] == s.pins[p] { assert PinOk(s, p); }
    assert x.claims == s.claims && x.pins == s.pins;
  }

  lemma SweepLeavesNothingDue(cfg: Config, s: Tables, t: Time, order: seq<Cid>, clocks: seq<Time>, i: nat)
    requires Inv(cfg, s) && Visits(s, t, order, clocks, Candidates(Expire(s, t), t)) && i < |s.claims|
    ensures var s' := Sweep(s, t, order, clocks); |s'.claims| == |s.claims| && !Due(s'.claims[i], t)
  {
    SweepPerCid(cfg, s, t, order, clocks, s.claims[i].cid);
    assert ClaimOk(cfg, s, i);
  }

  lemma SweepWithNothingDue(cfg: Config, s: Tables, t: Time, order: seq<Cid>, clocks: seq<Time>)
    requires Inv(cfg, s) && |clocks| == |order| && forall i | 0 <= i < |s.claims| :: !Due(s.claims[i], t)
    ensures Sweep(s, t, order, clocks) == s.(clock := t)
  {
    NothingDue(cfg, s, t);
    AliveFrame(s, s.(clock := t), {});
    ReconcileSettled(s.(clock := t), order, clocks);
  }

  /** A second sweep at the same time changes no row, whatever it finds to look at again. */
  lemma SweepIdempotent(cfg: Config, s: Tables, t: Time, order: seq<Cid>, clocks: seq<Time>, order': seq<Cid>,
                        clocks': seq<Time>)
    requires Inv(cfg, s) && Visits(s, t, order, clocks, Candidates(Expire(s, t), t)) && |clocks'| == |order'|
    ensures var s' := Sweep(s, t, order, clocks); Sweep(s', t, order', clocks') == s'.(clock := t)
  {
    var s' := Sweep(s, t, order, clocks);
    ReconcileAllFrame(Expire(s, t), order, clocks);
    forall i | 0 <= i < |s'.claims|
      ensures !Due(s'.claims[i], t)
    {
      SweepLeavesNothingDue(cfg, s, t, order, clocks, i);
    }
    SweepKeeps(cfg, s, t, order, clocks);
    SweepWithNothingDue(cfg, s', t, order', clocks');
  }

  // ---------- ban ----------

  lemma VoidMatches(cfg: Config, s: Tables, account: Account)
    requires Rows(cfg, s)
    ensures PinsMatch(s, LiveClaimsOf(s, account), LivePinsOf(s, account))
    ensures forall p | 0 <= p < |s.pins| && p in LivePinsOf(s, account) :: s.pins[p].cid in HostedBy(s, account)
  {
    forall p | 0 <= p < |s.pins|
      ensures p in LivePinsOf(s, account) <==> s.pins[p].status.Pinned? && Holder(s, p) in LiveClaimsOf(s, account)
      ensures p in LivePinsOf(s, account) ==> s.pins[p].cid in HostedBy(s, account)
    {
      assert PinOk(s, p);
    }
  }

  /** The account's claims ended and owed, before the account is put on the list. */
  function Voided(s: Tables, account: Account, policy: Policy, t: Time): Tables {
    var ids := LiveClaimsOf(s, account);
    var e := End(s, ids, Cancelled, LivePinsOf(s, account), PinBanned, t);
    e.(owed := e.owed + OwedFor(s.claims, ids, Forced(policy, false)))
  }

  lemma VoidedKeeps(cfg: Config, s: Tables, account: Account, policy: Policy, t: Time)
    requires Core(cfg, s) && s.clock <= t
    ensures Core(cfg, Voided(s, account, policy, t)) && ClaimSteps(s, Voided(s, account, policy, t))
  {
    var ids := LiveClaimsOf(s, account);
    VoidMatches(cfg, s, account);
    EndOweKeeps(cfg, s, ids, LivePinsOf(s, account), PinBanned, t, OwedFor(s.claims, ids, Forced(policy, false)));
  }

  lemma VoidKeepsCore(cfg: Config, s: Tables, account: Account, policy: Policy, t: Time)
    requires Core(cfg, s) && s.clock <= t
    ensures var x := VoidAccount(s, account, policy, t); Core(cfg, x) && ClaimSteps(s, x) && x.clock == t
  {
    VoidedKeeps(cfg, s, account, policy, t);
    var o, x := Voided(s, account, policy, t), VoidAccount(s, account, policy, t);
    RefundsFrame(o, x);
    HostingFrame(cfg, o, x);
  }

  lemma VoidAlive(cfg: Config, s: Tables, account: Account, policy: Policy, t: Time)
    requires Rows(cfg, s) && AliveBut(s, {})
    ensures AliveBut(VoidAccount(s, account, policy, t), HostedBy(s, account))
  {
    var ids, pids := LiveClaimsOf(s, account), LivePinsOf(s, account);
    VoidMatches(cfg, s, account);
    EndAlive(s, ids, Cancelled, pids, PinBanned, t, HostedBy(s, account));
    AliveFrame(End(s, ids, Cancelled, pids, PinBanned, t), VoidAccount(s, account, policy, t), HostedBy(s, account));
  }

  lemma VoidKeeps(cfg: Config, s: Tables, account: Account, policy: Policy, t: Time)
    requires Inv(cfg, s) && s.clock <= t
    ensures var x := VoidAccount(s, account, policy, t);
      && Core(cfg, x) && ClaimSteps(s, x) && AliveBut(x, HostedBy(s, account)) && x.clock == t
  {
    VoidKeepsCore(cfg, s, account, policy, t);
    VoidAlive(cfg, s, account, policy, t);
  }

  lemma BanKeeps(cfg: Config, s: Tables, account: Account, policy: Policy, t: Time, order: seq<Cid>, clocks: seq<Time>)
    requires Inv(cfg, s) && Visits(s, t, order, clocks, HostedBy(s, account))
    ensures var s' := Ban(s, account, policy, t, order, clocks); Inv(cfg, s') && ClaimSteps(s, s')
  {
    var x := VoidAccount(s, account, policy, t);
    VoidKeeps(cfg, s, account, policy, t);
    ReconcileAllRestores(cfg, x, order, clocks, HostedBy(s, account));
    forall i | 0 <= i < |s.claims| ensures RowOk(cfg, s.claims[i]) { assert ClaimOk(cfg, s, i); }
    EndThenPromote(cfg, s, x, order, clocks);
  }

  /** Someone other than the account funds the CID: hosts it, or waits to. */
  ghost predicate FundedByOther(s: Tables, account: Account, cid: Cid) {
    exists i :: 0 <= i < |s.claims| && s.claims[i].Live() && s.claims[i].cid == cid && s.claims[i].owner != account
  }

  ghost predicate HostedByOther(s: Tables, account: Account, cid: Cid) {
    exists i ::
      0 <= i < |s.claims| && s.claims[i].state.Active? && s.claims[i].cid == cid && s.claims[i].owner != account
  }

  /** What a ban does to one CID. */
  ghost predicate BannedOn(s: Tables, s': Tables, account: Account, cid: Cid) {
    && |s'.claims| == |s.claims|
    && (Hosted(s', cid) <==> FundedByOther(s, account, cid))
    && (forall i | 0 <= i < |s.claims| && s.claims[i].cid == cid && s.claims[i].owner == account ::
          s'.claims[i] == if s.claims[i].Live() then s.claims[i].(state := Cancelled) else s.claims[i])
    && (forall i | 0 <= i < |s.claims| && s.claims[i].cid == cid && s.claims[i].owner != account
                  && s'.claims[i] != s.claims[i] ::
          && s.claims[i].state.Dormant? && s'.claims[i].state.Active? && !HostedByOther(s, account, cid)
          && forall j | 0 <= j < |s.claims| && InQueue(s.claims[j], cid) && s.claims[j].owner != account && j != i ::
            Precedes(s.claims, i, j))
  }

  function VoidedClaim(c: Claim, account: Account): Claim {
    if c.owner == account && c.Live() then c.(state := Cancelled) else c
  }

  lemma VoidClaims(s: Tables, account: Account, policy: Policy, t: Time)
    ensures var x := VoidAccount(s, account, policy, t);
      |x.claims| == |s.claims| && forall i | 0 <= i < |s.claims| :: x.claims[i] == VoidedClaim(s.claims[i], account)
  {
  }

  /** After the voiding, the CID is hosted by whoever else hosted it, and others wait as before. */
  lemma AfterVoid(cfg: Config, s: Tables, account: Account, x: Tables, cid: Cid)
    requires Rows(cfg, x) && |x.claims| == |s.claims|
    requires forall i | 0 <= i < |s.claims| :: x.claims[i] == VoidedClaim(s.claims[i], account)
    ensures Hosted(x, cid) <==> HostedByOther(s, account, cid)
    ensures QueueHead(x.claims, cid).Some? <==> exists i ::
      0 <= i < |s.claims| && InQueue(s.claims[i], cid) && s.claims[i].owner != account
  {
    HostedByClaim(cfg, x, cid);
    if Hosted(x, cid) {
      var i :| 0 <= i < |x.claims| && x.claims[i].state.Active? && x.claims[i].cid == cid;
      assert s.claims[i].state.Active? && s.claims[i].cid == cid && s.claims[i].owner != account;
    }
    if HostedByOther(s, account, cid) {
      var i :|
        0 <= i < |s.claims| && s.claims[i].state.Active? && s.claims[i].cid == cid && s.claims[i].owner != account;
      assert x.claims[i].state.Active? && x.claims[i].cid == cid;
    }
    if QueueHead(x.claims, cid).Some? {
      assert InQueue(s.claims[QueueHead(x.claims, cid).value], cid);
    }
    forall i | 0 <= i < |s.claims| && InQueue(s.claims[i], cid) && s.claims[i].owner != account
      ensures InQueue(x.claims[i], cid) {}
  }

  lemma FundedSplits(cfg: Config, s: Tables, account: Account, cid: Cid)
    requires Rows(cfg, s)
    ensures FundedByOther(s, account, cid) <==>
              || HostedByOther(s, account, cid)
              || (exists i :: 0 <= i < |s.claims| && InQueue(s.claims[i], cid) && s.claims[i].owner != account)
  {
    if FundedByOther(s, account, cid) {
      var i :| 0 <= i < |s.claims| && s.claims[i].Live() && s.claims[i].cid == cid && s.claims[i].owner != account;
      assert ClaimOk(cfg, s, i);
      assert s.claims[i].state.Active? || InQueue(s.claims[i], cid);
    }
  }

  /** A ban leaves owed exactly the account's live claims as they were, under the policy, beside what was owed. */
  ghost predicate OwedByBan(s: Tables, s': Tables, account: Account, policy: Policy) {
    && (forall i | 0 <= i < |s.claims| && s.claims[i].owner == account && s.claims[i].Live() ::
          i in s'.owed && s'.owed[i] == Owed(s.claims[i], Forced(policy, false)))
    && (forall i | i in s'.owed && !(i < |s.claims| && s.claims[i].owner == account && s.claims[i].Live()) ::
          i in s.owed && s'.owed[i] == s.owed[i])
    && (forall i | i in s.owed && !(i < |s.claims| && s.claims[i].owner == account && s.claims[i].Live()) ::
        i in s'.owed)
  }

  lemma BanOwes(s: Tables, account: Account, policy: Policy, t: Time, order: seq<Cid>, clocks: seq<Time>)
    requires |clocks| == |order|
    ensures OwedByBan(s, Ban(s, account, policy, t, order, clocks), account, policy)
  {
    ReconcileAllFrame(VoidAccount(s, account, policy, t), order, clocks);
  }

  /** A ban reports for unpinning exactly the CIDs that the account hosted and that nobody else funds. */
  lemma BanReports(cfg: Config, s: Tables, account: Account, policy: Policy, t: Time, order: seq<Cid>,
                   clocks: seq<Time>, cid: Cid)
    requires Inv(cfg, s) && Visits(s, t, order, clocks, HostedBy(s, account))
    ensures cid in Unpinned(VoidAccount(s, account, policy, t), order, clocks)
      <==> cid in HostedBy(s, account) && !FundedByOther(s, account, cid)
  {
    var x := VoidAccount(s, account, policy, t);
    VoidKeeps(cfg, s, account, policy, t);
    VoidClaims(s, account, policy, t);
    AfterVoid(cfg, s, account, x, cid);
    FundedSplits(cfg, s, account, cid);
    UnpinnedMembers(x, order, clocks, cid);
  }

  /**
    * A ban is surgical: it voids exactly the account's live claims and leaves their refunds owed; nobody
    * else's claim changes, except that the first of the others waiting takes over where nobody else hosts;
    * exactly the CIDs that someone else funds are hosted afterwards, and exactly those that the account
    * hosted and nobody else funds are reported for unpinning.
    */
  lemma BanIsSurgical(cfg: Config, s: Tables, account: Account, policy: Policy, t: Time, order: seq<Cid>,
                      clocks: seq<Time>, cid: Cid)
    requires Inv(cfg, s) && Visits(s, t, order, clocks, HostedBy(s, account))
    ensures BannedOn(s, Ban(s, account, policy, t, order, clocks), account, cid)
    ensures OwedByBan(s, Ban(s, account, policy, t, order, clocks), account, policy)
    ensures cid in Unpinned(VoidAccount(s, account, policy, t), order, clocks)
      <==> cid in HostedBy(s, account) && !FundedByOther(s, account, cid)
  {
    BanOwes(s, account, policy, t, order, clocks);
    BanReports(cfg, s, account, policy, t, order, clocks, cid);
    BanOnCid(cfg, s, account, policy, t, order, clocks, cid);
  }

  lemma BanOnCid(cfg: Config, s: Tables, account: Account, policy: Policy, t: Time, order: seq<Cid>, clocks: seq<Time>,
                 cid: Cid)
    requires Inv(cfg, s) && Visits(s, t, order, clocks, HostedBy(s, account))
    ensures BannedOn(s, Ban(s, account, policy, t, order, clocks), account, cid)
  {
    var x := VoidAccount(s, account, policy, t);
    var s' := ReconcileAll(x, order, clocks);
    VoidKeeps(cfg, s, account, policy, t);
    VoidClaims(s, account, policy, t);
    AfterVoid(cfg, s, account, x, cid);
    FundedSplits(cfg, s, account, cid);
    if cid in order {
      var k :| 0 <= k < |order| && order[k] == cid;
      ReconcileAllHere(x, order, clocks, k);
      BanFromVoided(s, x, s', account, cid, clocks[k]);
    } else {
      ReconcileAllElsewhere(x, order, clocks, cid);
      UnhostedByAccount(cfg, s, account, cid);
      BanFromVoided(s, x, s', account, cid, t);
    }
  }

  /** Where the account hosted nothing, guardians wait only behind another host. */
  lemma UnhostedByAccount(cfg: Config, s: Tables, account: Account, cid: Cid)
    requires Rows(cfg, s) && AliveBut(s, {}) && cid !in HostedBy(s, account)
    ensures FundedByOther(s, account, cid) ==> HostedByOther(s, account, cid)
  {
    if FundedByOther(s, account, cid) {
      var i :| 0 <= i < |s.claims| && s.claims[i].Live() && s.claims[i].cid == cid && s.claims[i].owner != account;
      HostedByClaim(cfg, s, cid);
      assert Guarded(s, {}, i);
      var j :| 0 <= j < |s.claims| && s.claims[j].state.Active? && s.claims[j].cid == cid;
      assert s.claims[j].owner != account;
    }
  }

  lemma BanFromVoided(s: Tables, x: Tables, s': Tables, account: Account, cid: Cid, t: Time)
    requires |x.claims| == |s.claims|
    requires forall i | 0 <= i < |s.claims| :: x.claims[i] == VoidedClaim(s.claims[i], account)
    requires Hosted(x, cid) <==> HostedByOther(s, account, cid)
    requires FundedByOther(s, account, cid) <==> HostedByOther(s, account, cid) || QueueHead(x.claims, cid).Some?
    requires if SameOn(x, s', cid) then Hosted(x, cid) == FundedByOther(s, account, cid)
             else Activates(x, cid).Some? && HandedOver(x, s', cid, t)
    ensures BannedOn(s, s', account, cid)
  {
    if Activates(x, cid).Some? {
      var h := QueueHead(x.claims, cid).value;
      assert InQueue(x.claims[h], cid);
      forall j | 0 <= j < |s.claims| && InQueue(s.claims[j], cid) && s.claims[j].owner != account && j != h
        ensures Precedes(s.claims, h, j)
      {
        assert InQueue(x.claims[j], cid);
        assert Precedes(x.claims, h, j);
      }
    }
  }

  // ---------- takedown ----------

  lemma TakedownMatches(cfg: Config, s: Tables, cid: Cid)
    requires Rows(cfg, s)
    ensures PinsMatch(s, LiveClaimsOn(s, cid), LivePinsOn(s, cid))
  {
    forall p | 0 <= p < |s.pins|
      ensures p in LivePinsOn(s, cid) <==> s.pins[p].status.Pinned? && Holder(s, p) in LiveClaimsOn(s, cid)
    {
      assert PinOk(s, p);
    }
  }

  lemma TakedownCore(cfg: Config, s: Tables, cid: Cid, policy: Policy, t: Time)
    requires Core(cfg, s) && s.clock <= t
    ensures var s' := Takedown(s, cid, policy, t); Core(cfg, s') && ClaimSteps(s, s')
  {
    var ids, pids := LiveClaimsOn(s, cid), LivePinsOn(s, cid);
    var owed := TakedownOwed(s, cid, policy);
    TakedownMatches(cfg, s, cid);
    EndOweKeeps(cfg, s, ids, pids, PinTakedown, t, owed);
    var e := End(s, ids, Cancelled, pids, PinTakedown, t);
    var o := e.(owed := e.owed + owed);
    forall i | 0 <= i < |s.claims| && s.claims[i].cid == cid ensures !o.claims[i].Live() {}
    BlockKeeps(cfg, o, cid);
  }

  lemma TakedownAlive(s: Tables, cid: Cid, policy: Policy, t: Time)
    requires AliveBut(s, {})
    ensures AliveBut(Takedown(s, cid, policy, t), {})
  {
    var ids, pids := LiveClaimsOn(s, cid), LivePinsOn(s, cid);
    EndAlive(s, ids, Cancelled, pids, PinTakedown, t, {cid});
    var s' := Takedown(s, cid, policy, t);
    forall i | 0 <= i < |s'.claims| ensures Guarded(s', {}, i) {
      assert Guarded(End(s, ids, Cancelled, pids, PinTakedown, t), {cid}, i);
    }
  }

  lemma TakedownKeeps(cfg: Config, s: Tables, cid: Cid, policy: Policy, t: Time)
    requires Inv(cfg, s) && s.clock <= t
    ensures var s' := Takedown(s, cid, policy, t); Inv(cfg, s') && ClaimSteps(s, s')
  {
    TakedownCore(cfg, s, cid, policy, t);
    TakedownAlive(s, cid, policy, t);
  }

  /** A CID without live claims can be blocked. */
  lemma BlockKeeps(cfg: Config, s: Tables, cid: Cid)
    requires Core(cfg, s) && forall i | 0 <= i < |s.claims| && s.claims[i].cid == cid :: !s.claims[i].Live()
    ensures Core(cfg, s.(blocked := s.blocked + {cid}))
  {
    var s' := s.(blocked := s.blocked + {cid});
    forall i | 0 <= i < |s'.claims| ensures ClaimOk(cfg, s', i) { assert ClaimOk(cfg, s, i); }
    forall p | 0 <= p < |s'.pins| ensures PinOk(s', p) { assert PinOk(s, p); }
    forall p | 0 <= p < |s'.payments| ensures PaymentOk(s', p) { assert PaymentOk(s, p); }
    BatonsFrame(s, s');
    RefundsFrame(s, s');
    forall i | 0 <= i < |s'.claims|
      ensures Unblocked(s'.claims[i], s'.blocked)
    {
      assert Unblocked(s.claims[i], s.blocked);
    }
  }

  /** A takedown is total on its CID, refunds waiting guardians as innocent, and touches no other CID. */
  lemma TakedownIsTotal(s: Tables, cid: Cid, policy: Policy, t: Time)
    ensures var s' := Takedown(s, cid, policy, t);
      && cid in s'.blocked && !Hosted(s', cid) && QueueHead(s'.claims, cid).None?
      && |s'.claims| == |s.claims| && |s'.pins| == |s.pins|
      && (forall i | 0 <= i < |s.claims| :: s'.claims[i] ==
            if s.claims[i].cid == cid && s.claims[i].Live() then s.claims[i].(state := Cancelled) else s.claims[i])
      && (forall p | 0 <= p < |s.pins| && s.pins[p].cid != cid :: s'.pins[p] == s.pins[p])
      && (forall i | 0 <= i < |s.claims| && s.claims[i].cid == cid && s.claims[i].Live() ::
            i in s'.owed && s'.owed[i] == Owed(s.claims[i], Forced(policy, s.claims[i].state.Dormant?)))
      && (forall i | i in s'.owed && !(i < |s.claims| && s.claims[i].cid == cid && s.claims[i].Live()) ::
            i in s.owed && s'.owed[i] == s.owed[i])
  {
    var s' := Takedown(s, cid, policy, t);
    forall p | 0 <= p < |s'.pins| ensures !IsHost(s'.pins[p], cid) {}
    forall i | 0 <= i < |s'.claims| ensures !InQueue(s'.claims[i], cid) {}
  }
}
