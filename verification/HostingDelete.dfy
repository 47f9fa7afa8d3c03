/** What cancelling an account's hosts of one CID, one after the other, comes to. */
module HostingDelete {
  import opened Prelude
  import opened Pricing
  import opened Hosting
  import opened HostingInvariant
  import opened HostingEndings
  import opened HostingRuns

  datatype Deleted = Deleted(removed: nat, fullyUnpinned: bool)

  /** The account's active claims on a CID. */
  function OwnHosts(s: Tables, owner: Account, cid: Cid): set<nat> {
    set i: nat | i < |s.claims| && s.claims[i].state.Active? && s.claims[i].cid == cid && s.claims[i].owner == owner
  }

  ghost predicate Lists(order: seq<nat>, ids: set<nat>) {
    && |order| == |ids| && (forall i :: i in order <==> i in ids)
    && (forall j, k | 0 <= j < k < |order| :: order[j] != order[k])
  }

  lemma OneMoreListed(order: seq<nat>, ids: set<nat>, id: nat)
    requires Lists(order, ids) && id !in ids
    ensures Lists(order + [id], ids + {id})
  {
    assert forall k | 0 <= k < |order| :: order[k] in order;
  }

  /** All active claims on the CID are among `ids`. */
  ghost predicate NoOtherHost(s: Tables, cid: Cid, ids: set<nat>) {
    forall i: nat | i < |s.claims| && s.claims[i].state.Active? && s.claims[i].cid == cid :: i in ids
  }

  /** Claim i when the hosts `ids` of the CID have been removed: only the queue's head may have taken over. */
  ghost predicate RemovedRow(s: Tables, s': Tables, cid: Cid, ids: set<nat>, i: nat)
    requires i < |s.claims| && i < |s'.claims|
  {
    var c, d := s.claims[i], s'.claims[i];
    if i in ids then d == c.(state := Cancelled)
    else if NoOtherHost(s, cid, ids) && QueueHead(s.claims, cid) == Some(i)
    then d.pin.Some? && d.startTs >= s.clock && d == Activated(c, d.pin.value, d.startTs)
    else d == c
  }

  /** The CID dies with its removed hosts exactly when nobody else hosts it and nobody waits. */
  ghost predicate Removed(s: Tables, s': Tables, cid: Cid, ids: set<nat>) {
    && |s'.claims| == |s.claims| && s.clock <= s'.clock
    && (ids == {} ==> s'.claims == s.claims && s'.pins == s.pins)
    && (ids != {} ==>
          && (Hosted(s', cid) <==> !NoOtherHost(s, cid, ids) || QueueHead(s.claims, cid).Some?)
          && forall i | 0 <= i < |s.claims| :: RemovedRow(s, s', cid, ids, i))
  }

  function SettledRows(cfg: Config, before: seq<Claim>, order: seq<nat>, ending: Ending, at: seq<Time>): seq<Refund>
    requires |at| == |order|
  {
    seq(|order|, k requires 0 <= k < |order| && |at| == |order| =>
      if order[k] < |before| then RefundRow(cfg, order[k], Owed(before[order[k]], ending), at[k])
      else Refund(order[k], "", 0, true))
  }

  /** Rows `before` that did not change, and refund rows that were added. */
  ghost predicate Books(s: Tables, s': Tables, rows: seq<Refund>) {
    && s'.payments == s.payments && s'.blocked == s.blocked && s'.banned == s.banned && s'.owed == s.owed
    && s'.refunds == s.refunds + rows
  }

  /** The hosts `ids` of the CID are removed, each with its refund row, in the order given. */
  ghost predicate Deleting(cfg: Config, s: Tables, s': Tables, cid: Cid, ids: set<nat>, order: seq<nat>,
                           ending: Ending, at: seq<Time>)
    requires |at| == |order|
  {
    Removed(s, s', cid, ids) && Books(s, s', SettledRows(cfg, s.claims, order, ending, at))
  }

  ghost predicate HostRemoved(cfg: Config, s: Tables, s': Tables, id: nat, ending: Ending, t: Time, unpin: bool,
                              now: Time)
    requires id < |s.claims|
  {
    && CancelledOne(s, s', id, t, unpin) && s.clock <= t && s.clock <= s'.clock
    && Books(s, s', [RefundRow(cfg, id, Owed(s.claims[id], ending), now)])
  }

  lemma SettledAfterCancel(cfg: Config, s: Tables, m: Tables, id: nat, ending: Ending, t: Time, unpin: bool, now: Time)
    requires Refunds(s) && id < |s.claims| && s.claims[id].state.Active? && s.clock <= t && s.clock <= now
    requires CancelledOne(s, m, id, t, unpin) && Books(s, m.(owed := s.owed), [])
    requires m.owed == s.owed[id := Owed(s.claims[id], ending)]
    ensures HostRemoved(cfg, s, Settle(cfg, m.(clock := now), id, now), id, ending, t, unpin, now)
  {
    LiveIsNotOwed(s);
    var s' := Settle(cfg, m.(clock := now), id, now);
    assert s'.owed == s.owed;
  }

  /** What the delete loop has done when the hosts `todo` of `ids` are left. */
  ghost predicate DeletedSoFar(cfg: Config, s: Tables, s': Tables, cid: Cid, ids: set<nat>, todo: set<nat>,
                               order: seq<nat>,
                               ending: Ending, at: seq<Time>, removed: nat, fullyUnpinned: bool)
  {
    && todo <= ids && |order| == |at| == removed && Lists(order, ids - todo)
    && Deleting(cfg, s, s', cid, ids - todo, order, ending, at)
    && if removed == 0 then todo == ids && !fullyUnpinned else fullyUnpinned <==> !Hosted(s', cid)
  }

  lemma OneMoreDeleted(cfg: Config, s: Tables, m: Tables, s': Tables, cid: Cid, ids: set<nat>, todo: set<nat>,
                       order: seq<nat>,
                       ending: Ending, at: seq<Time>, removed: nat, fullyUnpinned: bool, id: nat, t: Time, unpin: bool,
                       now: Time)
    requires DeletedSoFar(cfg, s, m, cid, ids, todo, order, ending, at, removed, fullyUnpinned)
    requires id in todo && Hosted(m, cid)
    requires forall i | i in ids :: i < |s.claims| && s.claims[i].cid == cid && s.claims[i].state.Active?
    requires id < |m.claims| && m.claims[id] == s.claims[id] && HostRemoved(cfg, m, s', id, ending, t, unpin, now)
    ensures DeletedSoFar(cfg, s, s', cid, ids, todo - {id}, order + [id], ending, at + [now], removed + 1,
                         fullyUnpinned || unpin)
  {
    assert (ids - todo) + {id} == ids - (todo - {id});
    OneMoreListed(order, ids - todo, id);
    OneMoreRefunded(cfg, s, m, s', cid, ids - todo, order, ending, at, id, t, unpin, now);
  }

  lemma OneMoreRefunded(cfg: Config, s: Tables, m: Tables, s': Tables, cid: Cid, ids: set<nat>, order: seq<nat>,
                        ending: Ending, at: seq<Time>, id: nat, t: Time, unpin: bool, now: Time)
    requires |at| == |order| && Deleting(cfg, s, m, cid, ids, order, ending, at)
    requires id !in ids && id < |s.claims| && s.claims[id].cid == cid && s.claims[id].state.Active?
    requires forall i | i in ids :: i < |s.claims| && s.claims[i].cid == cid && s.claims[i].state.Active?
    requires id < |m.claims| && m.claims[id] == s.claims[id] && HostRemoved(cfg, m, s', id, ending, t, unpin, now)
    ensures Deleting(cfg, s, s', cid, ids + {id}, order + [id], ending, at + [now])
  {
    OneMoreRefund(cfg, s.claims, order, ending, at, id, now);
    OneMoreRemoved(s, m, s', cid, ids, id, t, unpin);
  }

  lemma OneMoreRefund(cfg: Config, before: seq<Claim>, order: seq<nat>, ending: Ending, at: seq<Time>, id: nat,
                      now: Time)
    requires |at| == |order| && id < |before|
    ensures SettledRows(cfg, before, order + [id], ending, at + [now])
      == SettledRows(cfg, before, order, ending, at) + [RefundRow(cfg, id, Owed(before[id], ending), now)]
  {
  }

  /** What ending one host does to its CID. */
  ghost predicate CancelledOne(s: Tables, s': Tables, id: nat, t: Time, unpin: bool)
    requires id < |s.claims|
  {
    var cid := s.claims[id].cid;
    var head := QueueHead(s.claims, cid);
    var over := NoOtherHost(s, cid, {id}) && head.Some?;
    && |s'.claims| == |s.claims| && s'.claims[id] == s.claims[id].(state := Cancelled)
    && (forall i | 0 <= i < |s.claims| && i != id && !(over && i == head.value) :: s'.claims[i] == s.claims[i])
    && (over ==>
          var d := s'.claims[head.value];
          d.pin.Some? && d == Activated(s.claims[head.value], d.pin.value, t))
    && (Hosted(s', cid) <==> !NoOtherHost(s, cid, {id}) || head.Some?)
    && (unpin <==> !Hosted(s', cid))
  }

  lemma CancelOne(cfg: Config, s: Tables, id: nat, ending: Ending, t: Time, t': Time)
    requires Inv(cfg, s) && id < |s.claims| && s.claims[id].state.Active? && s.clock <= t <= t'
    requires ending.Forced? ==> !ending.innocent
    ensures var step := EndAndReconcile(s, id, ending, t, t');
      && CancelledOne(s, step.next, id, t', step.reply.value.unpin)
      && Books(s, step.next.(owed := s.owed), []) && step.next.owed == s.owed[id := Owed(s.claims[id], ending)]
      && t <= step.next.clock
  {
    var e, cid := EndedOne(s, id, ending, t), s.claims[id].cid;
    EndedOneCore(cfg, s, id, ending, t);
    EndedOneRow(s, id, ending, t);
    EndedHosting(cfg, s, e, id);
    HandOverRow(s, e, id, t');
    ReconcileBooks(e, cid, t');
  }

  lemma ReconcileBooks(s: Tables, cid: Cid, t: Time)
    requires s.clock <= t
    ensures var s' := Reconcile(s, cid, t); Books(s, s', []) && s.clock <= s'.clock
  {
  }

  lemma EndedOneRow(s: Tables, id: nat, ending: Ending, t: Time)
    requires id < |s.claims|
    ensures var e := EndedOne(s, id, ending, t);
      && e.claims == s.claims[id := s.claims[id].(state := Cancelled)]
      && e.owed == s.owed[id := Owed(s.claims[id], ending)]
      && Books(s, e.(owed := s.owed), [])
  {
  }

  lemma HandOverRow(s: Tables, e: Tables, id: nat, t: Time)
    requires id < |s.claims| && s.claims[id].state.Active?
    requires e.claims == s.claims[id := s.claims[id].(state := Cancelled)]
    requires QueueHead(e.claims, s.claims[id].cid) == QueueHead(s.claims, s.claims[id].cid)
    requires Hosted(e, s.claims[id].cid) <==> !NoOtherHost(s, s.claims[id].cid, {id})
    ensures var s', cid := Reconcile(e, s.claims[id].cid, t), s.claims[id].cid;
      CancelledOne(s, s', id, t, Unpins(e, cid))
  {
    ReconcileHere(e, s.claims[id].cid, t);
  }

  lemma EndedHosting(cfg: Config, s: Tables, e: Tables, id: nat)
    requires Rows(cfg, e) && id < |s.claims| && s.claims[id].state.Active?
    requires e.claims == s.claims[id := s.claims[id].(state := Cancelled)]
    ensures Hosted(e, s.claims[id].cid) <==> !NoOtherHost(s, s.claims[id].cid, {id})
    ensures QueueHead(e.claims, s.claims[id].cid) == QueueHead(s.claims, s.claims[id].cid)
  {
    var cid := s.claims[id].cid;
    HostedByClaim(cfg, e, cid);
    if !NoOtherHost(s, cid, {id}) {
      var i: nat :| i < |s.claims| && s.claims[i].state.Active? && s.claims[i].cid == cid && i != id;
      assert e.claims[i].state.Active? && e.claims[i].cid == cid;
    }
    QueueSurvives(s.claims, e.claims, cid);
  }

  /** With a host left to remove, nobody has taken over yet. */
  lemma RemovedSoFar(s: Tables, m: Tables, cid: Cid, ids: set<nat>, id: nat)
    requires Removed(s, m, cid, ids) && id !in ids && id < |s.claims| && s.claims[id].state.Active?
    requires s.claims[id].cid == cid
    requires forall i | i in ids :: i < |s.claims| && s.claims[i].cid == cid && s.claims[i].state.Active?
    ensures forall i | 0 <= i < |s.claims| ::
      m.claims[i] == if i in ids then s.claims[i].(state := Cancelled) else s.claims[i]
    ensures QueueHead(m.claims, cid) == QueueHead(s.claims, cid)
    ensures NoOtherHost(m, cid, {id}) <==> NoOtherHost(s, cid, ids + {id})
  {
    forall i | 0 <= i < |s.claims|
      ensures m.claims[i] == if i in ids then s.claims[i].(state := Cancelled) else s.claims[i]
    {
      if ids != {} { assert RemovedRow(s, m, cid, ids, i); }
    }
    QueueSurvives(s.claims, m.claims, cid);
  }

  lemma OneMoreRemoved(s: Tables, m: Tables, s': Tables, cid: Cid, ids: set<nat>, id: nat, t: Time, unpin: bool)
    requires Removed(s, m, cid, ids) && id !in ids && id < |s.claims| && s.claims[id].state.Active?
    requires s.claims[id].cid == cid
    requires forall i | i in ids :: i < |s.claims| && s.claims[i].cid == cid && s.claims[i].state.Active?
    requires CancelledOne(m, s', id, t, unpin) && m.clock <= t && m.clock <= s'.clock
    ensures Removed(s, s', cid, ids + {id})
  {
    RemovedSoFar(s, m, cid, ids, id);
    forall i | 0 <= i < |s.claims| ensures RemovedRow(s, s', cid, ids + {id}, i) {}
  }

  lemma NextToRemove(cfg: Config, s: Tables, m: Tables, cid: Cid, ids: set<nat>, id: nat)
    requires Rows(cfg, m) && Removed(s, m, cid, ids)
    requires id !in ids && id < |s.claims| && s.claims[id].state.Active? && s.claims[id].cid == cid
    requires forall i | i in ids :: i < |s.claims| && s.claims[i].cid == cid && s.claims[i].state.Active?
    ensures m.claims[id] == s.claims[id] && Hosted(m, cid)
  {
    RemovedSoFar(s, m, cid, ids, id);
    HostedByClaim(cfg, m, cid);
  }
}
