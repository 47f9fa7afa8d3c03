/** The gate itself: tables updated in place by the handlers' database sections. */
module HostingGate {
  import opened Prelude
  import opened Pricing
  import H = Hosting
  import opened Hosting
  import opened HostingInvariant
  import opened HostingEndings
  import opened HostingRuns
  import opened HostingDelete

  class Gate {
    const cfg: Config
    var claims: seq<Claim>
    var pins: seq<Pin>
    var payments: seq<Payment>
    var refunds: seq<Refund>
    var owed: map<nat, Owed>
    var blocked: set<Cid>
    var banned: set<Account>
    var clock: Time

    function State(): Tables
      reads this
    {
      Tables(claims, pins, payments, refunds, owed, blocked, banned, clock)
    }

    ghost predicate Valid()
      reads this
    {
      cfg.Valid() && Inv(cfg, State())
    }

    constructor (cfg: Config)
      requires cfg.Valid()
      ensures Valid() && State() == EMPTY && this.cfg == cfg
    {
      this.cfg := cfg;
      claims, pins, payments, refunds, owed, blocked, banned, clock := [], [], [], [], map[], {}, {}, 0;
    }

    /** `now()`: a clock that does not run backwards. */
    method Now() returns (t: Time)
      modifies this`clock
      ensures t >= old(clock) && clock == t
    {
      t :| t >= clock;
      clock := t;
    }

    // ---------- purchases ----------

    /** `recordPayment`: the UNIQUE index on tx_id turns a replay away. */
    method RecordPayment(tx: TxId, payer: Account, amount: real, memo: Memo, use: Use) returns (r: Result<nat>)
      modifies this`payments
      ensures r == if TxUsed(old(State()), tx) then Err(Conflict) else Ok(|old(payments)|)
      ensures State() == if r.Ok? then H.RecordPayment(old(State()), tx, payer, amount, memo, use) else old(State())
    {
      if exists p | 0 <= p < |payments| :: payments[p].tx == tx { return Err(Conflict); }
      payments := payments + [Payment(tx, payer, amount, memo, use)];
      return Ok(|payments| - 1);
    }

    /** `createPin` and `createOrderWithClaim` for a claim that is live at once. */
    method CreateHost(p: nat, cid: Cid, owner: Account, size: Size, kind: Kind, rate: real, hours: int, copies: int,
                      startTs: Time, expiryTs: Time) returns (id: nat)
      requires p < |payments|
      modifies this
      ensures id == |old(claims)|
      ensures State() == AddHost(old(State()), p, cid, owner, size, kind, rate, hours, copies, startTs, expiryTs)
    {
      var pin := |pins|;
      pins := pins + [Pin(cid, owner, size, p, startTs, expiryTs, Pinned, None)];
      id := |claims|;
      claims := claims + [Claim(cid, owner, Some(pin), size, BillableMB(size), rate, hours, copies, kind, Active,
                                payments[p].amount, p, startTs, expiryTs, startTs, None, None)];
      payments := payments[p := payments[p].(use := Funded(id))];
      clock := startTs;
    }

    method PayUpload(tx: TxId, uploader: Account, reserved: Size, hours: real, copies: real, exemptThen: bool,
                     fileSize: nat, exemptNow: bool, amount: real) returns (r: Result<Reply>)
      requires Valid() && amount >= 0.0
      modifies this`payments
      ensures Valid()
      ensures State()
        == Apply(cfg, old(State()),
                 EPayUpload(tx, uploader, reserved, hours, copies, exemptThen, fileSize, exemptNow, amount))
      ensures var quote := Reserve(cfg, reserved, hours, copies, exemptThen);
        r == if quote.Err? then Err(quote.code)
             else H.PayUpload(cfg, old(State()), tx, uploader, quote.value, reserved, fileSize, exemptNow, amount).reply
    {
      StepKeeps(cfg, State(),
                EPayUpload(tx, uploader, reserved, hours, copies, exemptThen, fileSize, exemptNow, amount));
      var quote := Reserve(cfg, reserved, hours, copies, exemptThen);
      if quote.Err? { return Err(quote.code); }
      var q := quote.value;
      if fileSize > reserved { return Err(TooLarge); }
      if uploader in banned { return Err(Forbidden); }
      var free := exemptNow && q.total == 0;
      if exists p | 0 <= p < |payments| :: payments[p].tx == tx { return Err(Conflict); }
      if !Covers(free, amount, q.total) { return Err(Underpaid); }
      var paid := RecordPayment(tx, uploader, amount, UploadMemo,
                                Uploading(UploadOrder(uploader, fileSize, q.hours, q.copies, free)));
      return Ok(Accepted(paid.value));
    }

    method CommitUpload(p: nat, digest: string) returns (r: Result<Reply>, now: Time)
      requires Valid() && p < |payments| && payments[p].use.Uploading?
      modifies this
      ensures old(clock) <= now && Valid()
      ensures Step(State(), r).reply == H.CommitUpload(cfg, old(State()), p, digest, now).reply
      ensures r.Ok? ==> State() == H.CommitUpload(cfg, old(State()), p, digest, now).next
      ensures r.Err? ==> State() == SetUse(old(State()), p, Stranded)
    {
      var order := payments[p].use.order;
      now := clock;
      if order.fileSize == 0 || Cid(digest, order.fileSize) in blocked {
        StrandKeeps(cfg, State(), p);
        payments := payments[p := payments[p].(use := Stranded)];
        return Err(if order.fileSize == 0 then BadRequest else LegalTakedown), now;
      }
      var cid := Cid(digest, order.fileSize);
      var kind := if FindHost(pins, cid).Some? then OwnCopy else Original;
      var hours := if cfg.permanent then cfg.minHours else order.hours;
      ghost var s := State();
      now := Now();
      UploadKeeps(cfg, s, p, digest, now);
      var id := CreateHost(p, cid, order.uploader, order.fileSize, kind, Rate(cfg, order.exempt), hours,
                           CappedCopies(cfg, order.copies as real), now,
                           if cfg.permanent then PERMANENT_EXPIRY else now + hours * HOUR);
      return Ok(Purchased(id)), now;
    }

    /** POST /claims/own-copy from its payment on. */
    method BuyOwnCopy(tx: TxId, owner: Account, cid: Cid, hours: real, copies: real, exempt: bool, amount: real)
      returns (r: Result<Reply>, now: Time)
      requires Valid() && amount >= 0.0
      modifies this
      ensures old(clock) <= now && Valid()
      ensures Step(State(), r) == H.BuyOwnCopy(cfg, old(State()), tx, owner, cid, hours, copies, exempt, amount, now)
    {
      ghost var s := State();
      now := clock;
      var quote := Reserve(cfg, cid.size, hours, copies, exempt);
      if quote.Err? { return Err(quote.code), now; }
      var q := quote.value;
      if exists p | 0 <= p < |payments| :: payments[p].tx == tx { return Err(Conflict), now; }
      if !Covers(exempt, amount, q.total) { return Err(Underpaid), now; }
      var p := RecordPayment(tx, owner, amount, OwnCopyMemo(cid), Stranded);
      var latest := LatestPin(pins, cid);
      if FindHost(pins, cid).None? || latest.None? {
        OwnCopyKeeps(cfg, s, tx, owner, cid, hours, copies, exempt, amount, now);
        return Err(NotFound), now;
      }
      now := Now();
      OwnCopyKeeps(cfg, s, tx, owner, cid, hours, copies, exempt, amount, now);
      var paidHours := if cfg.permanent then cfg.minHours else q.hours;
      var id := CreateHost(p.value, cid, owner, pins[latest.value].sizeBytes, OwnCopy, Rate(cfg, exempt),
                           paidHours, q.copies, now,
                           if cfg.permanent then PERMANENT_EXPIRY else now + paidHours * HOUR);
      return Ok(Purchased(id)), now;
    }

    /** POST /guardian/pledge. */
    method Pledge(tx: TxId, owner: Account, cid: Cid, hours: real, copies: real, exempt: bool, amount: real)
      returns (r: Result<Reply>, now: Time)
      requires Valid() && amount >= 0.0
      modifies this
      ensures old(clock) <= now && Valid()
      ensures Step(State(), r) == H.Pledge(cfg, old(State()), tx, owner, cid, hours, copies, exempt, amount, now)
    {
      ghost var s := State();
      now := clock;
      if owner in banned { return Err(Forbidden), now; }
      if cid in blocked { return Err(LegalTakedown), now; }
      var host := FindHost(pins, cid);
      if host.None? { return Err(NotFound), now; }
      var size := pins[host.value].sizeBytes;
      var quote := CalculateCost(cfg, size, hours, copies, Rate(cfg, exempt));
      if quote.Err? { return Err(quote.code), now; }
      var q := quote.value;
      if exists p | 0 <= p < |payments| :: payments[p].tx == tx { return Err(Conflict), now; }
      if !Covers(exempt, amount, q.total) { return Err(Underpaid), now; }
      var id := |claims|;
      var p := RecordPayment(tx, owner, amount, PledgeMemo(cid), Funded(id));
      now := Now();
      PledgeKeeps(cfg, s, tx, owner, cid, hours, copies, exempt, amount, now);
      var slot := NextPledgeOrder(claims, cid);
      claims := claims + [Claim(cid, owner, None, size, q.mb, Rate(cfg, exempt), q.hours, q.copies, Guardian, Dormant,
                                amount, p.value, now, now, now, Some(slot), Some(amount))];
      return Ok(Purchased(id)), now;
    }

    /** POST /claims/extend from its payment on. */
    method Extend(tx: TxId, id: nat, hours: real, exempt: bool, amount: real) returns (r: Result<Reply>)
      requires Valid() && amount >= 0.0
      modifies this
      ensures Valid() && Step(State(), r) == H.Extend(cfg, old(State()), tx, id, hours, exempt, amount)
    {
      ExtendKeeps(cfg, State(), tx, id, hours, exempt, amount);
      var extra := BillableHours(cfg, hours);
      if extra.Err? { return Err(BadRequest); }
      if id >= |claims| { return Err(NotFound); }
      var c := claims[id];
      if c.expiryTs >= PERMANENT_EXPIRY { return Err(Conflict); }
      var cost := Charge(extra.value, c.PerHour());
      if exists p | 0 <= p < |payments| :: payments[p].tx == tx { return Err(Conflict); }
      if !Covers(exempt && cost == 0, amount, cost) { return Err(Underpaid); }
      var p := RecordPayment(tx, c.owner, amount, ExtendMemo(id), if c.state.Active? then Funded(id) else Stranded);
      if !c.state.Active? { return Err(Conflict); }
      var expiry := c.expiryTs + extra.value * HOUR;
      claims := claims[id := c.(paidHours := c.paidHours + extra.value, expiryTs := expiry)];
      if c.pin.Some? && c.pin.value < |pins| && pins[c.pin.value].status.Pinned? {
        pins := pins[c.pin.value := pins[c.pin.value].(expiresAt := expiry)];
      }
      return Ok(Purchased(id));
    }

    // ---------- endings ----------

    /** UPDATE pins SET status, status_changed_at WHERE id = pin AND status = 'active'. */
    method ExpirePin(pin: Option<nat>, t: Time)
      modifies this`pins
      ensures |pins| == |old(pins)|
      ensures forall p | 0 <= p < |pins| ::
        pins[p] == if pin == Some(p) && old(pins)[p].status.Pinned?
                   then old(pins)[p].(status := PinExpired, changedAt := Some(t)) else old(pins)[p]
    {
      if pin.Some? && pin.value < |pins| && pins[pin.value].status.Pinned? {
        pins := pins[pin.value := pins[pin.value].(status := PinExpired, changedAt := Some(t))];
      }
    }

    /** `reconcileCidAfterEnd`, inside the transaction of whoever ended a claim. */
    method Reconcile(cid: Cid) returns (unpin: bool, activated: Option<nat>)
      modifies this
      ensures clock >= old(clock) && State() == H.Reconcile(old(State()), cid, clock)
      ensures unpin == Unpins(old(State()), cid) && activated == Activates(old(State()), cid)
    {
      if FindHost(pins, cid).Some? { return false, None; }
      var head := QueueHead(claims, cid);
      if head.None? { return true, None; }
      var c := claims[head.value];
      var t := Now();
      var expiry := t + c.paidHours * HOUR;
      var latest := LatestPin(pins, cid);
      var size := if latest.Some? then pins[latest.value].sizeBytes else c.sizeBytes;
      var pin := |pins|;
      pins := pins + [Pin(cid, c.owner, size, c.payment, t, expiry, Pinned, None)];
      claims := claims[head.value := c.(state := Active, startTs := t, expiryTs := expiry, pin := Some(pin))];
      return false, head;
    }

    /** `cancelClaim`; the handler keeps the row it was given for the refund. */
    method Cancel(id: nat, who: Canceller) returns (r: Result<Reply>, ghost t: Time, ghost t': Time)
      requires Valid()
      modifies this
      ensures old(clock) <= t <= t' && Valid()
      ensures Step(State(), r) == H.Cancel(old(State()), id, who, t, t')
    {
      ghost var s := State();
      t, t' := clock, clock;
      if id >= |claims| { return Err(NotFound), t, t'; }
      var c := claims[id];
      if who.User? && c.owner != who.account { return Err(Forbidden), t, t'; }
      if !c.Live() { return Err(Conflict), t, t'; }
      var at := Now();
      t, t' := at, at;
      var reply;
      if c.state.Dormant? {
        EndDormant(s, id, who.Ending(), at);
        reply := Ended(false, None, true);
      } else {
        reply, t' := EndActive(s, id, who.Ending(), at);
      }
      return Ok(reply), t, t';
    }

    /** `cancelClaim` on a dormant guardian: no pin, and nothing to reconcile. */
    method EndDormant(ghost s: Tables, id: nat, ending: Ending, t: Time)
      requires cfg.Valid() && Inv(cfg, s) && s.clock <= t && State() == s.(clock := t)
      requires id < |claims| && claims[id].state.Dormant?
      modifies this
      ensures clock == t && Valid() && State() == EndedDormant(s, id, ending, t)
    {
      EndDormantKeeps(cfg, s, id, ending, t);
      DormantInPlace(s, id, ending, t);
      owed := owed[id := Owed(claims[id], ending)];
      claims := claims[id := claims[id].(state := Cancelled)];
    }

    /** What `cancelClaim` and `endActiveClaimForRelease` do to an active claim after their checks. */
    method EndActive(ghost s: Tables, id: nat, ending: Ending, t: Time) returns (reply: Reply, ghost t': Time)
      requires cfg.Valid() && Inv(cfg, s) && s.clock <= t && State() == s.(clock := t)
      requires id < |claims| && claims[id].state.Active? && (ending.Forced? ==> !ending.innocent)
      modifies this
      ensures t <= t' && Valid() && Step(State(), Ok(reply)) == EndAndReconcile(s, id, ending, t, t')
    {
      var cid := claims[id].cid;
      EndRow(s, id, ending, t);
      var unpin, activated := Reconcile(cid);
      t' := clock;
      EndOneKeeps(cfg, s, id, ending, t, t');
      reply := Ended(unpin, activated, false);
    }

    /** The two guarded UPDATEs on the claim and its pin. */
    method EndRow(ghost s: Tables, id: nat, ending: Ending, t: Time)
      requires State() == s.(clock := t) && id < |claims|
      modifies this
      ensures clock == t && State() == EndedOne(s, id, ending, t)
    {
      var c := claims[id];
      claims := claims[id := c.(state := Cancelled)];
      ExpirePin(c.pin, t);
      EndedInPlace(s, id, ending, t, pins);
      owed := owed[id := Owed(c, ending)];
    }

    /** `endActiveClaimForRelease`. */
    method Release(id: nat) returns (r: Result<Reply>, ghost t: Time, ghost t': Time)
      requires Valid()
      modifies this
      ensures old(clock) <= t <= t' && Valid()
      ensures Step(State(), r) == H.Release(old(State()), id, t, t')
    {
      ghost var s := State();
      t, t' := clock, clock;
      if id >= |claims| { return Err(NotFound), t, t'; }
      if !claims[id].state.Active? { return Err(Conflict), t, t'; }
      var at := Now();
      t := at;
      var reply;
      reply, t' := EndActive(s, id, ByUser, at);
      return Ok(reply), t, t';
    }

    /** Reconcile every CID of a set, in any order. */
    method ReconcileEach(cids: set<Cid>) returns (unpin: seq<Cid>, activated: seq<nat>, ghost order: seq<Cid>,
                         ghost clocks: seq<Time>)
      modifies this
      ensures |clocks| == |order| && Ticks(old(clock), clocks) && Enumerates(order, cids) && clock >= old(clock)
      ensures State() == ReconcileAll(old(State()), order, clocks)
      ensures unpin == Unpinned(old(State()), order, clocks) && activated == Promoted(old(State()), order, clocks)
    {
      unpin, activated, order, clocks := [], [], [], [];
      var todo := cids;
      while todo != {}
        invariant todo <= cids && |clocks| == |order| && Ticks(old(clock), clocks) && clock >= old(clock)
        invariant forall k | 0 <= k < |clocks| :: clocks[k] <= clock
        invariant Enumerates(order, cids - todo)
        invariant State() == ReconcileAll(old(State()), order, clocks)
        invariant unpin == Unpinned(old(State()), order, clocks) && activated == Promoted(old(State()), order, clocks)
        decreases |todo|
      {
        var cid :| cid in todo;
        var gone, next := Reconcile(cid);
        if next.Some? { activated := activated + [next.value]; }
        else if gone { unpin := unpin + [cid]; }
        OneMoreReconciled(old(State()), order, clocks, cid, clock);
        OneMoreVisited(old(clock), order, clocks, cids, todo, cid, clock);
        order, clocks, todo := order + [cid], clocks + [clock], todo - {cid};
      }
      assert cids - todo == cids;
    }

    /** One round of the delete loops: cancel, then settle. */
    method RemoveHost(id: nat, who: Canceller) returns (unpin: bool, now: Time, ghost t: Time)
      requires Valid() && id < |claims| && claims[id].state.Active? && (who.User? ==> who.account == claims[id].owner)
      modifies this
      ensures Valid() && HostRemoved(cfg, old(State()), State(), id, who.Ending(), t, unpin, now)
    {
      ghost var s := State();
      var step, from, to := Cancel(id, who);
      t := to;
      unpin := step.value.unpin;
      CancelOne(cfg, s, id, who.Ending(), from, t);
      ghost var m := State();
      var amount;
      amount, now := Settle(id);
      SettledAfterCancel(cfg, s, m, id, who.Ending(), t, unpin, now);
    }

    /** The loop of DELETE on an account's uploads of one CID, and of an admin's pin removal. */
    method DeleteUploads(owner: Account, cid: Cid, who: Canceller)
      returns (r: Result<Deleted>, ghost order: seq<nat>, ghost at: seq<Time>)
      requires Valid() && (who.User? ==> who.account == owner)
      modifies this
      ensures Valid() && |order| == |at| && Lists(order, OwnHosts(old(State()), owner, cid))
      ensures r == if order == [] then Err(NotFound) else Ok(Deleted(|order|, !Hosted(State(), cid)))
      ensures Deleting(cfg, old(State()), State(), cid, OwnHosts(old(State()), owner, cid), order, who.Ending(), at)
    {
      ghost var s := State();
      order, at := [], [];
      var todo := OwnHosts(State(), owner, cid);
      ghost var ids := todo;
      if todo == {} { return Err(NotFound), order, at; }
      var removed, fullyUnpinned := 0, false;
      while todo != {}
        invariant Valid()
        invariant DeletedSoFar(cfg, s, State(), cid, ids, todo, order, who.Ending(), at, removed, fullyUnpinned)
        decreases |todo|
      {
        var id :| id in todo;
        ghost var m := State();
        NextToRemove(cfg, s, m, cid, ids - todo, id);
        var unpin, now, t := RemoveHost(id, who);
        OneMoreDeleted(cfg, s, m, State(), cid, ids, todo, order, who.Ending(), at, removed, fullyUnpinned, id, t,
                       unpin, now);
        removed, fullyUnpinned := removed + 1, fullyUnpinned || unpin;
        order, at, todo := order + [id], at + [now], todo - {id};
      }
      assert ids - todo == ids;
      r := Ok(Deleted(removed, fullyUnpinned));
    }

    /** `sweep`: expire claims past their timer with their pins, then other pins, then reconcile. */
    method Sweep() returns (unpin: seq<Cid>, activated: seq<nat>, t: Time, ghost order: seq<Cid>,
                 ghost clocks: seq<Time>)
      requires Valid()
      modifies this
      ensures Valid() && Visits(old(State()), t, order, clocks, Candidates(Expire(old(State()), t), t))
      ensures State() == H.Sweep(old(State()), t, order, clocks)
      ensures unpin == Unpinned(Expire(old(State()), t), order, clocks)
      ensures activated == Promoted(Expire(old(State()), t), order, clocks)
    {
      ghost var s := State();
      t := Now();
      ExpireClaims(s, t);
      var due := DuePins(State(), t);
      var before := pins;
      pins := seq(|before|, p requires 0 <= p < |before| =>
        if p in due then before[p].(status := PinExpired, changedAt := Some(t)) else before[p]);
      assert State() == Expire(s, t) by {
        assert claims == Expire(s, t).claims && pins == Expire(s, t).pins;
      }
      unpin, activated, order, clocks := ReconcileEach(Candidates(State(), t));
      SweepKeeps(cfg, s, t, order, clocks);
    }

    /** The first half of the sweep: the expiring claims, then the pin of each. */
    method ExpireClaims(ghost s: Tables, t: Time)
      requires State() == s.(clock := t)
      modifies this
      ensures State() == End(s, DueClaims(s, t), ClaimState.Expired, PinsOf(s, DueClaims(s, t)), PinExpired, t)
    {
      var ids := DueClaims(State(), t);
      var before := claims;
      claims := seq(|before|, i requires 0 <= i < |before| =>
        if i in ids then before[i].(state := ClaimState.Expired) else before[i]);
      ExpirePins(s, before, ids, t);
    }

    method ExpirePins(ghost s: Tables, before: seq<Claim>, ids: set<nat>, t: Time)
      requires before == s.claims && pins == s.pins && forall i | i in ids :: i < |before|
      modifies this`pins
      ensures pins == End(s, ids, ClaimState.Expired, PinsOf(s, ids), PinExpired, t).pins
    {
      var todo := ids;
      while todo != {}
        invariant todo <= ids && |pins| == |s.pins|
        invariant forall p | 0 <= p < |pins| :: pins[p] == PinAfter(s, ids - todo, t, p)
        decreases |todo|
      {
        var i :| i in todo;
        assert (ids - todo) + {i} == ids - (todo - {i});
        ghost var was := pins;
        ExpirePin(before[i].pin, t);
        forall p | 0 <= p < |pins| ensures pins[p] == PinAfter(s, ids - (todo - {i}), t, p) {
          OneMorePin(s, ids - todo, i, p);
        }
        todo := todo - {i};
      }
      assert ids - todo == ids;
    }

    /** `banAccount`. */
    method Ban(account: Account, policy: Policy)
      returns (unpin: seq<Cid>, activated: seq<nat>, t: Time, ghost order: seq<Cid>, ghost clocks: seq<Time>)
      requires Valid()
      modifies this
      ensures Valid() && Visits(old(State()), t, order, clocks, HostedBy(old(State()), account))
      ensures State() == H.Ban(old(State()), account, policy, t, order, clocks)
      ensures unpin == Unpinned(VoidAccount(old(State()), account, policy, t), order, clocks)
      ensures activated == Promoted(VoidAccount(old(State()), account, policy, t), order, clocks)
    {
      var s := State();
      t := Now();
      banned := banned + {account};
      owed := owed + OwedFor(claims, LiveClaimsOf(s, account), Forced(policy, false));
      claims := EndedRows(claims, LiveClaimsOf(s, account));
      pins := EndedPins(pins, LivePinsOf(s, account), PinBanned, t);
      VoidInPlace(s, account, policy, t, claims, pins);
      unpin, activated, order, clocks := ReconcileEach(HostedBy(s, account));
      BanKeeps(cfg, s, account, policy, t, order, clocks);
    }

    /** `takedownCid`. */
    method Takedown(cid: Cid, policy: Policy) returns (t: Time)
      requires Valid()
      modifies this
      ensures t >= old(clock) && Valid() && State() == H.Takedown(old(State()), cid, policy, t)
    {
      var s := State();
      t := Now();
      blocked := blocked + {cid};
      owed := owed + TakedownOwed(s, cid, policy);
      claims := EndedRows(claims, LiveClaimsOn(s, cid));
      pins := EndedPins(pins, LivePinsOn(s, cid), PinTakedown, t);
      TakedownInPlace(s, cid, policy, t, claims, pins);
      TakedownKeeps(cfg, s, cid, policy, t);
    }

    // ---------- settlement ----------

    /** `settleClaimRefund`, `settleForcedRefund` and the ledger row of `broadcastRefund`. */
    method Settle(id: nat) returns (amount: int, now: Time)
      requires Valid() && id in owed
      modifies this
      ensures now >= old(clock) && Valid()
      ensures State() == H.Settle(cfg, old(State()).(clock := now), id, now)
      ensures amount == Max(0, RefundDue(cfg, old(owed)[id], now))
    {
      ghost var s := State();
      now := Now();
      var o := owed[id];
      var due := RefundDue(cfg, o, now);
      amount := Max(0, due);
      refunds := refunds + [Refund(id, o.claim.owner, amount, due <= 0)];
      owed := owed - {id};
      ClockKeeps(cfg, s, now);
      SettleKeeps(cfg, s.(clock := now), id, now);
    }
  }

  // ---------- the reconcile loop ----------

  lemma OneMoreReconciled(s: Tables, order: seq<Cid>, clocks: seq<Time>, cid: Cid, t: Time)
    requires |clocks| == |order|
    ensures var m := ReconcileAll(s, order, clocks);
      && ReconcileAll(s, order + [cid], clocks + [t]) == Reconcile(m, cid, t)
      && Unpinned(s, order + [cid], clocks + [t]) == Unpinned(s, order, clocks) + (if Unpins(m, cid) then [cid] else [])
      && Promoted(s, order + [cid], clocks + [t])
         == Promoted(s, order, clocks) + (if Activates(m, cid).Some? then [Activates(m, cid).value] else [])
  {
    assert (order + [cid])[..|order|] == order && (clocks + [t])[..|order|] == clocks;
  }

  lemma OneMoreVisited(from: Time, order: seq<Cid>, clocks: seq<Time>, cids: set<Cid>, todo: set<Cid>, cid: Cid,
                       t: Time)
    requires Enumerates(order, cids - todo) && cid in todo && todo <= cids
    requires Ticks(from, clocks) && from <= t && forall k | 0 <= k < |clocks| :: clocks[k] <= t
    ensures Enumerates(order + [cid], cids - (todo - {cid})) && Ticks(from, clocks + [t])
  {
    assert forall k | 0 <= k < |order| :: order[k] in order;
  }

  // ---------- one row at a time ----------

  /** The row updates of an ending, read as the set-valued one. */
  lemma EndedInPlace(s: Tables, id: nat, ending: Ending, t: Time, pins: seq<Pin>)
    requires id < |s.claims| && |pins| == |s.pins|
    requires forall p | 0 <= p < |pins| :: pins[p] == PinAfter(s, {id}, t, p)
    ensures EndedOne(s, id, ending, t)
      == s.(claims := s.claims[id := s.claims[id].(state := Cancelled)], pins := pins,
            owed := s.owed[id := Owed(s.claims[id], ending)], clock := t)
  {
    var e := EndedOne(s, id, ending, t);
    assert e.pins == pins;
    assert e.claims == s.claims[id := s.claims[id].(state := Cancelled)];
    assert e.owed == s.owed[id := Owed(s.claims[id], ending)];
  }

  /** UPDATE claims SET state = 'cancelled' for the rows that a query found. */
  function EndedRows(rows: seq<Claim>, ids: set<nat>): seq<Claim> {
    seq(|rows|, i requires 0 <= i < |rows| => if i in ids then rows[i].(state := Cancelled) else rows[i])
  }

  /** UPDATE pins SET status, status_changed_at for the rows that a query found. */
  function EndedPins(rows: seq<Pin>, pids: set<nat>, status: PinStatus, t: Time): seq<Pin> {
    seq(|rows|, p requires 0 <= p < |rows| =>
      if p in pids then rows[p].(status := status, changedAt := Some(t)) else rows[p])
  }

  lemma VoidInPlace(s: Tables, account: Account, policy: Policy, t: Time, claims: seq<Claim>, pins: seq<Pin>)
    requires claims == EndedRows(s.claims, LiveClaimsOf(s, account))
    requires pins == EndedPins(s.pins, LivePinsOf(s, account), PinBanned, t)
    ensures VoidAccount(s, account, policy, t)
      == s.(claims := claims, pins := pins, clock := t, banned := s.banned + {account},
            owed := s.owed + OwedFor(s.claims, LiveClaimsOf(s, account), Forced(policy, false)))
  {
    var x := VoidAccount(s, account, policy, t);
    assert x.claims == claims && x.pins == pins;
  }

  lemma TakedownInPlace(s: Tables, cid: Cid, policy: Policy, t: Time, claims: seq<Claim>, pins: seq<Pin>)
    requires claims == EndedRows(s.claims, LiveClaimsOn(s, cid))
    requires pins == EndedPins(s.pins, LivePinsOn(s, cid), PinTakedown, t)
    ensures H.Takedown(s, cid, policy, t)
      == s.(claims := claims, pins := pins, clock := t, blocked := s.blocked + {cid},
            owed := s.owed + TakedownOwed(s, cid, policy))
  {
    var x := H.Takedown(s, cid, policy, t);
    assert x.claims == claims && x.pins == pins;
  }

  lemma OneMorePin(s: Tables, ids: set<nat>, i: nat, p: nat)
    requires i < |s.claims| && p < |s.pins|
    ensures p in PinsOf(s, ids + {i}) <==>
      p in PinsOf(s, ids) || (s.pins[p].status.Pinned? && s.claims[i].pin == Some(p))
  {
  }

  lemma DormantInPlace(s: Tables, id: nat, ending: Ending, t: Time)
    requires id < |s.claims|
    ensures EndedDormant(s, id, ending, t)
      == s.(claims := s.claims[id := s.claims[id].(state := Cancelled)],
            owed := s.owed[id := Owed(s.claims[id], ending)], clock := t)
  {
    var e := EndedDormant(s, id, ending, t);
    assert e.pins == s.pins;
    assert e.claims == s.claims[id := s.claims[id].(state := Cancelled)];
    assert e.owed == s.owed[id := Owed(s.claims[id], ending)];
  }

  /** Pin p once the claims `ids` have expired. */
  function PinAfter(s: Tables, ids: set<nat>, t: Time, p: nat): Pin
    requires p < |s.pins|
  {
    if p in PinsOf(s, ids) then s.pins[p].(status := PinExpired, changedAt := Some(t)) else s.pins[p]
  }

  /** Time may pass without anything happening. */
  lemma ClockKeeps(cfg: Config, s: Tables, now: Time)
    requires Inv(cfg, s) && s.clock <= now
    ensures Inv(cfg, s.(clock := now))
  {
    var s' := s.(clock := now);
    forall i | 0 <= i < |s.claims| ensures ClaimOk(cfg, s', i) { assert ClaimOk(cfg, s, i); }
    forall p | 0 <= p < |s.pins| ensures PinOk(s', p) { assert PinOk(s, p); }
    forall p | 0 <= p < |s.payments| ensures PaymentOk(s', p) { assert PaymentOk(s, p); }
    forall p | 0 <= p < |s.pins| ensures PinClocked(s'.pins[p], now) { assert PinClocked(s.pins[p], s.clock); }
    BatonsFrame(s, s');
    RefundsFrame(s, s');
    AliveFrame(s, s', {});
  }
}
