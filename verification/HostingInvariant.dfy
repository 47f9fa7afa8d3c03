/** What every step of the hosting gate keeps, and the proof for each primitive change. */
module HostingInvariant {
  import opened Prelude
  import opened Pricing
  import opened Hosting

  // ---------- the invariant ----------

  /** What holds of a claim row by itself, the timer included. */
  ghost predicate RowOk(cfg: Config, c: Claim) {
    && c.sizeBytes == c.cid.size
    && c.sizeMB == BillableMB(c.sizeBytes)
    && 1 <= c.copies <= Nodes(cfg)
    && c.rateLocked >= 0.0 && c.paidHours >= 1 && c.amountPaid >= 0.0
    && (c.kind.Guardian? <==> c.pledgeOrder.Some?)
    && (c.state.Active? || c.state.Expired? ==> c.pin.Some?)
    && (c.state.Dormant? ==> c.pin.None?)
    && (c.pin.None? ==> c.kind.Guardian?)
    && (c.pin.Some? ==>
          || c.expiryTs == c.startTs + c.paidHours * HOUR
          || (cfg.permanent && !c.kind.Guardian? && c.expiryTs == PERMANENT_EXPIRY))
  }

  /** The claim is the authority and its pin mirrors it. */
  ghost predicate Mirrors(c: Claim, pin: Pin, p: nat) {
    && c.pin == Some(p) && c.payment == pin.payment
    && c.cid == pin.cid && c.owner == pin.uploader && c.sizeBytes == pin.sizeBytes
    && c.startTs == pin.createdAt && c.expiryTs == pin.expiresAt
    && (c.state.Active? <==> pin.status.Pinned?)
    && (pin.status.Pinned? <==> pin.changedAt.None?)
  }

  ghost predicate ClaimOk(cfg: Config, s: Tables, i: nat)
    requires i < |s.claims|
  {
    var c := s.claims[i];
    && RowOk(cfg, c)
    && c.payment < |s.payments|
    && s.payments[c.payment].use == Funded(i)
    && s.payments[c.payment].amount == c.amountPaid
    && (c.pin.Some? ==> c.pin.value < |s.pins| && s.pins[c.pin.value].payment == c.payment)
  }

  /** The claim that a pin belongs to: the one its payment funded. */
  ghost function Holder(s: Tables, p: nat): nat
    requires p < |s.pins|
  {
    var q := s.pins[p].payment;
    if q < |s.payments| && s.payments[q].use.Funded? then s.payments[q].use.claim else |s.claims|
  }

  ghost predicate PinOk(s: Tables, p: nat)
    requires p < |s.pins|
  {
    Holder(s, p) < |s.claims| && Mirrors(s.claims[Holder(s, p)], s.pins[p], p)
  }

  ghost predicate PaymentOk(s: Tables, p: nat)
    requires p < |s.payments|
  {
    && s.payments[p].amount >= 0.0
    && (s.payments[p].use.Funded? ==> s.payments[p].use.claim < |s.claims|)
    && (s.payments[p].use.Uploading? ==> s.payments[p].use.order.hours >= 1)
  }

  ghost predicate Rows(cfg: Config, s: Tables) {
    && (forall i | 0 <= i < |s.claims| :: ClaimOk(cfg, s, i))
    && (forall p | 0 <= p < |s.pins| :: PinOk(s, p))
    && (forall p | 0 <= p < |s.payments| :: PaymentOk(s, p))
  }

  /** Slots on one CID differ, and everyone promoted came before everyone still waiting. */
  ghost predicate QueuePair(a: Claim, b: Claim) {
    a.cid == b.cid && a.pledgeOrder.Some? && b.pledgeOrder.Some? ==>
      && a.pledgeOrder != b.pledgeOrder
      && (a.pin.Some? && b.state.Dormant? ==> a.pledgeOrder.value < b.pledgeOrder.value)
  }

  ghost predicate Queues(s: Tables) {
    forall i, j {:trigger QueuePair(s.claims[i], s.claims[j])} | 0 <= i < |s.claims| && 0 <= j < |s.claims| && i != j ::
      QueuePair(s.claims[i], s.claims[j])
  }

  /** A claim that carried the baton: hosted, and not as an own copy. */
  predicate Baton(c: Claim) { c.pin.Some? && !c.kind.OwnCopy? }

  /** Claim i stopped hosting before claim j started. */
  ghost predicate Before(s: Tables, i: nat, j: nat)
    requires i < |s.claims| && j < |s.claims|
  {
    var a := s.claims[i];
    && a.pin.Some? && a.pin.value < |s.pins|
    && s.pins[a.pin.value].changedAt.Some?
    && s.pins[a.pin.value].changedAt.value <= s.claims[j].startTs
  }

  ghost predicate BatonPair(s: Tables, i: nat, j: nat)
    requires i < |s.claims| && j < |s.claims|
  {
    i != j && Baton(s.claims[i]) && Baton(s.claims[j]) && s.claims[i].cid == s.claims[j].cid ==>
      Before(s, i, j) || Before(s, j, i)
  }

  ghost predicate Batons(s: Tables) {
    forall i, j | 0 <= i < |s.claims| && 0 <= j < |s.claims| :: BatonPair(s, i, j)
  }

  ghost predicate PinClocked(pin: Pin, clock: Time) {
    && pin.createdAt <= clock
    && (pin.changedAt.Some? ==> pin.createdAt <= pin.changedAt.value <= clock)
  }

  ghost predicate Clocked(s: Tables) {
    forall p {:trigger PinClocked(s.pins[p], s.clock)} | 0 <= p < |s.pins| :: PinClocked(s.pins[p], s.clock)
  }

  ghost predicate Unblocked(c: Claim, blocked: set<Cid>) {
    c.Live() ==> c.cid !in blocked
  }

  /** A blocked CID has no live claim. */
  ghost predicate Blocks(s: Tables) {
    forall i {:trigger Unblocked(s.claims[i], s.blocked)} | 0 <= i < |s.claims| :: Unblocked(s.claims[i], s.blocked)
  }

  ghost predicate OwedOk(s: Tables, i: nat)
    requires i in s.owed
  {
    var o := s.owed[i];
    && i < |s.claims| && s.claims[i].state.Cancelled?
    && o.claim.Live() && o.claim == s.claims[i].(state := o.claim.state)
    && (o.claim.state.Dormant? <==> o.claim.pin.None?)
    && (o.ending.Forced? && o.ending.innocent ==> o.claim.state.Dormant?)
  }

  ghost predicate RefundOk(s: Tables, r: nat)
    requires r < |s.refunds|
  {
    var i := s.refunds[r].claim;
    i < |s.claims| && s.claims[i].state.Cancelled? && i !in s.owed && s.refunds[r].to == s.claims[i].owner
  }

  /** Refunds are owed and written down for cancelled claims only, at most once each. */
  ghost predicate Refunds(s: Tables) {
    && (forall i | i in s.owed :: OwedOk(s, i))
    && (forall r | 0 <= r < |s.refunds| :: RefundOk(s, r))
    && (forall q, r | 0 <= q < r < |s.refunds| :: s.refunds[q].claim != s.refunds[r].claim)
  }

  /** No transaction is recorded twice. */
  ghost predicate Txs(s: Tables) {
    forall p, q | 0 <= p < q < |s.payments| :: s.payments[p].tx != s.payments[q].tx
  }

  ghost predicate Core(cfg: Config, s: Tables) {
    Rows(cfg, s) && Queues(s) && Batons(s) && Clocked(s) && Blocks(s) && Refunds(s) && Txs(s)
  }

  ghost predicate Guarded(s: Tables, except: set<Cid>, i: nat)
    requires i < |s.claims|
  {
    s.claims[i].state.Dormant? && s.claims[i].cid !in except ==> Hosted(s, s.claims[i].cid)
  }

  /** A CID with a waiting guardian is hosted, but for the CIDs in `except`. */
  ghost predicate AliveBut(s: Tables, except: set<Cid>) {
    forall i | 0 <= i < |s.claims| :: Guarded(s, except, i)
  }

  ghost predicate Inv(cfg: Config, s: Tables) {
    Core(cfg, s) && AliveBut(s, {})
  }

  // ---------- one step of a claim ----------

  /** dormant -> active -> cancelled or expired, or dormant -> cancelled. */
  predicate Moves(a: ClaimState, b: ClaimState) {
    || a == b
    || (a.Dormant? && (b.Active? || b.Cancelled?))
    || (a.Active? && (b.Cancelled? || b.Expired?))
  }

  /** What a step may do to one claim. */
  ghost predicate ClaimStep(c: Claim, d: Claim) {
    && Moves(c.state, d.state)
    && c.(state := d.state, pin := d.pin, startTs := d.startTs, expiryTs := d.expiryTs, paidHours := d.paidHours) == d
    && (c.pin.Some? ==> d.pin == c.pin && d.startTs == c.startTs)
    && (!c.Live() ==> d == c)
    && c.paidHours <= d.paidHours
  }

  ghost predicate ClaimSteps(s: Tables, s': Tables) {
    |s.claims| <= |s'.claims| && forall i | 0 <= i < |s.claims| :: ClaimStep(s.claims[i], s'.claims[i])
  }

  // ---------- frames ----------

  lemma HostedHasPin(s: Tables, cid: Cid)
    ensures Hosted(s, cid) <==> exists p :: 0 <= p < |s.pins| && IsHost(s.pins[p], cid)
  {
  }

  /** A CID whose hosts are all still there is still hosted. */
  lemma StillHosted(s: Tables, s': Tables, cid: Cid)
    requires Hosted(s, cid)
    requires forall p | 0 <= p < |s.pins| && IsHost(s.pins[p], cid) :: p < |s'.pins| && IsHost(s'.pins[p], cid)
    ensures Hosted(s', cid)
  {
    assert IsHost(s'.pins[FindHost(s.pins, cid).value], cid);
  }

  /** A hosted CID has an active claim, and an active claim hosts its CID. */
  lemma HostedByClaim(cfg: Config, s: Tables, cid: Cid)
    requires Rows(cfg, s)
    ensures Hosted(s, cid) <==> exists i :: 0 <= i < |s.claims| && s.claims[i].state.Active? && s.claims[i].cid == cid
  {
    if Hosted(s, cid) {
      var p := FindHost(s.pins, cid).value;
      assert PinOk(s, p);
      assert s.claims[Holder(s, p)].state.Active?;
    }
    forall i | 0 <= i < |s.claims| && s.claims[i].state.Active? && s.claims[i].cid == cid
      ensures Hosted(s, cid)
    {
      assert ClaimOk(cfg, s, i);
      HolderOfClaim(cfg, s, i);
      assert IsHost(s.pins[s.claims[i].pin.value], cid);
    }
  }

  lemma HolderOfClaim(cfg: Config, s: Tables, i: nat)
    requires Rows(cfg, s) && i < |s.claims| && s.claims[i].pin.Some?
    ensures s.claims[i].pin.value < |s.pins|
    ensures Holder(s, s.claims[i].pin.value) == i
    ensures Mirrors(s.claims[i], s.pins[s.claims[i].pin.value], s.claims[i].pin.value)
  {
    assert ClaimOk(cfg, s, i);
    assert PinOk(s, s.claims[i].pin.value);
  }

  lemma QueueFrame(before: seq<Claim>, after: seq<Claim>, cid: Cid)
    requires |before| == |after|
    requires forall i | 0 <= i < |before| :: (before[i].cid == cid || after[i].cid == cid) ==> after[i] == before[i]
    ensures QueueHead(before, cid) == QueueHead(after, cid)
  {
    var a, b := QueueHead(before, cid), QueueHead(after, cid);
    assert a.Some? ==> InQueue(after[a.value], cid);
    assert b.Some? ==> InQueue(before[b.value], cid);
  }

  /** d stands where c stood in its queue, unless it no longer waits. */
  ghost predicate SameSlot(c: Claim, d: Claim) {
    d.cid == c.cid && d.pledgeOrder == c.pledgeOrder && d.pin == c.pin && (d.state.Dormant? ==> c.state.Dormant?)
  }

  lemma QueuesFrame(s: Tables, s': Tables)
    requires Queues(s) && |s'.claims| == |s.claims|
    requires forall i | 0 <= i < |s.claims| :: SameSlot(s.claims[i], s'.claims[i])
    ensures Queues(s')
  {
    forall i, j | 0 <= i < |s'.claims| && 0 <= j < |s'.claims| && i != j
      ensures QueuePair(s'.claims[i], s'.claims[j])
    {
      assert QueuePair(s.claims[i], s.claims[j]);
      assert SameSlot(s.claims[i], s'.claims[i]) && SameSlot(s.claims[j], s'.claims[j]);
    }
  }

  ghost predicate SameBaton(c: Claim, d: Claim) {
    d.cid == c.cid && d.kind == c.kind && d.pin == c.pin && d.startTs == c.startTs
  }

  lemma BatonsFrame(s: Tables, s': Tables)
    requires Batons(s) && |s'.claims| == |s.claims| && |s.pins| <= |s'.pins|
    requires forall i | 0 <= i < |s.claims| :: SameBaton(s.claims[i], s'.claims[i])
    requires forall p | 0 <= p < |s.pins| && s.pins[p].changedAt.Some? :: s'.pins[p].changedAt == s.pins[p].changedAt
    ensures Batons(s')
  {
    forall i, j | 0 <= i < |s'.claims| && 0 <= j < |s'.claims| ensures BatonPair(s', i, j) {
      assert BatonPair(s, i, j) && SameBaton(s.claims[i], s'.claims[i]) && SameBaton(s.claims[j], s'.claims[j]);
    }
  }

  lemma BlocksFrame(s: Tables, s': Tables)
    requires Blocks(s) && |s'.claims| == |s.claims| && s'.blocked <= s.blocked
    requires forall i | 0 <= i < |s.claims| ::
      s'.claims[i].cid == s.claims[i].cid && (s'.claims[i].Live() ==> s.claims[i].Live())
    ensures Blocks(s')
  {
    forall i | 0 <= i < |s'.claims|
      ensures Unblocked(s'.claims[i], s'.blocked)
    {
      assert Unblocked(s.claims[i], s.blocked);
    }
  }

  /** Refund books do not mind what happens to claims that are not in them. */
  lemma RefundsFrame(s: Tables, s': Tables)
    requires Refunds(s) && s'.owed == s.owed && s'.refunds == s.refunds && |s.claims| <= |s'.claims|
    requires forall i | 0 <= i < |s.claims| && s.claims[i].state.Cancelled? :: s'.claims[i] == s.claims[i]
    ensures Refunds(s')
  {
    forall i | i in s'.owed ensures OwedOk(s', i) { assert OwedOk(s, i); }
    forall r | 0 <= r < |s'.refunds| ensures RefundOk(s', r) { assert RefundOk(s, r); }
  }

  /** Waiting guardians stay guarded when no pin that was live has gone. */
  lemma AliveFrame(s: Tables, s': Tables, except: set<Cid>)
    requires AliveBut(s, except) && |s.claims| <= |s'.claims| && |s.pins| <= |s'.pins|
    requires forall i | 0 <= i < |s'.claims| && s'.claims[i].state.Dormant? ::
      i < |s.claims| && s.claims[i].state.Dormant? && s'.claims[i].cid == s.claims[i].cid
    requires forall p | 0 <= p < |s.pins| && s.pins[p].status.Pinned? ::
      s'.pins[p].cid == s.pins[p].cid && (s'.pins[p].status.Pinned? || s.pins[p].cid in except)
    ensures AliveBut(s', except)
  {
    forall i | 0 <= i < |s'.claims| ensures Guarded(s', except, i) {
      if s'.claims[i].state.Dormant? && s'.claims[i].cid !in except {
        assert Guarded(s, except, i);
        StillHosted(s, s', s.claims[i].cid);
      }
    }
  }

  /** Nothing that hosting depends on has changed, and the refund books are in order. */
  lemma HostingFrame(cfg: Config, s: Tables, s': Tables)
    requires Core(cfg, s) && Refunds(s')
    requires s'.claims == s.claims && s'.pins == s.pins && s'.payments == s.payments && s'.clock == s.clock
    requires s'.blocked <= s.blocked
    ensures Core(cfg, s')
  {
    forall i | 0 <= i < |s'.claims| ensures ClaimOk(cfg, s', i) { assert ClaimOk(cfg, s, i); }
    forall p | 0 <= p < |s'.pins| ensures PinOk(s', p) { assert PinOk(s, p); }
    forall p | 0 <= p < |s'.payments| ensures PaymentOk(s', p) { assert PaymentOk(s, p); }
    BatonsFrame(s, s');
    BlocksFrame(s, s');
  }

  // ---------- payments ----------

  /** Payments may be added, and those that funded nothing may change their use. */
  lemma PaymentsMayGrow(cfg: Config, s: Tables, s': Tables)
    requires Inv(cfg, s)
    requires s'.(payments := s.payments) == s && |s.payments| <= |s'.payments|
    requires forall p | 0 <= p < |s.payments| && s.payments[p].use.Funded? :: s'.payments[p] == s.payments[p]
    requires forall p | 0 <= p < |s'.payments| && (p < |s.payments| ==> s'.payments[p] != s.payments[p]) ::
      PaymentOk(s', p) && !s'.payments[p].use.Funded?
    requires Txs(s')
    ensures Inv(cfg, s') && ClaimSteps(s, s')
  {
    forall i | 0 <= i < |s.claims| ensures ClaimOk(cfg, s', i) { assert ClaimOk(cfg, s, i); }
    forall p | 0 <= p < |s.pins| ensures PinOk(s', p) { assert PinOk(s, p); }
    forall p | 0 <= p < |s'.payments| ensures PaymentOk(s', p) { if p < |s.payments| { assert PaymentOk(s, p); } }
    BatonsFrame(s, s');
    RefundsFrame(s, s');
    AliveFrame(s, s', {});
  }

  lemma RecordKeeps(cfg: Config, s: Tables, tx: TxId, payer: Account, amount: real, memo: Memo, use: Use)
    requires Inv(cfg, s) && !TxUsed(s, tx) && amount >= 0.0
    requires use.Stranded? || (use.Uploading? && use.order.hours >= 1)
    ensures Inv(cfg, RecordPayment(s, tx, payer, amount, memo, use))
    ensures ClaimSteps(s, RecordPayment(s, tx, payer, amount, memo, use))
  {
    PaymentsMayGrow(cfg, s, RecordPayment(s, tx, payer, amount, memo, use));
  }

  lemma StrandKeeps(cfg: Config, s: Tables, p: nat)
    requires Inv(cfg, s) && p < |s.payments| && !s.payments[p].use.Funded?
    ensures Inv(cfg, SetUse(s, p, Stranded)) && ClaimSteps(s, SetUse(s, p, Stranded))
  {
    assert PaymentOk(s, p);
    PaymentsMayGrow(cfg, s, SetUse(s, p, Stranded));
  }

  // ---------- a new host ----------

  lemma AddHostKeeps(cfg: Config, s: Tables, p: nat, cid: Cid, owner: Account, size: Size, kind: Kind,
                     rate: real, hours: int, copies: int, startTs: Time, expiryTs: Time)
    requires Inv(cfg, s) && p < |s.payments| && !s.payments[p].use.Funded? && s.clock <= startTs
    requires size == cid.size && !kind.Guardian? && rate >= 0.0 && hours >= 1 && 1 <= copies <= Nodes(cfg)
    requires expiryTs == startTs + hours * HOUR || (cfg.permanent && expiryTs == PERMANENT_EXPIRY)
    requires cid !in s.blocked && (kind.Original? ==> !Hosted(s, cid))
    ensures var s' := AddHost(s, p, cid, owner, size, kind, rate, hours, copies, startTs, expiryTs);
      Inv(cfg, s') && ClaimSteps(s, s')
  {
    var s' := AddHost(s, p, cid, owner, size, kind, rate, hours, copies, startTs, expiryTs);
    var n := |s.claims|;
    assert PaymentOk(s, p);
    forall i | 0 <= i < |s'.claims| ensures ClaimOk(cfg, s', i) { if i < n { assert ClaimOk(cfg, s, i); } }
    forall q | 0 <= q < |s'.pins| ensures PinOk(s', q) { if q < |s.pins| { assert PinOk(s, q); } }
    forall q | 0 <= q < |s'.payments| ensures PaymentOk(s', q) { assert PaymentOk(s, q); }
    forall i, j | 0 <= i < |s'.claims| && 0 <= j < |s'.claims| && i != j
      ensures QueuePair(s'.claims[i], s'.claims[j])
    {
      if i < n && j < n { assert QueuePair(s.claims[i], s.claims[j]); }
    }
    AddHostKeepsBatons(cfg, s, p, cid, owner, size, kind, rate, hours, copies, startTs, expiryTs);
    forall q | 0 <= q < |s'.pins|
      ensures PinClocked(s'.pins[q], s'.clock)
    {
      if q < |s.pins| { assert PinClocked(s.pins[q], s.clock); }
    }
    forall i | 0 <= i < |s'.claims|
      ensures Unblocked(s'.claims[i], s'.blocked)
    {
      if i < n { assert Unblocked(s.claims[i], s.blocked); }
    }
    RefundsFrame(s, s');
    AliveFrame(s, s', {});
  }

  lemma AddHostKeepsBatons(cfg: Config, s: Tables, p: nat, cid: Cid, owner: Account, size: Size, kind: Kind,
                           rate: real, hours: int, copies: int, startTs: Time, expiryTs: Time)
    requires Core(cfg, s) && p < |s.payments| && s.clock <= startTs && (kind.Original? ==> !Hosted(s, cid))
    requires !kind.Guardian?
    ensures Batons(AddHost(s, p, cid, owner, size, kind, rate, hours, copies, startTs, expiryTs))
  {
    var s' := AddHost(s, p, cid, owner, size, kind, rate, hours, copies, startTs, expiryTs);
    var n := |s.claims|;
    forall i, j | 0 <= i < |s'.claims| && 0 <= j < |s'.claims| ensures BatonPair(s', i, j) {
      if i < n && j < n { assert BatonPair(s, i, j); }
      else if i != j {
        var o := if i < n then i else j;
        if Baton(s'.claims[i]) && Baton(s'.claims[j]) && s.claims[o].cid == cid { DeadBatonEnded(cfg, s, o); }
      }
    }
  }

  /** On a CID that nobody hosts, every claim that carried the baton has an end in the past. */
  lemma DeadBatonEnded(cfg: Config, s: Tables, i: nat)
    requires Core(cfg, s) && i < |s.claims| && s.claims[i].pin.Some? && !Hosted(s, s.claims[i].cid)
    ensures s.claims[i].pin.value < |s.pins|
    ensures s.pins[s.claims[i].pin.value].changedAt.Some? && s.pins[s.claims[i].pin.value].changedAt.value <= s.clock
  {
    HolderOfClaim(cfg, s, i);
    assert !IsHost(s.pins[s.claims[i].pin.value], s.claims[i].cid);
    assert PinClocked(s.pins[s.claims[i].pin.value], s.clock);
  }

  // ---------- a new guardian ----------

  lemma NewGuardianRows(cfg: Config, s: Tables, tx: TxId, owner: Account, cid: Cid, size: Size, q: Quote,
                        rate: real, amount: real, now: Time)
    requires Core(cfg, s) && amount >= 0.0
    requires size == cid.size && q.mb == BillableMB(size) && q.hours >= 1 && 1 <= q.copies <= Nodes(cfg) && rate >= 0.0
    ensures Rows(cfg, AddGuardian(s, tx, owner, cid, size, q, rate, amount, now))
  {
    var s' := AddGuardian(s, tx, owner, cid, size, q, rate, amount, now);
    var n := |s.claims|;
    forall i | 0 <= i < |s'.claims| ensures ClaimOk(cfg, s', i) { if i < n { assert ClaimOk(cfg, s, i); } }
    forall p | 0 <= p < |s'.pins| ensures PinOk(s', p) { assert PinOk(s, p); }
    forall p | 0 <= p < |s'.payments| ensures PaymentOk(s', p) { if p < |s.payments| { assert PaymentOk(s, p); } }
  }

  lemma NewGuardianQueues(cfg: Config, s: Tables, tx: TxId, owner: Account, cid: Cid, size: Size, q: Quote,
                          rate: real, amount: real, now: Time)
    requires Core(cfg, s)
    ensures var s' := AddGuardian(s, tx, owner, cid, size, q, rate, amount, now); Queues(s') && Batons(s')
  {
    var s' := AddGuardian(s, tx, owner, cid, size, q, rate, amount, now);
    var n := |s.claims|;
    forall i, j | 0 <= i < |s'.claims| && 0 <= j < |s'.claims| && i != j
      ensures QueuePair(s'.claims[i], s'.claims[j])
    {
      if i < n && j < n { assert QueuePair(s.claims[i], s.claims[j]); }
      else { assert ClaimOk(cfg, s, if i < n then i else j); }
    }
    forall i, j | 0 <= i < |s'.claims| && 0 <= j < |s'.claims| ensures BatonPair(s', i, j) {
      if i < n && j < n { assert BatonPair(s, i, j); }
    }
  }

  lemma NewGuardianBlocks(s: Tables, s': Tables)
    requires Blocks(s) && |s'.claims| == |s.claims| + 1 && s'.claims[..|s.claims|] == s.claims
    requires s'.blocked == s.blocked
    ensures Blocks(s') <==> Unblocked(s'.claims[|s.claims|], s.blocked)
  {
    forall i | 0 <= i < |s.claims| ensures Unblocked(s'.claims[i], s'.blocked) {
      assert Unblocked(s.claims[i], s.blocked) && s'.claims[..|s.claims|][i] == s.claims[i];
    }
    assert Blocks(s') ==> Unblocked(s'.claims[|s.claims|], s'.blocked);
  }

  /**
    * A pledge, whatever has become of its CID since the handler's checks: the core invariant is kept exactly
    * when the CID is not blocked, and every waiting guardian's CID is hosted exactly when this one's is.
    */
  lemma AddGuardianKeeps(cfg: Config, s: Tables, tx: TxId, owner: Account, cid: Cid, size: Size, q: Quote,
                         rate: real, amount: real, now: Time)
    requires Inv(cfg, s) && !TxUsed(s, tx) && amount >= 0.0 && s.clock <= now
    requires size == cid.size && q.mb == BillableMB(size) && q.hours >= 1 && 1 <= q.copies <= Nodes(cfg) && rate >= 0.0
    ensures var s' := AddGuardian(s, tx, owner, cid, size, q, rate, amount, now);
      && ClaimSteps(s, s')
      && (Core(cfg, s') <==> cid !in s.blocked)
      && (AliveBut(s', {}) <==> Hosted(s, cid))
  {
    var s' := AddGuardian(s, tx, owner, cid, size, q, rate, amount, now);
    var n := |s.claims|;
    NewGuardianRows(cfg, s, tx, owner, cid, size, q, rate, amount, now);
    NewGuardianQueues(cfg, s, tx, owner, cid, size, q, rate, amount, now);
    NewGuardianBlocks(s, s');
    forall p | 0 <= p < |s'.pins| ensures PinClocked(s'.pins[p], s'.clock) { assert PinClocked(s.pins[p], s.clock); }
    RefundsFrame(s, s');
    forall i | 0 <= i < n ensures Guarded(s', {}, i) { assert Guarded(s, {}, i); }
    assert Guarded(s', {}, n) <==> Hosted(s, cid);
  }

  // ---------- more hours ----------

  lemma ExtendRowKeeps(cfg: Config, s: Tables, tx: TxId, amount: real, id: nat, extra: int)
    requires Inv(cfg, s) && !TxUsed(s, tx) && amount >= 0.0 && extra >= 1
    requires id < |s.claims| && s.claims[id].state.Active? && s.claims[id].expiryTs < PERMANENT_EXPIRY
    ensures var paid := RecordPayment(s, tx, s.claims[id].owner, amount, ExtendMemo(id), Funded(id));
      var s' := ExtendRow(paid, id, extra);
      Inv(cfg, s') && ClaimSteps(s, s')
  {
    var paid := RecordPayment(s, tx, s.claims[id].owner, amount, ExtendMemo(id), Funded(id));
    var s' := ExtendRow(paid, id, extra);
    assert ClaimOk(cfg, s, id);
    HolderOfClaim(cfg, s, id);
    forall i | 0 <= i < |s'.claims| ensures ClaimOk(cfg, s', i) { assert ClaimOk(cfg, s, i); }
    forall q | 0 <= q < |s'.pins| ensures PinOk(s', q) { assert PinOk(s, q); }
    forall q | 0 <= q < |s'.payments| ensures PaymentOk(s', q) { if q < |s.payments| { assert PaymentOk(s, q); } }
    QueuesFrame(s, s');
    BatonsFrame(s, s');
    forall p | 0 <= p < |s'.pins| ensures PinClocked(s'.pins[p], s'.clock) { assert PinClocked(s.pins[p], s.clock); }
    BlocksFrame(s, s');
    RefundsFrame(s, s');
    AliveFrame(s, s', {});
  }

  // ---------- endings ----------

  /** `pids` are the live pins of the claims `ids`. */
  ghost predicate PinsMatch(s: Tables, ids: set<nat>, pids: set<nat>) {
    forall p | 0 <= p < |s.pins| :: p in pids <==> s.pins[p].status.Pinned? && Holder(s, p) in ids
  }

  /** Ending live claims together with their pins keeps all but the waiting guardians' hosts. */
  lemma EndKeeps(cfg: Config, s: Tables, ids: set<nat>, to: ClaimState, pids: set<nat>, status: PinStatus, t: Time)
    requires Core(cfg, s) && PinsMatch(s, ids, pids) && s.clock <= t && !status.Pinned?
    requires forall i | i in ids :: i < |s.claims| && s.claims[i].Live() && Moves(s.claims[i].state, to)
    requires to.Cancelled? || to.Expired?
    ensures var s' := End(s, ids, to, pids, status, t); Core(cfg, s') && ClaimSteps(s, s')
  {
    var s' := End(s, ids, to, pids, status, t);
    EndKeepsRows(cfg, s, ids, to, pids, status, t);
    forall p | 0 <= p < |s.pins| && s.pins[p].changedAt.Some?
      ensures s'.pins[p].changedAt == s.pins[p].changedAt
    {
      assert PinOk(s, p);
    }
    QueuesFrame(s, s');
    BatonsFrame(s, s');
    forall p | 0 <= p < |s'.pins| ensures PinClocked(s'.pins[p], s'.clock) { assert PinClocked(s.pins[p], s.clock); }
    BlocksFrame(s, s');
    RefundsFrame(s, s');
  }

  lemma EndKeepsRows(cfg: Config, s: Tables, ids: set<nat>, to: ClaimState, pids: set<nat>, status: PinStatus, t: Time)
    requires Rows(cfg, s) && PinsMatch(s, ids, pids) && !status.Pinned?
    requires forall i | i in ids :: i < |s.claims| && s.claims[i].Live() && Moves(s.claims[i].state, to)
    requires to.Cancelled? || to.Expired?
    ensures Rows(cfg, End(s, ids, to, pids, status, t))
  {
    var s' := End(s, ids, to, pids, status, t);
    forall i | 0 <= i < |s'.claims| ensures ClaimOk(cfg, s', i) { assert ClaimOk(cfg, s, i); }
    forall p | 0 <= p < |s'.pins| ensures PinOk(s', p) { assert PinOk(s, p); assert Holder(s', p) == Holder(s, p); }
    forall p | 0 <= p < |s'.payments| ensures PaymentOk(s', p) { assert PaymentOk(s, p); }
  }

  /** After an ending only the CIDs of ended hosts can have lost their last one. */
  lemma EndAlive(s: Tables, ids: set<nat>, to: ClaimState, pids: set<nat>, status: PinStatus, t: Time, except: set<Cid>)
    requires AliveBut(s, {}) && !to.Dormant?
    requires forall p | 0 <= p < |s.pins| && p in pids :: s.pins[p].cid in except
    ensures AliveBut(End(s, ids, to, pids, status, t), except)
  {
    forall i | 0 <= i < |s.claims| ensures Guarded(s, except, i) { assert Guarded(s, {}, i); }
    AliveFrame(s, End(s, ids, to, pids, status, t), except);
  }

  lemma PinsOfMatch(cfg: Config, s: Tables, ids: set<nat>)
    requires Rows(cfg, s)
    ensures PinsMatch(s, ids, PinsOf(s, ids))
  {
    forall p | 0 <= p < |s.pins| ensures p in PinsOf(s, ids) <==> s.pins[p].status.Pinned? && Holder(s, p) in ids {
      assert PinOk(s, p);
      if p in PinsOf(s, ids) {
        var i :| i in ids && i < |s.claims| && s.claims[i].pin == Some(p);
        HolderOfClaim(cfg, s, i);
      }
    }
  }

  lemma LiveIsNotOwed(s: Tables)
    requires Refunds(s)
    ensures forall i: nat | i < |s.claims| && s.claims[i].Live() :: i !in s.owed
    ensures forall r | 0 <= r < |s.refunds| :: s.refunds[r].claim < |s.claims| && !s.claims[s.refunds[r].claim].Live()
  {
    forall i: nat | i in s.owed ensures i < |s.claims| && !s.claims[i].Live() { assert OwedOk(s, i); }
    forall r | 0 <= r < |s.refunds|
      ensures s.refunds[r].claim < |s.claims| && !s.claims[s.refunds[r].claim].Live()
    {
      assert RefundOk(s, r);
    }
  }

  /** Claims cancelled with their pins, each leaving its refund owed. */
  lemma EndOweKeeps(cfg: Config, s: Tables, ids: set<nat>, pids: set<nat>, status: PinStatus, t: Time,
                    owed: map<nat, Owed>)
    requires Core(cfg, s) && PinsMatch(s, ids, pids) && s.clock <= t && !status.Pinned?
    requires forall i | i in ids :: i < |s.claims| && s.claims[i].Live()
    requires forall i | i in owed ::
      && i in ids && owed[i].claim == s.claims[i]
      && (owed[i].ending.Forced? && owed[i].ending.innocent ==> s.claims[i].state.Dormant?)
    ensures var e := End(s, ids, Cancelled, pids, status, t);
      var s' := e.(owed := e.owed + owed);
      Core(cfg, s') && ClaimSteps(s, s')
  {
    var e := End(s, ids, Cancelled, pids, status, t);
    EndKeeps(cfg, s, ids, Cancelled, pids, status, t);
    forall i | i in owed
      ensures owed[i].claim.state.Dormant? <==> owed[i].claim.pin.None?
    {
      assert ClaimOk(cfg, s, i);
    }
    OweKeepsRefunds(s, ids, pids, status, t, owed);
    HostingFrame(cfg, e, e.(owed := e.owed + owed));
  }

  lemma OweKeepsRefunds(s: Tables, ids: set<nat>, pids: set<nat>, status: PinStatus, t: Time, owed: map<nat, Owed>)
    requires Refunds(s)
    requires forall i | i in ids :: i < |s.claims| && s.claims[i].Live()
    requires forall i | i in owed ::
      && i in ids && owed[i].claim == s.claims[i]
      && (owed[i].claim.state.Dormant? <==> owed[i].claim.pin.None?)
      && (owed[i].ending.Forced? && owed[i].ending.innocent ==> s.claims[i].state.Dormant?)
    ensures var e := End(s, ids, Cancelled, pids, status, t); Refunds(e.(owed := e.owed + owed))
  {
    var e := End(s, ids, Cancelled, pids, status, t);
    var s' := e.(owed := e.owed + owed);
    forall i | i in s'.owed ensures OwedOk(s', i) { if i !in owed { assert OwedOk(s, i); } }
    forall r | 0 <= r < |s'.refunds| ensures RefundOk(s', r) { assert RefundOk(s, r); }
  }

  // ---------- the baton ----------

  lemma LatestPinSize(cfg: Config, s: Tables, cid: Cid)
    requires Rows(cfg, s)
    ensures LatestPin(s.pins, cid).Some? ==> s.pins[LatestPin(s.pins, cid).value].sizeBytes == cid.size
  {
    forall p | 0 <= p < |s.pins| && s.pins[p].cid == cid ensures s.pins[p].sizeBytes == cid.size {
      assert PinOk(s, p);
      assert ClaimOk(cfg, s, Holder(s, p));
    }
  }

  lemma PromoteKeepsRows(cfg: Config, s: Tables, h: nat, t: Time)
    requires Rows(cfg, s) && h < |s.claims| && s.claims[h].state.Dormant?
    ensures Rows(cfg, Promote(s, h, t))
  {
    var s' := Promote(s, h, t);
    assert ClaimOk(cfg, s, h);
    LatestPinSize(cfg, s, s.claims[h].cid);
    forall i | 0 <= i < |s'.claims| ensures ClaimOk(cfg, s', i) { assert ClaimOk(cfg, s, i); }
    forall p | 0 <= p < |s'.pins| ensures PinOk(s', p) {
      if p < |s.pins| { assert PinOk(s, p); assert Holder(s', p) == Holder(s, p); }
    }
    forall p | 0 <= p < |s'.payments| ensures PaymentOk(s', p) { assert PaymentOk(s, p); }
  }

  /** The head of the queue leaves only larger slots behind. */
  lemma PromoteKeepsQueues(cfg: Config, s: Tables, cid: Cid, t: Time)
    requires Rows(cfg, s) && Queues(s) && QueueHead(s.claims, cid).Some?
    ensures Queues(Promote(s, QueueHead(s.claims, cid).value, t))
  {
    var h := QueueHead(s.claims, cid).value;
    var s' := Promote(s, h, t);
    assert ClaimOk(cfg, s, h);
    forall i, j | 0 <= i < |s'.claims| && 0 <= j < |s'.claims| && i != j
      ensures QueuePair(s'.claims[i], s'.claims[j])
    {
      assert QueuePair(s.claims[i], s.claims[j]) && ClaimOk(cfg, s, j);
      if i == h && InQueue(s.claims[j], cid) { assert Precedes(s.claims, h, j); }
    }
  }

  lemma PromoteKeepsBatons(cfg: Config, s: Tables, cid: Cid, t: Time)
    requires Core(cfg, s) && !Hosted(s, cid) && QueueHead(s.claims, cid).Some? && s.clock <= t
    ensures Batons(Promote(s, QueueHead(s.claims, cid).value, t))
  {
    var h := QueueHead(s.claims, cid).value;
    var s' := Promote(s, h, t);
    forall i, j | 0 <= i < |s'.claims| && 0 <= j < |s'.claims| ensures BatonPair(s', i, j) {
      assert BatonPair(s, i, j);
      if i != j && (i == h || j == h) {
        var other := if i == h then j else i;
        if s.claims[other].pin.Some? && s.claims[other].cid == cid { DeadBatonEnded(cfg, s, other); }
      } else {
        if s.claims[i].pin.Some? { HolderOfClaim(cfg, s, i); }
        if s.claims[j].pin.Some? { HolderOfClaim(cfg, s, j); }
      }
    }
  }

  lemma PromoteKeeps(cfg: Config, s: Tables, cid: Cid, t: Time)
    requires Core(cfg, s) && !Hosted(s, cid) && QueueHead(s.claims, cid).Some? && s.clock <= t
    ensures var s' := Promote(s, QueueHead(s.claims, cid).value, t);
      Core(cfg, s') && ClaimSteps(s, s') && Hosted(s', cid)
  {
    var h := QueueHead(s.claims, cid).value;
    var s' := Promote(s, h, t);
    PromoteKeepsRows(cfg, s, h, t);
    PromoteKeepsQueues(cfg, s, cid, t);
    PromoteKeepsBatons(cfg, s, cid, t);
    forall p | 0 <= p < |s'.pins|
      ensures PinClocked(s'.pins[p], s'.clock)
    {
      if p < |s.pins| { assert PinClocked(s.pins[p], s.clock); }
    }
    BlocksFrame(s, s');
    RefundsFrame(s, s');
    assert ClaimOk(cfg, s, h);
    assert IsHost(s'.pins[|s.pins|], cid);
  }

  lemma ReconcileAlive(s: Tables, cid: Cid, t: Time, except: set<Cid>)
    requires AliveBut(s, except)
    requires forall i | 0 <= i < |s.claims| && s.claims[i].state.Dormant? :: s.claims[i].kind.Guardian?
    ensures AliveBut(Reconcile(s, cid, t), except - {cid})
  {
    var s' := Reconcile(s, cid, t);
    var head := QueueHead(s.claims, cid);
    forall i | 0 <= i < |s'.claims| ensures Guarded(s', except - {cid}, i) {
      assert Guarded(s, except, i);
      var c := s'.claims[i];
      if c.state.Dormant? && c.cid !in except - {cid} {
        if Hosted(s, c.cid) {
          StillHosted(s, s', c.cid);
        } else {
          assert InQueue(s.claims[i], cid);
          assert IsHost(s'.pins[|s.pins|], cid);
        }
      }
    }
  }

  /** Reconciling a CID keeps what it finds and leaves no guardian waiting on a dead CID. */
  lemma ReconcileKeeps(cfg: Config, s: Tables, cid: Cid, t: Time, except: set<Cid>)
    requires Core(cfg, s) && s.clock <= t && AliveBut(s, except)
    ensures var s' := Reconcile(s, cid, t);
      && Core(cfg, s') && AliveBut(s', except - {cid})
      && (s'.clock == s.clock || s'.clock == t)
  {
    if !Hosted(s, cid) && QueueHead(s.claims, cid).Some? { PromoteKeeps(cfg, s, cid, t); }
    forall i | 0 <= i < |s.claims| && s.claims[i].state.Dormant?
      ensures s.claims[i].kind.Guardian?
    {
      assert ClaimOk(cfg, s, i);
    }
    ReconcileAlive(s, cid, t, except);
  }

  function Members(order: seq<Cid>): set<Cid> {
    if order == [] then {} else Members(order[..|order| - 1]) + {order[|order| - 1]}
  }

  lemma {:induction false} MembersAreElements(order: seq<Cid>, cid: Cid)
    ensures cid in Members(order) <==> cid in order
    decreases |order|
  {
    var n := |order|;
    if n > 0 {
      MembersAreElements(order[..n - 1], cid);
      assert order == order[..n - 1] + [order[n - 1]];
    }
  }

  lemma {:induction false} ReconcileAllKeeps(cfg: Config, s: Tables, order: seq<Cid>, clocks: seq<Time>,
                                             except: set<Cid>)
    requires |clocks| == |order| && Core(cfg, s) && Ticks(s.clock, clocks) && AliveBut(s, except)
    ensures var s' := ReconcileAll(s, order, clocks);
      && Core(cfg, s') && AliveBut(s', except - Members(order))
      && (s'.clock == s.clock || (|clocks| > 0 && s'.clock <= clocks[|clocks| - 1]))
    decreases |order|
  {
    var n := |order|;
    if n > 0 {
      var o, k := order[..n - 1], clocks[..n - 1];
      ReconcileAllKeeps(cfg, s, o, k, except);
      ReconcileKeeps(cfg, ReconcileAll(s, o, k), order[n - 1], clocks[n - 1], except - Members(o));
      assert except - Members(o) - {order[n - 1]} == except - Members(order);
    } else {
      assert except - Members(order) == except;
    }
  }

  /** Reconciling every CID that may have lost its host leaves nobody waiting on a dead one. */
  lemma ReconcileAllRestores(cfg: Config, s: Tables, order: seq<Cid>, clocks: seq<Time>, except: set<Cid>)
    requires |clocks| == |order| && Core(cfg, s) && Ticks(s.clock, clocks) && AliveBut(s, except)
    requires forall cid | cid in except :: cid in order
    ensures Inv(cfg, ReconcileAll(s, order, clocks))
  {
    ReconcileAllKeeps(cfg, s, order, clocks, except);
    forall cid | cid in except ensures cid in Members(order) { MembersAreElements(order, cid); }
    assert except - Members(order) == {};
  }
}
