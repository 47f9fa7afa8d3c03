/**
  * The hosting gate's tables and every step that changes them, as functions on values
  * (quota.js, moderation.js and the database sections of server.js).
  *
  * A table is a sequence of rows in insertion order, so a row's index is its rowid.  Rows are
  * never deleted.  One step is one synchronous database section of a handler; what a handler
  * keeps in memory between two sections is part of the state, and a crash loses it.
  */
module Hosting {
  import opened Prelude
  import opened Pricing

  type Account = string
  type TxId = string
  type Time = int
  type Size = n: int | n > 0 witness 1

  /** A content address: equal addresses have equal bytes, hence equal length. */
  datatype Cid = Cid(digest: string, size: Size)

  datatype Kind = Original | OwnCopy | Guardian
  datatype ClaimState = Active | Dormant | Cancelled | Expired

  datatype Claim = Claim(
    cid: Cid, owner: Account, pin: Option<nat>, sizeBytes: Size, sizeMB: int,
    rateLocked: real, paidHours: int, copies: int, kind: Kind, state: ClaimState,
    amountPaid: real, payment: nat, startTs: Time, expiryTs: Time, createdTs: Time,
    pledgeOrder: Option<int>, pledgeBudget: Option<real>)
  {
    predicate Live() { state.Active? || state.Dormant? }

    /** The cost of one hour at the locked rate. */
    function PerHour(): real { Pricing.PerHour(sizeMB, rateLocked, copies) }

    function Terms(): Pricing.Terms {
      Pricing.Terms(sizeBytes, rateLocked, paidHours, copies, amountPaid, startTs, expiryTs)
    }
  }

  datatype PinStatus = Pinned | PinExpired | PinBanned | PinTakedown

  datatype Pin = Pin(
    cid: Cid, uploader: Account, sizeBytes: Size, payment: nat,
    createdAt: Time, expiresAt: Time, status: PinStatus, changedAt: Option<Time>)

  datatype Memo = UploadMemo | PledgeMemo(cid: Cid) | OwnCopyMemo(cid: Cid) | ExtendMemo(claim: nat)

  /** What /upload still holds in memory while Kubo pins the file. */
  datatype UploadOrder = UploadOrder(uploader: Account, fileSize: nat, hours: int, copies: int, exempt: bool)

  /** What a recorded payment was used for: an upload under way, a claim, or nothing. */
  datatype Use = Uploading(order: UploadOrder) | Funded(claim: nat) | Stranded

  datatype Payment = Payment(tx: TxId, payer: Account, amount: real, memo: Memo, use: Use)

  datatype Refund = Refund(claim: nat, to: Account, amount: int, skipped: bool)

  /** Who ended a claim decides what its owner gets back. */
  datatype Ending = ByUser | Forced(policy: Policy, innocent: bool)

  /** Who asks for a cancel: the account that signed the request, or an admin removing someone's pin. */
  datatype Canceller = User(account: Account) | Admin(policy: Policy)
  {
    function Ending(): Ending {
      match this
      case User(_) => ByUser
      case Admin(policy) => Forced(policy, false)
    }
  }

  /** A claim row as it was just before it ended, waiting in a handler for its refund. */
  datatype Owed = Owed(claim: Claim, ending: Ending)

  datatype Tables = Tables(
    claims: seq<Claim>, pins: seq<Pin>, payments: seq<Payment>, refunds: seq<Refund>,
    owed: map<nat, Owed>, blocked: set<Cid>, banned: set<Account>, clock: Time)

  const EMPTY := Tables([], [], [], [], map[], {}, {}, 0)

  datatype Reply =
    | Accepted(payment: nat)
    | Purchased(claim: nat)
    | Ended(unpin: bool, activated: Option<nat>, wasDormant: bool)
    | Done

  datatype Step = Step(next: Tables, reply: Result<Reply>)

  function Refuse(s: Tables, code: Code): Step { Step(s, Err(code)) }

  // ---------- queries ----------

  predicate IsHost(pin: Pin, cid: Cid) { pin.status.Pinned? && pin.cid == cid }

  /** The first active pin of a CID (`getActivePinsForCid`, `hasActivePinForCid`). */
  function FindHost(pins: seq<Pin>, cid: Cid): (r: Option<nat>)
    ensures r.Some? ==> r.value < |pins| && IsHost(pins[r.value], cid)
    ensures r.None? ==> forall p | 0 <= p < |pins| :: !IsHost(pins[p], cid)
  {
    if pins == [] then None
    else
      var earlier := FindHost(pins[..|pins| - 1], cid);
      if earlier.Some? then earlier
      else if IsHost(pins[|pins| - 1], cid) then Some(|pins| - 1) else None
  }

  predicate Hosted(s: Tables, cid: Cid) { FindHost(s.pins, cid).Some? }

  /** The most recently created pin of a CID, live or not (`getLatestPinInfoForCid`). */
  function LatestPin(pins: seq<Pin>, cid: Cid): (r: Option<nat>)
    ensures r.Some? ==> r.value < |pins| && pins[r.value].cid == cid
    ensures r.Some? ==> forall p | 0 <= p < |pins| && pins[p].cid == cid :: pins[p].createdAt <= pins[r.value].createdAt
    ensures r.None? ==> forall p | 0 <= p < |pins| :: pins[p].cid != cid
  {
    if pins == [] then None
    else
      var n := |pins| - 1;
      var earlier := LatestPin(pins[..n], cid);
      if pins[n].cid != cid then earlier
      else if earlier.None? || pins[earlier.value].createdAt <= pins[n].createdAt then Some(n) else earlier
  }

  predicate InQueue(c: Claim, cid: Cid) { c.state.Dormant? && c.kind.Guardian? && c.cid == cid }

  function SlotKey(c: Claim): int {
    if c.pledgeOrder.Some? then c.pledgeOrder.value else 1_000_000_000_000_000_000
  }

  /** ORDER BY pledge_order, created_ts, rowid. */
  predicate Precedes(claims: seq<Claim>, i: nat, j: nat)
    requires i < |claims| && j < |claims|
  {
    var a, b := claims[i], claims[j];
    SlotKey(a) < SlotKey(b)
    || (SlotKey(a) == SlotKey(b) && (a.createdTs < b.createdTs || (a.createdTs == b.createdTs && i < j)))
  }

  /** The head of a CID's guardian queue (`getDormantGuardiansForCid(cid)[0]`). */
  function QueueHead(claims: seq<Claim>, cid: Cid): (r: Option<nat>)
    ensures r.Some? ==> r.value < |claims| && InQueue(claims[r.value], cid)
    ensures r.Some? ==> forall i | 0 <= i < |claims| && InQueue(claims[i], cid) && i != r.value ::
      Precedes(claims, r.value, i)
    ensures r.None? ==> forall i | 0 <= i < |claims| :: !InQueue(claims[i], cid)
  {
    if claims == [] then None
    else
      var n := |claims| - 1;
      var earlier := QueueHead(claims[..n], cid);
      assert forall i | 0 <= i < n && earlier.Some? && i != earlier.value && InQueue(claims[i], cid) ::
        claims[..n][i] == claims[i] && Precedes(claims[..n], earlier.value, i);
      if !InQueue(claims[n], cid) then earlier
      else if earlier.None? || Precedes(claims, n, earlier.value) then Some(n) else earlier
  }

  predicate HasSlot(c: Claim, cid: Cid) { c.cid == cid && c.kind.Guardian? && c.pledgeOrder.Some? }

  /** `nextPledgeOrder`: one more than the largest slot ever given on this CID. */
  function NextPledgeOrder(claims: seq<Claim>, cid: Cid): (slot: int)
    ensures slot >= 1
    ensures slot == 1 || exists i ::
      0 <= i < |claims| && HasSlot(claims[i], cid) && claims[i].pledgeOrder.value == slot - 1
    ensures forall i | 0 <= i < |claims| && HasSlot(claims[i], cid) ::
      claims[i].pledgeOrder.value < slot
  {
    if claims == [] then 1
    else
      var c := claims[|claims| - 1];
      var slot := NextPledgeOrder(claims[..|claims| - 1], cid);
      assert forall i | 0 <= i < |claims| - 1 :: claims[..|claims| - 1][i] == claims[i];
      if HasSlot(c, cid) then Max(slot, c.pledgeOrder.value + 1) else slot
  }

  predicate TxUsed(s: Tables, tx: TxId) {
    exists p | 0 <= p < |s.payments| :: s.payments[p].tx == tx
  }

  // ---------- purchases ----------

  /** `recordPayment`; the caller has checked that the transaction id is new. */
  function RecordPayment(s: Tables, tx: TxId, payer: Account, amount: real, memo: Memo, use: Use): Tables {
    s.(payments := s.payments + [Payment(tx, payer, amount, memo, use)])
  }

  function SetUse(s: Tables, p: nat, use: Use): Tables
    requires p < |s.payments|
  {
    s.(payments := s.payments[p := s.payments[p].(use := use)])
  }

  function Rate(cfg: Config, exempt: bool): real {
    if exempt then 0.0 else cfg.rate
  }

  /** What an on-chain payment must come to, and what a fee-exempt one is recorded as. */
  predicate Covers(exempt: bool, amount: real, quoted: int) {
    if exempt then amount == 0.0 else amount >= quoted as real
  }

  /** A live claim with its own pin, paid by payment `p`. */
  function AddHost(s: Tables, p: nat, cid: Cid, owner: Account, size: Size, kind: Kind,
                   rate: real, hours: int, copies: int, startTs: Time, expiryTs: Time): Tables
    requires p < |s.payments|
  {
    var pin := Pin(cid, owner, size, p, startTs, expiryTs, Pinned, None);
    var claim := Claim(cid, owner, Some(|s.pins|), size, BillableMB(size), rate, hours, copies, kind, Active,
                       s.payments[p].amount, p, startTs, expiryTs, startTs, None, None);
    SetUse(s, p, Funded(|s.claims|)).(pins := s.pins + [pin], claims := s.claims + [claim], clock := startTs)
  }

  /** POST /reserve: the quote that /upload will check the payment against. */
  function Reserve(cfg: Config, size: Size, hours: real, copies: real, exempt: bool): Result<Quote> {
    CalculateCost(cfg, size, if cfg.permanent then cfg.minHours as real else hours, copies, Rate(cfg, exempt))
  }

  /** POST /upload up to the recorded payment. */
  function PayUpload(cfg: Config, s: Tables, tx: TxId, uploader: Account, quote: Quote, reserved: Size,
                     fileSize: nat, exempt: bool, amount: real): Step
  {
    var free := exempt && quote.total == 0;
    if fileSize > reserved then Refuse(s, TooLarge)
    else if uploader in s.banned then Refuse(s, Forbidden)
    else if TxUsed(s, tx) then Refuse(s, Conflict)
    else if !Covers(free, amount, quote.total) then Refuse(s, Underpaid)
    else
      var order := UploadOrder(uploader, fileSize, quote.hours, quote.copies, free);
      Step(RecordPayment(s, tx, uploader, amount, UploadMemo, Uploading(order)), Ok(Accepted(|s.payments|)))
  }

  /** POST /upload once Kubo has returned the CID of the file. */
  function CommitUpload(cfg: Config, s: Tables, p: nat, digest: string, now: Time): Step
    requires p < |s.payments| && s.payments[p].use.Uploading?
  {
    var order := s.payments[p].use.order;
    if order.fileSize == 0 then Step(SetUse(s, p, Stranded), Err(BadRequest))
    else
      var cid := Cid(digest, order.fileSize);
      if cid in s.blocked then Step(SetUse(s, p, Stranded), Err(LegalTakedown))
      else
        var kind := if Hosted(s, cid) then OwnCopy else Original;
        var hours := if cfg.permanent then cfg.minHours else order.hours;
        var expiry := if cfg.permanent then PERMANENT_EXPIRY else now + hours * HOUR;
        Step(AddHost(s, p, cid, order.uploader, order.fileSize, kind, Rate(cfg, order.exempt), hours,
                     CappedCopies(cfg, order.copies as real), now, expiry),
             Ok(Purchased(|s.claims|)))
  }

  /** `createOwnCopyClaim` after its payment was recorded; a CID that died meanwhile strands the payment. */
  function BuyOwnCopy(cfg: Config, s: Tables, tx: TxId, owner: Account, cid: Cid, hours: real, copies: real,
                      exempt: bool, amount: real, now: Time): Step
  {
    var quote := Reserve(cfg, cid.size, hours, copies, exempt);
    if quote.Err? then Refuse(s, quote.code)
    else if TxUsed(s, tx) then Refuse(s, Conflict)
    else if !Covers(exempt, amount, quote.value.total) then Refuse(s, Underpaid)
    else
      var paid := RecordPayment(s, tx, owner, amount, OwnCopyMemo(cid), Stranded);
      var latest := LatestPin(s.pins, cid);
      if !Hosted(s, cid) || latest.None? then Step(paid, Err(NotFound))
      else
        var q := quote.value;
        var paidHours := if cfg.permanent then cfg.minHours else q.hours;
        var expiry := if cfg.permanent then PERMANENT_EXPIRY else now + paidHours * HOUR;
        Step(AddHost(paid, |s.payments|, cid, owner, s.pins[latest.value].sizeBytes, OwnCopy, Rate(cfg, exempt),
                     paidHours, q.copies, now, expiry),
             Ok(Purchased(|s.claims|)))
  }

  /** A dormant guardian in the next slot of the CID's queue, paid by a new payment. */
  function AddGuardian(s: Tables, tx: TxId, owner: Account, cid: Cid, size: Size, q: Quote, rate: real,
                       amount: real, now: Time): Tables
  {
    var paid := RecordPayment(s, tx, owner, amount, PledgeMemo(cid), Funded(|s.claims|));
    var claim := Claim(cid, owner, None, size, q.mb, rate, q.hours, q.copies, Guardian, Dormant,
                       amount, |s.payments|, now, now, now, Some(NextPledgeOrder(s.claims, cid)), Some(amount));
    paid.(claims := s.claims + [claim], clock := now)
  }

  /** POST /guardian/pledge, its checks taken in the step that commits. */
  function Pledge(cfg: Config, s: Tables, tx: TxId, owner: Account, cid: Cid, hours: real, copies: real,
                  exempt: bool, amount: real, now: Time): Step
  {
    var host := FindHost(s.pins, cid);
    if owner in s.banned then Refuse(s, Forbidden)
    else if cid in s.blocked then Refuse(s, LegalTakedown)
    else if host.None? then Refuse(s, NotFound)
    else
      var size := s.pins[host.value].sizeBytes;
      var quote := CalculateCost(cfg, size, hours, copies, Rate(cfg, exempt));
      if quote.Err? then Refuse(s, quote.code)
      else if TxUsed(s, tx) then Refuse(s, Conflict)
      else if !Covers(exempt, amount, quote.value.total) then Refuse(s, Underpaid)
      else Step(AddGuardian(s, tx, owner, cid, size, quote.value, Rate(cfg, exempt), amount, now),
                Ok(Purchased(|s.claims|)))
  }

  /** `extendClaim`: more hours on the claim and the same on its pin. */
  function ExtendRow(s: Tables, id: nat, extra: int): Tables
    requires id < |s.claims|
  {
    var c := s.claims[id];
    var expiry := c.expiryTs + extra * HOUR;
    var longer := s.(claims := s.claims[id := c.(paidHours := c.paidHours + extra, expiryTs := expiry)]);
    if c.pin.Some? && c.pin.value < |s.pins| && s.pins[c.pin.value].status.Pinned?
    then longer.(pins := s.pins[c.pin.value := s.pins[c.pin.value].(expiresAt := expiry)])
    else longer
  }

  /** POST /claims/extend; a claim that ended before the payment landed strands the payment. */
  function Extend(cfg: Config, s: Tables, tx: TxId, id: nat, hours: real, exempt: bool, amount: real): Step {
    if hours <= 0.0 then Refuse(s, BadRequest)
    else if id >= |s.claims| then Refuse(s, NotFound)
    else
      var c := s.claims[id];
      var extra := BillableHours(cfg, hours).value;
      var cost := Charge(extra, c.PerHour());
      if c.expiryTs >= PERMANENT_EXPIRY then Refuse(s, Conflict)
      else if TxUsed(s, tx) then Refuse(s, Conflict)
      else if !Covers(exempt && cost == 0, amount, cost) then Refuse(s, Underpaid)
      else if !c.state.Active? then
        Step(RecordPayment(s, tx, c.owner, amount, ExtendMemo(id), Stranded), Err(Conflict))
      else
        Step(ExtendRow(RecordPayment(s, tx, c.owner, amount, ExtendMemo(id), Funded(id)), id, extra),
             Ok(Purchased(id)))
  }

  // ---------- endings ----------

  /** The claims `ids` and the pins `pids` get their final status; the live rows are kept for settlement. */
  function End(s: Tables, ids: set<nat>, to: ClaimState, pids: set<nat>, status: PinStatus, t: Time): Tables {
    s.(claims := seq(|s.claims|, i requires 0 <= i < |s.claims| =>
                       if i in ids then s.claims[i].(state := to) else s.claims[i]),
       pins := seq(|s.pins|, p requires 0 <= p < |s.pins| =>
                     if p in pids then s.pins[p].(status := status, changedAt := Some(t)) else s.pins[p]),
       clock := t)
  }

  function OwedFor(before: seq<Claim>, ids: set<nat>, ending: Ending): map<nat, Owed> {
    map i | i in ids && i < |before| :: Owed(before[i], ending)
  }

  function Owe(s: Tables, before: seq<Claim>, ids: set<nat>, ending: Ending): Tables {
    s.(owed := s.owed + OwedFor(before, ids, ending))
  }

  /** The live pins held by the claims `ids`. */
  function PinsOf(s: Tables, ids: set<nat>): set<nat> {
    set p: nat | p < |s.pins| && s.pins[p].status.Pinned? &&
      exists i :: i in ids && i < |s.claims| && s.claims[i].pin == Some(p)
  }

  /** The row of a promoted guardian. */
  function Activated(c: Claim, pin: nat, t: Time): Claim {
    c.(state := Active, startTs := t, expiryTs := t + c.paidHours * HOUR, pin := Some(pin))
  }

  function Promote(s: Tables, h: nat, t: Time): Tables
    requires h < |s.claims|
  {
    var c := s.claims[h];
    var latest := LatestPin(s.pins, c.cid);
    var size := if latest.Some? then s.pins[latest.value].sizeBytes else c.sizeBytes;
    var pin := Pin(c.cid, c.owner, size, c.payment, t, t + c.paidHours * HOUR, Pinned, None);
    s.(pins := s.pins + [pin], claims := s.claims[h := Activated(c, |s.pins|, t)], clock := t)
  }

  /** `reconcileCidAfterEnd`: the queue's head takes over a CID that lost its last host. */
  function Reconcile(s: Tables, cid: Cid, t: Time): Tables {
    var head := QueueHead(s.claims, cid);
    if Hosted(s, cid) || head.None? then s else Promote(s, head.value, t)
  }

  function Activates(s: Tables, cid: Cid): Option<nat> {
    if Hosted(s, cid) then None else QueueHead(s.claims, cid)
  }

  predicate Unpins(s: Tables, cid: Cid) {
    !Hosted(s, cid) && QueueHead(s.claims, cid).None?
  }

  /** `cancelClaim`, and the refund its handler now owes. */
  function Cancel(s: Tables, id: nat, who: Canceller, t: Time, t': Time): Step {
    if id >= |s.claims| then Refuse(s, NotFound)
    else
      var c := s.claims[id];
      if who.User? && c.owner != who.account then Refuse(s, Forbidden)
      else if !c.Live() then Refuse(s, Conflict)
      else if c.state.Dormant? then
        Step(Owe(End(s, {id}, Cancelled, {}, PinExpired, t), s.claims, {id}, who.Ending()),
             Ok(Ended(false, None, true)))
      else EndAndReconcile(s, id, who.Ending(), t, t')
  }

  function EndAndReconcile(s: Tables, id: nat, ending: Ending, t: Time, t': Time): Step
    requires id < |s.claims|
  {
    var ended := Owe(End(s, {id}, Cancelled, PinsOf(s, {id}), PinExpired, t), s.claims, {id}, ending);
    var cid := s.claims[id].cid;
    Step(Reconcile(ended, cid, t'), Ok(Ended(Unpins(ended, cid), Activates(ended, cid), false)))
  }

  /** `endActiveClaimForRelease`; whether the release is authorised is decided before. */
  function Release(s: Tables, id: nat, t: Time, t': Time): Step {
    if id >= |s.claims| then Refuse(s, NotFound)
    else if !s.claims[id].state.Active? then Refuse(s, Conflict)
    else EndAndReconcile(s, id, ByUser, t, t')
  }

  /** Reconcile the CIDs of `order` one after the other, the k-th at time `clocks[k]`. */
  function ReconcileAll(s: Tables, order: seq<Cid>, clocks: seq<Time>): Tables
    requires |clocks| == |order|
  {
    var n := |order|;
    if n == 0 then s else Reconcile(ReconcileAll(s, order[..n - 1], clocks[..n - 1]), order[n - 1], clocks[n - 1])
  }

  function DueClaims(s: Tables, t: Time): set<nat> {
    set i: nat | i < |s.claims| && s.claims[i].state.Active? && s.claims[i].expiryTs < t
  }

  /** Pins that outlived their own clock, whatever claim they belong to. */
  function DuePins(s: Tables, t: Time): set<nat> {
    set p: nat | p < |s.pins| && s.pins[p].status.Pinned? && s.pins[p].expiresAt < t
  }

  /** `sweep` before it reconciles: claims past their timer, their pins, then pins past their own clock. */
  function Expire(s: Tables, t: Time): Tables {
    var ids := DueClaims(s, t);
    var expired := End(s, ids, ClaimState.Expired, PinsOf(s, ids), PinExpired, t);
    End(expired, {}, ClaimState.Expired, DuePins(expired, t), PinExpired, t)
  }

  /** The CIDs with a pin whose status changed to expired at time t, by this sweep or otherwise. */
  function Candidates(s: Tables, t: Time): set<Cid> {
    set p: nat | p < |s.pins| && s.pins[p].status.PinExpired? && s.pins[p].changedAt == Some(t) :: s.pins[p].cid
  }

  /** The CIDs of `order` that are left without a host and without a guardian. */
  function Unpinned(s: Tables, order: seq<Cid>, clocks: seq<Time>): seq<Cid>
    requires |clocks| == |order|
  {
    var n := |order|;
    if n == 0 then []
    else
      var before := ReconcileAll(s, order[..n - 1], clocks[..n - 1]);
      Unpinned(s, order[..n - 1], clocks[..n - 1]) + if Unpins(before, order[n - 1]) then [order[n - 1]] else []
  }

  /** The guardians promoted on the way, in order. */
  function Promoted(s: Tables, order: seq<Cid>, clocks: seq<Time>): seq<nat>
    requires |clocks| == |order|
  {
    var n := |order|;
    if n == 0 then []
    else
      var next := Activates(ReconcileAll(s, order[..n - 1], clocks[..n - 1]), order[n - 1]);
      Promoted(s, order[..n - 1], clocks[..n - 1]) + if next.Some? then [next.value] else []
  }

  /** `order` visits the candidates; SELECT DISTINCT leaves their order open. */
  function Sweep(s: Tables, t: Time, order: seq<Cid>, clocks: seq<Time>): Tables
    requires |clocks| == |order|
  {
    ReconcileAll(Expire(s, t), order, clocks)
  }

  function LiveClaimsOf(s: Tables, account: Account): set<nat> {
    set i: nat | i < |s.claims| && s.claims[i].owner == account && s.claims[i].Live()
  }

  function LivePinsOf(s: Tables, account: Account): set<nat> {
    set p: nat | p < |s.pins| && s.pins[p].uploader == account && s.pins[p].status.Pinned?
  }

  /** `banAccount` before it reconciles. */
  function VoidAccount(s: Tables, account: Account, policy: Policy, t: Time): Tables {
    var ids := LiveClaimsOf(s, account);
    Owe(End(s, ids, Cancelled, LivePinsOf(s, account), PinBanned, t), s.claims, ids, Forced(policy, false))
      .(banned := s.banned + {account})
  }

  /** The CIDs that an account was actively hosting. */
  function HostedBy(s: Tables, account: Account): set<Cid> {
    set i: nat | i < |s.claims| && s.claims[i].owner == account && s.claims[i].state.Active? :: s.claims[i].cid
  }

  function Ban(s: Tables, account: Account, policy: Policy, t: Time, order: seq<Cid>, clocks: seq<Time>): Tables
    requires |clocks| == |order|
  {
    ReconcileAll(VoidAccount(s, account, policy, t), order, clocks)
  }

  function LiveClaimsOn(s: Tables, cid: Cid): set<nat> {
    set i: nat | i < |s.claims| && s.claims[i].cid == cid && s.claims[i].Live()
  }

  function LivePinsOn(s: Tables, cid: Cid): set<nat> {
    set p: nat | p < |s.pins| && IsHost(s.pins[p], cid)
  }

  /** What a takedown owes: dormant guardians are innocent, hosts fall under the policy. */
  function TakedownOwed(s: Tables, cid: Cid, policy: Policy): map<nat, Owed> {
    map i | i in LiveClaimsOn(s, cid) && i < |s.claims| :: Owed(s.claims[i], Forced(policy, s.claims[i].state.Dormant?))
  }

  /** `takedownCid` and the refunds its handler now owes. */
  function Takedown(s: Tables, cid: Cid, policy: Policy, t: Time): Tables {
    var ended := End(s, LiveClaimsOn(s, cid), Cancelled, LivePinsOn(s, cid), PinTakedown, t);
    ended.(owed := s.owed + TakedownOwed(s, cid, policy)).(blocked := s.blocked + {cid})
  }

  // ---------- settlement ----------

  /** `settleClaimRefund` and `settleForcedRefund`. */
  function RefundDue(cfg: Config, o: Owed, now: Time): int {
    var c := o.claim;
    match o.ending
    case ByUser =>
      if c.state.Dormant? then CalculateDormantRefund(cfg, c.amountPaid, cfg.cancelFeePct).amount
      else CalculateRefund(cfg, c.Terms(), now).amount
    case Forced(policy, innocent) =>
      ForcedRefund(cfg, c.Terms(), c.state.Dormant?, policy, innocent, now)
  }

  /** The ledger row of `broadcastRefund`. */
  function RefundRow(cfg: Config, id: nat, o: Owed, now: Time): Refund {
    var amount := RefundDue(cfg, o, now);
    if amount <= 0 then Refund(id, o.claim.owner, 0, true) else Refund(id, o.claim.owner, amount, false)
  }

  function Settle(cfg: Config, s: Tables, id: nat, now: Time): Tables {
    if id !in s.owed then s
    else s.(refunds := s.refunds + [RefundRow(cfg, id, s.owed[id], now)], owed := s.owed - {id})
  }

  /** A restart forgets the uploads under way and the refunds not yet written down. */
  function Crash(s: Tables): Tables {
    s.(payments := seq(|s.payments|, p requires 0 <= p < |s.payments| =>
                         if s.payments[p].use.Uploading? then s.payments[p].(use := Stranded) else s.payments[p]),
       owed := map[])
  }

  // ---------- runs ----------

  datatype Event =
    | EPayUpload(tx: TxId, uploader: Account, reserved: Size, hours: real, copies: real, exemptThen: bool,
                 fileSize: nat, exemptNow: bool, amount: real)
    | ECommitUpload(payment: nat, digest: string, now: Time)
    | EFailUpload(payment: nat)
    | EOwnCopy(tx: TxId, owner: Account, cid: Cid, hours: real, copies: real, exempt: bool, amount: real, now: Time)
    | EPledge(tx: TxId, owner: Account, cid: Cid, hours: real, copies: real, exempt: bool, amount: real, now: Time)
    | EExtend(tx: TxId, id: nat, hours: real, exempt: bool, amount: real)
    | ECancel(id: nat, who: Canceller, t: Time, t': Time)
    | ERelease(id: nat, t: Time, t': Time)
    | ESweep(t: Time, order: seq<Cid>, clocks: seq<Time>)
    | EBan(account: Account, policy: Policy, t: Time, order: seq<Cid>, clocks: seq<Time>)
    | EUnban(account: Account)
    | ETakedown(cid: Cid, policy: Policy, t: Time)
    | EUntakedown(cid: Cid)
    | ESettle(id: nat, now: Time)
    | ECrash

  /** The readings of a clock that never runs backwards, the first no earlier than `from`. */
  ghost predicate Ticks(from: Time, clocks: seq<Time>) {
    && (forall k | 0 <= k < |clocks| :: from <= clocks[k])
    && (forall j, k | 0 <= j < k < |clocks| :: clocks[j] <= clocks[k])
  }

  ghost predicate Enumerates(order: seq<Cid>, cids: set<Cid>) {
    && (forall cid :: cid in order <==> cid in cids)
    && (forall j, k | 0 <= j < k < |order| :: order[j] != order[k])
  }

  /** A loop over `cids` that starts at time t reads the clock once for each, in some order. */
  ghost predicate Visits(s: Tables, t: Time, order: seq<Cid>, clocks: seq<Time>, cids: set<Cid>) {
    s.clock <= t && |clocks| == |order| && Ticks(t, clocks) && Enumerates(order, cids)
  }

  /** What the environment guarantees of an event: the clock runs forward and queries return what is there. */
  ghost predicate Possible(cfg: Config, s: Tables, e: Event) {
    match e
    case EPayUpload(_, _, _, _, _, _, _, _, amount) => amount >= 0.0
    case ECommitUpload(p, _, now) => p < |s.payments| && s.payments[p].use.Uploading? && s.clock <= now
    case EFailUpload(p) => p < |s.payments| && s.payments[p].use.Uploading?
    case EOwnCopy(_, _, _, _, _, _, amount, now) => amount >= 0.0 && s.clock <= now
    case EPledge(_, _, _, _, _, _, amount, now) => amount >= 0.0 && s.clock <= now
    case EExtend(_, _, _, _, amount) => amount >= 0.0
    case ECancel(_, _, t, t') => s.clock <= t <= t'
    case ERelease(_, t, t') => s.clock <= t <= t'
    case ESweep(t, order, clocks) => Visits(s, t, order, clocks, Candidates(Expire(s, t), t))
    case EBan(account, _, t, order, clocks) => Visits(s, t, order, clocks, HostedBy(s, account))
    case ETakedown(_, _, t) => s.clock <= t
    case _ => true
  }

  ghost function Apply(cfg: Config, s: Tables, e: Event): Tables
    requires Possible(cfg, s, e)
  {
    match e
    case EPayUpload(tx, uploader, reserved, hours, copies, exemptThen, fileSize, exemptNow, amount) =>
      var quote := Reserve(cfg, reserved, hours, copies, exemptThen);
      if quote.Err? then s
      else PayUpload(cfg, s, tx, uploader, quote.value, reserved, fileSize, exemptNow, amount).next
    case ECommitUpload(p, digest, now) => CommitUpload(cfg, s, p, digest, now).next
    case EFailUpload(p) => SetUse(s, p, Stranded)
    case EOwnCopy(tx, owner, cid, hours, copies, exempt, amount, now) =>
      BuyOwnCopy(cfg, s, tx, owner, cid, hours, copies, exempt, amount, now).next
    case EPledge(tx, owner, cid, hours, copies, exempt, amount, now) =>
      Pledge(cfg, s, tx, owner, cid, hours, copies, exempt, amount, now).next
    case EExtend(tx, id, hours, exempt, amount) => Extend(cfg, s, tx, id, hours, exempt, amount).next
    case ECancel(id, who, t, t') => Cancel(s, id, who, t, t').next
    case ERelease(id, t, t') => Release(s, id, t, t').next
    case ESweep(t, order, clocks) => Sweep(s, t, order, clocks)
    case EBan(account, policy, t, order, clocks) => Ban(s, account, policy, t, order, clocks)
    case EUnban(account) => s.(banned := s.banned - {account})
    case ETakedown(cid, policy, t) => Takedown(s, cid, policy, t)
    case EUntakedown(cid) => s.(blocked := s.blocked - {cid})
    case ESettle(id, now) => Settle(cfg, s, id, now)
    case ECrash => Crash(s)
  }

  ghost predicate StepAt(cfg: Config, tables: seq<Tables>, events: seq<Event>, k: nat)
    requires k < |events| && |tables| == |events| + 1
  {
    Possible(cfg, tables[k], events[k]) && tables[k + 1] == Apply(cfg, tables[k], events[k])
  }

  /** A run: consecutive tables, each reached from the one before by one possible event. */
  ghost predicate IsRun(cfg: Config, tables: seq<Tables>, events: seq<Event>) {
    |tables| == |events| + 1 && forall k | 0 <= k < |events| :: StepAt(cfg, tables, events, k)
  }
}
