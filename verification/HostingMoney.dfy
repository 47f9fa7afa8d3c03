/** Where the money is: what was paid under each claim, what went back, and what can still go back. */
module HostingMoney {
  import opened Prelude
  import opened Pricing
  import opened Hosting
  import opened HostingInvariant
  import opened HostingEndings
  import opened HostingRuns
  import opened Ledger

  // ---------- the books ----------

  function Credit(p: Payment): Entry {
    Entry(if p.use.Funded? then Option.Some(p.use.claim) else Option.None, p.amount)
  }

  function Credits(payments: seq<Payment>): seq<Entry> {
    seq(|payments|, p requires 0 <= p < |payments| => Credit(payments[p]))
  }

  function Debits(refunds: seq<Refund>): seq<Entry> {
    seq(|refunds|, r requires 0 <= r < |refunds| => Entry(Option.Some(refunds[r].claim), refunds[r].amount as real))
  }

  /** What the payments that funded claim i come to, and how many they are. */
  function Paid(s: Tables, i: nat): real { Share(Credits(s.payments), i) }

  function Payments(s: Tables, i: nat): nat { Count(Credits(s.payments), i) }

  /** What the refund ledger sends back for claim i. */
  function Returned(s: Tables, i: nat): real { Share(Debits(s.refunds), i) }

  /** The most that a live claim can still be refunded: its price without the first hour, or the whole pledge. */
  function Draw(cfg: Config, c: Claim): int {
    if c.state.Dormant? then CalculateDormantRefund(cfg, c.amountPaid, 0.0).amount
    else CalculateRefund(cfg, c.Terms(), c.startTs).amount
  }

  /** What can still leave the gate for claim i. */
  function Exposure(cfg: Config, s: Tables, i: nat): int
    requires i < |s.claims|
  {
    if s.claims[i].Live() then Draw(cfg, s.claims[i])
    else if i in s.owed then Draw(cfg, s.owed[i].claim)
    else 0
  }

  /** What n roundings can lose; nothing when an hour costs half units, since those round up. */
  function Loss(k: real, n: nat): real {
    if IsWhole(2.0 * k) then 0.0 else n as real / 2.0
  }

  /** Rounding can favour the owner: a pledge that never hosted rounds up, or hosted hours cost no half units. */
  predicate RoundsAway(cfg: Config, c: Claim) {
    if c.pin.None? then PledgeRoundsUp(cfg, c.amountPaid) else !IsWhole(2.0 * c.PerHour())
  }

  /** What rounding can give away on claim i: half a unit for the refund, and once it hosts, for each payment. */
  function Slack(cfg: Config, s: Tables, i: nat): real
    requires i < |s.claims|
  {
    if !RoundsAway(cfg, s.claims[i]) then 0.0
    else if s.claims[i].pin.None? then 0.5 else (Payments(s, i) + 1) as real / 2.0
  }

  // ---------- the invariant ----------

  /** The payments under a claim cover its paid hours at its locked rate, up to rounding. */
  ghost predicate FundedOk(cfg: Config, s: Tables, i: nat)
    requires i < |s.claims|
  {
    var c := s.claims[i];
    && (c.rateLocked == 0.0 || c.rateLocked == cfg.rate)
    && Paid(s, i) + Loss(c.PerHour(), Payments(s, i)) >= c.paidHours as real * c.PerHour()
    && (c.pin.None? ==> Paid(s, i) == c.amountPaid)
  }

  ghost function OrderPerHour(cfg: Config, order: UploadOrder): real {
    if order.fileSize == 0 then 0.0
    else PerHour(BillableMB(order.fileSize), Rate(cfg, order.exempt), CappedCopies(cfg, order.copies as real))
  }

  /** The payment of an upload under way covers the claim it is about to fund. */
  ghost predicate OrderOk(cfg: Config, p: Payment) {
    p.use.Uploading? ==>
      && p.use.order.hours >= cfg.minHours
      && p.amount >= Charge(p.use.order.hours, OrderPerHour(cfg, p.use.order)) as real
  }

  /** The live row that a refund row was computed from. */
  ghost function LiveRow(c: Claim): Claim {
    if c.pin.None? then c.(state := Dormant) else c.(state := Active)
  }

  ghost predicate RefundWithin(cfg: Config, s: Tables, r: nat)
    requires r < |s.refunds|
  {
    s.refunds[r].claim < |s.claims| && s.refunds[r].amount <= Max(0, Draw(cfg, LiveRow(s.claims[s.refunds[r].claim])))
  }

  /** A payment funded the claim that names it, or the claim that its memo extends. */
  ghost predicate MemoOk(s: Tables, p: nat)
    requires p < |s.payments|
  {
    s.payments[p].use.Funded? ==>
      && s.payments[p].use.claim < |s.claims|
      && (s.claims[s.payments[p].use.claim].payment == p || s.payments[p].memo == ExtendMemo(s.payments[p].use.claim))
  }

  ghost predicate Money(cfg: Config, s: Tables) {
    && (forall i | 0 <= i < |s.claims| :: FundedOk(cfg, s, i))
    && (forall p {:trigger OrderOk(cfg, s.payments[p])} | 0 <= p < |s.payments| :: OrderOk(cfg, s.payments[p]))
    && (forall p | 0 <= p < |s.payments| :: MemoOk(s, p))
    && (forall r | 0 <= r < |s.refunds| :: RefundWithin(cfg, s, r))
  }

  /** What an upload will lock costs more than its payment. */
  ghost predicate Underpays(cfg: Config, e: Event)
    requires e.EPayUpload?
  {
    var quote := Reserve(cfg, e.reserved, e.hours, e.copies, e.exemptThen);
    quote.Ok? &&
    var q := quote.value;
    var order := UploadOrder(e.uploader, e.fileSize, q.hours, q.copies, e.exemptNow && q.total == 0);
    e.amount < Charge(q.hours, OrderPerHour(cfg, order)) as real
  }

  ghost predicate Accepted(cfg: Config, s: Tables, e: Event)
    requires e.EPayUpload?
  {
    var quote := Reserve(cfg, e.reserved, e.hours, e.copies, e.exemptThen);
    && quote.Ok?
    && PayUpload(cfg, s, e.tx, e.uploader, quote.value, e.reserved, e.fileSize, e.exemptNow, e.amount).reply.Ok?
  }

  /** No upload is accepted for less than what it will lock. */
  ghost predicate Honest(cfg: Config, s: Tables, e: Event) {
    e.EPayUpload? && Accepted(cfg, s, e) ==> !Underpays(cfg, e)
  }

  // ---------- what the invariant gives ----------

  /** No refund exceeds the draw: not later, not with a fee, not under a policy. */
  lemma DueWithinDraw(cfg: Config, o: Owed, now: Time)
    requires cfg.Valid() && o.claim.rateLocked >= 0.0 && o.claim.Live()
    requires o.ending.Forced? && o.ending.innocent ==> o.claim.state.Dormant?
    ensures RefundDue(cfg, o, now) <= Max(0, Draw(cfg, o.claim))
  {
    var c := o.claim;
    if c.state.Dormant? {
      FeeOnlyLowers(cfg, c.amountPaid, cfg.cancelFeePct);
    } else {
      ActiveRefundWithinDraw(cfg, c.Terms(), now);
    }
  }

  lemma ActiveRefundWithinDraw(cfg: Config, t: Terms, now: Time)
    requires cfg.Valid() && t.sizeBytes > 0 && t.rateLocked >= 0.0
    ensures CalculateRefund(cfg, t, now).amount <= Max(0, CalculateRefund(cfg, t, t.startTs).amount)
  {
    if t.startTs <= now {
      RefundBounds(cfg, t, t.startTs, now);
    } else {
      assert HoursUsed(t.startTs, now) == HoursUsed(t.startTs, t.startTs) == 1;
    }
  }

  lemma FeeOnlyLowers(cfg: Config, escrow: real, feePct: real)
    ensures CalculateDormantRefund(cfg, escrow, feePct).amount
      <= Max(0, CalculateDormantRefund(cfg, escrow, 0.0).amount)
  {
    if escrow > 0.0 {
      FullDormantRefund(cfg, escrow);
      DormantSplitIsExact(cfg, escrow, feePct);
      var pct := if feePct < 0.0 then 0.0 else feePct;
      RoundCoinsMonotone(escrow - RoundCoins(escrow * (pct / 100.0)) as real, escrow);
    }
  }

  lemma ActiveDrawWithin(cfg: Config, t: Terms, k: real, paid: real)
    requires cfg.Valid() && t.sizeBytes > 0 && t.rateLocked >= 0.0 && t.paidHours >= 1
    requires k == LockedPerHour(cfg, t) && k >= 0.0 && paid >= t.paidHours as real * k
    ensures CalculateRefund(cfg, t, t.startTs).amount as real <= paid + if IsWhole(2.0 * k) then 0.0 else 0.5
  {
    RefundBounds(cfg, t, t.startTs, t.startTs);
    OneHourLess(t.paidHours, k);
  }

  lemma OneHourLess(hours: int, k: real)
    requires hours >= 1 && k >= 0.0
    ensures Charge(hours - 1, k) as real <= hours as real * k + if IsWhole(2.0 * k) then 0.0 else 0.5
  {
    if IsWhole(2.0 * k) {
      HalfUnitsRoundUp(hours, k);
    } else {
      ChargeBound(hours - 1, k);
      Distribute(hours - 1, 1, k);
    }
  }

  lemma LockedIsSold(cfg: Config, c: Claim)
    requires RowOk(cfg, c)
    ensures LockedPerHour(cfg, c.Terms()) == c.PerHour() >= 0.0
  {
    CappedCopiesIdempotent(cfg, c.copies);
    PerHourMonotone(c.sizeMB, c.sizeMB, c.rateLocked, c.rateLocked, c.copies);
  }

  /** The draw of a claim that never hosted is its pledge, rounded up or down. */
  lemma PledgeDraw(cfg: Config, c: Claim)
    requires c.state.Dormant? && c.amountPaid >= 0.0
    ensures Draw(cfg, c) as real > c.amountPaid <==> PledgeRoundsUp(cfg, c.amountPaid)
    ensures Draw(cfg, c) as real <= c.amountPaid + if PledgeRoundsUp(cfg, c.amountPaid) then 0.5 else 0.0
  {
    DormantRefundExceedsEscrow(cfg, c.amountPaid);
  }

  /** The draw of a funded host is within what was paid, up to rounding. */
  lemma HostDraw(cfg: Config, c: Claim, paid: real, n: nat)
    requires cfg.Valid() && RowOk(cfg, c) && c.state.Active?
    requires paid + Loss(c.PerHour(), n) >= c.paidHours as real * c.PerHour()
    ensures Draw(cfg, c) as real <= paid + if IsWhole(2.0 * c.PerHour()) then 0.0 else (n + 1) as real / 2.0
  {
    LockedIsSold(cfg, c);
    ActiveDrawWithin(cfg, c.Terms(), c.PerHour(), paid + Loss(c.PerHour(), n));
  }

  /** The draw of a live claim is within what was paid, up to its slack. */
  lemma DrawWithinPaid(cfg: Config, s: Tables, i: nat, c: Claim)
    requires cfg.Valid() && i < |s.claims| && FundedOk(cfg, s, i) && RowOk(cfg, c) && c.Live()
    requires c == s.claims[i].(state := c.state) && Paid(s, i) >= 0.0
    ensures Draw(cfg, c) as real <= Paid(s, i) + Slack(cfg, s, i)
  {
    if c.state.Dormant? { PledgeDraw(cfg, c); } else { HostDraw(cfg, c, Paid(s, i), Payments(s, i)); }
  }

  /** What was paid under a claim includes its first payment. */
  lemma PaidCoversPurchase(cfg: Config, s: Tables, i: nat)
    requires Core(cfg, s) && i < |s.claims|
    ensures Paid(s, i) >= s.claims[i].amountPaid
  {
    var es := Credits(s.payments);
    assert ClaimOk(cfg, s, i);
    assert Nonnegative(es) by { forall p | 0 <= p < |es| ensures es[p].amount >= 0.0 { assert PaymentOk(s, p); } }
    ShareBounds(es, i);
    assert es[s.claims[i].payment].claim == Option.Some(i);
  }

  lemma ReturnedOnce(cfg: Config, s: Tables, i: nat)
    requires Core(cfg, s) && i < |s.claims|
    ensures if exists r :: 0 <= r < |s.refunds| && s.refunds[r].claim == i
            then exists r ::
              0 <= r < |s.refunds| && s.refunds[r].claim == i && Returned(s, i) == s.refunds[r].amount as real
            else Returned(s, i) == 0.0
  {
    var es := Debits(s.refunds);
    if r :| 0 <= r < |s.refunds| && s.refunds[r].claim == i {
      forall q | 0 <= q < |es| ensures es[q].claim == Option.Some(i) <==> q == r {}
      ShareOfOne(es, i, r);
    } else {
      ShareOfNone(es, i);
    }
  }

  /**
    * No claim is ever refunded more than was paid under it: what went back for it and what can still
    * go back are within its payments, up to its rounding slack.
    */
  lemma ClaimSolvent(cfg: Config, s: Tables, i: nat)
    requires cfg.Valid() && Inv(cfg, s) && Money(cfg, s) && i < |s.claims|
    ensures Returned(s, i) + Exposure(cfg, s, i) as real <= Paid(s, i) + Slack(cfg, s, i)
  {
    var c := s.claims[i];
    assert FundedOk(cfg, s, i) && ClaimOk(cfg, s, i);
    PaidCoversPurchase(cfg, s, i);
    ReturnedOnce(cfg, s, i);
    LiveIsNotOwed(s);
    if c.Live() {
      DrawWithinPaid(cfg, s, i, c);
    } else if i in s.owed {
      assert OwedOk(s, i);
      DrawOfOwed(cfg, s, i);
      forall r | 0 <= r < |s.refunds| ensures s.refunds[r].claim != i { assert RefundOk(s, r); }
    } else if r :| 0 <= r < |s.refunds| && s.refunds[r].claim == i {
      RefundRowWithinPaid(cfg, s, r);
    }
  }

  lemma LiveRowOk(cfg: Config, c: Claim)
    requires RowOk(cfg, c) && c.state.Cancelled?
    ensures RowOk(cfg, LiveRow(c)) && LiveRow(c).Live() && LiveRow(c).PerHour() == c.PerHour()
  {
  }

  lemma RefundRowWithinPaid(cfg: Config, s: Tables, r: nat)
    requires cfg.Valid() && Inv(cfg, s) && Money(cfg, s) && r < |s.refunds|
    ensures s.refunds[r].claim < |s.claims|
    ensures s.refunds[r].amount as real <= Paid(s, s.refunds[r].claim) + Slack(cfg, s, s.refunds[r].claim)
  {
    var i := s.refunds[r].claim;
    assert RefundWithin(cfg, s, r) && RefundOk(s, r);
    LiveDrawWithinPaid(cfg, s, i);
  }

  lemma LiveDrawWithinPaid(cfg: Config, s: Tables, i: nat)
    requires cfg.Valid() && Core(cfg, s) && i < |s.claims| && FundedOk(cfg, s, i) && s.claims[i].state.Cancelled?
    ensures Max(0, Draw(cfg, LiveRow(s.claims[i]))) as real <= Paid(s, i) + Slack(cfg, s, i)
  {
    assert ClaimOk(cfg, s, i);
    LiveRowOk(cfg, s.claims[i]);
    PaidCoversPurchase(cfg, s, i);
    DrawWithinPaid(cfg, s, i, LiveRow(s.claims[i]));
  }

  lemma DrawOfOwed(cfg: Config, s: Tables, i: nat)
    requires cfg.Valid() && Core(cfg, s) && Money(cfg, s) && i in s.owed && i < |s.claims|
    ensures s.owed[i].claim == LiveRow(s.claims[i])
    ensures Max(0, Draw(cfg, s.owed[i].claim)) as real <= Paid(s, i) + Slack(cfg, s, i)
  {
    assert OwedOk(s, i) && FundedOk(cfg, s, i);
    LiveDrawWithinPaid(cfg, s, i);
  }

  // ---------- every event keeps it ----------

  ghost predicate SamePrice(c: Claim, d: Claim) {
    d.(state := c.state, pin := c.pin, startTs := c.startTs, expiryTs := c.expiryTs) == c
  }

  /** Whatever happens to a claim, its price only changes with its payments. */
  lemma PricesFrame(cfg: Config, s: Tables, s': Tables)
    requires Core(cfg, s) && Money(cfg, s) && ClaimSteps(s, s') && |s'.claims| == |s.claims|
    requires s'.payments == s.payments && s'.refunds == s.refunds
    requires forall i | 0 <= i < |s.claims| :: SamePrice(s.claims[i], s'.claims[i])
    ensures Money(cfg, s')
  {
    forall i | 0 <= i < |s'.claims|
      ensures FundedOk(cfg, s', i)
    {
      assert FundedOk(cfg, s, i) && SamePrice(s.claims[i], s'.claims[i]);
    }
    forall p | 0 <= p < |s'.payments| ensures OrderOk(cfg, s'.payments[p]) && MemoOk(s', p) {
      assert OrderOk(cfg, s.payments[p]) && MemoOk(s, p);
      if s.payments[p].use.Funded? {
        assert SamePrice(s.claims[s.payments[p].use.claim], s'.claims[s.payments[p].use.claim]);
      }
    }
    forall r | 0 <= r < |s'.refunds|
      ensures RefundWithin(cfg, s', r)
    {
      assert RefundWithin(cfg, s, r) && RefundOk(s, r);
    }
  }

  ghost predicate PricesKept(s: Tables, s': Tables) {
    && |s'.claims| == |s.claims| && s'.payments == s.payments && s'.refunds == s.refunds
    && forall i | 0 <= i < |s.claims| :: SamePrice(s.claims[i], s'.claims[i])
  }

  lemma ReconcilePrices(s: Tables, x: Tables, order: seq<Cid>, clocks: seq<Time>)
    requires |clocks| == |order| && |x.claims| == |s.claims| && x.payments == s.payments && x.refunds == s.refunds
    requires forall i | 0 <= i < |s.claims| :: SamePrice(s.claims[i], x.claims[i])
    ensures PricesKept(s, ReconcileAll(x, order, clocks))
  {
    ReconcileAllPromotes(x, order, clocks);
    ReconcileAllFrame(x, order, clocks);
    var s' := ReconcileAll(x, order, clocks);
    forall i | 0 <= i < |s.claims| ensures SamePrice(s.claims[i], s'.claims[i]) {
      assert SamePrice(s.claims[i], x.claims[i]) && Promotion(x.claims[i], s'.claims[i]);
    }
  }

  lemma EndOnePrices(s: Tables, id: nat, ending: Ending, t: Time, t': Time)
    requires id < |s.claims|
    ensures PricesKept(s, EndAndReconcile(s, id, ending, t, t').next)
  {
    ReconcileHere(EndedOne(s, id, ending, t), s.claims[id].cid, t');
  }

  lemma DormantPrices(s: Tables, id: nat, ending: Ending, t: Time)
    requires id < |s.claims|
    ensures PricesKept(s, EndedDormant(s, id, ending, t))
  {
  }

  lemma CancelPrices(s: Tables, id: nat, who: Canceller, t: Time, t': Time)
    ensures PricesKept(s, Cancel(s, id, who, t, t').next)
  {
    if id < |s.claims| {
      EndOnePrices(s, id, who.Ending(), t, t');
      DormantPrices(s, id, who.Ending(), t);
    }
  }

  lemma ReleasePrices(s: Tables, id: nat, t: Time, t': Time)
    ensures PricesKept(s, Release(s, id, t, t').next)
  {
    if id < |s.claims| { EndOnePrices(s, id, ByUser, t, t'); }
  }

  lemma BulkEndingPrices(cfg: Config, s: Tables, e: Event)
    requires Possible(cfg, s, e) && (e.ESweep? || e.EBan? || e.ETakedown?)
    ensures PricesKept(s, Apply(cfg, s, e))
  {
    if e.ESweep? {
      ReconcilePrices(s, Expire(s, e.t), e.order, e.clocks);
    } else if e.EBan? {
      ReconcilePrices(s, VoidAccount(s, e.account, e.policy, e.t), e.order, e.clocks);
    }
  }

  lemma EndingKeepsMoney(cfg: Config, s: Tables, e: Event)
    requires Inv(cfg, s) && Money(cfg, s) && Possible(cfg, s, e)
    requires e.ECancel? || e.ERelease? || e.ESweep? || e.EBan? || e.ETakedown?
    ensures Money(cfg, Apply(cfg, s, e))
  {
    EndingStepKeeps(cfg, s, e);
    match e {
      case ECancel(id, who, t, t') => CancelPrices(s, id, who, t, t');
      case ERelease(id, t, t') => ReleasePrices(s, id, t, t');
      case _ => BulkEndingPrices(cfg, s, e);
    }
    PricesFrame(cfg, s, Apply(cfg, s, e));
  }

  /** Claims and refunds stay, and so does what each claim was paid. */
  lemma CreditsFrame(cfg: Config, s: Tables, s': Tables)
    requires Core(cfg, s) && Money(cfg, s) && s'.claims == s.claims && s'.refunds == s.refunds
    requires forall i: nat | i < |s.claims| :: Paid(s', i) == Paid(s, i) && Payments(s', i) == Payments(s, i)
    requires forall p | 0 <= p < |s'.payments| :: OrderOk(cfg, s'.payments[p])
    requires forall p | 0 <= p < |s'.payments| && s'.payments[p].use.Funded? ::
      p < |s.payments| && s'.payments[p] == s.payments[p]
    ensures Money(cfg, s')
  {
    forall i | 0 <= i < |s'.claims| ensures FundedOk(cfg, s', i) { assert FundedOk(cfg, s, i); }
    forall p | 0 <= p < |s'.payments| ensures MemoOk(s', p) { if p < |s.payments| { assert MemoOk(s, p); } }
    forall r | 0 <= r < |s'.refunds| ensures RefundWithin(cfg, s', r) { assert RefundWithin(cfg, s, r); }
  }

  lemma RecordKeepsMoney(cfg: Config, s: Tables, tx: TxId, payer: Account, amount: real, memo: Memo, use: Use)
    requires Core(cfg, s) && Money(cfg, s) && !use.Funded? && OrderOk(cfg, Payment(tx, payer, amount, memo, use))
    ensures Money(cfg, RecordPayment(s, tx, payer, amount, memo, use))
  {
    var s' := RecordPayment(s, tx, payer, amount, memo, use);
    assert Credits(s'.payments) == Credits(s.payments) + [Entry(Option.None, amount)];
    forall i: nat | i < |s.claims| ensures Paid(s', i) == Paid(s, i) && Payments(s', i) == Payments(s, i) {
      Append(Credits(s.payments), Entry(Option.None, amount), i);
    }
    forall p | 0 <= p < |s'.payments|
      ensures OrderOk(cfg, s'.payments[p])
    {
      if p < |s.payments| { assert OrderOk(cfg, s.payments[p]); }
    }
    CreditsFrame(cfg, s, s');
  }

  /** Payments that funded nothing can be given up. */
  lemma StrandKeepsMoney(cfg: Config, s: Tables, s': Tables)
    requires Core(cfg, s) && Money(cfg, s) && s'.claims == s.claims && s'.refunds == s.refunds
    requires |s'.payments| == |s.payments|
    requires forall p | 0 <= p < |s.payments| ::
      || s'.payments[p] == s.payments[p]
      || (!s.payments[p].use.Funded? && s'.payments[p] == s.payments[p].(use := Stranded))
    ensures Money(cfg, s')
  {
    assert Credits(s'.payments) == Credits(s.payments);
    forall p | 0 <= p < |s'.payments| ensures OrderOk(cfg, s'.payments[p]) { assert OrderOk(cfg, s.payments[p]); }
    CreditsFrame(cfg, s, s');
  }

  /** A claim that no payment names has been paid nothing. */
  lemma NothingPaidAhead(cfg: Config, s: Tables)
    requires Core(cfg, s)
    ensures Paid(s, |s.claims|) == 0.0 && Payments(s, |s.claims|) == 0
  {
    forall p | 0 <= p < |s.payments|
      ensures Credit(s.payments[p]).claim != Option.Some(|s.claims|)
    {
      assert PaymentOk(s, p);
    }
    ShareOfNone(Credits(s.payments), |s.claims|);
  }

  /** One payment that covers a charge funds a claim of those hours. */
  lemma ChargeFunds(paid: real, hours: int, charged: int, k: real)
    requires 0 <= hours <= charged && k >= 0.0 && paid >= Charge(charged, k) as real
    ensures paid + Loss(k, 1) >= hours as real * k
  {
    ChargeCovers(charged, k);
    TimesMonotone(hours as real, charged as real, k);
  }

  /** One charge covers its hours, up to what one rounding can lose. */
  lemma ChargeCovers(hours: int, k: real)
    requires hours >= 0 && k >= 0.0
    ensures Charge(hours, k) as real + Loss(k, 1) >= hours as real * k
  {
    if IsWhole(2.0 * k) && hours >= 1 { HalfUnitsRoundUp(hours, k); } else { ChargeBound(hours, k); }
    if hours == 0 { assert hours as real * k == 0.0; }
  }

  lemma UploadKeepsMoney(cfg: Config, s: Tables, p: nat, digest: string, now: Time)
    requires cfg.Valid() && Inv(cfg, s) && Money(cfg, s) && p < |s.payments| && s.payments[p].use.Uploading?
    requires s.clock <= now
    ensures Money(cfg, CommitUpload(cfg, s, p, digest, now).next)
  {
    var order := s.payments[p].use.order;
    var step := CommitUpload(cfg, s, p, digest, now);
    assert OrderOk(cfg, s.payments[p]);
    if step.reply.Err? {
      StrandKeepsMoney(cfg, s, step.next);
    } else {
      var hours := if cfg.permanent then cfg.minHours else order.hours;
      var copies := CappedCopies(cfg, order.copies as real);
      var k := PerHour(BillableMB(order.fileSize), Rate(cfg, order.exempt), copies);
      PerHourMonotone(BillableMB(order.fileSize), BillableMB(order.fileSize), Rate(cfg, order.exempt),
                      Rate(cfg, order.exempt), copies);
      ChargeFunds(s.payments[p].amount, hours, order.hours, k);
      NewHostKeepsMoney(cfg, s, p, Cid(digest, order.fileSize), order.uploader, order.fileSize,
                        if Hosted(s, Cid(digest, order.fileSize)) then OwnCopy else Original,
                        Rate(cfg, order.exempt), hours, copies, now,
                        if cfg.permanent then PERMANENT_EXPIRY else now + hours * HOUR);
    }
  }

  /** A payment that funded nothing now funds the claim behind the last. */
  lemma PaymentRebooked(s: Tables, s': Tables, p: nat)
    requires p < |s.payments| && !s.payments[p].use.Funded?
    requires s'.payments == s.payments[p := s.payments[p].(use := Funded(|s.claims|))]
    ensures forall i: nat {:trigger Paid(s', i)} {:trigger Payments(s', i)} ::
      && Paid(s', i) == Paid(s, i) + (if i == |s.claims| then s.payments[p].amount else 0.0)
      && Payments(s', i) == Payments(s, i) + (if i == |s.claims| then 1 else 0)
  {
    var entry := Entry(Option.Some(|s.claims|), s.payments[p].amount);
    assert Credits(s'.payments) == Credits(s.payments)[p := entry];
    forall i: nat { Rebook(Credits(s.payments), p, entry, i); }
  }

  lemma NewHostKeepsMoney(cfg: Config, s: Tables, p: nat, cid: Cid, owner: Account, size: Size, kind: Kind,
                          rate: real, hours: int, copies: int, startTs: Time, expiryTs: Time)
    requires Core(cfg, s) && Money(cfg, s) && p < |s.payments| && !s.payments[p].use.Funded?
    requires rate == 0.0 || rate == cfg.rate
    requires var k := PerHour(BillableMB(size), rate, copies); s.payments[p].amount + Loss(k, 1) >= hours as real * k
    ensures Money(cfg, AddHost(s, p, cid, owner, size, kind, rate, hours, copies, startTs, expiryTs))
  {
    var s' := AddHost(s, p, cid, owner, size, kind, rate, hours, copies, startTs, expiryTs);
    PaymentRebooked(s, s', p);
    NothingPaidAhead(cfg, s);
    forall i | 0 <= i < |s'.claims| ensures FundedOk(cfg, s', i) {
      if i < |s.claims| { StaysFunded(cfg, s, s', i); }
    }
    forall q | 0 <= q < |s'.payments| ensures OrderOk(cfg, s'.payments[q]) && MemoOk(s', q) {
      assert OrderOk(cfg, s.payments[q]) && MemoOk(s, q);
    }
    RefundsStayWithin(cfg, s, s');
  }

  lemma OwnCopyKeepsMoney(cfg: Config, s: Tables, tx: TxId, owner: Account, cid: Cid, hours: real, copies: real,
                          exempt: bool, amount: real, now: Time)
    requires cfg.Valid() && Inv(cfg, s) && Money(cfg, s) && amount >= 0.0
    ensures Money(cfg, BuyOwnCopy(cfg, s, tx, owner, cid, hours, copies, exempt, amount, now).next)
  {
    var quote := Reserve(cfg, cid.size, hours, copies, exempt);
    if quote.Ok? && !TxUsed(s, tx) && Covers(exempt, amount, quote.value.total) {
      var paid := RecordPayment(s, tx, owner, amount, OwnCopyMemo(cid), Stranded);
      RecordKeeps(cfg, s, tx, owner, amount, OwnCopyMemo(cid), Stranded);
      RecordKeepsMoney(cfg, s, tx, owner, amount, OwnCopyMemo(cid), Stranded);
      if Hosted(s, cid) && LatestPin(s.pins, cid).Some? {
        LatestPinSize(cfg, s, cid);
        QuoteIsPriced(cfg, cid.size, if cfg.permanent then cfg.minHours as real else hours, copies, exempt);
        OwnCopyHostKeepsMoney(cfg, paid, |s.payments|, owner, cid, quote.value, exempt, now);
      }
    }
  }

  lemma OwnCopyHostKeepsMoney(cfg: Config, s: Tables, p: nat, owner: Account, cid: Cid, q: Quote, exempt: bool,
                              now: Time)
    requires Core(cfg, s) && Money(cfg, s) && p < |s.payments| && !s.payments[p].use.Funded?
    requires Priced(cfg, q, exempt) && q.mb == BillableMB(cid.size) && cfg.minHours <= q.hours && cfg.Valid()
    requires Covers(exempt, s.payments[p].amount, q.total)
    ensures var paidHours := if cfg.permanent then cfg.minHours else q.hours;
      Money(cfg, AddHost(s, p, cid, owner, cid.size, OwnCopy, Rate(cfg, exempt), paidHours, q.copies, now,
                         if cfg.permanent then PERMANENT_EXPIRY else now + paidHours * HOUR))
  {
    var paidHours := if cfg.permanent then cfg.minHours else q.hours;
    QuoteFunds(cfg, q, paidHours, exempt, s.payments[p].amount);
    NewHostKeepsMoney(cfg, s, p, cid, owner, cid.size, OwnCopy, Rate(cfg, exempt), paidHours, q.copies, now,
                      if cfg.permanent then PERMANENT_EXPIRY else now + paidHours * HOUR);
  }

  lemma FreeIsFree(mb: int, hours: int, copies: int)
    ensures PerHour(mb, 0.0, copies) == 0.0 && Charge(hours, PerHour(mb, 0.0, copies)) == 0
  {
    assert mb as real * 0.0 == 0.0;
    assert 0.0 * copies as real == 0.0;
    assert hours as real * 0.0 == 0.0;
  }

  /** A quote that was worked out from its own terms. */
  ghost predicate Priced(cfg: Config, q: Quote, exempt: bool) {
    && q.mb >= 1 && q.hours >= 1 && q.copies >= 1 && q.rate >= 0.0 && q.rate == Rate(cfg, exempt)
    && q.total == Charge(q.hours, PerHour(q.mb, q.rate, q.copies))
  }

  lemma QuoteIsPriced(cfg: Config, size: Size, hours: real, copies: real, exempt: bool)
    requires cfg.Valid()
    ensures var q := CalculateCost(cfg, size, hours, copies, Rate(cfg, exempt)); q.Ok? ==> Priced(cfg, q.value, exempt)
  {
  }

  /** A payment that covers a quote funds a claim of up to the quoted hours. */
  lemma QuoteFunds(cfg: Config, q: Quote, hours: int, exempt: bool, amount: real)
    requires Priced(cfg, q, exempt) && Covers(exempt, amount, q.total) && 0 <= hours <= q.hours
    ensures var k := PerHour(q.mb, q.rate, q.copies); amount + Loss(k, 1) >= hours as real * k
  {
    PerHourMonotone(q.mb, q.mb, q.rate, q.rate, q.copies);
    if exempt { FreeIsFree(q.mb, q.hours, q.copies); }
    ChargeFunds(amount, hours, q.hours, PerHour(q.mb, q.rate, q.copies));
  }

  lemma GuardianKeepsMoney(cfg: Config, s: Tables, tx: TxId, owner: Account, cid: Cid, size: Size, q: Quote,
                           exempt: bool, amount: real, now: Time)
    requires Core(cfg, s) && Money(cfg, s) && Priced(cfg, q, exempt) && Covers(exempt, amount, q.total)
    ensures Money(cfg, AddGuardian(s, tx, owner, cid, size, q, Rate(cfg, exempt), amount, now))
  {
    QuoteFunds(cfg, q, q.hours, exempt, amount);
    var s' := AddGuardian(s, tx, owner, cid, size, q, Rate(cfg, exempt), amount, now);
    NewGuardianKeepsMoney(cfg, s, s', s'.claims[|s.claims|], s'.payments[|s.payments|]);
  }

  lemma PledgeKeepsMoney(cfg: Config, s: Tables, tx: TxId, owner: Account, cid: Cid, hours: real, copies: real,
                         exempt: bool, amount: real, now: Time)
    requires cfg.Valid() && Inv(cfg, s) && Money(cfg, s)
    ensures Money(cfg, Pledge(cfg, s, tx, owner, cid, hours, copies, exempt, amount, now).next)
  {
    if Pledge(cfg, s, tx, owner, cid, hours, copies, exempt, amount, now).reply.Ok? {
      var size := s.pins[FindHost(s.pins, cid).value].sizeBytes;
      QuoteIsPriced(cfg, size, hours, copies, exempt);
      GuardianKeepsMoney(cfg, s, tx, owner, cid, size,
                         CalculateCost(cfg, size, hours, copies, Rate(cfg, exempt)).value, exempt, amount, now);
    }
  }

  /** A payment that funded a claim joins the others. */
  lemma AppendedMemos(cfg: Config, s: Tables, s': Tables, p: Payment)
    requires Money(cfg, s) && s'.payments == s.payments + [p] && p.use.Funded? && |s.claims| <= |s'.claims|
    requires forall i | 0 <= i < |s.claims| :: s'.claims[i].payment == s.claims[i].payment
    requires p.use.claim < |s'.claims|
    requires (s'.claims[p.use.claim].payment == |s.payments| || p.memo == ExtendMemo(p.use.claim))
    ensures forall q {:trigger OrderOk(cfg, s'.payments[q])} | 0 <= q < |s'.payments| :: OrderOk(cfg, s'.payments[q])
    ensures forall q | 0 <= q < |s'.payments| :: MemoOk(s', q)
  {
    forall q | 0 <= q < |s'.payments| ensures OrderOk(cfg, s'.payments[q]) && MemoOk(s', q) {
      if q < |s.payments| { assert OrderOk(cfg, s.payments[q]) && MemoOk(s, q); }
    }
  }

  /** Refund rows stay within the draws of cancelled claims, which do not change. */
  lemma RefundsStayWithin(cfg: Config, s: Tables, s': Tables)
    requires Refunds(s) && s'.refunds == s.refunds && |s.claims| <= |s'.claims|
    requires forall r | 0 <= r < |s.refunds| :: RefundWithin(cfg, s, r)
    requires forall i | 0 <= i < |s.claims| && s.claims[i].state.Cancelled? :: s'.claims[i] == s.claims[i]
    ensures forall r | 0 <= r < |s'.refunds| :: RefundWithin(cfg, s', r)
  {
    forall r | 0 <= r < |s'.refunds|
      ensures RefundWithin(cfg, s', r)
    {
      assert RefundWithin(cfg, s, r) && RefundOk(s, r);
    }
  }

  lemma NewGuardianKeepsMoney(cfg: Config, s: Tables, s': Tables, c: Claim, p: Payment)
    requires Core(cfg, s) && Money(cfg, s) && s'.claims == s.claims + [c] && s'.payments == s.payments + [p]
    requires s'.refunds == s.refunds
    requires p.use == Funded(|s.claims|) && c.payment == |s.payments|
    requires (c.rateLocked == 0.0 || c.rateLocked == cfg.rate)
    requires p.amount + Loss(c.PerHour(), 1) >= c.paidHours as real * c.PerHour() && c.amountPaid == p.amount
    ensures Money(cfg, s')
  {
    PaymentAppended(s, s', p);
    NothingPaidAhead(cfg, s);
    forall i | 0 <= i < |s'.claims| ensures FundedOk(cfg, s', i) {
      if i < |s.claims| { StaysFunded(cfg, s, s', i); }
    }
    AppendedMemos(cfg, s, s', p);
    RefundsStayWithin(cfg, s, s');
  }

  lemma PaymentAppended(s: Tables, s': Tables, p: Payment)
    requires s'.payments == s.payments + [p] && p.use.Funded?
    ensures forall i: nat {:trigger Paid(s', i)} {:trigger Payments(s', i)} ::
      && Paid(s', i) == Paid(s, i) + (if i == p.use.claim then p.amount else 0.0)
      && Payments(s', i) == Payments(s, i) + (if i == p.use.claim then 1 else 0)
  {
    assert Credits(s'.payments) == Credits(s.payments) + [Credit(p)];
    forall i: nat { Append(Credits(s.payments), Credit(p), i); }
  }

  lemma ExtendKeepsMoney(cfg: Config, s: Tables, tx: TxId, id: nat, hours: real, exempt: bool, amount: real)
    requires cfg.Valid() && Inv(cfg, s) && Money(cfg, s) && amount >= 0.0
    ensures Money(cfg, Extend(cfg, s, tx, id, hours, exempt, amount).next)
  {
    var step := Extend(cfg, s, tx, id, hours, exempt, amount);
    if step.reply.Ok? {
      assert ClaimOk(cfg, s, id);
      MoreHoursKeepMoney(cfg, s, step.next, Payment(tx, s.claims[id].owner, amount, ExtendMemo(id), Funded(id)), id,
                         BillableHours(cfg, hours).value);
    } else if step.next != s {
      RecordKeepsMoney(cfg, s, tx, s.claims[id].owner, amount, ExtendMemo(id), Stranded);
    }
  }

  lemma MoreHoursKeepMoney(cfg: Config, s: Tables, s': Tables, p: Payment, id: nat, extra: int)
    requires Core(cfg, s) && Money(cfg, s) && id < |s.claims| && s.claims[id].state.Active? && extra >= 1
    requires p.use == Funded(id) && p.memo == ExtendMemo(id)
    requires p.amount >= Charge(extra, s.claims[id].PerHour()) as real
    requires s'.payments == s.payments + [p] && s'.refunds == s.refunds && |s'.claims| == |s.claims|
    requires forall i | 0 <= i < |s.claims| && i != id :: s'.claims[i] == s.claims[i]
    requires s'.claims[id]
      == s.claims[id].(paidHours := s.claims[id].paidHours + extra, expiryTs := s'.claims[id].expiryTs)
    ensures Money(cfg, s')
  {
    PaymentAppended(s, s', p);
    assert ClaimOk(cfg, s, id);
    LockedIsSold(cfg, s.claims[id]);
    forall i | 0 <= i < |s'.claims| ensures FundedOk(cfg, s', i) {
      if i != id { StaysFunded(cfg, s, s', i); } else { ExtendedFunded(cfg, s, s', id, p.amount, extra); }
    }
    AppendedMemos(cfg, s, s', p);
    RefundsStayWithin(cfg, s, s');
  }

  /** A claim that does not change, nor what was paid under it, stays funded. */
  lemma StaysFunded(cfg: Config, s: Tables, s': Tables, i: nat)
    requires i < |s.claims| && i < |s'.claims| && s'.claims[i] == s.claims[i] && FundedOk(cfg, s, i)
    requires Paid(s', i) == Paid(s, i) && Payments(s', i) == Payments(s, i)
    ensures FundedOk(cfg, s', i)
  {
  }

  lemma ExtendedFunded(cfg: Config, s: Tables, s': Tables, id: nat, amount: real, extra: int)
    requires id < |s.claims| && id < |s'.claims| && FundedOk(cfg, s, id)
    requires amount >= Charge(extra, s.claims[id].PerHour()) as real
    requires s'.claims[id]
      == s.claims[id].(paidHours := s.claims[id].paidHours + extra, expiryTs := s'.claims[id].expiryTs)
    requires s.claims[id].pin.Some? && s.claims[id].PerHour() >= 0.0 && extra >= 0
    requires Paid(s', id) == Paid(s, id) + amount && Payments(s', id) == Payments(s, id) + 1
    ensures FundedOk(cfg, s', id)
  {
    var k := s.claims[id].PerHour();
    assert s'.claims[id].PerHour() == k;
    MoreHoursFunded(k, s.claims[id].paidHours, Paid(s, id), Payments(s, id), amount, extra);
  }

  lemma MoreHoursFunded(k: real, hours: int, paid: real, n: nat, amount: real, extra: int)
    requires paid + Loss(k, n) >= hours as real * k && amount >= Charge(extra, k) as real && extra >= 0 && k >= 0.0
    ensures paid + amount + Loss(k, n + 1) >= (hours + extra) as real * k
  {
    ChargeCovers(extra, k);
    Distribute(hours, extra, k);
  }

  /**
    * The one way into the gate that the solvency results exclude: an accepted upload underpays exactly when
    * it was quoted as exempt, is exempt no longer, and was paid less than the full price of its file.
    */
  lemma OnlyLapsedExemptionsUnderpay(cfg: Config, s: Tables, e: Event)
    requires cfg.Valid() && e.EPayUpload? && Accepted(cfg, s, e)
    ensures var q := Reserve(cfg, e.reserved, e.hours, e.copies, e.exemptThen).value;
      Underpays(cfg, e) <==>
        && e.exemptThen && !e.exemptNow && e.fileSize > 0
        && e.amount < Charge(q.hours, PerHour(BillableMB(e.fileSize), cfg.rate, q.copies)) as real
  {
    var q := Reserve(cfg, e.reserved, e.hours, e.copies, e.exemptThen).value;
    var order := UploadOrder(e.uploader, e.fileSize, q.hours, q.copies, e.exemptNow && q.total == 0);
    CappedCopiesIdempotent(cfg, q.copies);
    QuoteIsPriced(cfg, e.reserved, if cfg.permanent then cfg.minHours as real else e.hours, e.copies, e.exemptThen);
    if e.fileSize == 0 {
      assert q.hours as real * 0.0 == 0.0;
    } else if e.exemptThen ==> e.exemptNow {
      OrderCovered(cfg, q, e.reserved, e.fileSize, e.exemptThen, e.exemptNow, e.amount);
    }
  }

  /** A payment that meets the quote covers the order at the locked rate, unless an exemption has lapsed. */
  lemma OrderCovered(cfg: Config, q: Quote, reserved: Size, fileSize: Size, exemptThen: bool, exemptNow: bool,
                     amount: real)
    requires cfg.Valid() && Priced(cfg, q, exemptThen) && q.mb == BillableMB(reserved) && fileSize <= reserved
    requires Covers(exemptNow && q.total == 0, amount, q.total) && (exemptThen ==> exemptNow)
    ensures var k := PerHour(BillableMB(fileSize), Rate(cfg, exemptNow && q.total == 0), q.copies);
      amount >= Charge(q.hours, k) as real
  {
    var mb := BillableMB(fileSize);
    if exemptNow && q.total == 0 {
      FreeIsFree(mb, q.hours, q.copies);
    } else if exemptThen {
      FreeIsFree(q.mb, q.hours, q.copies);
    } else {
      BillableMBMonotone(fileSize, reserved);
      PerHourMonotone(mb, q.mb, cfg.rate, cfg.rate, q.copies);
      ChargeMonotone(q.hours, q.hours, PerHour(mb, cfg.rate, q.copies), PerHour(q.mb, cfg.rate, q.copies));
    }
  }

  lemma SettleKeepsMoney(cfg: Config, s: Tables, id: nat, now: Time)
    requires cfg.Valid() && Inv(cfg, s) && Money(cfg, s)
    ensures Money(cfg, Settle(cfg, s, id, now))
  {
    if id in s.owed {
      SettledRowWithin(cfg, s, id, now);
      LongerBooksKeepMoney(cfg, s, Settle(cfg, s, id, now));
    }
  }

  lemma LongerBooksKeepMoney(cfg: Config, s: Tables, s': Tables)
    requires Money(cfg, s) && s'.claims == s.claims && s'.payments == s.payments && s.refunds <= s'.refunds
    requires forall r | |s.refunds| <= r < |s'.refunds| :: RefundWithin(cfg, s', r)
    ensures Money(cfg, s')
  {
    forall i | 0 <= i < |s'.claims| ensures FundedOk(cfg, s', i) { assert FundedOk(cfg, s, i); }
    forall p | 0 <= p < |s'.payments|
      ensures OrderOk(cfg, s'.payments[p]) && MemoOk(s', p)
    {
      assert OrderOk(cfg, s.payments[p]) && MemoOk(s, p);
    }
    forall r | 0 <= r < |s'.refunds|
      ensures RefundWithin(cfg, s', r)
    {
      if r < |s.refunds| { assert RefundWithin(cfg, s, r); }
    }
  }

  lemma SettledRowWithin(cfg: Config, s: Tables, id: nat, now: Time)
    requires cfg.Valid() && Core(cfg, s) && Money(cfg, s) && id in s.owed
    ensures RefundWithin(cfg, Settle(cfg, s, id, now), |s.refunds|)
  {
    assert OwedOk(s, id);
    assert ClaimOk(cfg, s, id);
    DrawOfOwed(cfg, s, id);
    DueWithinDraw(cfg, s.owed[id], now);
  }

  lemma PurchaseKeepsMoney(cfg: Config, s: Tables, e: Event)
    requires cfg.Valid() && Inv(cfg, s) && Money(cfg, s) && Possible(cfg, s, e) && Honest(cfg, s, e)
    requires e.EPayUpload? || e.ECommitUpload? || e.EFailUpload? || e.EOwnCopy? || e.EPledge? || e.EExtend?
    ensures Money(cfg, Apply(cfg, s, e))
  {
    match e {
      case EPayUpload(tx, uploader, reserved, hours, copies, exemptThen, fileSize, exemptNow, amount) =>
        var quote := Reserve(cfg, reserved, hours, copies, exemptThen);
        if quote.Ok? && PayUpload(cfg, s, tx, uploader, quote.value, reserved, fileSize, exemptNow, amount).reply.Ok? {
          var q := quote.value;
          RecordKeepsMoney(cfg, s, tx, uploader, amount, UploadMemo,
                           Uploading(UploadOrder(uploader, fileSize, q.hours, q.copies, exemptNow && q.total == 0)));
        }
      case ECommitUpload(p, digest, now) => UploadKeepsMoney(cfg, s, p, digest, now);
      case EFailUpload(p) => StrandKeepsMoney(cfg, s, SetUse(s, p, Stranded));
      case EOwnCopy(tx, owner, cid, hours, copies, exempt, amount, now) =>
        OwnCopyKeepsMoney(cfg, s, tx, owner, cid, hours, copies, exempt, amount, now);
      case EPledge(tx, owner, cid, hours, copies, exempt, amount, now) =>
        PledgeKeepsMoney(cfg, s, tx, owner, cid, hours, copies, exempt, amount, now);
      case EExtend(tx, id, hours, exempt, amount) => ExtendKeepsMoney(cfg, s, tx, id, hours, exempt, amount);
    }
  }

  lemma StepKeepsMoney(cfg: Config, s: Tables, e: Event)
    requires cfg.Valid() && Inv(cfg, s) && Money(cfg, s) && Possible(cfg, s, e) && Honest(cfg, s, e)
    ensures Money(cfg, Apply(cfg, s, e))
  {
    if e.EPayUpload? || e.ECommitUpload? || e.EFailUpload? || e.EOwnCopy? || e.EPledge? || e.EExtend? {
      PurchaseKeepsMoney(cfg, s, e);
    } else if e.ECancel? || e.ERelease? || e.ESweep? || e.EBan? || e.ETakedown? {
      EndingKeepsMoney(cfg, s, e);
    } else if e.ESettle? {
      SettleKeepsMoney(cfg, s, e.id, e.now);
    } else {
      StrandKeepsMoney(cfg, s, Apply(cfg, s, e));
    }
  }

  // ---------- whole runs ----------

  ghost predicate HonestRun(cfg: Config, tables: seq<Tables>, events: seq<Event>) {
    && GoodRun(cfg, tables, events) && Money(cfg, tables[0])
    && forall k | 0 <= k < |events| :: Honest(cfg, tables[k], events[k])
  }

  lemma EmptyIsSound(cfg: Config)
    ensures Inv(cfg, EMPTY) && Money(cfg, EMPTY)
  {
  }

  lemma {:induction false} RunKeepsMoney(cfg: Config, tables: seq<Tables>, events: seq<Event>, k: nat)
    requires HonestRun(cfg, tables, events) && k < |tables|
    ensures Inv(cfg, tables[k]) && Money(cfg, tables[k])
  {
    RunKeeps(cfg, tables, events, k);
    if k > 0 {
      RunKeepsMoney(cfg, tables, events, k - 1);
      assert StepAt(cfg, tables, events, k - 1) && Honest(cfg, tables[k - 1], events[k - 1]);
      StepKeepsMoney(cfg, tables[k - 1], events[k - 1]);
    }
  }

  // ---------- solvency ----------

  function Exposures(cfg: Config, s: Tables, n: nat): int
    requires n <= |s.claims|
  {
    if n == 0 then 0 else Exposures(cfg, s, n - 1) + Exposure(cfg, s, n - 1)
  }

  function Slacks(cfg: Config, s: Tables, n: nat): real
    requires n <= |s.claims|
  {
    if n == 0 then 0.0 else Slacks(cfg, s, n - 1) + Slack(cfg, s, n - 1)
  }

  /** Everything ever recorded as paid, stranded payments included, and everything the ledger sends back. */
  function TotalPaid(s: Tables): real { Total(Credits(s.payments)) }

  function TotalReturned(s: Tables): real { Total(Debits(s.refunds)) }

  lemma {:induction false} ClaimsSolvent(cfg: Config, s: Tables, n: nat)
    requires cfg.Valid() && Inv(cfg, s) && Money(cfg, s) && n <= |s.claims|
    ensures Shares(Debits(s.refunds), n) + Exposures(cfg, s, n) as real
      <= Shares(Credits(s.payments), n) + Slacks(cfg, s, n)
    decreases n
  {
    if n > 0 {
      ClaimsSolvent(cfg, s, n - 1);
      ClaimSolvent(cfg, s, n - 1);
    }
  }

  lemma TotalsSplit(cfg: Config, s: Tables)
    requires Core(cfg, s)
    ensures Shares(Credits(s.payments), |s.claims|) <= TotalPaid(s)
    ensures Shares(Debits(s.refunds), |s.claims|) == TotalReturned(s)
  {
    var es, fs := Credits(s.payments), Debits(s.refunds);
    forall p | 0 <= p < |es| ensures es[p].amount >= 0.0 { assert PaymentOk(s, p); }
    SharesVersusTotal(es, |s.claims|);
    forall r | 0 <= r < |fs| ensures fs[r].claim.Some? && fs[r].claim.value < |s.claims| { assert RefundOk(s, r); }
    SharesOfBooked(fs, |s.claims|);
  }

  /**
    * Solvency: in every state of every honest run, what was paid less what the refund ledger sends back
    * covers the largest refunds that live and ending claims can still draw, up to the rounding slack.
    */
  lemma Solvency(cfg: Config, tables: seq<Tables>, events: seq<Event>, k: nat)
    requires HonestRun(cfg, tables, events) && k < |tables|
    ensures var s := tables[k];
      TotalPaid(s) - TotalReturned(s) + Slacks(cfg, s, |s.claims|) >= Exposures(cfg, s, |s.claims|) as real
  {
    RunKeepsMoney(cfg, tables, events, k);
    ClaimsSolvent(cfg, tables[k], |tables[k].claims|);
    TotalsSplit(cfg, tables[k]);
  }

  lemma {:induction false} NoSlack(cfg: Config, s: Tables, n: nat)
    requires n <= |s.claims| && forall i | 0 <= i < n :: !RoundsAway(cfg, s.claims[i])
    ensures Slacks(cfg, s, n) == 0.0
    decreases n
  {
    if n > 0 { NoSlack(cfg, s, n - 1); }
  }

  /** Where rounding favours no claim's owner, the gate owes nothing that it was not paid. */
  lemma SolvencyExact(cfg: Config, tables: seq<Tables>, events: seq<Event>, k: nat)
    requires HonestRun(cfg, tables, events) && k < |tables|
    requires forall i | 0 <= i < |tables[k].claims| :: !RoundsAway(cfg, tables[k].claims[i])
    ensures TotalPaid(tables[k]) - TotalReturned(tables[k]) >= Exposures(cfg, tables[k], |tables[k].claims|) as real
  {
    Solvency(cfg, tables, events, k);
    NoSlack(cfg, tables[k], |tables[k].claims|);
  }

  /**
    * A claim alone: no refund exceeds what was paid under it unless rounding favours its owner, whatever is
    * true of other claims and payments.  A waiting pledge can be over-refunded exactly when it rounds up;
    * with a rate of half units no claim that ever hosted can be.
    */
  lemma ClaimSolventExactly(cfg: Config, tables: seq<Tables>, events: seq<Event>, k: nat, i: nat)
    requires HonestRun(cfg, tables, events) && k < |tables| && i < |tables[k].claims|
    ensures var s, c := tables[k], tables[k].claims[i];
      && (!RoundsAway(cfg, c) ==> Returned(s, i) + Exposure(cfg, s, i) as real <= Paid(s, i))
      && (c.state.Dormant? ==> (Exposure(cfg, s, i) as real > Paid(s, i) <==> RoundsAway(cfg, c)))
      && (c.pin.Some? && IsWhole(2.0 * cfg.rate) ==> !RoundsAway(cfg, c))
  {
    RunKeepsMoney(cfg, tables, events, k);
    ClaimSolvent(cfg, tables[k], i);
    WaitingPledge(cfg, tables[k], i);
    HostAtHalfUnitRate(cfg, tables[k], i);
  }

  lemma WaitingPledge(cfg: Config, s: Tables, i: nat)
    requires Core(cfg, s) && Money(cfg, s) && i < |s.claims|
    ensures s.claims[i].state.Dormant? ==> (Exposure(cfg, s, i) as real > Paid(s, i) <==> RoundsAway(cfg, s.claims[i]))
  {
    assert FundedOk(cfg, s, i) && ClaimOk(cfg, s, i);
    if s.claims[i].state.Dormant? { PledgeDraw(cfg, s.claims[i]); }
  }

  lemma HostAtHalfUnitRate(cfg: Config, s: Tables, i: nat)
    requires Money(cfg, s) && i < |s.claims|
    ensures s.claims[i].pin.Some? && IsWhole(2.0 * cfg.rate) ==> !RoundsAway(cfg, s.claims[i])
  {
    var c := s.claims[i];
    assert FundedOk(cfg, s, i);
    if IsWhole(2.0 * cfg.rate) { HalfUnitRate(c.sizeMB, c.rateLocked, c.copies); }
  }

  lemma HalfUnitRate(mb: int, rate: real, copies: int)
    requires IsWhole(2.0 * rate)
    ensures IsWhole(2.0 * PerHour(mb, rate, copies))
  {
    var w := (2.0 * rate).Floor;
    assert 2.0 * (mb as real * rate) == (mb * w) as real;
    assert 2.0 * PerHour(mb, rate, copies) == (mb * w * copies) as real;
  }

  /** Over any honest run, each claim alone: returned and still returnable, within what was paid under it. */
  lemma ClaimNeverOverRefunded(cfg: Config, tables: seq<Tables>, events: seq<Event>, k: nat, i: nat)
    requires HonestRun(cfg, tables, events) && k < |tables| && i < |tables[k].claims|
    ensures var s := tables[k];
      && Returned(s, i) + Exposure(cfg, s, i) as real <= Paid(s, i) + Slack(cfg, s, i)
      && Paid(s, i) <= ClaimPayments(s, i)
  {
    RunKeepsMoney(cfg, tables, events, k);
    ClaimSolvent(cfg, tables[k], i);
    PaidIsInClaimPayments(cfg, tables[k], i);
  }

  /** `getClaimPayments`: the payment that the claim names and every payment whose memo extends it. */
  function ClaimPayments(s: Tables, i: nat): real
    requires i < |s.claims|
  {
    Share(seq(|s.payments|, p requires 0 <= p < |s.payments| =>
            if p == s.claims[i].payment || s.payments[p].memo == ExtendMemo(i)
            then Entry(Option.Some(i), s.payments[p].amount) else Entry(Option.None, 0.0)), i)
  }

  lemma PaidIsInClaimPayments(cfg: Config, s: Tables, i: nat)
    requires Core(cfg, s) && Money(cfg, s) && i < |s.claims|
    ensures Paid(s, i) <= ClaimPayments(s, i)
  {
    var fs := seq(|s.payments|, p requires 0 <= p < |s.payments| =>
      if p == s.claims[i].payment || s.payments[p].memo == ExtendMemo(i)
      then Entry(Option.Some(i), s.payments[p].amount) else Entry(Option.None, 0.0));
    forall p | 0 <= p < |s.payments| ensures Part(Credits(s.payments)[p], i) <= Part(fs[p], i) {
      assert MemoOk(s, p) && PaymentOk(s, p);
    }
    ShareMonotone(Credits(s.payments), fs, i);
  }

  /**
    * A refund is at most what was paid with n payments, less the used hours at k an hour, plus half a unit
    * for each payment and one for the refund: one alone when an hour costs half units, none for whole units.
    */
  ghost predicate WithinPaid(r: RefundQuote, k: real, paid: real, n: nat) {
    && r.amount as real <= paid - r.hoursUsed as real * k + (n + 1) as real / 2.0
    && (IsWhole(2.0 * k) ==> r.amount as real <= paid - r.hoursUsed as real * k + 0.5)
    && (IsWhole(k) ==> r.amount as real <= paid - r.hoursUsed as real * k)
  }

  /** The rounding bound over whole runs: at any time within its paid hours, the refund of an active claim. */
  lemma RefundWithinPaymentsMade(cfg: Config, tables: seq<Tables>, events: seq<Event>, k: nat, i: nat, now: Time)
    requires HonestRun(cfg, tables, events) && k < |tables| && i < |tables[k].claims|
    requires var c := tables[k].claims[i];
      c.state.Active? && c.expiryTs < PERMANENT_EXPIRY && HoursUsed(c.startTs, now) <= c.paidHours
    ensures var s, c := tables[k], tables[k].claims[i];
      WithinPaid(CalculateRefund(cfg, c.Terms(), now), c.PerHour(), Paid(s, i), Payments(s, i))
  {
    RunKeepsMoney(cfg, tables, events, k);
    var s := tables[k];
    assert FundedOk(cfg, s, i) && ClaimOk(cfg, s, i);
    RefundOfFunded(cfg, s.claims[i], s.claims[i].PerHour(), now, Paid(s, i), Payments(s, i));
  }

  lemma RefundOfFunded(cfg: Config, c: Claim, k: real, now: Time, paid: real, n: nat)
    requires RowOk(cfg, c) && k == c.PerHour() && c.expiryTs < PERMANENT_EXPIRY
    requires HoursUsed(c.startTs, now) <= c.paidHours
    requires paid + Loss(k, n) >= c.paidHours as real * k
    ensures WithinPaid(CalculateRefund(cfg, c.Terms(), now), k, paid, n)
  {
    LockedIsSold(cfg, c);
    RefundOfTerms(cfg, c.Terms(), k, now, paid, n);
  }

  lemma RefundOfTerms(cfg: Config, t: Terms, k: real, now: Time, paid: real, n: nat)
    requires t.sizeBytes > 0 && k == LockedPerHour(cfg, t) && k >= 0.0
    requires !t.Permanent() && HoursUsed(t.startTs, now) <= t.paidHours && paid + Loss(k, n) >= t.paidHours as real * k
    ensures WithinPaid(CalculateRefund(cfg, t, now), k, paid, n)
  {
    RefundWithinPayments(cfg, t, k, now, paid, Loss(k, n));
    LossMeansWithin(CalculateRefund(cfg, t, now), k, paid, n);
  }

  lemma LossMeansWithin(r: RefundQuote, k: real, paid: real, n: nat)
    requires r.amount as real <= paid - r.hoursUsed as real * k + Loss(k, n) + 0.5
    requires IsWhole(k) ==> r.amount as real <= paid - r.hoursUsed as real * k + Loss(k, n)
    ensures WithinPaid(r, k, paid, n)
  {
    HalfUnitsAreWholeTwice(k);
  }
}
