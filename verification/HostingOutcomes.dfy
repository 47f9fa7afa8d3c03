/**
  * What the gate's operations come to, said without their own definitions: who may end a claim, what a
  * buyer gets for what price, and what goes back.
  */
module HostingOutcomes {
  import opened Prelude
  import opened Pricing
  import opened Hosting
  import opened HostingInvariant
  import opened HostingEndings
  import opened HostingRuns
  import opened HostingDelete

  // ---------- who may end a claim ----------

  /** The event asks for the end of claim i, and comes from someone who may. */
  predicate Entitled(e: Event, c: Claim, i: nat) {
    match e
    case ECancel(id, User(account), _, _) => id == i && account == c.owner
    case ECancel(id, Admin(_), _, _) => id == i
    case ERelease(id, _, _) => id == i
    case EBan(account, _, _, _, _) => account == c.owner
    case ETakedown(cid, _, _) => cid == c.cid
    case _ => false
  }

  /** The claims after one ending: the ended one, and perhaps a promoted guardian. */
  lemma EndOneClaims(s: Tables, id: nat, ending: Ending, t: Time, t': Time, i: nat)
    requires id < |s.claims| && i < |s.claims|
    ensures var s' := EndAndReconcile(s, id, ending, t, t').next;
      && |s'.claims| == |s.claims|
      && Promotion(if i == id then s.claims[i].(state := Cancelled) else s.claims[i], s'.claims[i])
  {
    EndedOneRow(s, id, ending, t);
  }

  lemma SweepClaims(cfg: Config, s: Tables, t: Time, order: seq<Cid>, clocks: seq<Time>, i: nat)
    requires Rows(cfg, s) && |clocks| == |order| && i < |s.claims|
    ensures var s' := Sweep(s, t, order, clocks);
      |s'.claims| == |s.claims| && Promotion(ExpiredClaim(s.claims[i], t), s'.claims[i])
  {
    PinPassFindsNothing(cfg, s, t);
    ReconcileAllPromotes(Expire(s, t), order, clocks);
  }

  lemma BanClaims(s: Tables, account: Account, policy: Policy, t: Time, order: seq<Cid>, clocks: seq<Time>, i: nat)
    requires |clocks| == |order| && i < |s.claims|
    ensures var s' := Ban(s, account, policy, t, order, clocks);
      |s'.claims| == |s.claims| && Promotion(VoidedClaim(s.claims[i], account), s'.claims[i])
  {
    VoidClaims(s, account, policy, t);
    ReconcileAllPromotes(VoidAccount(s, account, policy, t), order, clocks);
  }

  lemma PurchasesEndNothing(cfg: Config, s: Tables, e: Event, i: nat)
    requires Possible(cfg, s, e) && i < |s.claims|
    requires !e.ECancel? && !e.ERelease? && !e.ESweep? && !e.EBan? && !e.ETakedown?
    ensures i < |Apply(cfg, s, e).claims| && Apply(cfg, s, e).claims[i].state == s.claims[i].state
  {
  }

  /** How a live claim c may end in one event of the kind. */
  ghost predicate EndsAs(e: Event, c: Claim, i: nat, d: Claim) {
    && (d.state.Cancelled? ==> Entitled(e, c, i))
    && (d.state.Expired? ==> e.ESweep? && c.state.Active? && c.expiryTs < e.t)
  }

  lemma CancelEndsAs(s: Tables, id: nat, who: Canceller, t: Time, t': Time, i: nat)
    requires i < |s.claims| && s.claims[i].Live()
    ensures var s' := Cancel(s, id, who, t, t').next;
      i < |s'.claims| && EndsAs(ECancel(id, who, t, t'), s.claims[i], i, s'.claims[i])
  {
    if id < |s.claims| && s.claims[id].state.Active? { EndOneClaims(s, id, who.Ending(), t, t', i); }
  }

  lemma ReleaseEndsAs(s: Tables, id: nat, t: Time, t': Time, i: nat)
    requires i < |s.claims| && s.claims[i].Live()
    ensures var s' := Release(s, id, t, t').next;
      i < |s'.claims| && EndsAs(ERelease(id, t, t'), s.claims[i], i, s'.claims[i])
  {
    if id < |s.claims| && s.claims[id].state.Active? { EndOneClaims(s, id, ByUser, t, t', i); }
  }

  lemma BulkEndsAs(cfg: Config, s: Tables, e: Event, i: nat)
    requires Inv(cfg, s) && Possible(cfg, s, e) && i < |s.claims| && s.claims[i].Live() && (e.ESweep? || e.EBan?)
    ensures i < |Apply(cfg, s, e).claims| && EndsAs(e, s.claims[i], i, Apply(cfg, s, e).claims[i])
  {
    if e.ESweep? {
      SweepClaims(cfg, s, e.t, e.order, e.clocks, i);
    } else {
      BanClaims(s, e.account, e.policy, e.t, e.order, e.clocks, i);
    }
  }

  lemma TakedownEndsAs(cfg: Config, s: Tables, e: Event, i: nat)
    requires Possible(cfg, s, e) && e.ETakedown? && i < |s.claims| && s.claims[i].Live()
    ensures i < |Apply(cfg, s, e).claims| && EndsAs(e, s.claims[i], i, Apply(cfg, s, e).claims[i])
  {
  }

  /** A live claim is cancelled by an entitled event only, and expires by a sweep past its timer only. */
  lemma EndsByEntitledOnly(cfg: Config, s: Tables, e: Event, i: nat)
    requires Inv(cfg, s) && Possible(cfg, s, e) && i < |s.claims| && s.claims[i].Live()
    ensures i < |Apply(cfg, s, e).claims| && EndsAs(e, s.claims[i], i, Apply(cfg, s, e).claims[i])
  {
    if e.ECancel? {
      CancelEndsAs(s, e.id, e.who, e.t, e.t', i);
    } else if e.ERelease? {
      ReleaseEndsAs(s, e.id, e.t, e.t', i);
    } else if e.ESweep? || e.EBan? {
      BulkEndsAs(cfg, s, e, i);
    } else if e.ETakedown? {
      TakedownEndsAs(cfg, s, e, i);
    } else {
      PurchasesEndNothing(cfg, s, e, i);
    }
  }

  /**
    * Over any run: a live claim is cancelled only when its owner, or an admin, cancels it, when it is
    * released, when its owner is banned or when its CID is taken down; it expires only in a sweep at a time
    * past its timer.
    */
  lemma OnlyEntitledEnd(cfg: Config, tables: seq<Tables>, events: seq<Event>, k: nat, i: nat)
    requires GoodRun(cfg, tables, events) && k < |events| && i < |tables[k].claims| && tables[k].claims[i].Live()
    ensures i < |tables[k + 1].claims|
    ensures EndsAs(events[k], tables[k].claims[i], i, tables[k + 1].claims[i])
  {
    RunKeeps(cfg, tables, events, k);
    assert StepAt(cfg, tables, events, k);
    EndsByEntitledOnly(cfg, tables[k], events[k], i);
  }

  // ---------- what a cancel does ----------

  /** Why a cancel is refused, in the order in which it is asked. */
  function Refusal(s: Tables, id: nat, who: Canceller): Option<Code> {
    if id >= |s.claims| then Some(NotFound)
    else if who.User? && who.account != s.claims[id].owner then Some(Forbidden)
    else if s.claims[id].state.Cancelled? || s.claims[id].state.Expired? then Some(Conflict)
    else None
  }

  /** A cancel that may not be changes nothing: another account's above all. */
  lemma CancelRefused(s: Tables, id: nat, who: Canceller, t: Time, t': Time)
    ensures Refusal(s, id, who).Some? <==> Cancel(s, id, who, t, t').reply.Err?
    ensures Refusal(s, id, who).Some? ==> Cancel(s, id, who, t, t') == Step(s, Err(Refusal(s, id, who).value))
    ensures who.User? && id < |s.claims| && who.account != s.claims[id].owner ==>
      Cancel(s, id, who, t, t') == Step(s, Err(Forbidden))
  {
  }

  /** Pin p after the claim that holds `pin` has ended at time t. */
  function EndedPin(s: Tables, pin: Option<nat>, t: Time, p: nat): Pin
    requires p < |s.pins|
  {
    if pin == Some(p) then s.pins[p].(status := PinExpired, changedAt := Some(t)) else s.pins[p]
  }

  /** An active claim ended by request: its row, its pin, its refund, and who takes over. */
  ghost predicate EndedByRequest(s: Tables, s': Tables, id: nat, ending: Ending, t: Time, t': Time, reply: Reply)
    requires id < |s.claims|
  {
    && reply.Ended? && !reply.wasDormant
    && CancelledOne(s, s', id, t', reply.unpin)
    && (forall h: nat :: reply.activated == Some(h)
          <==> h < |s.claims| && s.claims[h].state.Dormant? && s'.claims[h].state.Active?)
    && |s.pins| <= |s'.pins| && (forall p | 0 <= p < |s.pins| :: s'.pins[p] == EndedPin(s, s.claims[id].pin, t, p))
    && Books(s, s'.(owed := s.owed), []) && s'.owed == s.owed[id := Owed(s.claims[id], ending)]
  }

  lemma EndOneOutcome(cfg: Config, s: Tables, id: nat, ending: Ending, t: Time, t': Time)
    requires Inv(cfg, s) && id < |s.claims| && s.claims[id].state.Active? && s.clock <= t <= t'
    requires ending.Forced? ==> !ending.innocent
    ensures var step := EndAndReconcile(s, id, ending, t, t');
      step.reply.Ok? && EndedByRequest(s, step.next, id, ending, t, t', step.reply.value)
  {
    CancelOne(cfg, s, id, ending, t, t');
    EndOnePins(cfg, s, id, ending, t, t');
    EndOneActivates(s, id, ending, t, t');
  }

  lemma EndOnePins(cfg: Config, s: Tables, id: nat, ending: Ending, t: Time, t': Time)
    requires Rows(cfg, s) && id < |s.claims| && s.claims[id].state.Active?
    ensures var s' := EndAndReconcile(s, id, ending, t, t').next;
      |s.pins| <= |s'.pins| && forall p | 0 <= p < |s.pins| :: s'.pins[p] == EndedPin(s, s.claims[id].pin, t, p)
  {
    var e, cid := EndedOne(s, id, ending, t), s.claims[id].cid;
    assert ClaimOk(cfg, s, id);
    HolderOfClaim(cfg, s, id);
    forall p | 0 <= p < |s.pins| ensures e.pins[p] == EndedPin(s, s.claims[id].pin, t, p) {
      assert p in PinsOf(s, {id}) <==> s.pins[p].status.Pinned? && s.claims[id].pin == Some(p);
    }
    ReconcileHere(e, cid, t');
  }

  lemma EndOneActivates(s: Tables, id: nat, ending: Ending, t: Time, t': Time)
    requires id < |s.claims| && s.claims[id].state.Active?
    ensures var step := EndAndReconcile(s, id, ending, t, t');
      && step.reply.Ok? && step.reply.value.Ended? && !step.reply.value.wasDormant
      && |step.next.claims| == |s.claims|
      && forall h: nat :: step.reply.value.activated == Some(h)
           <==> h < |s.claims| && s.claims[h].state.Dormant? && step.next.claims[h].state.Active?
  {
    EndedOneRow(s, id, ending, t);
  }

  /** A cancel that may be, by whether the claim was active or dormant. */
  lemma CancelOutcome(cfg: Config, s: Tables, id: nat, who: Canceller, t: Time, t': Time)
    requires Inv(cfg, s) && s.clock <= t <= t' && Refusal(s, id, who).None?
    ensures var step := Cancel(s, id, who, t, t');
      var ending := if who.User? then ByUser else Forced(who.policy, false);
      && step.reply.Ok?
      && if s.claims[id].state.Active? then EndedByRequest(s, step.next, id, ending, t, t', step.reply.value)
         else
           && step.reply.value == Ended(false, None, true)
           && step.next == s.(claims := s.claims[id := s.claims[id].(state := Cancelled)],
                              owed := s.owed[id := Owed(s.claims[id], ending)], clock := t)
  {
    if s.claims[id].state.Active? {
      EndOneOutcome(cfg, s, id, who.Ending(), t, t');
    } else {
      EndDormantOutcome(s, id, who.Ending(), t);
    }
  }

  lemma EndDormantOutcome(s: Tables, id: nat, ending: Ending, t: Time)
    requires id < |s.claims|
    ensures EndedDormant(s, id, ending, t)
      == s.(claims := s.claims[id := s.claims[id].(state := Cancelled)],
            owed := s.owed[id := Owed(s.claims[id], ending)], clock := t)
  {
    var e := EndedDormant(s, id, ending, t);
    assert e.pins == s.pins && e.claims == s.claims[id := s.claims[id].(state := Cancelled)];
    assert e.owed == s.owed[id := Owed(s.claims[id], ending)];
  }

  /** A release ends an active claim as its owner's cancel would, and nothing else. */
  lemma ReleaseOutcome(cfg: Config, s: Tables, id: nat, t: Time, t': Time)
    requires Inv(cfg, s) && s.clock <= t <= t'
    ensures var step := Release(s, id, t, t');
      if id >= |s.claims| then step == Step(s, Err(NotFound))
      else if !s.claims[id].state.Active? then step == Step(s, Err(Conflict))
      else step.reply.Ok? && EndedByRequest(s, step.next, id, ByUser, t, t', step.reply.value)
  {
    if id < |s.claims| && s.claims[id].state.Active? { EndOneOutcome(cfg, s, id, ByUser, t, t'); }
  }

  /** A ban marks the account and exactly its live pins; a takedown the CID and exactly its live pins. */
  lemma BanMarks(s: Tables, account: Account, policy: Policy, t: Time, order: seq<Cid>, clocks: seq<Time>)
    requires |clocks| == |order|
    ensures var s' := Ban(s, account, policy, t, order, clocks);
      && s'.banned == s.banned + {account} && s'.blocked == s.blocked
      && s'.payments == s.payments && s'.refunds == s.refunds && |s.pins| <= |s'.pins|
      && forall p | 0 <= p < |s.pins| :: s'.pins[p]
           == if s.pins[p].uploader == account && s.pins[p].status.Pinned?
              then s.pins[p].(status := PinBanned, changedAt := Some(t)) else s.pins[p]
  {
    ReconcileAllFrame(VoidAccount(s, account, policy, t), order, clocks);
  }

  lemma TakedownMarks(s: Tables, cid: Cid, policy: Policy, t: Time)
    ensures var s' := Takedown(s, cid, policy, t);
      && s'.blocked == s.blocked + {cid} && s'.banned == s.banned
      && s'.payments == s.payments && s'.refunds == s.refunds && |s'.pins| == |s.pins|
      && forall p | 0 <= p < |s.pins| :: s'.pins[p]
           == if s.pins[p].cid == cid && s.pins[p].status.Pinned?
              then s.pins[p].(status := PinTakedown, changedAt := Some(t)) else s.pins[p]
  {
  }

  /** Lifting a ban or a block takes exactly that entry off its list, and brings nothing back. */
  lemma LiftOutcome(cfg: Config, s: Tables, account: Account, cid: Cid)
    ensures var s' := Apply(cfg, s, EUnban(account)); s' == s.(banned := s'.banned)
    ensures forall a :: a in Apply(cfg, s, EUnban(account)).banned <==> a in s.banned && a != account
    ensures var s' := Apply(cfg, s, EUntakedown(cid)); s' == s.(blocked := s'.blocked)
    ensures forall c :: c in Apply(cfg, s, EUntakedown(cid)).blocked <==> c in s.blocked && c != cid
  {
  }

  /** A restart loses what handlers held in memory, and nothing that is in a table. */
  lemma CrashOutcome(s: Tables)
    ensures var s' := Crash(s);
      && s' == s.(payments := s'.payments, owed := map[]) && |s'.payments| == |s.payments|
      && forall p | 0 <= p < |s.payments| :: s'.payments[p]
           == if s.payments[p].use.Uploading? then s.payments[p].(use := Stranded) else s.payments[p]
  {
  }

  // ---------- what a buyer gets ----------

  /** No payment with the transaction id has been recorded. */
  predicate NewTx(s: Tables, tx: TxId) {
    forall p | 0 <= p < |s.payments| :: s.payments[p].tx != tx
  }

  /** The price of a purchase in whole units, written out. */
  function Asked(cfg: Config, size: Size, hours: int, copies: int, exempt: bool): int {
    RoundCoins(Price(BillableMB(size), hours, if exempt then 0.0 else cfg.rate, copies))
  }

  predicate Pays(exempt: bool, amount: real, asked: int) {
    if exempt then amount == 0.0 else amount >= asked as real
  }

  /** A live claim with everything that was bought, and a mirror pin for it. */
  ghost predicate Delivered(cfg: Config, s: Tables, s': Tables, owner: Account, cid: Cid, kind: Kind, hours: int,
                            copies: int, exempt: bool, p: nat, now: Time)
    requires p < |s'.payments|
  {
    && |s'.claims| == |s.claims| + 1 && |s'.pins| == |s.pins| + 1
    && var c := s'.claims[|s.claims|];
    && s'.claims[..|s.claims|] == s.claims && s'.pins[..|s.pins|] == s.pins
    && c.cid == cid && c.owner == owner && c.kind == kind && c.state.Active?
    && c.sizeBytes == cid.size && c.sizeMB == BillableMB(cid.size)
    && c.rateLocked == (if exempt then 0.0 else cfg.rate) && c.paidHours == hours && c.copies == copies
    && c.amountPaid == s'.payments[p].amount && c.payment == p && s'.payments[p].use == Funded(|s.claims|)
    && c.startTs == now && c.createdTs == now
    && c.expiryTs == (if cfg.permanent then PERMANENT_EXPIRY else now + hours * HOUR)
    && c.pledgeOrder.None? && c.pledgeBudget.None?
    && Mirrors(c, s'.pins[|s.pins|], |s.pins|)
  }

  /** An upload is paid for, or refused and nothing recorded. */
  lemma PayUploadOutcome(cfg: Config, s: Tables, tx: TxId, uploader: Account, quote: Quote, reserved: Size,
                         fileSize: nat, exempt: bool, amount: real)
    ensures var step := PayUpload(cfg, s, tx, uploader, quote, reserved, fileSize, exempt, amount);
      var free := exempt && quote.total == 0;
      && (step.reply.Ok? <==>
            fileSize <= reserved && uploader !in s.banned && NewTx(s, tx) && Pays(free, amount, quote.total))
      && (step.reply.Err? ==> step.next == s)
      && (step.reply.Ok? ==>
            var order := UploadOrder(uploader, fileSize, quote.hours, quote.copies, free);
            step.next == s.(payments := s.payments + [Payment(tx, uploader, amount, UploadMemo, Uploading(order))]))
  {
  }

  /** What /reserve quotes, written out. */
  lemma ReserveOutcome(cfg: Config, size: Size, hours: real, copies: real, exempt: bool)
    requires cfg.Valid()
    ensures var quote := Reserve(cfg, size, hours, copies, exempt);
      && (quote.Err? <==> !cfg.permanent && hours <= 0.0)
      && (quote.Ok? ==>
            && quote.value.hours == HoursSold(cfg, hours) && quote.value.copies == CappedCopies(cfg, copies)
            && quote.value.mb == BillableMB(size)
            && quote.value.total == Asked(cfg, size, quote.value.hours, quote.value.copies, exempt))
  {
    QuoteIsTheProduct(cfg, size, if cfg.permanent then cfg.minHours as real else hours, copies, Rate(cfg, exempt));
  }

  /** The billable hours; a permanent gate sells its least number, once. */
  function HoursSold(cfg: Config, hours: real): int {
    if cfg.permanent then cfg.minHours else if hours <= 0.0 then 0 else BillableHours(cfg, hours).value
  }

  /** A paid upload becomes a claim with the hours, copies and rate it was quoted, unless its CID is blocked. */
  lemma CommitUploadOutcome(cfg: Config, s: Tables, p: nat, digest: string, now: Time)
    requires cfg.Valid() && p < |s.payments| && s.payments[p].use.Uploading?
    ensures var order := s.payments[p].use.order;
      var step := CommitUpload(cfg, s, p, digest, now);
      var stranded := s.(payments := s.payments[p := s.payments[p].(use := Stranded)]);
      if order.fileSize == 0 then step == Step(stranded, Err(BadRequest))
      else if Cid(digest, order.fileSize) in s.blocked then step == Step(stranded, Err(LegalTakedown))
      else
        var cid := Cid(digest, order.fileSize);
        && step.reply == Ok(Purchased(|s.claims|)) && |step.next.payments| == |s.payments|
        && Delivered(cfg, s, step.next, order.uploader, cid,
                     if exists i :: 0 <= i < |s.pins| && IsHost(s.pins[i], cid) then OwnCopy else Original,
                     if cfg.permanent then cfg.minHours else order.hours, CappedCopies(cfg, order.copies as real),
                     order.exempt, p, now)
  {
    if s.payments[p].use.order.fileSize > 0 { HostedHasPin(s, Cid(digest, s.payments[p].use.order.fileSize)); }
  }

  /**
    * An own copy: what was asked for, at the asked price, on a hosted CID.  A payment that arrives when the
    * CID is no longer hosted is recorded and strands.
    */
  lemma OwnCopyOutcome(cfg: Config, s: Tables, tx: TxId, owner: Account, cid: Cid, hours: real, copies: real,
                       exempt: bool, amount: real, now: Time)
    requires cfg.Valid() && Inv(cfg, s)
    ensures var step := BuyOwnCopy(cfg, s, tx, owner, cid, hours, copies, exempt, amount, now);
      var hrs, cps := HoursSold(cfg, hours), CappedCopies(cfg, copies);
      var asked := Asked(cfg, cid.size, hrs, cps, exempt);
      var takes := (cfg.permanent || hours > 0.0) && NewTx(s, tx) && Pays(exempt, amount, asked);
      && (!takes ==> step.reply.Err? && step.next == s)
      && (takes && !Hosted(s, cid) ==>
            && step.reply == Err(NotFound)
            && step.next == s.(payments := s.payments + [Payment(tx, owner, amount, OwnCopyMemo(cid), Stranded)]))
      && (takes && Hosted(s, cid) ==>
            && step.reply == Ok(Purchased(|s.claims|)) && |step.next.payments| == |s.payments| + 1
            && step.next.payments[|s.payments|] == Payment(tx, owner, amount, OwnCopyMemo(cid), Funded(|s.claims|))
            && Delivered(cfg, s, step.next, owner, cid, OwnCopy, hrs, cps, exempt, |s.payments|, now))
  {
    ReserveOutcome(cfg, cid.size, hours, copies, exempt);
    LatestPinSize(cfg, s, cid);
    if Hosted(s, cid) { assert IsHost(s.pins[FindHost(s.pins, cid).value], cid); }
  }

  /** A dormant guardian with everything that was pledged, in the next slot. */
  ghost predicate Pledged(cfg: Config, s: Tables, s': Tables, owner: Account, cid: Cid, hours: int, copies: int,
                          exempt: bool, amount: real, now: Time)
  {
    && |s'.claims| == |s.claims| + 1 && s'.claims[..|s.claims|] == s.claims && s'.pins == s.pins
    && var c := s'.claims[|s.claims|];
    && c.cid == cid && c.owner == owner && c.kind == Guardian && c.state.Dormant? && c.pin.None?
    && c.sizeBytes == cid.size && c.sizeMB == BillableMB(cid.size)
    && c.rateLocked == (if exempt then 0.0 else cfg.rate) && c.paidHours == hours && c.copies == copies
    && c.amountPaid == amount && c.payment == |s.payments|
    && c.startTs == now && c.expiryTs == now && c.createdTs == now
    && c.pledgeOrder == Some(NextPledgeOrder(s.claims, cid)) && c.pledgeBudget == Some(amount)
  }

  /** A pledge: by an account that is not banned, on a hosted CID that is not blocked, at the asked price. */
  lemma PledgeOutcome(cfg: Config, s: Tables, tx: TxId, owner: Account, cid: Cid, hours: real, copies: real,
                      exempt: bool, amount: real, now: Time)
    requires cfg.Valid() && Inv(cfg, s)
    ensures var step := Pledge(cfg, s, tx, owner, cid, hours, copies, exempt, amount, now);
      var cps := CappedCopies(cfg, copies);
      && (step.reply.Ok? <==>
            && owner !in s.banned && cid !in s.blocked && Hosted(s, cid) && hours > 0.0 && NewTx(s, tx)
            && Pays(exempt, amount, Asked(cfg, cid.size, BillableHours(cfg, hours).value, cps, exempt)))
      && (step.reply.Err? ==> step.next == s)
      && (owner in s.banned ==> step.reply == Err(Forbidden))
      && (step.reply.Ok? ==>
            && step.reply.value == Purchased(|s.claims|)
            && step.next.payments == s.payments + [Payment(tx, owner, amount, PledgeMemo(cid), Funded(|s.claims|))]
            && Pledged(cfg, s, step.next, owner, cid, BillableHours(cfg, hours).value, cps, exempt, amount, now))
  {
    if Hosted(s, cid) {
      HostSize(cfg, s, cid);
      QuoteIsTheProduct(cfg, cid.size, hours, copies, Rate(cfg, exempt));
    }
  }

  lemma HostSize(cfg: Config, s: Tables, cid: Cid)
    requires Rows(cfg, s) && Hosted(s, cid)
    ensures s.pins[FindHost(s.pins, cid).value].sizeBytes == cid.size
  {
    var p := FindHost(s.pins, cid).value;
    assert PinOk(s, p);
    assert ClaimOk(cfg, s, Holder(s, p));
  }

  /** An extension: the hours asked for, at the claim's own rate, on an active claim with an end. */
  lemma ExtendOutcome(cfg: Config, s: Tables, tx: TxId, id: nat, hours: real, exempt: bool, amount: real)
    requires cfg.Valid() && Inv(cfg, s) && id < |s.claims| && hours > 0.0
    ensures var step := Extend(cfg, s, tx, id, hours, exempt, amount);
      var c, extra := s.claims[id], BillableHours(cfg, hours).value;
      var asked := RoundCoins(Price(c.sizeMB, extra, c.rateLocked, c.copies));
      var takes := c.expiryTs < PERMANENT_EXPIRY && NewTx(s, tx) && Pays(exempt && asked == 0, amount, asked);
      && (!takes ==> step.reply.Err? && step.next == s)
      && (takes && !c.state.Active? ==>
            && step.reply == Err(Conflict)
            && step.next == s.(payments := s.payments + [Payment(tx, c.owner, amount, ExtendMemo(id), Stranded)]))
      && (takes && c.state.Active? ==>
            && step.reply == Ok(Purchased(id)) && c.pin.Some? && c.pin.value < |s.pins|
            && step.next == s.(
                 payments := s.payments + [Payment(tx, c.owner, amount, ExtendMemo(id), Funded(id))],
                 claims := s.claims[id := c.(paidHours := c.paidHours + extra, expiryTs := c.expiryTs + extra * HOUR)],
                 pins := s.pins[c.pin.value := s.pins[c.pin.value].(expiresAt := c.expiryTs + extra * HOUR)]))
  {
    var c, extra := s.claims[id], BillableHours(cfg, hours).value;
    ChargeIsPrice(c.sizeMB, extra, c.rateLocked, c.copies);
    assert ClaimOk(cfg, s, id);
    if c.state.Active? { HolderOfClaim(cfg, s, id); }
  }

  /** A banned account can neither upload nor pledge, whatever it pays. */
  lemma BannedBuyNothing(cfg: Config, s: Tables, e: Event)
    requires Possible(cfg, s, e)
    requires (e.EPayUpload? && e.uploader in s.banned) || (e.EPledge? && e.owner in s.banned)
    ensures Apply(cfg, s, e) == s
  {
  }

  // ---------- what goes back ----------

  /** The whole hours left on the timer, less the one that every claim consumes. */
  function HoursLeft(c: Claim, now: Time): int {
    Max(0, Min(c.paidHours - 1, (c.expiryTs - now) / HOUR))
  }

  /** Nothing is sent below the dust limit. */
  function AboveDust(cfg: Config, due: int): int {
    if due < cfg.minRefund then 0 else Max(0, due)
  }

  /** The pledge less the fee on it. */
  function PledgeLess(amountPaid: real, feePct: real): int {
    var fee := if feePct > 0.0 then RoundCoins(amountPaid * feePct / 100.0) else 0;
    RoundCoins(amountPaid - fee as real)
  }

  /** What a claim that ended is due, from its row, its timer and who ended it. */
  function DueBack(cfg: Config, c: Claim, ending: Ending, now: Time): int {
    if ending.Forced? && ending.policy.Forfeit? && !ending.innocent then 0
    else if c.pin.None? then AboveDust(cfg, PledgeLess(c.amountPaid, if ending.ByUser? then cfg.cancelFeePct else 0.0))
    else if c.expiryTs >= PERMANENT_EXPIRY then 0
    else AboveDust(cfg, RoundCoins(Price(c.sizeMB, HoursLeft(c, now), c.rateLocked, c.copies)))
  }

  lemma HostDue(cfg: Config, c: Claim, now: Time)
    requires RowOk(cfg, c) && c.state.Active?
    ensures Max(0, CalculateRefund(cfg, c.Terms(), now).amount) == DueBack(cfg, c, ByUser, now)
  {
    if c.expiryTs < PERMANENT_EXPIRY {
      CappedCopiesIdempotent(cfg, c.copies);
      RefundIsThePriceOfHoursLeft(cfg, c.Terms(), now);
      RefundFollowsTimer(cfg, c.Terms(), now);
    }
  }

  lemma PledgeDue(cfg: Config, amountPaid: real, feePct: real)
    requires amountPaid >= 0.0
    ensures Max(0, CalculateDormantRefund(cfg, amountPaid, feePct).amount)
      == AboveDust(cfg, PledgeLess(amountPaid, feePct))
  {
    FeeIsItsPercentage(cfg, amountPaid, feePct);
    if amountPaid == 0.0 {
      assert amountPaid * feePct / 100.0 == 0.0;
      assert RoundCoins(0.0) == 0;
    }
  }

  lemma DormantDue(cfg: Config, o: Owed, now: Time)
    requires RowOk(cfg, o.claim) && o.claim.state.Dormant?
    ensures Max(0, RefundDue(cfg, o, now)) == DueBack(cfg, o.claim, o.ending, now)
  {
    PledgeDue(cfg, o.claim.amountPaid, if o.ending.ByUser? then cfg.cancelFeePct else 0.0);
  }

  lemma ActiveDue(cfg: Config, o: Owed, now: Time)
    requires RowOk(cfg, o.claim) && o.claim.state.Active? && (o.ending.Forced? ==> !o.ending.innocent)
    ensures Max(0, RefundDue(cfg, o, now)) == DueBack(cfg, o.claim, o.ending, now)
  {
    var r := CalculateRefund(cfg, o.claim.Terms(), now).amount;
    HostDue(cfg, o.claim, now);
    assert RefundDue(cfg, o, now) == if o.ending.Forced? && o.ending.policy.Forfeit? then 0 else r;
  }

  /** The refund that is settled is the one due. */
  lemma DueIsDueBack(cfg: Config, o: Owed, now: Time)
    requires RowOk(cfg, o.claim) && o.claim.Live()
    requires o.ending.Forced? && o.ending.innocent ==> o.claim.state.Dormant?
    ensures Max(0, RefundDue(cfg, o, now)) == DueBack(cfg, o.claim, o.ending, now)
  {
    if o.claim.state.Dormant? { DormantDue(cfg, o, now); } else { ActiveDue(cfg, o, now); }
  }

  /** The ended row is due what the live row was. */
  lemma DueBackOfEnded(cfg: Config, c: Claim, state: ClaimState, ending: Ending, now: Time)
    ensures DueBack(cfg, c.(state := state), ending, now) == DueBack(cfg, c, ending, now)
  {
  }

  lemma LiveRowIsOk(cfg: Config, c: Claim, state: ClaimState)
    requires RowOk(cfg, c) && c.state.Cancelled?
    requires (state.Active? || state.Dormant?) && (state.Dormant? <==> c.pin.None?)
    ensures RowOk(cfg, c.(state := state))
  {
  }

  /** Settling writes one row for the owner with the amount due, skipped when nothing is, and nothing else. */
  lemma SettleOutcome(cfg: Config, s: Tables, id: nat, now: Time)
    requires Inv(cfg, s) && id in s.owed
    ensures id < |s.claims|
    ensures var amount := DueBack(cfg, s.claims[id], s.owed[id].ending, now);
      Settle(cfg, s, id, now)
      == s.(refunds := s.refunds + [Refund(id, s.claims[id].owner, amount, amount == 0)], owed := s.owed - {id})
  {
    assert OwedOk(s, id);
    assert ClaimOk(cfg, s, id);
    var o := s.owed[id];
    LiveRowIsOk(cfg, s.claims[id], o.claim.state);
    DueIsDueBack(cfg, o, now);
    DueBackOfEnded(cfg, s.claims[id], o.claim.state, o.ending, now);
  }

  // ---------- from the cancel to the ledger ----------

  lemma RequestOwes(cfg: Config, s: Tables, e: Event, id: nat)
    requires Inv(cfg, s) && Possible(cfg, s, e) && id < |s.claims| && s.claims[id].state.Cancelled?
    requires e.ECancel? || e.ERelease?
    ensures id in Apply(cfg, s, e).owed ==> id in s.owed && Apply(cfg, s, e).owed[id] == s.owed[id]
  {
    if e.ECancel? {
      if Refusal(s, e.id, e.who).None? { CancelOutcome(cfg, s, e.id, e.who, e.t, e.t'); }
    } else {
      ReleaseOutcome(cfg, s, e.id, e.t, e.t');
    }
  }

  lemma SweepOwes(s: Tables, t: Time, order: seq<Cid>, clocks: seq<Time>)
    requires |clocks| == |order|
    ensures Sweep(s, t, order, clocks).owed == s.owed
  {
    ReconcileAllFrame(Expire(s, t), order, clocks);
  }

  lemma BanOwesNoMore(s: Tables, account: Account, policy: Policy, t: Time, order: seq<Cid>, clocks: seq<Time>, id: nat)
    requires |clocks| == |order| && id < |s.claims| && s.claims[id].state.Cancelled?
    ensures var s' := Ban(s, account, policy, t, order, clocks);
      id in s'.owed ==> id in s.owed && s'.owed[id] == s.owed[id]
  {
    BanOwes(s, account, policy, t, order, clocks);
  }

  lemma TakedownOwesNoMore(s: Tables, cid: Cid, policy: Policy, t: Time, id: nat)
    requires id < |s.claims| && s.claims[id].state.Cancelled?
    ensures var s' := Takedown(s, cid, policy, t); id in s'.owed ==> id in s.owed && s'.owed[id] == s.owed[id]
  {
  }

  lemma BulkOwes(cfg: Config, s: Tables, e: Event, id: nat)
    requires Inv(cfg, s) && Possible(cfg, s, e) && id < |s.claims| && s.claims[id].state.Cancelled?
    requires e.ESweep? || e.EBan? || e.ETakedown?
    ensures id in Apply(cfg, s, e).owed ==> id in s.owed && Apply(cfg, s, e).owed[id] == s.owed[id]
  {
    if e.ESweep? {
      SweepOwes(s, e.t, e.order, e.clocks);
    } else if e.EBan? {
      BanOwesNoMore(s, e.account, e.policy, e.t, e.order, e.clocks, id);
    } else {
      TakedownOwesNoMore(s, e.cid, e.policy, e.t, id);
    }
  }

  lemma OthersOwe(cfg: Config, s: Tables, e: Event, id: nat)
    requires Possible(cfg, s, e)
    requires !e.ECancel? && !e.ERelease? && !e.ESweep? && !e.EBan? && !e.ETakedown?
    ensures id in Apply(cfg, s, e).owed ==> id in s.owed && Apply(cfg, s, e).owed[id] == s.owed[id]
  {
  }

  /** What is owed for a claim that has ended does not change until it is settled or forgotten. */
  lemma OwedStays(cfg: Config, s: Tables, e: Event, id: nat)
    requires Inv(cfg, s) && Possible(cfg, s, e) && id < |s.claims| && s.claims[id].state.Cancelled?
    ensures id in Apply(cfg, s, e).owed ==> id in s.owed && Apply(cfg, s, e).owed[id] == s.owed[id]
  {
    if e.ECancel? || e.ERelease? {
      RequestOwes(cfg, s, e, id);
    } else if e.ESweep? || e.EBan? || e.ETakedown? {
      BulkOwes(cfg, s, e, id);
    } else {
      OthersOwe(cfg, s, e, id);
    }
  }

  lemma {:induction false} OwedUntilSettled(cfg: Config, tables: seq<Tables>, events: seq<Event>, a: nat, b: nat,
                                             id: nat)
    requires GoodRun(cfg, tables, events) && a <= b < |tables|
    requires id < |tables[a].claims| && tables[a].claims[id].state.Cancelled?
    ensures id in tables[b].owed ==> id in tables[a].owed && tables[b].owed[id] == tables[a].owed[id]
    decreases b
  {
    if a < b {
      OwedUntilSettled(cfg, tables, events, a, b - 1, id);
      ClaimsPersist(cfg, tables, events, a, b - 1, id);
      RunKeeps(cfg, tables, events, b - 1);
      assert StepAt(cfg, tables, events, b - 1);
      OwedStays(cfg, tables[b - 1], events[b - 1], id);
    }
  }

  /** An owner's cancel leaves the claim cancelled and its refund owed to a user. */
  lemma UserCancelOwes(cfg: Config, s: Tables, e: Event, id: nat)
    requires Inv(cfg, s) && Possible(cfg, s, e) && e.ECancel? && e.id == id && id < |s.claims| && s.claims[id].Live()
    requires e.who.User? && e.who.account == s.claims[id].owner
    ensures var s' := Apply(cfg, s, e);
      && id < |s'.claims| && s'.claims[id] == s.claims[id].(state := Cancelled)
      && id in s'.owed && s'.owed[id] == Owed(s.claims[id], ByUser)
  {
    CancelOutcome(cfg, s, id, e.who, e.t, e.t');
  }

  /** A host with hours left is due their price, less at most half a unit, unless that is dust. */
  ghost predicate CoversHoursLeft(cfg: Config, c: Claim, now: Time, amount: int) {
    var price := Price(c.sizeMB, HoursLeft(c, now), c.rateLocked, c.copies);
    c.state.Active? && c.expiryTs < PERMANENT_EXPIRY && RoundCoins(price) >= cfg.minRefund ==>
      amount as real >= price - 0.5
  }

  lemma DueCoversHoursLeft(cfg: Config, c: Claim, now: Time)
    requires RowOk(cfg, c)
    ensures CoversHoursLeft(cfg, c, now, DueBack(cfg, c, ByUser, now))
  {
    RoundCoinsIsNearest(Price(c.sizeMB, HoursLeft(c, now), c.rateLocked, c.copies));
  }

  lemma UserCancelInRun(cfg: Config, tables: seq<Tables>, events: seq<Event>, k: nat, id: nat)
    requires GoodRun(cfg, tables, events) && k < |events|
    requires events[k].ECancel? && events[k].id == id && events[k].who.User? && id < |tables[k].claims|
    requires tables[k].claims[id].Live() && events[k].who.account == tables[k].claims[id].owner
    ensures var c, s' := tables[k].claims[id], tables[k + 1];
      && id < |s'.claims| && s'.claims[id] == c.(state := Cancelled)
      && id in s'.owed && s'.owed[id] == Owed(c, ByUser)
  {
    RunKeeps(cfg, tables, events, k);
    assert StepAt(cfg, tables, events, k);
    UserCancelOwes(cfg, tables[k], events[k], id);
  }

  /** From the owner's cancel until it is settled, the row and what is owed for it stay as they are. */
  lemma UserCancelStaysOwed(cfg: Config, tables: seq<Tables>, events: seq<Event>, k: nat, m: nat, id: nat)
    requires GoodRun(cfg, tables, events) && k < m < |tables|
    requires events[k].ECancel? && events[k].id == id && events[k].who.User? && id < |tables[k].claims|
    requires tables[k].claims[id].Live() && events[k].who.account == tables[k].claims[id].owner
    requires id in tables[m].owed
    ensures id < |tables[m].claims| && tables[m].claims[id] == tables[k].claims[id].(state := Cancelled)
    ensures tables[m].owed[id] == Owed(tables[k].claims[id], ByUser)
  {
    UserCancelInRun(cfg, tables, events, k, id);
    ClaimsPersist(cfg, tables, events, k + 1, m, id);
    OwedUntilSettled(cfg, tables, events, k + 1, m, id);
  }

  /**
    * From an owner's cancel to the ledger, over any run: the row that is written for it goes to the owner and
    * carries what the claim is due at that time; for a host with hours left, their price, less at most half a
    * unit, unless that is dust.
    */
  lemma UserCancelIsRefunded(cfg: Config, tables: seq<Tables>, events: seq<Event>, k: nat, m: nat, id: nat)
    requires GoodRun(cfg, tables, events) && k < m < |events|
    requires events[k].ECancel? && events[k].id == id && events[k].who.User? && id < |tables[k].claims|
    requires tables[k].claims[id].Live() && events[k].who.account == tables[k].claims[id].owner
    requires events[m].ESettle? && events[m].id == id && id in tables[m].owed
    ensures var c, now := tables[k].claims[id], events[m].now;
      var amount := DueBack(cfg, c, ByUser, now);
      && tables[m + 1].refunds == tables[m].refunds + [Refund(id, c.owner, amount, amount == 0)]
      && CoversHoursLeft(cfg, c, now, amount)
  {
    var c := tables[k].claims[id];
    UserCancelStaysOwed(cfg, tables, events, k, m, id);
    SettledInRun(cfg, tables, events, m, id);
    DueBackOfEnded(cfg, c, Cancelled, ByUser, events[m].now);
    RunRows(cfg, tables, events, k, id);
    DueCoversHoursLeft(cfg, c, events[m].now);
  }

  /** The ledger row that a settlement writes, in any run and whoever ended the claim. */
  lemma SettledInRun(cfg: Config, tables: seq<Tables>, events: seq<Event>, m: nat, id: nat)
    requires GoodRun(cfg, tables, events) && m < |events|
    requires events[m].ESettle? && events[m].id == id && id in tables[m].owed
    ensures id < |tables[m].claims|
    ensures var amount := DueBack(cfg, tables[m].claims[id], tables[m].owed[id].ending, events[m].now);
      && tables[m + 1].refunds == tables[m].refunds + [Refund(id, tables[m].claims[id].owner, amount, amount == 0)]
      && id !in tables[m + 1].owed
  {
    RunKeeps(cfg, tables, events, m);
    assert StepAt(cfg, tables, events, m);
    SettleOutcome(cfg, tables[m], id, events[m].now);
  }
}
