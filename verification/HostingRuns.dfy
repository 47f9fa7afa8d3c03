/** Every event keeps the gate's invariant, and what that means over whole runs. */
module HostingRuns {
  import opened Prelude
  import opened Pricing
  import opened Hosting
  import opened HostingInvariant
  import opened HostingEndings
  import Ledger

  // ---------- events one by one ----------

  /** Refund books, bans and unblocked CIDs are all that differs, and the new books are in order. */
  lemma BooksMayChange(cfg: Config, s: Tables, s': Tables)
    requires Inv(cfg, s) && Refunds(s') && s'.blocked <= s.blocked
    requires s'.(refunds := s.refunds, owed := s.owed, banned := s.banned, blocked := s.blocked) == s
    ensures Inv(cfg, s') && ClaimSteps(s, s')
  {
    HostingFrame(cfg, s, s');
    AliveFrame(s, s', {});
  }

  lemma UploadKeeps(cfg: Config, s: Tables, p: nat, digest: string, now: Time)
    requires cfg.Valid() && Inv(cfg, s) && p < |s.payments| && s.payments[p].use.Uploading? && s.clock <= now
    ensures var s' := CommitUpload(cfg, s, p, digest, now).next; Inv(cfg, s') && ClaimSteps(s, s')
  {
    var order := s.payments[p].use.order;
    assert PaymentOk(s, p);
    if order.fileSize == 0 || Cid(digest, order.fileSize) in s.blocked {
      StrandKeeps(cfg, s, p);
    } else {
      var cid := Cid(digest, order.fileSize);
      var hours := if cfg.permanent then cfg.minHours else order.hours;
      AddHostKeeps(cfg, s, p, cid, order.uploader, order.fileSize, if Hosted(s, cid) then OwnCopy else Original,
                   Rate(cfg, order.exempt), hours, CappedCopies(cfg, order.copies as real), now,
                   if cfg.permanent then PERMANENT_EXPIRY else now + hours * HOUR);
    }
  }

  lemma OwnCopyKeeps(cfg: Config, s: Tables, tx: TxId, owner: Account, cid: Cid, hours: real, copies: real,
                     exempt: bool, amount: real, now: Time)
    requires cfg.Valid() && Inv(cfg, s) && amount >= 0.0 && s.clock <= now
    ensures var s' := BuyOwnCopy(cfg, s, tx, owner, cid, hours, copies, exempt, amount, now).next;
      Inv(cfg, s') && ClaimSteps(s, s')
  {
    var quote := Reserve(cfg, cid.size, hours, copies, exempt);
    if quote.Ok? && !TxUsed(s, tx) && Covers(exempt, amount, quote.value.total) {
      var paid := RecordPayment(s, tx, owner, amount, OwnCopyMemo(cid), Stranded);
      RecordKeeps(cfg, s, tx, owner, amount, OwnCopyMemo(cid), Stranded);
      var latest := LatestPin(s.pins, cid);
      if Hosted(s, cid) && latest.Some? {
        LatestPinSize(cfg, s, cid);
        HostedIsNotBlocked(cfg, s, cid);
        var paidHours := if cfg.permanent then cfg.minHours else quote.value.hours;
        AddHostKeeps(cfg, paid, |s.payments|, cid, owner, s.pins[latest.value].sizeBytes, OwnCopy, Rate(cfg, exempt),
                     paidHours, quote.value.copies, now,
                     if cfg.permanent then PERMANENT_EXPIRY else now + paidHours * HOUR);
      }
    }
  }

  /** Why an own copy needs no block check when it commits: it needs a host, and a blocked CID has none. */
  lemma HostedIsNotBlocked(cfg: Config, s: Tables, cid: Cid)
    requires Core(cfg, s) && Hosted(s, cid)
    ensures cid !in s.blocked
  {
    HostedByClaim(cfg, s, cid);
    var i :| 0 <= i < |s.claims| && s.claims[i].state.Active? && s.claims[i].cid == cid;
    assert Unblocked(s.claims[i], s.blocked);
  }

  lemma PledgeKeeps(cfg: Config, s: Tables, tx: TxId, owner: Account, cid: Cid, hours: real, copies: real,
                    exempt: bool, amount: real, now: Time)
    requires cfg.Valid() && Inv(cfg, s) && amount >= 0.0 && s.clock <= now
    ensures var s' := Pledge(cfg, s, tx, owner, cid, hours, copies, exempt, amount, now).next;
      Inv(cfg, s') && ClaimSteps(s, s')
  {
    var step := Pledge(cfg, s, tx, owner, cid, hours, copies, exempt, amount, now);
    if step.reply.Ok? {
      var host := FindHost(s.pins, cid).value;
      assert PinOk(s, host);
      assert ClaimOk(cfg, s, Holder(s, host));
      var size := s.pins[host].sizeBytes;
      AddGuardianKeeps(cfg, s, tx, owner, cid, size, CalculateCost(cfg, size, hours, copies, Rate(cfg, exempt)).value,
                       Rate(cfg, exempt), amount, now);
    }
  }

  lemma ExtendKeeps(cfg: Config, s: Tables, tx: TxId, id: nat, hours: real, exempt: bool, amount: real)
    requires cfg.Valid() && Inv(cfg, s) && amount >= 0.0
    ensures var s' := Extend(cfg, s, tx, id, hours, exempt, amount).next; Inv(cfg, s') && ClaimSteps(s, s')
  {
    if hours > 0.0 && id < |s.claims| && s.claims[id].expiryTs < PERMANENT_EXPIRY && !TxUsed(s, tx) {
      if s.claims[id].state.Active? {
        ExtendRowKeeps(cfg, s, tx, amount, id, BillableHours(cfg, hours).value);
      } else {
        RecordKeeps(cfg, s, tx, s.claims[id].owner, amount, ExtendMemo(id), Stranded);
      }
    }
  }

  /** One host ended, its refund owed, and its CID not yet reconciled. */
  function EndedOne(s: Tables, id: nat, ending: Ending, t: Time): Tables {
    Owe(End(s, {id}, Cancelled, PinsOf(s, {id}), PinExpired, t), s.claims, {id}, ending)
  }

  lemma EndedOneCore(cfg: Config, s: Tables, id: nat, ending: Ending, t: Time)
    requires Core(cfg, s) && id < |s.claims| && s.claims[id].state.Active? && s.clock <= t
    requires ending.Forced? ==> !ending.innocent
    ensures var e := EndedOne(s, id, ending, t); Core(cfg, e) && ClaimSteps(s, e) && e.clock == t
  {
    PinsOfMatch(cfg, s, {id});
    EndOweKeeps(cfg, s, {id}, PinsOf(s, {id}), PinExpired, t, OwedFor(s.claims, {id}, ending));
  }

  lemma EndedOneAlive(cfg: Config, s: Tables, id: nat, ending: Ending, t: Time)
    requires Rows(cfg, s) && AliveBut(s, {}) && id < |s.claims|
    ensures AliveBut(EndedOne(s, id, ending, t), {s.claims[id].cid})
  {
    var pids, cid := PinsOf(s, {id}), s.claims[id].cid;
    PinsOfMatch(cfg, s, {id});
    forall p | 0 <= p < |s.pins| && p in pids ensures s.pins[p].cid in {cid} { assert PinOk(s, p); }
    EndAlive(s, {id}, Cancelled, pids, PinExpired, t, {cid});
    AliveFrame(End(s, {id}, Cancelled, pids, PinExpired, t), EndedOne(s, id, ending, t), {cid});
  }

  lemma EndOneKeeps(cfg: Config, s: Tables, id: nat, ending: Ending, t: Time, t': Time)
    requires Inv(cfg, s) && id < |s.claims| && s.claims[id].state.Active? && s.clock <= t <= t'
    requires ending.Forced? ==> !ending.innocent
    ensures var s' := EndAndReconcile(s, id, ending, t, t').next; Inv(cfg, s') && ClaimSteps(s, s')
  {
    var e, cid := EndedOne(s, id, ending, t), s.claims[id].cid;
    EndedOneCore(cfg, s, id, ending, t);
    EndedOneAlive(cfg, s, id, ending, t);
    ReconcileKeeps(cfg, e, cid, t', {cid});
    assert {cid} - {cid} == {};
    forall i | 0 <= i < |s.claims| ensures RowOk(cfg, s.claims[i]) { assert ClaimOk(cfg, s, i); }
    OneEndStep(cfg, s, id, e, cid, t');
  }

  lemma OneEndStep(cfg: Config, s: Tables, id: nat, ended: Tables, cid: Cid, t': Time)
    requires ClaimSteps(s, ended) && |ended.claims| == |s.claims|
    requires forall i | 0 <= i < |s.claims| && ended.claims[i].state.Dormant? :: ended.claims[i] == s.claims[i]
    requires forall i | 0 <= i < |s.claims| :: RowOk(cfg, s.claims[i])
    ensures ClaimSteps(s, Reconcile(ended, cid, t'))
  {
    EndThenPromote(cfg, s, ended, [cid], [t']);
    assert ReconcileAll(ended, [cid], [t']) == Reconcile(ended, cid, t') by {
      assert [cid][..0] == [] && [t'][..0] == [];
      assert ReconcileAll(ended, [], []) == ended;
    }
  }

  function EndedDormant(s: Tables, id: nat, ending: Ending, t: Time): Tables {
    Owe(End(s, {id}, Cancelled, {}, PinExpired, t), s.claims, {id}, ending)
  }

  lemma EndDormantCore(cfg: Config, s: Tables, id: nat, ending: Ending, t: Time)
    requires Core(cfg, s) && id < |s.claims| && s.claims[id].state.Dormant? && s.clock <= t
    ensures Core(cfg, EndedDormant(s, id, ending, t)) && ClaimSteps(s, EndedDormant(s, id, ending, t))
  {
    forall p | 0 <= p < |s.pins| ensures !(s.pins[p].status.Pinned? && Holder(s, p) in {id}) { assert PinOk(s, p); }
    EndOweKeeps(cfg, s, {id}, {}, PinExpired, t, OwedFor(s.claims, {id}, ending));
  }

  lemma EndDormantKeeps(cfg: Config, s: Tables, id: nat, ending: Ending, t: Time)
    requires Inv(cfg, s) && id < |s.claims| && s.claims[id].state.Dormant? && s.clock <= t
    ensures Inv(cfg, EndedDormant(s, id, ending, t)) && ClaimSteps(s, EndedDormant(s, id, ending, t))
  {
    EndDormantCore(cfg, s, id, ending, t);
    AliveFrame(s, EndedDormant(s, id, ending, t), {});
  }

  lemma SettleKeeps(cfg: Config, s: Tables, id: nat, now: Time)
    requires Inv(cfg, s)
    ensures Inv(cfg, Settle(cfg, s, id, now)) && ClaimSteps(s, Settle(cfg, s, id, now))
  {
    var s' := Settle(cfg, s, id, now);
    if id in s.owed {
      assert OwedOk(s, id);
      forall i | i in s'.owed ensures OwedOk(s', i) { assert OwedOk(s, i); }
      forall r | 0 <= r < |s'.refunds| ensures RefundOk(s', r) { if r < |s.refunds| { assert RefundOk(s, r); } }
      forall q, r | 0 <= q < r < |s'.refunds|
        ensures s'.refunds[q].claim != s'.refunds[r].claim
      {
        assert RefundOk(s, q);
      }
      BooksMayChange(cfg, s, s');
    }
  }

  lemma CrashKeeps(cfg: Config, s: Tables)
    requires Inv(cfg, s)
    ensures Inv(cfg, Crash(s)) && ClaimSteps(s, Crash(s))
  {
    var m := Crash(s).(owed := s.owed);
    forall p | 0 <= p < |s.payments| ensures PaymentOk(m, p) { assert PaymentOk(s, p); }
    PaymentsMayGrow(cfg, s, m);
    var s' := Crash(s);
    forall r | 0 <= r < |s'.refunds| ensures RefundOk(s', r) { assert RefundOk(m, r); }
    BooksMayChange(cfg, m, s');
  }

  lemma UploadStepKeeps(cfg: Config, s: Tables, e: Event)
    requires cfg.Valid() && Inv(cfg, s) && Possible(cfg, s, e)
    requires e.EPayUpload? || e.ECommitUpload? || e.EFailUpload?
    ensures Inv(cfg, Apply(cfg, s, e)) && ClaimSteps(s, Apply(cfg, s, e))
  {
    match e {
      case EPayUpload(tx, uploader, reserved, hours, copies, exemptThen, fileSize, exemptNow, amount) =>
        var quote := Reserve(cfg, reserved, hours, copies, exemptThen);
        if quote.Ok? && PayUpload(cfg, s, tx, uploader, quote.value, reserved, fileSize, exemptNow, amount).reply.Ok? {
          var q := quote.value;
          RecordKeeps(cfg, s, tx, uploader, amount, UploadMemo,
                      Uploading(UploadOrder(uploader, fileSize, q.hours, q.copies, exemptNow && q.total == 0)));
        }
      case ECommitUpload(p, digest, now) => UploadKeeps(cfg, s, p, digest, now);
      case EFailUpload(p) => StrandKeeps(cfg, s, p);
    }
  }

  lemma PurchaseStepKeeps(cfg: Config, s: Tables, e: Event)
    requires cfg.Valid() && Inv(cfg, s) && Possible(cfg, s, e) && (e.EOwnCopy? || e.EPledge? || e.EExtend?)
    ensures Inv(cfg, Apply(cfg, s, e)) && ClaimSteps(s, Apply(cfg, s, e))
  {
    match e {
      case EOwnCopy(tx, owner, cid, hours, copies, exempt, amount, now) =>
        OwnCopyKeeps(cfg, s, tx, owner, cid, hours, copies, exempt, amount, now);
      case EPledge(tx, owner, cid, hours, copies, exempt, amount, now) =>
        PledgeKeeps(cfg, s, tx, owner, cid, hours, copies, exempt, amount, now);
      case EExtend(tx, id, hours, exempt, amount) => ExtendKeeps(cfg, s, tx, id, hours, exempt, amount);
    }
  }

  lemma CancelKeeps(cfg: Config, s: Tables, id: nat, who: Canceller, t: Time, t': Time)
    requires Inv(cfg, s) && s.clock <= t <= t'
    ensures var s' := Cancel(s, id, who, t, t').next; Inv(cfg, s') && ClaimSteps(s, s')
  {
    if id < |s.claims| && s.claims[id].state.Dormant? { EndDormantKeeps(cfg, s, id, who.Ending(), t); }
    else if id < |s.claims| && s.claims[id].state.Active? { EndOneKeeps(cfg, s, id, who.Ending(), t, t'); }
  }

  lemma ReleaseKeeps(cfg: Config, s: Tables, id: nat, t: Time, t': Time)
    requires Inv(cfg, s) && s.clock <= t <= t'
    ensures var s' := Release(s, id, t, t').next; Inv(cfg, s') && ClaimSteps(s, s')
  {
    if id < |s.claims| && s.claims[id].state.Active? { EndOneKeeps(cfg, s, id, ByUser, t, t'); }
  }

  lemma EndingStepKeeps(cfg: Config, s: Tables, e: Event)
    requires Inv(cfg, s) && Possible(cfg, s, e)
    requires e.ECancel? || e.ERelease? || e.ESweep? || e.EBan? || e.ETakedown?
    ensures Inv(cfg, Apply(cfg, s, e)) && ClaimSteps(s, Apply(cfg, s, e))
  {
    match e {
      case ECancel(id, who, t, t') => CancelKeeps(cfg, s, id, who, t, t');
      case ERelease(id, t, t') => ReleaseKeeps(cfg, s, id, t, t');
      case ESweep(t, order, clocks) => SweepKeeps(cfg, s, t, order, clocks);
      case EBan(account, policy, t, order, clocks) => BanKeeps(cfg, s, account, policy, t, order, clocks);
      case ETakedown(cid, policy, t) => TakedownKeeps(cfg, s, cid, policy, t);
    }
  }

  lemma BookStepKeeps(cfg: Config, s: Tables, e: Event)
    requires Inv(cfg, s) && (e.EUnban? || e.EUntakedown? || e.ESettle? || e.ECrash?)
    ensures Inv(cfg, Apply(cfg, s, e)) && ClaimSteps(s, Apply(cfg, s, e))
  {
    match e {
      case EUnban(account) =>
        RefundsFrame(s, s.(banned := s.banned - {account}));
        BooksMayChange(cfg, s, s.(banned := s.banned - {account}));
      case EUntakedown(cid) =>
        RefundsFrame(s, s.(blocked := s.blocked - {cid}));
        BooksMayChange(cfg, s, s.(blocked := s.blocked - {cid}));
      case ESettle(id, now) => SettleKeeps(cfg, s, id, now);
      case ECrash => CrashKeeps(cfg, s);
    }
  }

  /** Every possible event keeps the invariant and takes each claim through at most one move. */
  lemma StepKeeps(cfg: Config, s: Tables, e: Event)
    requires cfg.Valid() && Inv(cfg, s) && Possible(cfg, s, e)
    ensures Inv(cfg, Apply(cfg, s, e)) && ClaimSteps(s, Apply(cfg, s, e))
  {
    if e.EPayUpload? || e.ECommitUpload? || e.EFailUpload? {
      UploadStepKeeps(cfg, s, e);
    } else if e.EOwnCopy? || e.EPledge? || e.EExtend? {
      PurchaseStepKeeps(cfg, s, e);
    } else if e.ECancel? || e.ERelease? || e.ESweep? || e.EBan? || e.ETakedown? {
      EndingStepKeeps(cfg, s, e);
    } else {
      BookStepKeeps(cfg, s, e);
    }
  }

  // ---------- whole runs ----------

  /** A run that starts from tables in order, the empty ones for instance. */
  ghost predicate GoodRun(cfg: Config, tables: seq<Tables>, events: seq<Event>) {
    cfg.Valid() && IsRun(cfg, tables, events) && Inv(cfg, tables[0])
  }

  lemma {:induction false} RunKeeps(cfg: Config, tables: seq<Tables>, events: seq<Event>, k: nat)
    requires GoodRun(cfg, tables, events) && k < |tables|
    ensures Inv(cfg, tables[k])
    ensures k > 0 ==> ClaimSteps(tables[k - 1], tables[k])
  {
    if k > 0 {
      RunKeeps(cfg, tables, events, k - 1);
      assert StepAt(cfg, tables, events, k - 1);
      StepKeeps(cfg, tables[k - 1], events[k - 1]);
    }
  }

  lemma RunMoves(cfg: Config, tables: seq<Tables>, events: seq<Event>, k: nat, i: nat)
    requires GoodRun(cfg, tables, events) && k + 1 < |tables| && i < |tables[k].claims|
    ensures i < |tables[k + 1].claims| && ClaimStep(tables[k].claims[i], tables[k + 1].claims[i])
  {
    RunKeeps(cfg, tables, events, k + 1);
  }

  lemma RunRows(cfg: Config, tables: seq<Tables>, events: seq<Event>, k: nat, i: nat)
    requires GoodRun(cfg, tables, events) && k < |tables| && i < |tables[k].claims|
    ensures RowOk(cfg, tables[k].claims[i])
  {
    RunKeeps(cfg, tables, events, k);
    assert ClaimOk(cfg, tables[k], i);
  }

  /** What a claim keeps from one state of a run to any later one. */
  ghost predicate Persists(c: Claim, d: Claim) {
    && d.cid == c.cid && d.kind == c.kind && d.pledgeOrder == c.pledgeOrder
    && (!c.Live() ==> d == c)
    && (c.pin.Some? ==> d.pin == c.pin && d.startTs == c.startTs && !d.state.Dormant?)
  }

  lemma PersistsOneMore(cfg: Config, c: Claim, d: Claim, e: Claim)
    requires Persists(c, d) && ClaimStep(d, e) && RowOk(cfg, e)
    ensures Persists(c, e)
  {
  }

  ghost predicate RowsOk(cfg: Config, s: Tables) {
    forall i | 0 <= i < |s.claims| :: RowOk(cfg, s.claims[i])
  }

  lemma {:induction false} PersistAlong(cfg: Config, tables: seq<Tables>, i: nat)
    requires |tables| > 0 && i < |tables[0].claims|
    requires forall k | 0 <= k < |tables| :: RowsOk(cfg, tables[k])
    requires forall k | 0 < k < |tables| :: ClaimSteps(tables[k - 1], tables[k])
    ensures i < |tables[|tables| - 1].claims| && Persists(tables[0].claims[i], tables[|tables| - 1].claims[i])
    decreases |tables|
  {
    var n := |tables| - 1;
    assert RowsOk(cfg, tables[0]);
    if n > 0 {
      PersistAlong(cfg, tables[..n], i);
      assert ClaimSteps(tables[n - 1], tables[n]) && RowsOk(cfg, tables[n]);
      PersistsOneMore(cfg, tables[0].claims[i], tables[n - 1].claims[i], tables[n].claims[i]);
    }
  }

  /** Rows stay, a claim that ended stays exactly as it was, and a promoted claim keeps its pin and start. */
  lemma ClaimsPersist(cfg: Config, tables: seq<Tables>, events: seq<Event>, a: nat, b: nat, i: nat)
    requires GoodRun(cfg, tables, events) && a <= b < |tables| && i < |tables[a].claims|
    ensures i < |tables[b].claims| && Persists(tables[a].claims[i], tables[b].claims[i])
  {
    var part := tables[a..b + 1];
    forall k | 0 <= k < |part| ensures RowsOk(cfg, part[k]) && (k > 0 ==> ClaimSteps(part[k - 1], part[k])) {
      RunKeeps(cfg, tables, events, a + k);
      forall j | 0 <= j < |part[k].claims| ensures RowOk(cfg, part[k].claims[j]) { assert ClaimOk(cfg, part[k], j); }
    }
    PersistAlong(cfg, part, i);
  }

  /** The refund ledger never names a claim twice, and names cancelled claims only. */
  lemma RefundRows(cfg: Config, tables: seq<Tables>, events: seq<Event>, b: nat)
    requires GoodRun(cfg, tables, events) && b < |tables|
    ensures forall r | 0 <= r < |tables[b].refunds| ::
      tables[b].refunds[r].claim < |tables[b].claims| && tables[b].claims[tables[b].refunds[r].claim].state.Cancelled?
    ensures forall q, r | 0 <= q < r < |tables[b].refunds| :: tables[b].refunds[q].claim != tables[b].refunds[r].claim
  {
    RunKeeps(cfg, tables, events, b);
    forall r | 0 <= r < |tables[b].refunds|
      ensures tables[b].refunds[r].claim < |tables[b].claims|
      ensures tables[b].claims[tables[b].refunds[r].claim].state.Cancelled?
    {
      assert RefundOk(tables[b], r);
    }
  }

  /**
    * A claim ends once.  At every step of a run its state makes no move or one of dormant to active,
    * active to cancelled or expired, dormant to cancelled; it has at most one row in the refund
    * ledger, and only if it was cancelled; and it has none, now or ever, once expired.
    */
  lemma ClaimEndsOnce(cfg: Config, tables: seq<Tables>, events: seq<Event>, k: nat, b: nat, i: nat)
    requires GoodRun(cfg, tables, events) && k < b < |tables| && i < |tables[k].claims|
    ensures i < |tables[k + 1].claims| && Moves(tables[k].claims[i].state, tables[k + 1].claims[i].state)
    ensures i < |tables[b].claims| && (!tables[k].claims[i].Live() ==> tables[b].claims[i] == tables[k].claims[i])
    ensures forall q, r | 0 <= q < r < |tables[b].refunds| ::
      !(tables[b].refunds[q].claim == i && tables[b].refunds[r].claim == i)
    ensures forall r | 0 <= r < |tables[b].refunds| && tables[b].refunds[r].claim == i ::
      tables[b].claims[i].state.Cancelled? && !tables[k].claims[i].state.Expired?
  {
    RunMoves(cfg, tables, events, k, i);
    ClaimsPersist(cfg, tables, events, k, b, i);
    RefundRows(cfg, tables, events, b);
  }

  /** Guardian i goes live at step k. */
  ghost predicate PromotedAt(tables: seq<Tables>, k: nat, i: nat) {
    && k + 1 < |tables| && i < |tables[k].claims| && i < |tables[k + 1].claims|
    && tables[k].claims[i].state.Dormant? && tables[k + 1].claims[i].state.Active?
  }

  /** In every state, whoever was promoted on a CID has a smaller slot than everyone waiting there. */
  lemma PromotedBeforeWaiting(cfg: Config, tables: seq<Tables>, events: seq<Event>, m: nat, i: nat, j: nat)
    requires GoodRun(cfg, tables, events) && m < |tables| && i < |tables[m].claims| && j < |tables[m].claims|
    requires tables[m].claims[i].cid == tables[m].claims[j].cid
    requires tables[m].claims[i].pin.Some? && tables[m].claims[i].kind.Guardian? && tables[m].claims[j].state.Dormant?
    ensures tables[m].claims[i].pledgeOrder.Some? && tables[m].claims[j].pledgeOrder.Some?
    ensures tables[m].claims[i].pledgeOrder.value < tables[m].claims[j].pledgeOrder.value
  {
    RunKeeps(cfg, tables, events, m);
    assert ClaimOk(cfg, tables[m], i) && ClaimOk(cfg, tables[m], j);
    assert QueuePair(tables[m].claims[i], tables[m].claims[j]);
  }

  lemma PromotedIsGuardian(cfg: Config, tables: seq<Tables>, events: seq<Event>, k: nat, i: nat)
    requires GoodRun(cfg, tables, events) && PromotedAt(tables, k, i)
    ensures var d := tables[k + 1].claims[i];
      && d.kind.Guardian? && d.pin.Some? && d.pledgeOrder.Some?
      && d.cid == tables[k].claims[i].cid && d.pledgeOrder == tables[k].claims[i].pledgeOrder
  {
    RunMoves(cfg, tables, events, k, i);
    RunRows(cfg, tables, events, k, i);
    RunRows(cfg, tables, events, k + 1, i);
  }

  /** First in, first out: nobody is promoted over the head of a guardian who is still waiting. */
  lemma PromotionsPassNobody(cfg: Config, tables: seq<Tables>, events: seq<Event>, k: nat, i: nat, j: nat)
    requires GoodRun(cfg, tables, events) && PromotedAt(tables, k, i) && j < |tables[k + 1].claims|
    requires tables[k + 1].claims[j].state.Dormant? && tables[k + 1].claims[j].cid == tables[k].claims[i].cid
    ensures tables[k].claims[i].pledgeOrder.Some? && tables[k + 1].claims[j].pledgeOrder.Some?
    ensures tables[k].claims[i].pledgeOrder.value < tables[k + 1].claims[j].pledgeOrder.value
  {
    PromotedIsGuardian(cfg, tables, events, k, i);
    PromotedBeforeWaiting(cfg, tables, events, k + 1, i, j);
  }

  /** Over a whole run the guardians promoted on one CID have strictly increasing slots, one at a time. */
  lemma PromotionsAreFifo(cfg: Config, tables: seq<Tables>, events: seq<Event>, k: nat, i: nat, m: nat, j: nat)
    requires GoodRun(cfg, tables, events) && PromotedAt(tables, k, i) && PromotedAt(tables, m, j)
    requires k <= m && (k, i) != (m, j) && tables[m].claims[j].cid == tables[k].claims[i].cid
    ensures k < m
    ensures tables[k].claims[i].pledgeOrder.Some? && tables[m].claims[j].pledgeOrder.Some?
    ensures tables[k].claims[i].pledgeOrder.value < tables[m].claims[j].pledgeOrder.value
  {
    PromotedIsGuardian(cfg, tables, events, k, i);
    PromotedIsGuardian(cfg, tables, events, m, j);
    if k == m {
      OneAtATime(cfg, tables, events, k + 1, i, j);
    } else {
      ClaimsPersist(cfg, tables, events, k + 1, m, i);
      PromotedBeforeWaiting(cfg, tables, events, m, i, j);
    }
  }

  lemma OneAtATime(cfg: Config, tables: seq<Tables>, events: seq<Event>, m: nat, i: nat, j: nat)
    requires GoodRun(cfg, tables, events) && m < |tables| && i < |tables[m].claims| && j < |tables[m].claims|
    requires tables[m].claims[i].cid == tables[m].claims[j].cid
    requires tables[m].claims[i].state.Active? && tables[m].claims[j].state.Active?
    requires !tables[m].claims[i].kind.OwnCopy? && !tables[m].claims[j].kind.OwnCopy?
    ensures i == j
  {
    RunKeeps(cfg, tables, events, m);
    OneBatonHolder(cfg, tables[m], i, j);
  }

  // ---------- what the invariant says ----------

  /** At most one active claim per CID is not an own copy. */
  lemma OneBatonHolder(cfg: Config, s: Tables, i: nat, j: nat)
    requires Inv(cfg, s) && i < |s.claims| && j < |s.claims| && s.claims[i].cid == s.claims[j].cid
    requires s.claims[i].state.Active? && s.claims[j].state.Active? && !s.claims[i].kind.OwnCopy?
    requires !s.claims[j].kind.OwnCopy?
    ensures i == j
  {
    assert ClaimOk(cfg, s, i) && ClaimOk(cfg, s, j);
    HolderOfClaim(cfg, s, i);
    HolderOfClaim(cfg, s, j);
    assert BatonPair(s, i, j);
  }

  /** The claim was hosting at the time `now`, according to its start and its pin's end. */
  predicate HostingAt(s: Tables, i: nat, now: Time)
    requires i < |s.claims|
  {
    var c := s.claims[i];
    && c.pin.Some? && c.pin.value < |s.pins| && c.startTs <= now
    && (s.pins[c.pin.value].changedAt.Some? ==> now < s.pins[c.pin.value].changedAt.value)
  }

  /** The hosting intervals of successive originals and guardians on one CID never overlap. */
  lemma BatonsNeverOverlap(cfg: Config, s: Tables, i: nat, j: nat, now: Time)
    requires Inv(cfg, s) && i < |s.claims| && j < |s.claims| && i != j && s.claims[i].cid == s.claims[j].cid
    requires Baton(s.claims[i]) && Baton(s.claims[j])
    ensures !(HostingAt(s, i, now) && HostingAt(s, j, now))
  {
    assert BatonPair(s, i, j);
  }

  /** A CID with a waiting guardian is hosted by a live claim with a live pin. */
  lemma AliveWhileFunded(cfg: Config, s: Tables, g: nat)
    requires Inv(cfg, s) && g < |s.claims| && s.claims[g].state.Dormant?
    ensures exists i ::
      && 0 <= i < |s.claims| && s.claims[i].state.Active? && s.claims[i].cid == s.claims[g].cid
      && s.claims[i].pin.Some? && s.claims[i].pin.value < |s.pins|
      && IsHost(s.pins[s.claims[i].pin.value], s.claims[g].cid)
  {
    var cid := s.claims[g].cid;
    HostedByClaim(cfg, s, cid);
    assert Guarded(s, {}, g);
    var i :| 0 <= i < |s.claims| && s.claims[i].state.Active? && s.claims[i].cid == cid;
    assert ClaimOk(cfg, s, i);
    HolderOfClaim(cfg, s, i);
  }

  /** Whatever ends a CID's last host, nobody is left waiting for it. */
  lemma LastHostGoesWithEmptyQueue(cfg: Config, tables: seq<Tables>, events: seq<Event>, k: nat, cid: Cid)
    requires GoodRun(cfg, tables, events) && k + 1 < |tables|
    requires Hosted(tables[k], cid) && !Hosted(tables[k + 1], cid)
    ensures var s := tables[k + 1]; forall i | 0 <= i < |s.claims| && s.claims[i].cid == cid :: !s.claims[i].Live()
  {
    RunKeeps(cfg, tables, events, k + 1);
    DeadMeansDead(cfg, tables[k + 1], cid);
  }

  lemma DeadMeansDead(cfg: Config, s: Tables, cid: Cid)
    requires Inv(cfg, s) && !Hosted(s, cid)
    ensures forall i | 0 <= i < |s.claims| && s.claims[i].cid == cid :: !s.claims[i].Live()
  {
    HostedByClaim(cfg, s, cid);
    forall i | 0 <= i < |s.claims| && s.claims[i].cid == cid ensures !s.claims[i].Live() { assert Guarded(s, {}, i); }
  }

  /** While a CID stays blocked it has no live claim and no live pin. */
  lemma BlockedStaysDead(cfg: Config, tables: seq<Tables>, events: seq<Event>, k: nat, cid: Cid)
    requires GoodRun(cfg, tables, events) && k < |tables| && cid in tables[k].blocked
    ensures !Hosted(tables[k], cid)
    ensures var s := tables[k]; forall i | 0 <= i < |s.claims| && s.claims[i].cid == cid :: !s.claims[i].Live()
  {
    RunKeeps(cfg, tables, events, k);
    BlockedMeansDead(cfg, tables[k], cid);
  }

  lemma BlockedMeansDead(cfg: Config, s: Tables, cid: Cid)
    requires Inv(cfg, s) && cid in s.blocked
    ensures !Hosted(s, cid) && forall i | 0 <= i < |s.claims| && s.claims[i].cid == cid :: !s.claims[i].Live()
  {
    forall i | 0 <= i < |s.claims| && s.claims[i].cid == cid
      ensures !s.claims[i].Live()
    {
      assert Unblocked(s.claims[i], s.blocked);
    }
    HostedByClaim(cfg, s, cid);
  }

  // ---------- claims and pins mirror each other ----------

  /** The pins' bytes, booked for the claims that hold them. */
  ghost function Bytes(s: Tables): seq<Ledger.Entry> {
    seq(|s.pins|, p requires 0 <= p < |s.pins| =>
      if s.pins[p].status.Pinned? then Ledger.Entry(Some(Holder(s, p)), s.pins[p].sizeBytes as real)
      else Ledger.Entry(None, 0.0))
  }

  /** `active_bytes` of `getDiskUsage`: the sizes of the active pins. */
  ghost function ActiveBytes(s: Tables): real {
    Ledger.Total(Bytes(s))
  }

  ghost function ClaimBytes(s: Tables, n: nat): int
    requires n <= |s.claims|
  {
    if n == 0 then 0 else ClaimBytes(s, n - 1) + if s.claims[n - 1].state.Active? then s.claims[n - 1].sizeBytes else 0
  }

  lemma {:induction false} BytesByClaim(cfg: Config, s: Tables, n: nat)
    requires Inv(cfg, s) && n <= |s.claims|
    ensures Ledger.Shares(Bytes(s), n) == ClaimBytes(s, n) as real
    decreases n
  {
    if n > 0 {
      var i := n - 1;
      BytesByClaim(cfg, s, i);
      assert ClaimOk(cfg, s, i);
      forall p | 0 <= p < |s.pins| && Bytes(s)[p].claim == Some(i)
        ensures s.claims[i].state.Active? && s.claims[i].pin == Some(p)
        ensures s.pins[p].sizeBytes == s.claims[i].sizeBytes
      {
        assert PinOk(s, p);
      }
      if s.claims[i].state.Active? {
        HolderOfClaim(cfg, s, i);
        Ledger.ShareOfOne(Bytes(s), i, s.claims[i].pin.value);
      } else {
        Ledger.ShareOfNone(Bytes(s), i);
      }
    }
  }

  /**
    * The mirror: every active claim has its own active pin with the same CID, owner, size and expiry,
    * every active pin belongs to an active claim, and the bytes counted on the pins are the active
    * claims' bytes.
    */
  lemma ClaimsMirrorPins(cfg: Config, s: Tables)
    requires Inv(cfg, s)
    ensures forall i | 0 <= i < |s.claims| && s.claims[i].state.Active? ::
      && s.claims[i].pin.Some? && s.claims[i].pin.value < |s.pins|
      && Mirrors(s.claims[i], s.pins[s.claims[i].pin.value], s.claims[i].pin.value)
    ensures forall p | 0 <= p < |s.pins| && s.pins[p].status.Pinned? ::
      && Holder(s, p) < |s.claims| && s.claims[Holder(s, p)].state.Active? && s.claims[Holder(s, p)].pin == Some(p)
    ensures forall i, j | 0 <= i < |s.claims| && 0 <= j < |s.claims| && s.claims[i].pin.Some?
              && s.claims[i].pin == s.claims[j].pin :: i == j
    ensures ActiveBytes(s) == ClaimBytes(s, |s.claims|) as real
  {
    forall i | 0 <= i < |s.claims| && s.claims[i].pin.Some?
      ensures s.claims[i].pin.value < |s.pins| && Holder(s, s.claims[i].pin.value) == i
      ensures Mirrors(s.claims[i], s.pins[s.claims[i].pin.value], s.claims[i].pin.value)
    {
      HolderOfClaim(cfg, s, i);
    }
    forall i | 0 <= i < |s.claims| && s.claims[i].state.Active?
      ensures s.claims[i].pin.Some?
    {
      assert ClaimOk(cfg, s, i);
    }
    forall p | 0 <= p < |s.pins| && s.pins[p].status.Pinned?
      ensures Holder(s, p) < |s.claims| && s.claims[Holder(s, p)].state.Active? && s.claims[Holder(s, p)].pin == Some(p)
    {
      assert PinOk(s, p);
    }
    BytesByClaim(cfg, s, |s.claims|);
    TotalIsByClaim(cfg, s);
  }

  lemma TotalIsByClaim(cfg: Config, s: Tables)
    requires Inv(cfg, s)
    ensures Ledger.Total(Bytes(s)) == Ledger.Shares(Bytes(s), |s.claims|)
  {
    var es := Bytes(s);
    forall p | 0 <= p < |es|
      ensures (es[p].claim.Some? && es[p].claim.value < |s.claims|) || es[p].amount == 0.0
    {
      assert PinOk(s, p);
    }
    Ledger.SharesOfBooked(Bytes(s), |s.claims|);
  }

  /** The timer of every claim that ever went live is its start plus its paid hours, unless it is permanent. */
  lemma TimerFollowsHours(cfg: Config, s: Tables, i: nat, now: Time)
    requires Inv(cfg, s) && i < |s.claims| && s.claims[i].state.Active? && s.claims[i].expiryTs < PERMANENT_EXPIRY
    ensures s.claims[i].expiryTs == s.claims[i].startTs + s.claims[i].paidHours * HOUR
    ensures CalculateRefund(cfg, s.claims[i].Terms(), now).hoursRefunded
      == Max(0, Min(s.claims[i].paidHours - 1, (s.claims[i].expiryTs - now) / HOUR))
  {
    assert ClaimOk(cfg, s, i);
    RefundFollowsTimer(cfg, s.claims[i].Terms(), now);
  }
}
