/**
  * Where rounding costs the gate money: a claim bought and extended in pieces whose charges round down is
  * refunded more than was paid for it.  Which hourly costs allow that, and runs that do it.
  */
module HostingRounding {
  import opened Prelude
  import opened Pricing
  import opened Hosting
  import opened HostingInvariant
  import opened HostingRuns
  import opened HostingDelete
  import opened HostingMoney
  import Ledger

  // ---------- one claim ----------

  /** The columns of a claim bought for h hours and extended n - 1 times by h more, at k an hour. */
  function InPieces(size: Size, rate: real, copies: int, h: nat, n: nat, startTs: Time, k: real): Terms {
    Terms(size, rate, n * h, copies, Charge(h, k) as real, startTs, startTs + n * h * HOUR)
  }

  /** Pieces that the gate sells, whose claim is refunded more than its pieces cost. */
  ghost predicate OverRefunded(cfg: Config, size: Size, rate: real, copies: int, h: nat, n: nat, startTs: Time) {
    var k := PerHour(BillableMB(size), rate, copies);
    var c := InPieces(size, rate, copies, h, n, startTs, k);
    && h >= 1 && h >= cfg.minHours && n >= 1 && !c.Permanent()
    && CalculateRefund(cfg, c, startTs).amount > n * Charge(h, k)
  }

  /** What the refund of such a claim comes to when it is cancelled at once. */
  lemma RefundOfPieces(cfg: Config, size: Size, rate: real, copies: int, h: nat, n: nat, startTs: Time, k: real)
    requires 1 <= copies <= Nodes(cfg) && k == PerHour(BillableMB(size), rate, copies)
    requires n * h >= 1 && !InPieces(size, rate, copies, h, n, startTs, k).Permanent()
    ensures CalculateRefund(cfg, InPieces(size, rate, copies, h, n, startTs, k), startTs).amount
      == if Charge(n * h - 1, k) < cfg.minRefund then 0 else Charge(n * h - 1, k)
  {
    CappedCopiesIdempotent(cfg, copies);
  }

  lemma ChargesAreNotNegative(n: nat, h: nat, k: real)
    requires k >= 0.0
    ensures n * Charge(h, k) >= 0
  {
    TimesMonotone(0.0, h as real, k);
    RoundCoinsMonotone(0.0, h as real * k);
    assert RoundCoins(0.0) == 0;
  }

  /**
    * A claim can be refunded more than was paid for it, through the size of its pieces alone, exactly when
    * an hour of it does not cost half units; the dust limit and the least number of hours only ask for more.
    */
  lemma OverRefundExactlyWhen(cfg: Config, size: Size, rate: real, copies: int)
    requires cfg.Valid() && rate >= 0.0 && 1 <= copies <= Nodes(cfg)
    ensures (exists h: nat, n: nat, startTs: Time :: OverRefunded(cfg, size, rate, copies, h, n, startTs))
      <==> !IsWhole(2.0 * PerHour(BillableMB(size), rate, copies))
  {
    var mb := BillableMB(size);
    var k := PerHour(mb, rate, copies);
    PerHourMonotone(mb, mb, rate, rate, copies);
    if IsWhole(2.0 * k) {
      forall h: nat, n: nat, startTs: Time ensures !OverRefunded(cfg, size, rate, copies, h, n, startTs) {
        NeverOverRefunded(cfg, size, rate, copies, h, n, startTs);
      }
    } else {
      PiecesPayExactlyWhen(k);
      assert PiecesPayFrom(k, cfg.minHours, cfg.minRefund);
      var h: nat, n: nat :| PiecesPay(h, n, k) && h >= cfg.minHours && Charge(n * h - 1, k) >= cfg.minRefund;
      AtLeastOne(n, h);
      var startTs := -(n * h * HOUR);
      RefundOfPieces(cfg, size, rate, copies, h, n, startTs, k);
      assert OverRefunded(cfg, size, rate, copies, h, n, startTs);
    }
  }

  lemma NeverOverRefunded(cfg: Config, size: Size, rate: real, copies: int, h: nat, n: nat, startTs: Time)
    requires cfg.Valid() && 1 <= copies <= Nodes(cfg)
    requires var k := PerHour(BillableMB(size), rate, copies); k >= 0.0 && IsWhole(2.0 * k)
    ensures !OverRefunded(cfg, size, rate, copies, h, n, startTs)
  {
    var k := PerHour(BillableMB(size), rate, copies);
    if h >= 1 && n >= 1 && !InPieces(size, rate, copies, h, n, startTs, k).Permanent() {
      AtLeastOne(n, h);
      PiecesNeverPay(h, n, k);
      ChargesAreNotNegative(n, h, k);
      RefundOfPieces(cfg, size, rate, copies, h, n, startTs, k);
    }
  }

  // ---------- whole runs ----------

  ghost predicate EndsIn(cfg: Config, tables: seq<Tables>, events: seq<Event>, s: Tables) {
    HonestRun(cfg, tables, events) && tables[0] == EMPTY && tables[|tables| - 1] == s
  }

  /** A state at the end of an honest run from the empty tables. */
  ghost predicate Reachable(cfg: Config, s: Tables) {
    exists tables, events :: EndsIn(cfg, tables, events, s)
  }

  lemma StartIsReachable(cfg: Config)
    requires cfg.Valid()
    ensures Reachable(cfg, EMPTY)
  {
    EmptyIsSound(cfg);
    assert EndsIn(cfg, [EMPTY], [], EMPTY);
  }

  lemma RunGrows(cfg: Config, tables: seq<Tables>, events: seq<Event>, e: Event, next: Tables, k: nat)
    requires |tables| == |events| + 1 && k <= |events|
    requires if k < |events| then StepAt(cfg, tables, events, k) && Honest(cfg, tables[k], events[k])
             else Possible(cfg, tables[k], e) && Honest(cfg, tables[k], e) && next == Apply(cfg, tables[k], e)
    ensures StepAt(cfg, tables + [next], events + [e], k) && Honest(cfg, (tables + [next])[k], (events + [e])[k])
  {
  }

  lemma StepIsReachable(cfg: Config, s: Tables, e: Event)
    requires Reachable(cfg, s) && Possible(cfg, s, e) && Honest(cfg, s, e)
    ensures Reachable(cfg, Apply(cfg, s, e))
  {
    var next := Apply(cfg, s, e);
    var tables, events :| EndsIn(cfg, tables, events, s);
    forall k | 0 <= k <= |events|
      ensures StepAt(cfg, tables + [next], events + [e], k) && Honest(cfg, (tables + [next])[k], (events + [e])[k])
    {
      RunGrows(cfg, tables, events, e, next, k);
    }
    assert EndsIn(cfg, tables + [next], events + [e], next);
  }

  const OWNER: Account := "owner"

  /** Transaction ids of different lengths. */
  function Tx(j: nat): TxId { seq(j + 1, _ => 'x') }

  /** One claim has been bought and extended to j pieces, nothing else has happened, and no time has passed. */
  ghost predicate Holds(cfg: Config, s: Tables, size: Size, copies: int, h: nat, j: nat) {
    && |s.claims| == 1
    && var c := s.claims[0];
       var k := PerHour(BillableMB(size), cfg.rate, copies);
       && c.state.Active? && c.owner == OWNER && c.PerHour() == k
       && c.Terms() == InPieces(size, cfg.rate, copies, h, j, 0, k)
       && s.refunds == [] && s.owed == map[] && s.clock == 0
       && Paid(s, 0) == (j * Charge(h, k)) as real
       && forall p | 0 <= p < |s.payments| :: |s.payments[p].tx| <= j
  }

  /** A sale to an account that is not exempt, for whole hours. */
  ghost predicate Sold(cfg: Config, copies: int, h: nat) {
    cfg.Valid() && !cfg.permanent && 1 <= copies <= Nodes(cfg) && h >= 1 && h >= cfg.minHours
  }

  lemma PieceQuote(cfg: Config, size: Size, copies: int, h: nat)
    requires Sold(cfg, copies, h)
    ensures BillableHours(cfg, h as real) == Ok(h)
    ensures var mb := BillableMB(size);
      Reserve(cfg, size, h as real, copies as real, false)
      == Ok(Quote(mb, h, copies, cfg.rate, Charge(h, PerHour(mb, cfg.rate, copies))))
  {
    CappedCopiesIdempotent(cfg, copies);
  }

  function Purchase(cfg: Config, size: Size, copies: int, h: nat): Event {
    EPayUpload(Tx(0), OWNER, size, h as real, copies as real, false, size, false,
               Charge(h, PerHour(BillableMB(size), cfg.rate, copies)) as real)
  }

  lemma PiecePaid(cfg: Config, size: Size, copies: int, h: nat) returns (s: Tables)
    requires Sold(cfg, copies, h)
    ensures Reachable(cfg, s)
    ensures var charge := Charge(h, PerHour(BillableMB(size), cfg.rate, copies)) as real;
      var use := Uploading(UploadOrder(OWNER, size, h, copies, false));
      s == EMPTY.(payments := [Payment(Tx(0), OWNER, charge, UploadMemo, use)])
  {
    var e := Purchase(cfg, size, copies, h);
    PieceQuote(cfg, size, copies, h);
    StartIsReachable(cfg);
    PerHourMonotone(BillableMB(size), BillableMB(size), cfg.rate, cfg.rate, copies);
    ChargesAreNotNegative(1, h, PerHour(BillableMB(size), cfg.rate, copies));
    OnlyLapsedExemptionsUnderpay(cfg, EMPTY, e);
    StepIsReachable(cfg, EMPTY, e);
    s := Apply(cfg, EMPTY, e);
  }

  lemma PieceBought(cfg: Config, size: Size, copies: int, h: nat) returns (s: Tables)
    requires Sold(cfg, copies, h)
    ensures Reachable(cfg, s) && Holds(cfg, s, size, copies, h, 1)
  {
    var paid := PiecePaid(cfg, size, copies, h);
    CappedCopiesIdempotent(cfg, copies);
    StepIsReachable(cfg, paid, ECommitUpload(0, "file", 0));
    s := Apply(cfg, paid, ECommitUpload(0, "file", 0));
    PaymentRebooked(paid, s, 0);
    NothingPaidYet(paid);
  }

  lemma NothingPaidYet(s: Tables)
    requires |s.payments| == 1 && !s.payments[0].use.Funded?
    ensures Paid(s, 0) == 0.0
  {
    Ledger.ShareOfNone(Credits(s.payments), 0);
  }

  lemma PieceAdded(cfg: Config, s: Tables, size: Size, copies: int, h: nat, j: nat) returns (s': Tables)
    requires Sold(cfg, copies, h) && j >= 1 && j * h * HOUR < PERMANENT_EXPIRY
    requires Reachable(cfg, s) && Holds(cfg, s, size, copies, h, j)
    ensures Reachable(cfg, s') && Holds(cfg, s', size, copies, h, j + 1)
  {
    var k := PerHour(BillableMB(size), cfg.rate, copies);
    var charge := Charge(h, k);
    PieceQuote(cfg, size, copies, h);
    PerHourMonotone(BillableMB(size), BillableMB(size), cfg.rate, cfg.rate, copies);
    ChargesAreNotNegative(1, h, k);
    var e := EExtend(Tx(j), 0, h as real, false, charge as real);
    StepIsReachable(cfg, s, e);
    s' := Apply(cfg, s, e);
    PaymentAppended(s, s', Payment(Tx(j), OWNER, charge as real, ExtendMemo(0), Funded(0)));
    OnePieceMore(j, h, charge);
  }

  lemma OnePieceMore(j: nat, h: nat, charge: int)
    ensures (j + 1) * h == j * h + h && (j + 1) * charge == j * charge + charge
    ensures (j + 1) * h * HOUR == j * h * HOUR + h * HOUR
  {
  }

  lemma {:induction false} PiecesHeld(cfg: Config, size: Size, copies: int, h: nat, n: nat) returns (s: Tables)
    requires Sold(cfg, copies, h) && n >= 1 && n * h * HOUR < PERMANENT_EXPIRY
    ensures Reachable(cfg, s) && Holds(cfg, s, size, copies, h, n)
    decreases n
  {
    if n == 1 {
      s := PieceBought(cfg, size, copies, h);
    } else {
      OnePieceMore(n - 1, h, 0);
      var shorter := PiecesHeld(cfg, size, copies, h, n - 1);
      s := PieceAdded(cfg, shorter, size, copies, h, n - 1);
    }
  }

  lemma InvOfReachable(cfg: Config, s: Tables)
    requires Reachable(cfg, s)
    ensures cfg.Valid() && Inv(cfg, s)
  {
    var tables, events :| EndsIn(cfg, tables, events, s);
    RunKeeps(cfg, tables, events, |tables| - 1);
  }

  lemma Cancelled(cfg: Config, s: Tables) returns (s': Tables)
    requires Reachable(cfg, s) && |s.claims| == 1 && s.claims[0].state.Active? && s.claims[0].owner == OWNER
    requires s.clock == 0 && s.owed == map[] && s.refunds == []
    ensures Reachable(cfg, s') && |s'.claims| == 1 && s'.payments == s.payments && s'.refunds == []
    ensures s'.owed == map[0 := Owed(s.claims[0], ByUser)]
  {
    InvOfReachable(cfg, s);
    StepIsReachable(cfg, s, ECancel(0, User(OWNER), 0, 0));
    CancelOne(cfg, s, 0, ByUser, 0, 0);
    s' := Cancel(s, 0, User(OWNER), 0, 0).next;
  }

  lemma Settled(cfg: Config, s: Tables, o: Owed) returns (s': Tables)
    requires Reachable(cfg, s) && s.refunds == [] && s.owed == map[0 := o]
    ensures Reachable(cfg, s') && s'.claims == s.claims && s'.payments == s.payments
    ensures s'.refunds == [RefundRow(cfg, 0, o, 0)]
  {
    StepIsReachable(cfg, s, ESettle(0, 0));
    s' := Settle(cfg, s, 0, 0);
  }

  /** The claim is cancelled as soon as it is bought, and its refund written down. */
  lemma PiecesRefunded(cfg: Config, s: Tables) returns (s': Tables)
    requires Reachable(cfg, s) && |s.claims| == 1 && s.claims[0].state.Active? && s.claims[0].owner == OWNER
    requires s.clock == 0 && s.owed == map[] && s.refunds == []
    ensures Reachable(cfg, s') && |s'.claims| == 1 && Paid(s', 0) == Paid(s, 0)
    ensures Returned(s', 0) == Max(0, CalculateRefund(cfg, s.claims[0].Terms(), 0).amount) as real
  {
    var ended := Cancelled(cfg, s);
    s' := Settled(cfg, ended, Owed(s.claims[0], ByUser));
    OneRefund(s');
  }

  lemma OneRefund(s: Tables)
    requires |s.refunds| == 1 && s.refunds[0].claim == 0
    ensures Returned(s, 0) == s.refunds[0].amount as real
  {
    Ledger.ShareOfOne(Debits(s.refunds), 0, 0);
  }

  /**
    * A run that sells n pieces of h hours at their quoted charges and refunds them at once: more comes back
    * than was paid exactly when such pieces pay and the refund is not dust.
    */
  lemma PiecesRun(cfg: Config, size: Size, copies: int, h: nat, n: nat) returns (s: Tables)
    requires Sold(cfg, copies, h) && n >= 1 && n * h * HOUR < PERMANENT_EXPIRY
    ensures Reachable(cfg, s) && |s.claims| == 1
    ensures var k := PerHour(BillableMB(size), cfg.rate, copies);
      && Paid(s, 0) == (n * Charge(h, k)) as real
      && (Returned(s, 0) > Paid(s, 0) <==> PiecesPay(h, n, k) && Charge(n * h - 1, k) >= cfg.minRefund)
  {
    var k := PerHour(BillableMB(size), cfg.rate, copies);
    var held := PiecesHeld(cfg, size, copies, h, n);
    s := PiecesRefunded(cfg, held);
    AtLeastOne(n, h);
    PerHourMonotone(BillableMB(size), BillableMB(size), cfg.rate, cfg.rate, copies);
    ChargesAreNotNegative(n, h, k);
    RefundOfPieces(cfg, size, cfg.rate, copies, h, n, 0, k);
  }
}
