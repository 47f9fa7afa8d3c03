/**
  * The MB-hour price list (pricing.js).
  *
  * Coins are exact and counted in units of RATE_FLOOR, so a rounded amount is an integer and an
  * unrounded one is a real number of units.  Times are in milliseconds.
  */
module Pricing {
  import opened Prelude

  const HOUR: int := 3_600_000
  const MB_DIVISOR: int := 1_000_000
  /** 9999-12-31T23:59:59Z: a claim that expires here is hosted until someone unpins it. */
  const PERMANENT_EXPIRY: int := 253_402_300_799_000

  /** The operator's environment, fixed for a run. */
  datatype Config = Config(
    rate: real,          // PRICE_RATE_PER_MB_HOUR, in units
    minHours: int,       // PRICE_MIN_HOURS
    nodeCount: int,      // NODE_COUNT
    minRefund: int,      // MIN_REFUND, in units
    cancelFeePct: real,  // GUARDIAN_CANCEL_FEE_PCT
    permanent: bool)     // HOSTING_MODE=permanent
  {
    ghost predicate Valid() {
      rate >= 0.0 && minHours >= 1
    }
  }

  // ---------- rounding ----------

  function Ceil(x: real): int {
    -((-x).Floor)
  }

  /** Quotient rounded towards plus infinity. */
  function CeilDiv(a: int, b: int): int
    requires b > 0
  {
    -((-a) / b)
  }

  /** `toFixed` at the floor's number of places: nearest unit, ties away from zero. */
  function RoundCoins(x: real): int {
    if x < 0.0 then -((-x + 0.5).Floor) else (x + 0.5).Floor
  }

  predicate IsWhole(x: real) {
    x == x.Floor as real
  }

  lemma RoundCoinsIsNearest(x: real)
    ensures -0.5 <= RoundCoins(x) as real - x <= 0.5
    ensures forall n: int {:trigger n as real} :: -0.5 < n as real - x < 0.5 ==> n == RoundCoins(x)
    ensures x >= 0.0 ==> RoundCoins(x) as real - x > -0.5
    ensures IsWhole(x) <==> RoundCoins(x) as real == x
  {
    if x < 0.0 {
      var f := (-x + 0.5).Floor;
      assert f as real <= -x + 0.5 < f as real + 1.0;
    }
  }

  lemma RoundCoinsMonotone(x: real, y: real)
    requires x <= y
    ensures RoundCoins(x) <= RoundCoins(y)
  {
  }

  // ---------- billable units ----------

  function BillableMB(sizeBytes: int): (mb: int)
    requires sizeBytes > 0
    ensures mb >= 1
    ensures (mb - 1) * MB_DIVISOR < sizeBytes <= mb * MB_DIVISOR
  {
    Max(1, CeilDiv(sizeBytes, MB_DIVISOR))
  }

  /** Not positive: the source throws bad_request. */
  function BillableHours(cfg: Config, hours: real): (r: Result<int>)
    ensures r == Err(BadRequest) <==> hours <= 0.0
    ensures r.Ok? ==> r.value >= cfg.minHours && r.value >= 1 && r.value as real >= hours
    ensures r.Ok? && r.value > cfg.minHours ==> r.value as real < hours + 1.0
  {
    if hours <= 0.0 then Err(BadRequest) else Ok(Max(cfg.minHours, Ceil(hours)))
  }

  function Nodes(cfg: Config): int {
    Max(1, cfg.nodeCount)
  }

  function CappedCopies(cfg: Config, copies: real): (c: int)
    ensures 1 <= c <= Nodes(cfg)
    ensures 1.0 <= copies && copies.Floor <= Nodes(cfg) ==> c == copies.Floor
    ensures copies < 1.0 ==> c == 1
    ensures copies.Floor > Nodes(cfg) ==> c == Nodes(cfg)
  {
    Min(Max(1, copies.Floor), Nodes(cfg))
  }

  // ---------- cost ----------

  datatype Quote = Quote(mb: int, hours: int, copies: int, rate: real, total: int)

  /** Cost of one hour: MB x rate x copies. */
  function PerHour(mb: int, rate: real, copies: int): real {
    mb as real * rate * copies as real
  }

  function Charge(hours: int, perHour: real): int {
    RoundCoins(hours as real * perHour)
  }

  function CalculateCost(cfg: Config, sizeBytes: int, hours: real, copies: real, rate: real): Result<Quote> {
    if sizeBytes <= 0 || hours <= 0.0 then Err(BadRequest)
    else
      var mb := BillableMB(sizeBytes);
      var hrs := BillableHours(cfg, hours).value;
      var cps := CappedCopies(cfg, copies);
      Ok(Quote(mb, hrs, cps, rate, Charge(hrs, PerHour(mb, rate, cps))))
  }

  // ---------- refunds ----------

  /** The columns of a claim that its price and its refund depend on. */
  datatype Terms = Terms(
    sizeBytes: int, rateLocked: real, paidHours: int, copies: int,
    amountPaid: real, startTs: int, expiryTs: int)
  {
    predicate Permanent() {
      expiryTs >= PERMANENT_EXPIRY
    }
  }

  datatype RefundQuote = RefundQuote(hoursUsed: int, hoursRefunded: int, amount: int, dust: bool)

  function HoursUsed(startTs: int, now: int): int {
    Max(1, CeilDiv(now - startTs, HOUR))
  }

  /** Per-hour cost as the refund recomputes it from the row. */
  function LockedPerHour(cfg: Config, c: Terms): real
    requires c.sizeBytes > 0
  {
    PerHour(BillableMB(c.sizeBytes), c.rateLocked, CappedCopies(cfg, c.copies as real))
  }

  function CalculateRefund(cfg: Config, c: Terms, now: int): RefundQuote
    requires c.sizeBytes > 0
  {
    if c.Permanent() then RefundQuote(0, 0, 0, true)
    else
      var used := HoursUsed(c.startTs, now);
      var left := Max(c.paidHours - used, 0);
      var raw := Charge(left, LockedPerHour(cfg, c));
      if raw < cfg.minRefund then RefundQuote(used, left, 0, true) else RefundQuote(used, left, raw, false)
  }

  datatype DormantQuote = DormantQuote(amount: int, fee: int, dust: bool)

  function CalculateDormantRefund(cfg: Config, escrow: real, feePct: real): DormantQuote {
    if escrow <= 0.0 then DormantQuote(0, 0, true)
    else
      var pct := if feePct < 0.0 then 0.0 else feePct;
      var fee := RoundCoins(escrow * (pct / 100.0));
      var amount := RoundCoins(escrow - fee as real);
      if amount < cfg.minRefund then DormantQuote(0, fee, true) else DormantQuote(amount, fee, false)
  }

  datatype Policy = Forfeit | Prorata

  function ForcedRefund(cfg: Config, c: Terms, wasDormant: bool, policy: Policy, innocent: bool, now: int): int
    requires c.sizeBytes > 0
  {
    if innocent then CalculateDormantRefund(cfg, c.amountPaid, 0.0).amount
    else if policy.Forfeit? then 0
    else if wasDormant then CalculateDormantRefund(cfg, c.amountPaid, 0.0).amount
    else CalculateRefund(cfg, c, now).amount
  }

  // ---------- what is charged and what is refunded ----------

  /** The price of hours, written out. */
  function Price(mb: int, hours: int, rate: real, copies: int): real {
    mb as real * hours as real * rate * copies as real
  }

  /** A charge is megabytes times hours times rate times copies, to the nearest unit. */
  lemma ChargeIsPrice(mb: int, hours: int, rate: real, copies: int)
    ensures Charge(hours, PerHour(mb, rate, copies)) == RoundCoins(Price(mb, hours, rate, copies))
    ensures var charge := Charge(hours, PerHour(mb, rate, copies)) as real;
      -0.5 <= charge - mb as real * hours as real * rate * copies as real <= 0.5
  {
    SameProduct(mb as real, hours as real, rate, copies as real);
    RoundCoinsIsNearest(Price(mb, hours, rate, copies));
  }

  lemma SameProduct(a: real, b: real, c: real, d: real)
    ensures b * (a * c * d) == a * b * c * d
  {
    assert b * (a * c * d) == b * (a * c) * d;
    assert b * (a * c) == a * b * c;
  }

  /**
    * A quote is the charge of the billable megabytes and hours and the deliverable copies at the rate asked
    * for: their product, to the nearest unit.
    */
  lemma QuoteIsTheProduct(cfg: Config, sizeBytes: int, hours: real, copies: real, rate: real)
    ensures CalculateCost(cfg, sizeBytes, hours, copies, rate).Err? <==> sizeBytes <= 0 || hours <= 0.0
    ensures sizeBytes > 0 && hours > 0.0 ==>
      var q := CalculateCost(cfg, sizeBytes, hours, copies, rate).value;
      && q.mb == BillableMB(sizeBytes) && BillableHours(cfg, hours) == Ok(q.hours)
      && q.copies == CappedCopies(cfg, copies) && q.rate == rate
      && q.total == RoundCoins(Price(q.mb, q.hours, rate, q.copies))
  {
    if sizeBytes > 0 && hours > 0.0 {
      ChargeIsPrice(BillableMB(sizeBytes), BillableHours(cfg, hours).value, rate, CappedCopies(cfg, copies));
    }
  }

  /** The same, written out. */
  lemma QuoteIsNearTheProduct(cfg: Config, sizeBytes: int, hours: real, copies: real, rate: real)
    requires CalculateCost(cfg, sizeBytes, hours, copies, rate).Ok?
    ensures var total := CalculateCost(cfg, sizeBytes, hours, copies, rate).value.total as real;
      var mb, hrs, cps := BillableMB(sizeBytes), BillableHours(cfg, hours).value, CappedCopies(cfg, copies);
      -0.5 <= total - mb as real * hrs as real * rate * cps as real <= 0.5
  {
    QuoteIsTheProduct(cfg, sizeBytes, hours, copies, rate);
    RoundCoinsIsNearest(Price(BillableMB(sizeBytes), BillableHours(cfg, hours).value, rate, CappedCopies(cfg, copies)));
  }

  /** The used hours are the hours begun since the start, and at least one. */
  lemma HoursUsedAreHoursBegun(startTs: int, now: int)
    ensures var n := HoursUsed(startTs, now);
      n >= 1 && now - startTs <= n * HOUR && (n == 1 || (n - 1) * HOUR < now - startTs)
  {
  }

  /**
    * A refund is the price of the hours not used, to the nearest unit, at the locked rate; nothing when that
    * is below the dust limit, and only then.
    */
  lemma RefundIsThePriceOfHoursLeft(cfg: Config, c: Terms, now: int)
    requires c.sizeBytes > 0 && !c.Permanent()
    ensures var r := CalculateRefund(cfg, c, now);
      var price := Price(BillableMB(c.sizeBytes), r.hoursRefunded, c.rateLocked, CappedCopies(cfg, c.copies as real));
      && r.hoursUsed == HoursUsed(c.startTs, now) && r.hoursRefunded == Max(0, c.paidHours - r.hoursUsed)
      && (r.dust <==> RoundCoins(price) < cfg.minRefund)
      && r.amount == (if r.dust then 0 else RoundCoins(price))
      && (!r.dust ==> -0.5 <= r.amount as real - price <= 0.5)
  {
    var r := CalculateRefund(cfg, c, now);
    var mb, copies := BillableMB(c.sizeBytes), CappedCopies(cfg, c.copies as real);
    ChargeIsPrice(mb, r.hoursRefunded, c.rateLocked, copies);
    RoundCoinsIsNearest(Price(mb, r.hoursRefunded, c.rateLocked, copies));
  }

  /** The fee on a cancelled pledge is its percentage, to the nearest unit, and none when that is negative. */
  lemma FeeIsItsPercentage(cfg: Config, escrow: real, feePct: real)
    ensures escrow <= 0.0 ==> CalculateDormantRefund(cfg, escrow, feePct) == DormantQuote(0, 0, true)
    ensures escrow > 0.0 ==>
      var q := CalculateDormantRefund(cfg, escrow, feePct);
      && (feePct <= 0.0 ==> q.fee == 0)
      && (feePct > 0.0 ==> -0.5 <= q.fee as real - escrow * feePct / 100.0 <= 0.5)
      && (feePct > 0.0 ==> q.fee == RoundCoins(escrow * feePct / 100.0))
      && (q.dust <==> RoundCoins(escrow - q.fee as real) < cfg.minRefund)
      && q.amount == (if q.dust then 0 else RoundCoins(escrow - q.fee as real))
  {
    if escrow > 0.0 && feePct > 0.0 {
      assert escrow * (feePct / 100.0) == escrow * feePct / 100.0;
      RoundCoinsIsNearest(escrow * feePct / 100.0);
    } else {
      assert 0.0 / 100.0 == 0.0 && escrow * 0.0 == 0.0;
      assert RoundCoins(0.0) == 0;
    }
  }

  /**
    * What an admin's action gives back: an innocent guardian the rounded pledge; under forfeit nothing; under
    * pro rata the rounded pledge of a claim that never ran, and the price of the hours left of one that did.
    */
  lemma ForcedRefundByPolicy(cfg: Config, c: Terms, wasDormant: bool, policy: Policy, innocent: bool, now: int)
    requires c.sizeBytes > 0 && c.amountPaid >= 0.0
    ensures var amount := ForcedRefund(cfg, c, wasDormant, policy, innocent, now);
      var pledge := RoundCoins(c.amountPaid);
      && (innocent || (policy == Prorata && wasDormant) ==> amount == if pledge < cfg.minRefund then 0 else pledge)
      && (!innocent && policy == Forfeit ==> amount == 0)
      && (!innocent && policy == Prorata && !wasDormant ==> amount == CalculateRefund(cfg, c, now).amount)
  {
    if c.amountPaid > 0.0 { FullDormantRefund(cfg, c.amountPaid); } else { assert RoundCoins(c.amountPaid) == 0; }
  }

  // ---------- what the rounding can cost ----------

  /** Rounding the charge loses at most half a unit, and nothing when an hour costs whole units. */
  lemma ChargeBound(hours: int, k: real)
    ensures -0.5 <= Charge(hours, k) as real - hours as real * k <= 0.5
    ensures IsWhole(k) ==> Charge(hours, k) as real == hours as real * k
  {
    RoundCoinsIsNearest(hours as real * k);
    if IsWhole(k) {
      assert hours as real * k == (hours * k.Floor) as real;
    }
  }

  lemma ChargeMonotone(h1: int, h2: int, k1: real, k2: real)
    requires 0 <= h1 <= h2 && 0.0 <= k1 <= k2
    ensures 0 <= Charge(h1, k1) <= Charge(h2, k2)
  {
    assert 0.0 <= h1 as real * k1;
    assert h1 as real * k1 <= h1 as real * k2;
    assert h1 as real * k2 <= h2 as real * k2;
    RoundCoinsMonotone(h1 as real * k1, h2 as real * k2);
  }

  lemma PerHourMonotone(mb1: int, mb2: int, r1: real, r2: real, copies: int)
    requires 1 <= mb1 <= mb2 && 0.0 <= r1 <= r2 && copies >= 1
    ensures 0.0 <= PerHour(mb1, r1, copies) <= PerHour(mb2, r2, copies)
  {
    var a, b := mb1 as real * r1, mb2 as real * r2;
    assert 0.0 <= a;
    assert a <= mb1 as real * r2;
    assert mb1 as real * r2 <= b;
    assert a * copies as real <= b * copies as real;
  }

  lemma BillableMBMonotone(s1: int, s2: int)
    requires 0 < s1 <= s2
    ensures BillableMB(s1) <= BillableMB(s2)
  {
  }

  /** Capping a capped number of copies changes nothing: the refund sees the copies that were sold. */
  lemma CappedCopiesIdempotent(cfg: Config, copies: int)
    requires 1 <= copies <= Nodes(cfg)
    ensures CappedCopies(cfg, copies as real) == copies
  {
  }

  /**
    * The timer and the refund agree.  The refund is computed from `start_ts`, but for a claim whose
    * expiry is its start plus its paid hours it is the whole hours still on the clock, less the hour
    * that every claim consumes.
    */
  lemma RefundFollowsTimer(cfg: Config, c: Terms, now: int)
    requires c.sizeBytes > 0 && !c.Permanent()
    requires c.expiryTs == c.startTs + c.paidHours * HOUR
    ensures CalculateRefund(cfg, c, now).hoursRefunded == Max(0, Min(c.paidHours - 1, (c.expiryTs - now) / HOUR))
  {
    assert c.expiryTs - now == c.paidHours * HOUR + (c.startTs - now);
  }

  /** Later cancels never refund more, and no refund exceeds the price of all hours but the first. */
  lemma RefundBounds(cfg: Config, c: Terms, now: int, later: int)
    requires cfg.Valid() && c.sizeBytes > 0 && c.rateLocked >= 0.0 && now <= later
    ensures 0 <= CalculateRefund(cfg, c, later).amount <= Max(0, CalculateRefund(cfg, c, now).amount)
    ensures c.Permanent() ==> CalculateRefund(cfg, c, now).amount == 0
    ensures CalculateRefund(cfg, c, now).amount <= Charge(Max(c.paidHours - 1, 0), LockedPerHour(cfg, c))
  {
    if !c.Permanent() {
      var k := LockedPerHour(cfg, c);
      PerHourMonotone(BillableMB(c.sizeBytes), BillableMB(c.sizeBytes), c.rateLocked, c.rateLocked,
                      CappedCopies(cfg, c.copies as real));
      var l1, l2 := Max(c.paidHours - HoursUsed(c.startTs, now), 0), Max(c.paidHours - HoursUsed(c.startTs, later), 0);
      assert HoursUsed(c.startTs, now) <= HoursUsed(c.startTs, later);
      ChargeMonotone(l2, l1, k, k);
      ChargeMonotone(l1, Max(c.paidHours - 1, 0), k, k);
    }
  }

  /**
    * The rounding bound: a claim whose payments came to at least `paidHours` charged hours, up to
    * `loss`, gets back at most what was paid less the used hours, up to `loss` and half a unit more;
    * without that half unit when an hour costs whole units.
    */
  lemma RefundWithinPayments(cfg: Config, c: Terms, k: real, now: int, paid: real, loss: real)
    requires c.sizeBytes > 0 && k == LockedPerHour(cfg, c) && paid + loss >= c.paidHours as real * k
    requires HoursUsed(c.startTs, now) <= c.paidHours && !c.Permanent()
    ensures var r := CalculateRefund(cfg, c, now);
      !r.dust || k >= 0.0 ==>
        && r.amount as real <= paid - r.hoursUsed as real * k + loss + 0.5
        && (IsWhole(k) ==> r.amount as real <= paid - r.hoursUsed as real * k + loss)
  {
    HoursLeftWithin(c.paidHours, HoursUsed(c.startTs, now), k, paid, loss);
  }

  lemma HoursLeftWithin(hours: int, used: int, k: real, paid: real, loss: real)
    requires used <= hours && paid + loss >= hours as real * k
    ensures Charge(hours - used, k) as real <= paid - used as real * k + loss + 0.5
    ensures IsWhole(k) ==> Charge(hours - used, k) as real <= paid - used as real * k + loss
    ensures k >= 0.0 ==> 0.0 <= paid - used as real * k + loss
  {
    ChargeBound(hours - used, k);
    Distribute(hours - used, used, k);
    if k >= 0.0 { TimesMonotone(0.0, (hours - used) as real, k); }
  }

  lemma Distribute(a: int, b: int, k: real)
    ensures (a + b) as real * k == a as real * k + b as real * k
  {
  }

  lemma TimesMonotone(a: real, b: real, k: real)
    requires a <= b && k >= 0.0
    ensures a * k <= b * k
  {
  }

  lemma FloorOfShift(x: real, n: int)
    ensures (x - n as real + 0.5).Floor == (x + 0.5).Floor - n
  {
  }

  /** What a cancelled pledge returns and the fee that is kept add up to the rounded pledge. */
  lemma DormantSplitIsExact(cfg: Config, escrow: real, feePct: real)
    ensures var q := CalculateDormantRefund(cfg, escrow, feePct);
      && q.fee >= 0
      && (!q.dust && q.amount >= 0 ==> q.amount + q.fee == RoundCoins(escrow))
  {
    if escrow > 0.0 {
      var pct := if feePct < 0.0 then 0.0 else feePct;
      assert escrow * (pct / 100.0) >= 0.0;
      FloorOfShift(escrow, RoundCoins(escrow * (pct / 100.0)));
    }
  }

  /** With no fee, the whole rounded pledge goes back unless that is dust. */
  lemma FullDormantRefund(cfg: Config, escrow: real)
    requires escrow > 0.0
    ensures var r := RoundCoins(escrow);
      CalculateDormantRefund(cfg, escrow, 0.0) == DormantQuote(if r < cfg.minRefund then 0 else r, 0, r < cfg.minRefund)
  {
    var z := 0.0 / 100.0;
    assert z == 0.0;
    assert escrow * z == 0.0;
    assert RoundCoins(0.0) == 0;
    assert escrow - 0 as real == escrow;
  }

  lemma RoundUpOrDown(x: real)
    requires x >= 0.0
    ensures RoundCoins(x) == x.Floor + if x - x.Floor as real >= 0.5 then 1 else 0
  {
    var f := x.Floor;
    if x - f as real >= 0.5 {
      assert (f + 1) as real <= x + 0.5 < (f + 2) as real;
    } else {
      assert f as real <= x + 0.5 < (f + 1) as real;
    }
  }

  predicate PledgeRoundsUp(cfg: Config, escrow: real) {
    escrow - escrow.Floor as real >= 0.5 && escrow.Floor + 1 >= cfg.minRefund
  }

  /**
    * The full refund of a pledge can exceed what was pledged: exactly when the pledge was paid with
    * more digits than the floor, ends in half a unit or more, and is not dust.
    */
  lemma DormantRefundExceedsEscrow(cfg: Config, escrow: real)
    requires escrow >= 0.0
    ensures CalculateDormantRefund(cfg, escrow, 0.0).amount as real > escrow <==> PledgeRoundsUp(cfg, escrow)
    ensures PledgeRoundsUp(cfg, escrow) ==> CalculateDormantRefund(cfg, escrow, 0.0).amount as real <= escrow + 0.5
  {
    if escrow > 0.0 {
      FullDormantRefund(cfg, escrow);
      RoundUpOrDown(escrow);
    }
  }

  // ---------- when buying in pieces pays ----------

  lemma HalfUnitRoundsUp(x: real, twice: int)
    requires x >= 0.0 && 2.0 * x == twice as real
    ensures RoundCoins(x) as real >= x
  {
    RoundUpOrDown(x);
    var f := x.Floor;
    assert 2.0 * (x - f as real) == (twice - 2 * f) as real;
  }

  /** Half units round up: no charge falls short, and the refund of fewer hours is within the price of all. */
  lemma HalfUnitsRoundUp(hours: int, k: real)
    requires hours >= 1 && k >= 0.0 && IsWhole(2.0 * k)
    ensures Charge(hours, k) as real >= hours as real * k
    ensures Charge(hours - 1, k) as real <= hours as real * k
  {
    var w := (2.0 * k).Floor;
    assert 2.0 * (hours as real * k) == hours as real * (2.0 * k) == (hours * w) as real;
    TimesMonotone(0.0, hours as real, k);
    HalfUnitRoundsUp(hours as real * k, hours * w);
    ChargeBound(hours - 1, k);
    Distribute(hours - 1, 1, k);
    if k < 0.5 {
      assert k == 0.0;
      assert (hours - 1) as real * k == 0.0;
    }
  }

  /** Buying n pieces of h hours costs less than the refund of all those hours but the first. */
  predicate PiecesPay(h: nat, n: nat, k: real) {
    h >= 1 && n >= 1 && Charge(n * h - 1, k) > n * Charge(h, k)
  }

  /** The price of n pieces: what is charged for them, and what the rounding gives away. */
  lemma PiecesPrice(n: nat, h: nat, k: real)
    ensures (n * h) as real * k
      == (n * Charge(h, k)) as real + n as real * (h as real * k - Charge(h, k) as real)
  {
    var p, c := h as real * k, Charge(h, k);
    assert (n * h) as real * k == n as real * p;
    assert n as real * p == n as real * c as real + n as real * (p - c as real);
  }

  lemma PiecesNeverPay(h: nat, n: nat, k: real)
    requires k >= 0.0 && IsWhole(2.0 * k)
    ensures !PiecesPay(h, n, k)
  {
    if h >= 1 && n >= 1 {
      HalfUnitsRoundUp(h, k);
      AtLeastOne(n, h);
      HalfUnitsRoundUp(n * h, k);
      PiecesPrice(n, h, k);
      NotPositive(n as real, h as real * k - Charge(h, k) as real);
    }
  }

  lemma AtLeastOne(n: nat, h: nat)
    requires n >= 1 && h >= 1
    ensures n * h >= 1
  {
  }

  lemma NotPositive(a: real, b: real)
    requires a >= 0.0 && b <= 0.0
    ensures a * b <= 0.0
  {
  }

  /** Some multiple of d exceeds a. */
  lemma Archimedes(a: real, d: real) returns (n: nat)
    requires d > 0.0
    ensures n >= 1 && n as real * d > a
  {
    var q := a / d;
    assert q * d == a;
    n := Max(0, q.Floor) + 1;
    Exceeds(n as real, q, d);
  }

  lemma Exceeds(n: real, q: real, d: real)
    requires d > 0.0 && n > q
    ensures n * d > q * d
  {
  }

  /** Steps of less than a half do not jump over an interval of length a half. */
  lemma {:induction false} StepUp(f: real, x: real, fuel: nat) returns (j: nat)
    requires 0.0 < f < 0.5 && 0.5 <= x <= 1.0 && fuel as real * f > 1.0 - x
    ensures 1.0 < x + j as real * f < 1.5
    decreases fuel
  {
    if x + f > 1.0 {
      j := 1;
    } else {
      Distribute(fuel - 1, 1, f);
      j := StepUp(f, x + f, fuel - 1);
      Distribute(j, 1, f);
      j := j + 1;
    }
  }

  lemma {:induction false} StepDown(g: real, y: real, fuel: nat) returns (j: nat)
    requires 0.0 < g < 0.5 && 0.5 <= y <= 1.0 && fuel as real * g > y - 0.5
    ensures 0.0 < y - j as real * g < 0.5
    decreases fuel
  {
    if y - g < 0.5 {
      j := 1;
    } else {
      Distribute(fuel - 1, 1, g);
      j := StepDown(g, y - g, fuel - 1);
      Distribute(j, 1, g);
      j := j + 1;
    }
  }

  /** From any x, some number of steps of f ends, modulo one, strictly below a half and above zero. */
  lemma IntoLowerHalf(f: real, x: real) returns (j: nat, whole: int)
    requires 0.0 < f < 1.0 && f != 0.5 && 0.0 <= x < 1.0
    ensures 0.0 < x + j as real * f - whole as real < 0.5
  {
    var y := if x == 0.0 then 1.0 else x;
    if 0.0 < x < 0.5 {
      j, whole := 0, 0;
    } else if f < 0.5 {
      var fuel := Archimedes(1.0 - y, f);
      j := StepUp(f, y, fuel);
      whole := if x == 0.0 then 0 else 1;
    } else {
      var fuel := Archimedes(y - 0.5, 1.0 - f);
      j := StepDown(1.0 - f, y, fuel);
      assert j as real * (1.0 - f) == j as real - j as real * f;
      whole := if x == 0.0 then j - 1 else j;
    }
  }

  lemma LowerHalfRoundsDown(x: real, whole: int)
    requires x >= 0.0 && 0.0 < x - whole as real < 0.5
    ensures RoundCoins(x) as real < x
  {
    assert x.Floor == whole;
    RoundUpOrDown(x);
  }

  lemma EqualsWhole(x: real, w: int)
    requires x == w as real
    ensures IsWhole(x)
  {
  }

  lemma HalfUnitsAreWholeTwice(k: real)
    ensures k == k.Floor as real || k == k.Floor as real + 0.5 ==> IsWhole(2.0 * k)
  {
    var f := k.Floor;
    if k == f as real { EqualsWhole(2.0 * k, 2 * f); }
    if k == f as real + 0.5 { EqualsWhole(2.0 * k, 2 * f + 1); }
  }

  /** Among the hours from `least` on there is a number whose charge falls short of its price. */
  lemma SomeChargeFallsShort(k: real, least: nat) returns (h: nat)
    requires k >= 0.0 && !IsWhole(2.0 * k)
    ensures h >= least && h >= 1 && Charge(h, k) as real < h as real * k
  {
    HalfUnitsAreWholeTwice(k);
    var first, f := least + 1, k - k.Floor as real;
    var p := first as real * k;
    var j, whole := IntoLowerHalf(f, p - p.Floor as real);
    h := first + j;
    FallsShortThere(k, first, j, k.Floor, p.Floor, whole);
  }

  lemma FallsShortThere(k: real, first: nat, j: nat, units: int, floor: int, whole: int)
    requires k >= 0.0 && 0.0 < first as real * k - floor as real + j as real * (k - units as real) - whole as real < 0.5
    ensures Charge(first + j, k) as real < (first + j) as real * k
  {
    var x := (first + j) as real * k;
    Distribute(first, j, k);
    WholeTimes(j, k, units);
    TimesMonotone(0.0, (first + j) as real, k);
    LowerHalfRoundsDown(x, floor + j * units + whole);
  }

  lemma WholeTimes(j: nat, k: real, units: int)
    ensures j as real * (k - units as real) == j as real * k - (j * units) as real
  {
  }

  /** Enough pieces that each fall short make up for the hour that is not refunded, and for any dust limit. */
  lemma EnoughPieces(k: real, h: nat, least: int) returns (n: nat)
    requires k > 0.0 && h >= 1 && Charge(h, k) as real < h as real * k
    ensures PiecesPay(h, n, k) && Charge(n * h - 1, k) >= least
  {
    var p := h as real * k;
    TimesMonotone(1.0, h as real, k);
    n := EnoughTimes(k + 0.5, p - Charge(h, k) as real, Max(0, least) as real + k + 0.5, p);
    PiecesAreEnough(n, h, k, least);
  }

  lemma EnoughTimes(a: real, d: real, b: real, p: real) returns (n: nat)
    requires d > 0.0 && p > 0.0
    ensures n >= 1 && n as real * d > a && n as real * p > b
  {
    var i := Archimedes(a, d);
    var j := Archimedes(b, p);
    n := Max(i, j);
    TimesMonotone(i as real, n as real, d);
    TimesMonotone(j as real, n as real, p);
  }

  lemma PiecesAreEnough(n: nat, h: nat, k: real, least: int)
    requires n >= 1 && h >= 1 && n as real * (h as real * k - Charge(h, k) as real) > k + 0.5
    requires n as real * (h as real * k) > Max(0, least) as real + k + 0.5
    ensures PiecesPay(h, n, k) && Charge(n * h - 1, k) >= least
  {
    AtLeastOne(n, h);
    PiecesPrice(n, h, k);
    LastPiece(n, h, k);
  }

  lemma LastPiece(n: nat, h: nat, k: real)
    ensures (n * h) as real * k == n as real * (h as real * k)
    ensures Charge(n * h - 1, k) as real >= (n * h) as real * k - k - 0.5
  {
    ChargeBound(n * h - 1, k);
    Distribute(n * h - 1, 1, k);
  }

  /**
    * Buying and extending in equal pieces can bring back more than was paid for exactly those hourly costs
    * that are not made of half units; and then in pieces of any least size, for refunds of any least amount.
    */
  lemma PiecesPayExactlyWhen(k: real)
    requires k >= 0.0
    ensures (exists h: nat, n: nat :: PiecesPay(h, n, k)) <==> !IsWhole(2.0 * k)
    ensures !IsWhole(2.0 * k) ==>
      forall leastHours: nat, leastRefund: int :: PiecesPayFrom(k, leastHours, leastRefund)
  {
    if IsWhole(2.0 * k) {
      forall h: nat, n: nat ensures !PiecesPay(h, n, k) { PiecesNeverPay(h, n, k); }
    } else {
      forall leastHours: nat, leastRefund: int ensures PiecesPayFrom(k, leastHours, leastRefund) {
        var h := SomeChargeFallsShort(k, leastHours);
        var n := EnoughPieces(k, h, leastRefund);
      }
      assert PiecesPayFrom(k, 1, 0);
    }
  }

  ghost predicate PiecesPayFrom(k: real, leastHours: nat, leastRefund: int) {
    exists h: nat, n: nat :: PiecesPay(h, n, k) && h >= leastHours && Charge(n * h - 1, k) >= leastRefund
  }
}
