/**
  * The settlement protocol as a whole: the node, the reports in flight, the box and its receipts.
  * The network loses, repeats, reorders and forges; the node restarts at any point.
  */
module SettlementRuns {
  import opened Prelude
  import opened Settlement

  // ---------- the journal, claim by claim ----------

  /** The receipts that made a difference for one claim, in order. */
  function History(journal: seq<Entry>, ref: Ref): seq<Entry> {
    if journal == [] then []
    else
      var e := journal[|journal| - 1];
      History(journal[..|journal| - 1], ref) + if e.receipt.ref == ref then [e] else []
  }

  lemma HistoryAppend(journal: seq<Entry>, e: Entry, ref: Ref)
    ensures History(journal + [e], ref) == History(journal, ref) + if e.receipt.ref == ref then [e] else []
  {
    assert (journal + [e])[..|journal|] == journal;
  }

  lemma {:induction false} HistoryOfNobody(journal: seq<Entry>, ref: Ref)
    requires forall k | 0 <= k < |journal| :: journal[k].receipt.ref != ref
    ensures History(journal, ref) == []
    decreases |journal|
  {
    if journal != [] { HistoryOfNobody(journal[..|journal| - 1], ref); }
  }

  /** The handler calls in a history: of onCompleted, or of onSettled. */
  function Calls(h: seq<Entry>, completion: bool): nat {
    if h == [] then 0
    else
      var e := h[|h| - 1];
      Calls(h[..|h| - 1], completion) + if e.handled && e.completion == completion then 1 else 0
  }

  /** At most a first receipt and a completion, the latter only after a pending one. */
  ghost predicate Shape(h: seq<Entry>) {
    && |h| <= 2
    && (|h| >= 1 ==> !h[0].completion)
    && (|h| == 2 ==> h[1].completion && h[0].receipt.verdict.VPending? && h[1].receipt.Definitive())
  }

  /** The refund row follows the last receipt, if that decides and its handler was called. */
  ghost predicate RefundFollows(refund: Refund, h: seq<Entry>) {
    var open := refund.(status := Pending, tx := None);
    if h != [] && h[|h| - 1].handled && h[|h| - 1].receipt.Definitive()
    then refund == Outcome(open, h[|h| - 1].receipt) else refund == open
  }

  // ---------- what the node keeps ----------

  /** A queue row and the history of its claim tell the same story. */
  ghost predicate RowFits(verify: Receipt -> bool, row: Row, h: seq<Entry>, ref: Ref) {
    && row.ref == ref && row.nonce == SettleNonce(ref)
    && (row.status.Waiting? <==> row.receipt.None?) && (row.status.Waiting? <==> h == [])
    && Shape(h)
    && (h != [] ==> row.receipt == Some(h[|h| - 1].receipt) && (row.status.Parked? <==> h[0].receipt.verdict.VFailed?))
    && (forall k | 0 <= k < |h| :: h[k].receipt.ref == ref && verify(h[k].receipt) && h[k].meta == row.meta)
  }

  ghost predicate RefundFits(row: Row, refunds: seq<Refund>, h: seq<Entry>) {
    row.meta.Some? ==>
      && row.meta.value < |refunds| && refunds[row.meta.value].claim == row.ref
      && RefundFollows(refunds[row.meta.value], h)
  }

  ghost predicate RowOk(verify: Receipt -> bool, n: Node, ref: Ref)
    requires ref in n.rows
  {
    && RowFits(verify, n.rows[ref], History(n.journal, ref), ref)
    && RefundFits(n.rows[ref], n.refunds, History(n.journal, ref))
  }

  /** A report, published or in flight, is what the row of its claim says. */
  ghost predicate Matches(n: Node, report: Report) {
    report.ref in n.rows && report == ReportOf(n.rows[report.ref])
  }

  ghost predicate NodeOk(verify: Receipt -> bool, n: Node) {
    && (forall ref {:trigger RowOk(verify, n, ref)} | ref in n.rows :: RowOk(verify, n, ref))
    && (forall k | 0 <= k < |n.journal| :: n.journal[k].receipt.ref in n.rows)
    && (forall k {:trigger Matches(n, n.published[k])} | 0 <= k < |n.published| :: Matches(n, n.published[k]))
  }

  /** What a row keeps, whatever happens to it. */
  ghost predicate SameReport(row: Row, later: Row) {
    ReportOf(later) == ReportOf(row) && later.meta == row.meta
    && (row.receipt.Some? && !row.receipt.value.verdict.VPending? ==> later.receipt == row.receipt)
  }

  ghost predicate RefundKept(refund: Refund, later: Refund) {
    && later.claim == refund.claim && later.amount == refund.amount
    && (!refund.status.Pending? ==> later == refund)
  }

  /** What every step keeps of what is on disk. */
  ghost predicate Kept(n: Node, m: Node) {
    && n.rows.Keys <= m.rows.Keys
    && (forall ref {:trigger SameReport(n.rows[ref], m.rows[ref])} | ref in n.rows ::
        SameReport(n.rows[ref], m.rows[ref]))
    && |n.refunds| <= |m.refunds|
    && (forall id {:trigger RefundKept(n.refunds[id], m.refunds[id])} | 0 <= id < |n.refunds| ::
        RefundKept(n.refunds[id], m.refunds[id]))
    && n.published <= m.published && n.journal <= m.journal
  }

  lemma KeptTransitive(a: Node, b: Node, c: Node)
    requires Kept(a, b) && Kept(b, c)
    ensures Kept(a, c)
  {
    forall ref | ref in a.rows ensures SameReport(a.rows[ref], c.rows[ref]) {
      assert SameReport(a.rows[ref], b.rows[ref]) && SameReport(b.rows[ref], c.rows[ref]);
    }
    forall id | 0 <= id < |a.refunds| ensures RefundKept(a.refunds[id], c.refunds[id]) {
      assert RefundKept(a.refunds[id], b.refunds[id]) && RefundKept(b.refunds[id], c.refunds[id]);
    }
  }

  lemma StillMatches(n: Node, m: Node, report: Report)
    requires Matches(n, report) && Kept(n, m)
    ensures Matches(m, report)
  {
    assert SameReport(n.rows[report.ref], m.rows[report.ref]);
  }

  /** Rows may note attempts, and refund rows and reports may be added. */
  lemma NodeFrame(verify: Receipt -> bool, n: Node, m: Node)
    requires NodeOk(verify, n) && m.journal == n.journal && m.rows.Keys == n.rows.Keys && n.refunds <= m.refunds
    requires forall ref | ref in n.rows ::
      m.rows[ref] == n.rows[ref].(lastAttempt := m.rows[ref].lastAttempt, attempts := m.rows[ref].attempts)
    requires n.published <= m.published && forall k | |n.published| <= k < |m.published| :: Matches(n, m.published[k])
    ensures NodeOk(verify, m) && Kept(n, m)
  {
    forall ref | ref in m.rows ensures RowOk(verify, m, ref) { assert RowOk(verify, n, ref); }
    forall k | 0 <= k < |m.published| ensures Matches(m, m.published[k]) { assert Matches(n, m.published[k]); }
  }

  lemma PublishKeeps(verify: Receipt -> bool, n: Node, row: Row, a: Attempt)
    requires NodeOk(verify, n) && Matches(n, ReportOf(row))
    ensures NodeOk(verify, Publish(n, row, a)) && Kept(n, Publish(n, row, a))
    ensures Publish(n, row, a).rows.Keys == n.rows.Keys
  {
    NodeFrame(verify, n, Publish(n, row, a));
  }

  lemma NewRowOk(verify: Receipt -> bool, n: Node, ref: Ref, facts: string, now: int, id: nat)
    requires NodeOk(verify, n) && ref !in n.rows && id < |n.refunds| && n.refunds[id].claim == ref
    requires n.refunds[id].status.Pending? && n.refunds[id].tx.None?
    ensures RowOk(verify, Enqueue(n, ref, facts, SettleNonce(ref), now, Some(id)), ref)
  {
    HistoryOfNobody(n.journal, ref);
  }

  lemma EnqueueKeepsDisk(verify: Receipt -> bool, n: Node, ref: Ref, facts: string, nonce: string, now: int,
                         meta: Option<nat>)
    ensures Kept(n, Enqueue(n, ref, facts, nonce, now, meta))
  {
  }

  lemma EnqueueKeeps(verify: Receipt -> bool, n: Node, ref: Ref, facts: string, now: int, id: nat)
    requires NodeOk(verify, n) && id < |n.refunds| && n.refunds[id].claim == ref
    requires n.refunds[id].status.Pending? && n.refunds[id].tx.None?
    ensures var m := Enqueue(n, ref, facts, SettleNonce(ref), now, Some(id)); NodeOk(verify, m) && Kept(n, m)
  {
    var m := Enqueue(n, ref, facts, SettleNonce(ref), now, Some(id));
    EnqueueKeepsDisk(verify, n, ref, facts, SettleNonce(ref), now, Some(id));
    if ref !in n.rows { NewRowOk(verify, n, ref, facts, now, id); }
    forall r | r in m.rows ensures RowOk(verify, m, r) { if r in n.rows { assert RowOk(verify, n, r); } }
    forall k | 0 <= k < |m.published| ensures Matches(m, m.published[k]) { StillMatches(n, m, n.published[k]); }
  }

  lemma BroadcastKeeps(verify: Receipt -> bool, n: Node, ref: Ref, amount: real, facts: string, now: int)
    requires NodeOk(verify, n)
    ensures NodeOk(verify, Broadcast(n, ref, amount, facts, now)) && Kept(n, Broadcast(n, ref, amount, facts, now))
  {
    if amount <= 0.0 {
      NodeFrame(verify, n, Broadcast(n, ref, amount, facts, now));
    } else {
      NodeFrame(verify, n, Recorded(n, ref, amount));
      EnqueueKeeps(verify, Recorded(n, ref, amount), ref, facts, now, |n.refunds|);
      KeptTransitive(n, Recorded(n, ref, amount), Broadcast(n, ref, amount, facts, now));
    }
  }

  /** The receipt is the first one for its row, or completes a pending one. */
  predicate Counts(verify: Receipt -> bool, n: Node, receipt: Receipt) {
    && receipt.ref != "" && verify(receipt) && receipt.ref in n.rows
    && (n.rows[receipt.ref].status.Waiting? || Completes(n.rows[receipt.ref], receipt))
  }

  lemma ReceiptEffect(verify: Receipt -> bool, n: Node, receipt: Receipt, handled: bool)
    ensures var m := HandleReceipt(verify, n, receipt, handled);
      if !Counts(verify, n, receipt) then m == n
      else
        var row := n.rows[receipt.ref];
        var waiting := row.status.Waiting?;
        && m.rows == n.rows[receipt.ref := row.(receipt := Some(receipt), status := m.rows[receipt.ref].status)]
        && m.rows[receipt.ref].status
           == (if !waiting then row.status else if receipt.verdict.VFailed? then Parked else Settled)
        && m.journal == n.journal + [Entry(receipt, !waiting, row.meta, handled)]
        && m.refunds == (if handled && row.meta.Some? && row.meta.value < |n.refunds|
                         then n.refunds[row.meta.value := Outcome(n.refunds[row.meta.value], receipt)] else n.refunds)
        && m.published == n.published && m.client == n.client
  {
  }

  /** The history of a row grows by the receipt that it takes. */
  lemma RowTakes(verify: Receipt -> bool, row: Row, row': Row, h: seq<Entry>, receipt: Receipt, handled: bool)
    requires RowFits(verify, row, h, receipt.ref) && verify(receipt) && (row.status.Waiting? || Completes(row, receipt))
    requires row' == row.(receipt := Some(receipt), status := row'.status)
    requires row'.status
      == if !row.status.Waiting? then row.status else if receipt.verdict.VFailed? then Parked else Settled
    ensures RowFits(verify, row', h + [Entry(receipt, !row.status.Waiting?, row.meta, handled)], receipt.ref)
  {
  }

  lemma RefundTakes(verify: Receipt -> bool, row: Row, row': Row, refunds: seq<Refund>, h: seq<Entry>,
                    receipt: Receipt, handled: bool)
    requires RowFits(verify, row, h, receipt.ref) && (row.status.Waiting? || Completes(row, receipt))
    requires RefundFits(row, refunds, h) && row'.ref == row.ref && row'.meta == row.meta
    ensures var e := Entry(receipt, !row.status.Waiting?, row.meta, handled);
      var refunds' := if handled && row.meta.Some?
                      then refunds[row.meta.value := Outcome(refunds[row.meta.value], receipt)] else refunds;
      && RefundFits(row', refunds', h + [e])
      && forall id | 0 <= id < |refunds| :: RefundKept(refunds[id], refunds'[id])
  {
  }

  lemma ReceiptKeepsItsRow(verify: Receipt -> bool, n: Node, receipt: Receipt, handled: bool)
    requires NodeOk(verify, n) && Counts(verify, n, receipt)
    ensures var m := HandleReceipt(verify, n, receipt, handled); receipt.ref in m.rows && RowOk(verify, m, receipt.ref)
  {
    ReceiptEffect(verify, n, receipt, handled);
    var m := HandleReceipt(verify, n, receipt, handled);
    var row, h := n.rows[receipt.ref], History(n.journal, receipt.ref);
    assert RowOk(verify, n, receipt.ref);
    HistoryAppend(n.journal, Entry(receipt, !row.status.Waiting?, row.meta, handled), receipt.ref);
    RowTakes(verify, row, m.rows[receipt.ref], h, receipt, handled);
    RefundTakes(verify, row, m.rows[receipt.ref], n.refunds, h, receipt, handled);
  }

  /** The refund row that a queue row names is named by no other. */
  lemma RefundElsewhere(row: Row, refunds: seq<Refund>, h: seq<Entry>, id: nat, refund: Refund)
    requires RefundFits(row, refunds, h) && id < |refunds| && refunds[id].claim != row.ref
    ensures RefundFits(row, refunds[id := refund], h)
  {
  }

  lemma ReceiptKeepsOtherRow(verify: Receipt -> bool, n: Node, receipt: Receipt, handled: bool, ref: Ref)
    requires NodeOk(verify, n) && Counts(verify, n, receipt) && ref in n.rows && ref != receipt.ref
    ensures var m := HandleReceipt(verify, n, receipt, handled); ref in m.rows && RowOk(verify, m, ref)
  {
    ReceiptEffect(verify, n, receipt, handled);
    var row := n.rows[receipt.ref];
    assert RowOk(verify, n, ref) && RowOk(verify, n, receipt.ref);
    HistoryAppend(n.journal, Entry(receipt, !row.status.Waiting?, row.meta, handled), ref);
    if row.meta.Some? {
      RefundElsewhere(n.rows[ref], n.refunds, History(n.journal, ref), row.meta.value,
                      Outcome(n.refunds[row.meta.value], receipt));
    }
  }

  lemma ReceiptKeepsDisk(verify: Receipt -> bool, n: Node, receipt: Receipt, handled: bool)
    requires NodeOk(verify, n) && Counts(verify, n, receipt)
    ensures Kept(n, HandleReceipt(verify, n, receipt, handled))
  {
    ReceiptEffect(verify, n, receipt, handled);
    assert RowOk(verify, n, receipt.ref);
    var row := n.rows[receipt.ref];
    RefundTakes(verify, row, row, n.refunds, History(n.journal, receipt.ref), receipt, handled);
  }

  lemma ReceiptKeeps(verify: Receipt -> bool, n: Node, receipt: Receipt, handled: bool)
    requires NodeOk(verify, n)
    ensures var m := HandleReceipt(verify, n, receipt, handled);
      NodeOk(verify, m) && Kept(n, m) && m.rows.Keys == n.rows.Keys
  {
    var m := HandleReceipt(verify, n, receipt, handled);
    ReceiptEffect(verify, n, receipt, handled);
    if Counts(verify, n, receipt) {
      ReceiptKeepsDisk(verify, n, receipt, handled);
      forall ref | ref in m.rows ensures RowOk(verify, m, ref) {
        if ref == receipt.ref {
          ReceiptKeepsItsRow(verify, n, receipt, handled);
        } else {
          ReceiptKeepsOtherRow(verify, n, receipt, handled, ref);
        }
      }
      forall k | 0 <= k < |m.published| ensures Matches(m, m.published[k]) { StillMatches(n, m, n.published[k]); }
    }
  }

  // ---------- the whole system ----------

  /** The box acts once per nonce; `disbursed` lists the claims it acted on, `emitted` all it ever signed. */
  datatype Sys = Sys(node: Node, inFlight: seq<Row>, acted: set<string>, disbursed: seq<Ref>, emitted: set<Receipt>)

  const START := Sys(FRESH, [], {}, [], {})

  datatype Event =
    | EBroadcast(ref: Ref, amount: real, facts: string, now: int)
    | EBroadcastDies(ref: Ref, amount: real)          // between the refund row and the queue row
    | EDrain(rows: seq<Row>)                          // the drainer reads the table
    | EPublish(k: nat, attempt: Attempt)              // a row read earlier is published
    | EDeliver(receipt: Receipt, handled: bool)       // unhandled: the node dies before the handler
    | ECrash
    | EBoxActs(report: Report, receipt: Receipt)
    | EBoxCompletes(receipt: Receipt)

  function Restarted(s: Sys): Sys { s.(node := s.node.(client := false), inFlight := []) }

  /** What can happen at all, with any box and any network: receipts of any content, at any time. */
  ghost predicate Possible(s: Sys, e: Event) {
    match e
    case EDrain(rows) => IsPending(s.node, rows)
    case EPublish(k, _) => k < |s.inFlight|
    case _ => true
  }

  /**
    * What a sound box adds: no one else can sign for it, it acts on published reports only, signs nothing
    * that the node does not know, and completes what it left pending, once.
    */
  ghost predicate Trusted(verify: Receipt -> bool, s: Sys, e: Event) {
    match e
    case EDeliver(receipt, _) => verify(receipt) ==> receipt in s.emitted
    case EBoxActs(report, receipt) =>
      report in s.node.published && receipt.ref == report.ref && verify(receipt) && !receipt.verdict.VOther?
    case EBoxCompletes(receipt) =>
      && verify(receipt) && receipt.Definitive()
      && (exists p :: p in s.emitted && p.ref == receipt.ref && p.verdict.VPending?)
      && (forall t | t in s.emitted && t.ref == receipt.ref :: !t.Definitive())
    case _ => true
  }

  ghost function Apply(verify: Receipt -> bool, s: Sys, e: Event): Sys
    requires Possible(s, e)
  {
    match e
    case EBroadcast(ref, amount, facts, now) =>
      var m := Broadcast(s.node, ref, amount, facts, now);
      s.(node := m, inFlight := if ref in m.rows && ref !in s.node.rows then s.inFlight + [m.rows[ref]] else s.inFlight)
    case EBroadcastDies(ref, amount) => Restarted(s.(node := Recorded(s.node, ref, amount)))
    case EDrain(rows) => s.(inFlight := s.inFlight + rows)
    case EPublish(k, a) =>
      s.(node := Publish(s.node, s.inFlight[k], a), inFlight := s.inFlight[..k] + s.inFlight[k + 1..])
    case EDeliver(receipt, handled) =>
      var done := s.(node := HandleReceipt(verify, s.node, receipt, handled));
      if handled then done else Restarted(done)
    case ECrash => Restarted(s)
    case EBoxActs(report, receipt) =>
      if report.nonce in s.acted then s
      else s.(acted := s.acted + {report.nonce}, disbursed := s.disbursed + [report.ref],
              emitted := s.emitted + {receipt})
    case EBoxCompletes(receipt) => s.(emitted := s.emitted + {receipt})
  }

  ghost predicate StepAt(verify: Receipt -> bool, states: seq<Sys>, events: seq<Event>, k: nat)
    requires k < |events| && |states| == |events| + 1
  {
    Possible(states[k], events[k]) && states[k + 1] == Apply(verify, states[k], events[k])
  }

  /** Any run, whatever the box does. */
  ghost predicate IsRun(verify: Receipt -> bool, states: seq<Sys>, events: seq<Event>) {
    && |states| == |events| + 1 && states[0] == START
    && forall k | 0 <= k < |events| :: StepAt(verify, states, events, k)
  }

  /** A run with a sound box. */
  ghost predicate IsBoxRun(verify: Receipt -> bool, states: seq<Sys>, events: seq<Event>) {
    && IsRun(verify, states, events)
    && forall k | 0 <= k < |events| :: Trusted(verify, states[k], events[k])
  }

  /** What the node keeps with any box. */
  ghost predicate Inv(verify: Receipt -> bool, s: Sys) {
    && NodeOk(verify, s.node)
    && (forall k | 0 <= k < |s.inFlight| :: Matches(s.node, ReportOf(s.inFlight[k])))
  }

  /** What a sound box signs: for each claim it acted on, at most one pending and one definitive receipt. */
  ghost predicate BoxOk(verify: Receipt -> bool, s: Sys) {
    && (forall r | r in s.emitted :: verify(r) && !r.verdict.VOther? && r.ref in s.disbursed)
    && (forall q, r | q in s.emitted && r in s.emitted && q.ref == r.ref && q.Definitive() == r.Definitive() :: q == r)
    && (forall ref | ref in s.disbursed :: SettleNonce(ref) in s.acted && ref in s.node.rows)
    && (forall j, k | 0 <= j < k < |s.disbursed| :: s.disbursed[j] != s.disbursed[k])
    && (forall k | 0 <= k < |s.node.journal| :: s.node.journal[k].receipt in s.emitted)
  }

  /** Reports in flight still match when the node moves on. */
  lemma NodeStep(verify: Receipt -> bool, s: Sys, s': Sys)
    requires Inv(verify, s) && NodeOk(verify, s'.node) && Kept(s.node, s'.node)
    requires forall k | 0 <= k < |s'.inFlight| ::
      s'.inFlight[k] in s.inFlight || Matches(s'.node, ReportOf(s'.inFlight[k]))
    ensures Inv(verify, s')
  {
    forall k | 0 <= k < |s'.inFlight| ensures Matches(s'.node, ReportOf(s'.inFlight[k])) {
      if s'.inFlight[k] in s.inFlight { StillMatches(s.node, s'.node, ReportOf(s'.inFlight[k])); }
    }
  }

  lemma RestartKeeps(verify: Receipt -> bool, s: Sys)
    requires Inv(verify, s)
    ensures Inv(verify, Restarted(s)) && Kept(s.node, Restarted(s).node)
  {
    NodeFrame(verify, s.node, Restarted(s).node);
    NodeStep(verify, s, Restarted(s));
  }

  lemma DeliverKeeps(verify: Receipt -> bool, s: Sys, receipt: Receipt, handled: bool)
    requires Inv(verify, s)
    ensures var s' := Apply(verify, s, EDeliver(receipt, handled)); Inv(verify, s') && Kept(s.node, s'.node)
  {
    var done := s.(node := HandleReceipt(verify, s.node, receipt, handled));
    ReceiptKeeps(verify, s.node, receipt, handled);
    NodeStep(verify, s, done);
    if !handled {
      RestartKeeps(verify, done);
      KeptTransitive(s.node, done.node, Restarted(done).node);
    }
  }

  lemma BroadcastStepKeeps(verify: Receipt -> bool, s: Sys, e: Event)
    requires Inv(verify, s) && (e.EBroadcast? || e.EBroadcastDies?)
    ensures var s' := Apply(verify, s, e); Inv(verify, s') && Kept(s.node, s'.node)
  {
    match e {
      case EBroadcast(ref, amount, facts, now) =>
        BroadcastKeeps(verify, s.node, ref, amount, facts, now);
        var s' := Apply(verify, s, e);
        if ref in s'.node.rows { assert RowOk(verify, s'.node, ref); }
        NodeStep(verify, s, s');
      case EBroadcastDies(ref, amount) =>
        NodeFrame(verify, s.node, Recorded(s.node, ref, amount));
        var noted := s.(node := Recorded(s.node, ref, amount));
        NodeStep(verify, s, noted);
        RestartKeeps(verify, noted);
        KeptTransitive(s.node, noted.node, Restarted(noted).node);
    }
  }

  lemma DrainKeeps(verify: Receipt -> bool, s: Sys, rows: seq<Row>)
    requires Inv(verify, s) && IsPending(s.node, rows)
    ensures Inv(verify, s.(inFlight := s.inFlight + rows))
  {
    forall k | 0 <= k < |rows| ensures Matches(s.node, ReportOf(rows[k])) { assert RowOk(verify, s.node, rows[k].ref); }
  }

  lemma PublishStepKeeps(verify: Receipt -> bool, s: Sys, k: nat, a: Attempt)
    requires Inv(verify, s) && k < |s.inFlight|
    ensures var s' := Apply(verify, s, EPublish(k, a)); Inv(verify, s') && Kept(s.node, s'.node)
  {
    PublishKeeps(verify, s.node, s.inFlight[k], a);
    NodeStep(verify, s, Apply(verify, s, EPublish(k, a)));
  }

  /** Every possible event, with any box, keeps the node's invariant and what is on disk. */
  lemma StepKeeps(verify: Receipt -> bool, s: Sys, e: Event)
    requires Inv(verify, s) && Possible(s, e)
    ensures var s' := Apply(verify, s, e); Inv(verify, s') && Kept(s.node, s'.node)
  {
    match e {
      case EBroadcast(_, _, _, _) => BroadcastStepKeeps(verify, s, e);
      case EBroadcastDies(_, _) => BroadcastStepKeeps(verify, s, e);
      case EDrain(rows) => DrainKeeps(verify, s, rows);
      case EPublish(k, a) => PublishStepKeeps(verify, s, k, a);
      case EDeliver(receipt, handled) => DeliverKeeps(verify, s, receipt, handled);
      case ECrash => RestartKeeps(verify, s);
      case _ => NodeFrame(verify, s.node, s.node);
    }
  }

  lemma BoxActsKeeps(verify: Receipt -> bool, s: Sys, report: Report, receipt: Receipt)
    requires Inv(verify, s) && BoxOk(verify, s) && Trusted(verify, s, EBoxActs(report, receipt))
    ensures BoxOk(verify, Apply(verify, s, EBoxActs(report, receipt)))
  {
    assert Matches(s.node, report);
    assert RowOk(verify, s.node, report.ref);
    if report.nonce !in s.acted {
      assert report.ref !in s.disbursed;
    }
  }

  lemma BoxFrame(verify: Receipt -> bool, s: Sys, s': Sys)
    requires BoxOk(verify, s) && s.node.rows.Keys <= s'.node.rows.Keys
    requires s'.acted == s.acted && s'.disbursed == s.disbursed && s'.emitted == s.emitted
    requires forall k | 0 <= k < |s'.node.journal| ::
      s'.node.journal[k] in s.node.journal || s'.node.journal[k].receipt in s.emitted
    ensures BoxOk(verify, s')
  {
  }

  lemma DeliverKeepsBox(verify: Receipt -> bool, s: Sys, receipt: Receipt, handled: bool)
    requires Inv(verify, s) && BoxOk(verify, s) && Trusted(verify, s, EDeliver(receipt, handled))
    ensures BoxOk(verify, Apply(verify, s, EDeliver(receipt, handled)))
  {
    ReceiptKeeps(verify, s.node, receipt, handled);
    ReceiptEffect(verify, s.node, receipt, handled);
    BoxFrame(verify, s, Apply(verify, s, EDeliver(receipt, handled)));
  }

  /** Every event with a sound box keeps what the box promises. */
  lemma BoxStepKeeps(verify: Receipt -> bool, s: Sys, e: Event)
    requires Inv(verify, s) && BoxOk(verify, s) && Possible(s, e) && Trusted(verify, s, e)
    ensures BoxOk(verify, Apply(verify, s, e))
  {
    match e {
      case EBoxActs(report, receipt) => BoxActsKeeps(verify, s, report, receipt);
      case EBoxCompletes(_) =>
      case EDeliver(receipt, handled) => DeliverKeepsBox(verify, s, receipt, handled);
      case _ =>
        StepKeeps(verify, s, e);
        BoxFrame(verify, s, Apply(verify, s, e));
    }
  }

  lemma {:induction false} RunKeeps(verify: Receipt -> bool, states: seq<Sys>, events: seq<Event>, k: nat)
    requires IsRun(verify, states, events) && k < |states|
    ensures Inv(verify, states[k])
    ensures k > 0 ==> Kept(states[k - 1].node, states[k].node)
  {
    if k > 0 {
      RunKeeps(verify, states, events, k - 1);
      assert StepAt(verify, states, events, k - 1);
      StepKeeps(verify, states[k - 1], events[k - 1]);
    }
  }

  lemma {:induction false} BoxRunKeeps(verify: Receipt -> bool, states: seq<Sys>, events: seq<Event>, k: nat)
    requires IsBoxRun(verify, states, events) && k < |states|
    ensures BoxOk(verify, states[k])
  {
    if k > 0 {
      BoxRunKeeps(verify, states, events, k - 1);
      RunKeeps(verify, states, events, k - 1);
      assert StepAt(verify, states, events, k - 1) && Trusted(verify, states[k - 1], events[k - 1]);
      BoxStepKeeps(verify, states[k - 1], events[k - 1]);
    }
  }

  lemma {:induction false} RunKeepsDisk(verify: Receipt -> bool, states: seq<Sys>, events: seq<Event>, a: nat, b: nat)
    requires IsRun(verify, states, events) && a <= b < |states|
    ensures Kept(states[a].node, states[b].node)
    decreases b
  {
    if a < b {
      RunKeepsDisk(verify, states, events, a, b - 1);
      RunKeeps(verify, states, events, b);
      KeptTransitive(states[a].node, states[b - 1].node, states[b].node);
    }
  }

  // ---------- the main results ----------

  lemma ShapedCalls(h: seq<Entry>)
    requires Shape(h)
    ensures Calls(h, false) <= 1 && Calls(h, true) <= 1
    ensures Calls(h, true) == 1 ==> |h| == 2
    ensures (forall k | 0 <= k < |h| :: h[k].handled) ==>
      Calls(h, false) == (if h == [] then 0 else 1) && Calls(h, true) == (if |h| == 2 then 1 else 0)
  {
    if |h| == 1 {
      assert h[..0] == [];
    } else if |h| == 2 {
      assert h[..1][..0] == [];
      assert h[..1][0] == h[0];
    }
  }

  /**
    * Settlement finalises once.  Whatever the box, the network and the restarts do, each claim calls onSettled
    * at most once and onCompleted at most once, the latter only when the receipt taken first said pending.
    */
  lemma FiresAtMostOnce(verify: Receipt -> bool, states: seq<Sys>, events: seq<Event>, k: nat, ref: Ref)
    requires IsRun(verify, states, events) && k < |states|
    ensures var h := History(states[k].node.journal, ref);
      && Calls(h, false) <= 1 && Calls(h, true) <= 1
      && (Calls(h, true) == 1 ==> |h| == 2 && h[0].receipt.verdict.VPending? && h[1].receipt.Definitive())
  {
    RunKeeps(verify, states, events, k);
    var n := states[k].node;
    if ref in n.rows {
      assert RowOk(verify, n, ref);
      ShapedCalls(History(n.journal, ref));
    } else {
      HistoryOfNobody(n.journal, ref);
    }
  }

  /** No handler call for the claim was lost to a crash. */
  ghost predicate NoCallLost(events: seq<Event>, ref: Ref) {
    forall k | 0 <= k < |events| && events[k].EDeliver? && events[k].receipt.ref == ref :: events[k].handled
  }

  lemma {:induction false} AllHandled(verify: Receipt -> bool, states: seq<Sys>, events: seq<Event>, k: nat, ref: Ref)
    requires IsRun(verify, states, events) && NoCallLost(events, ref) && k < |states|
    ensures forall j | 0 <= j < |states[k].node.journal| && states[k].node.journal[j].receipt.ref == ref ::
      states[k].node.journal[j].handled
  {
    if k > 0 {
      AllHandled(verify, states, events, k - 1, ref);
      assert StepAt(verify, states, events, k - 1);
      if events[k - 1].EDeliver? {
        ReceiptEffect(verify, states[k - 1].node, events[k - 1].receipt, events[k - 1].handled);
      }
    }
  }

  lemma {:induction false} HandledHistory(journal: seq<Entry>, ref: Ref)
    requires forall j | 0 <= j < |journal| && journal[j].receipt.ref == ref :: journal[j].handled
    ensures forall j | 0 <= j < |History(journal, ref)| :: History(journal, ref)[j].handled
    decreases |journal|
  {
    if journal != [] { HandledHistory(journal[..|journal| - 1], ref); }
  }

  /** Without a crash between its own queue mark and handler, a terminal row has called onSettled exactly once. */
  lemma FiresExactlyOnce(verify: Receipt -> bool, states: seq<Sys>, events: seq<Event>, k: nat, ref: Ref)
    requires IsRun(verify, states, events) && NoCallLost(events, ref) && k < |states| && ref in states[k].node.rows
    ensures var row, h := states[k].node.rows[ref], History(states[k].node.journal, ref);
      && Calls(h, false) == (if row.status.Waiting? then 0 else 1)
      && Calls(h, true) == (if |h| == 2 then 1 else 0)
  {
    RunKeeps(verify, states, events, k);
    AllHandled(verify, states, events, k, ref);
    HandledHistory(states[k].node.journal, ref);
    assert RowOk(verify, states[k].node, ref);
    ShapedCalls(History(states[k].node.journal, ref));
  }

  /**
    * A row tells its history: it waits while no receipt has counted, stores the last one that did, and is
    * parked as failed exactly when the first one said so.
    */
  lemma RowTellsItsHistory(verify: Receipt -> bool, states: seq<Sys>, events: seq<Event>, k: nat, ref: Ref)
    requires IsRun(verify, states, events) && k < |states| && ref in states[k].node.rows
    ensures var row, h := states[k].node.rows[ref], History(states[k].node.journal, ref);
      && (row.status.Waiting? <==> h == []) && (row.receipt.Some? <==> h != [])
      && (h != [] ==> row.receipt.value == h[|h| - 1].receipt)
      && (row.status.Parked? <==> h != [] && h[0].receipt.verdict.VFailed?)
  {
    RunKeeps(verify, states, events, k);
    assert RowOk(verify, states[k].node, ref);
  }

  /** A refund row leaves 'pending' at most once: what it became, it stays, although the UPDATE has no guard. */
  lemma RefundSettlesOnce(verify: Receipt -> bool, states: seq<Sys>, events: seq<Event>, a: nat, b: nat, id: nat)
    requires IsRun(verify, states, events) && a <= b < |states| && id < |states[a].node.refunds|
    ensures id < |states[b].node.refunds|
    ensures !states[a].node.refunds[id].status.Pending? ==> states[b].node.refunds[id] == states[a].node.refunds[id]
  {
    RunKeepsDisk(verify, states, events, a, b);
    assert RefundKept(states[a].node.refunds[id], states[b].node.refunds[id]);
  }

  /** Any two reports published for a claim, at any time, are the same report, under the claim's one nonce. */
  lemma ReportsAreStable(verify: Receipt -> bool, states: seq<Sys>, events: seq<Event>, a: nat, b: nat, j: nat, k: nat)
    requires IsRun(verify, states, events) && a <= b < |states|
    requires j < |states[a].node.published| && k < |states[b].node.published|
    requires states[a].node.published[j].ref == states[b].node.published[k].ref
    ensures states[a].node.published[j] == states[b].node.published[k]
    ensures states[a].node.published[j].ref in states[a].node.rows
    ensures states[a].node.published[j].nonce == SettleNonce(states[a].node.published[j].ref)
  {
    RunKeeps(verify, states, events, a);
    RunKeeps(verify, states, events, b);
    RunKeepsDisk(verify, states, events, a, b);
    var p, q := states[a].node.published[j], states[b].node.published[k];
    assert Matches(states[a].node, p) && Matches(states[b].node, q);
    assert RowOk(verify, states[a].node, p.ref);
    assert SameReport(states[a].node.rows[p.ref], states[b].node.rows[p.ref]);
  }

  /** A report waits in the queue until a verified receipt for its claim arrives. */
  lemma {:induction false} WaitsForReceipt(verify: Receipt -> bool, states: seq<Sys>, events: seq<Event>, a: nat,
                                           b: nat, ref: Ref)
    requires IsRun(verify, states, events) && a <= b < |states|
    requires ref in states[a].node.rows && states[a].node.rows[ref].status.Waiting?
    ensures ref in states[b].node.rows
    ensures !states[b].node.rows[ref].status.Waiting? ==>
      exists k :: a <= k < b && events[k].EDeliver? && verify(events[k].receipt) && events[k].receipt.ref == ref
    decreases b
  {
    if a < b {
      WaitsForReceipt(verify, states, events, a, b - 1, ref);
      RunKeeps(verify, states, events, b);
      assert StepAt(verify, states, events, b - 1);
      if states[b - 1].node.rows[ref].status.Waiting? && !states[b].node.rows[ref].status.Waiting? {
        LeavesByReceipt(verify, states[b - 1], events[b - 1], ref);
      }
    }
  }

  lemma LeavesByReceipt(verify: Receipt -> bool, s: Sys, e: Event, ref: Ref)
    requires Possible(s, e) && ref in s.node.rows && s.node.rows[ref].status.Waiting?
    requires ref in Apply(verify, s, e).node.rows && !Apply(verify, s, e).node.rows[ref].status.Waiting?
    ensures e.EDeliver? && verify(e.receipt) && e.receipt.ref == ref
  {
    if e.EDeliver? { ReceiptEffect(verify, s.node, e.receipt, e.handled); }
  }

  /** The box acts at most once on each claim, and only on claims that were enqueued. */
  lemma DisbursesOnce(verify: Receipt -> bool, states: seq<Sys>, events: seq<Event>, k: nat, i: nat, j: nat)
    requires IsBoxRun(verify, states, events) && k < |states| && i < j < |states[k].disbursed|
    ensures states[k].disbursed[i] != states[k].disbursed[j] && states[k].disbursed[i] in states[k].node.rows
  {
    BoxRunKeeps(verify, states, events, k);
    assert states[k].disbursed[i] in states[k].disbursed;
  }

  /**
    * Confluence over whole runs: from the moment the box's definitive receipt for a claim is delivered,
    * whatever came before and whatever comes after, the row stores that receipt, and the refund row shows
    * its outcome unless a handler call for this claim was lost to a crash.
    */
  lemma DefinitiveReceiptDecides(verify: Receipt -> bool, states: seq<Sys>, events: seq<Event>, k: nat, b: nat,
                                 t: Receipt)
    requires IsBoxRun(verify, states, events) && k < b < |states|
    requires events[k].EDeliver? && events[k].receipt == t && verify(t) && t.Definitive() && t.ref != ""
    ensures var n := states[b].node;
      && t.ref in n.rows && n.rows[t.ref].receipt == Some(t)
      && (NoCallLost(events, t.ref) && n.rows[t.ref].meta.Some? ==>
            && n.rows[t.ref].meta.value < |n.refunds|
            && Shows(n.refunds[n.rows[t.ref].meta.value], t))
  {
    RunKeeps(verify, states, events, k);
    RunKeeps(verify, states, events, b);
    RunKeepsDisk(verify, states, events, k + 1, b);
    assert StepAt(verify, states, events, k) && Trusted(verify, states[k], events[k]);
    BoxRunKeeps(verify, states, events, k);
    DeliveryStores(verify, states[k], t, events[k].handled);
    assert SameReport(states[k + 1].node.rows[t.ref], states[b].node.rows[t.ref]);
    assert RowOk(verify, states[b].node, t.ref);
    if NoCallLost(events, t.ref) {
      AllHandled(verify, states, events, b, t.ref);
      HandledHistory(states[b].node.journal, t.ref);
    }
  }

  /** The refund row of the receipt's claim says what the receipt says. */
  predicate Shows(refund: Refund, t: Receipt) {
    && refund.claim == t.ref
    && (t.verdict.VFailed? ==> refund.status == Failed && refund.tx == None)
    && (t.verdict.VSettled? ==>
          && refund.status == (if t.refund > 0.0 then Sent else Skipped)
          && refund.tx == (if t.disburseTx == "" then None else Some(t.disburseTx)))
  }

  lemma DeliveryStores(verify: Receipt -> bool, s: Sys, t: Receipt, handled: bool)
    requires Inv(verify, s) && BoxOk(verify, s) && t in s.emitted && t.Definitive() && t.ref != ""
    ensures var n := HandleReceipt(verify, s.node, t, handled); t.ref in n.rows && n.rows[t.ref].receipt == Some(t)
  {
    ReceiptEffect(verify, s.node, t, handled);
    assert RowOk(verify, s.node, t.ref);
    var row := s.node.rows[t.ref];
    if row.receipt.Some? {
      StoredIsEmitted(verify, s, t.ref);
      assert row.receipt.value.Definitive() == t.Definitive() ==> row.receipt.value == t;
    }
  }

  lemma StoredIsEmitted(verify: Receipt -> bool, s: Sys, ref: Ref)
    requires Inv(verify, s) && BoxOk(verify, s) && ref in s.node.rows && s.node.rows[ref].receipt.Some?
    ensures s.node.rows[ref].receipt.value in s.emitted && s.node.rows[ref].receipt.value.ref == ref
  {
    assert RowOk(verify, s.node, ref);
    var h := History(s.node.journal, ref);
    HistoryFromJournal(s.node.journal, ref, |h| - 1);
  }

  lemma {:induction false} HistoryFromJournal(journal: seq<Entry>, ref: Ref, k: nat)
    requires k < |History(journal, ref)|
    ensures History(journal, ref)[k] in journal
    decreases |journal|
  {
    var n := |journal| - 1;
    if k < |History(journal[..n], ref)| {
      HistoryFromJournal(journal[..n], ref, k);
    }
  }

  // ---------- any receipts, in any order ----------

  /** Receipts delivered one after the other, from any box, verified or not. */
  function DeliverAll(verify: Receipt -> bool, n: Node, rs: seq<Receipt>): Node {
    if rs == [] then n else HandleReceipt(verify, DeliverAll(verify, n, rs[..|rs| - 1]), rs[|rs| - 1], true)
  }

  /** The receipts for one claim that carry the box's signature. */
  function Relevant(verify: Receipt -> bool, rs: seq<Receipt>, ref: Ref): seq<Receipt> {
    if rs == [] then []
    else
      var r := rs[|rs| - 1];
      Relevant(verify, rs[..|rs| - 1], ref) + if r.ref == ref && verify(r) then [r] else []
  }

  lemma {:induction false} RelevantMembers(verify: Receipt -> bool, rs: seq<Receipt>, ref: Ref, r: Receipt)
    ensures r in Relevant(verify, rs, ref) <==> r in rs && r.ref == ref && verify(r)
    decreases |rs|
  {
    if rs != [] {
      RelevantMembers(verify, rs[..|rs| - 1], ref, r);
      assert rs == rs[..|rs| - 1] + [rs[|rs| - 1]];
    }
  }

  function FirstDefinitive(vs: seq<Receipt>): Option<Receipt> {
    if vs == [] then None
    else
      var earlier := FirstDefinitive(vs[..|vs| - 1]);
      if earlier.Some? then earlier else if vs[|vs| - 1].Definitive() then Some(vs[|vs| - 1]) else None
  }

  ghost predicate FirstAt(vs: seq<Receipt>, k: nat)
    requires k < |vs|
  {
    vs[k].Definitive() && forall j | 0 <= j < k :: !vs[j].Definitive()
  }

  lemma {:induction false} FirstDefinitiveIsFirst(vs: seq<Receipt>)
    ensures FirstDefinitive(vs).None? <==> forall v | v in vs :: !v.Definitive()
    ensures FirstDefinitive(vs).Some? ==>
      exists k :: 0 <= k < |vs| && FirstAt(vs, k) && vs[k] == FirstDefinitive(vs).value
    decreases |vs|
  {
    if vs != [] {
      var n := |vs| - 1;
      FirstDefinitiveIsFirst(vs[..n]);
      assert vs == vs[..n] + [vs[n]];
      if FirstDefinitive(vs[..n]).Some? {
        var k :| 0 <= k < n && FirstAt(vs[..n], k) && vs[..n][k] == FirstDefinitive(vs[..n]).value;
        assert forall j | 0 <= j < k :: vs[j] == vs[..n][j];
        assert FirstAt(vs, k) && vs[k] == FirstDefinitive(vs).value;
      } else if vs[n].Definitive() {
        assert forall j | 0 <= j < n :: vs[..n][j] in vs[..n] && vs[j] == vs[..n][j];
        assert FirstAt(vs, n);
      }
    }
  }

  /** The receipt that counts: the first one, unless it says pending and a definitive one follows. */
  function Deciding(vs: seq<Receipt>): Option<Receipt> {
    if vs == [] then None
    else if vs[0].verdict.VPending? && FirstDefinitive(vs).Some? then FirstDefinitive(vs)
    else Some(vs[0])
  }

  lemma DecidingOneMore(vs: seq<Receipt>, r: Receipt)
    ensures Deciding(vs + [r]) ==
      if vs == [] then Some(r)
      else if Deciding(vs).value.verdict.VPending? && r.Definitive() then Some(r)
      else Deciding(vs)
  {
    assert (vs + [r])[..|vs|] == vs;
    FirstDefinitiveIsFirst(vs);
    if vs == [] { assert vs + [r] == [r] && FirstDefinitive([]) == None; } else { assert (vs + [r])[0] == vs[0]; }
  }

  lemma OneMoreRelevant(verify: Receipt -> bool, rs: seq<Receipt>, r: Receipt, ref: Ref)
    ensures Relevant(verify, rs + [r], ref) == Relevant(verify, rs, ref) + if r.ref == ref && verify(r) then [r] else []
  {
    assert (rs + [r])[..|rs|] == rs;
  }

  /** From n, where its row waits, the claim has come to m: its row stores w and its refund row shows the outcome. */
  ghost predicate Stored(n: Node, m: Node, ref: Ref, w: Option<Receipt>)
    requires ref in n.rows
  {
    && ref in m.rows && m.rows[ref].receipt == w && m.rows[ref].meta == n.rows[ref].meta && |m.refunds| == |n.refunds|
    && var meta := n.rows[ref].meta;
       (meta.Some? ==>
          && meta.value < |n.refunds|
          && m.refunds[meta.value]
             == if w.Some? then Outcome(n.refunds[meta.value], w.value) else n.refunds[meta.value])
  }

  /**
    * Whatever is delivered to a waiting row, in whatever order, the row ends up with the receipt that
    * counts and the refund row with its outcome.
    */
  lemma {:induction false} StoredIsDeciding(verify: Receipt -> bool, n: Node, rs: seq<Receipt>, ref: Ref)
    requires NodeOk(verify, n) && ref in n.rows && n.rows[ref].status.Waiting? && ref != ""
    ensures NodeOk(verify, DeliverAll(verify, n, rs))
    ensures Stored(n, DeliverAll(verify, n, rs), ref, Deciding(Relevant(verify, rs, ref)))
    decreases |rs|
  {
    if rs == [] {
      assert RowOk(verify, n, ref);
    } else {
      var rs', r := rs[..|rs| - 1], rs[|rs| - 1];
      StoredIsDeciding(verify, n, rs', ref);
      DecidingStep(verify, rs', r, ref);
      assert rs == rs' + [r];
      OneMoreDelivery(verify, n, DeliverAll(verify, n, rs'), Deciding(Relevant(verify, rs', ref)), r, ref);
    }
  }

  lemma DecidingStep(verify: Receipt -> bool, rs: seq<Receipt>, r: Receipt, ref: Ref)
    ensures var w := Deciding(Relevant(verify, rs, ref));
      Deciding(Relevant(verify, rs + [r], ref))
      == if r.ref == ref && verify(r) && (w.None? || (w.value.verdict.VPending? && r.Definitive())) then Some(r) else w
  {
    var vs := Relevant(verify, rs, ref);
    OneMoreRelevant(verify, rs, r, ref);
    DecidingOneMore(vs, r);
    assert vs + [] == vs;
  }

  lemma OneMoreDelivery(verify: Receipt -> bool, n: Node, m: Node, w: Option<Receipt>, r: Receipt, ref: Ref)
    requires NodeOk(verify, n) && NodeOk(verify, m) && ref != "" && ref in n.rows && n.rows[ref].status.Waiting?
    requires Stored(n, m, ref, w)
    ensures NodeOk(verify, HandleReceipt(verify, m, r, true))
    ensures Stored(n, HandleReceipt(verify, m, r, true), ref,
                   if r.ref == ref && verify(r) && (w.None? || (w.value.verdict.VPending? && r.Definitive()))
                   then Some(r) else w)
  {
    ReceiptKeeps(verify, m, r, true);
    ReceiptEffect(verify, m, r, true);
    assert RowOk(verify, m, ref) && RowOk(verify, n, ref);
    if r.ref in m.rows { assert RowOk(verify, m, r.ref); }
  }

  /**
    * Confluence: if the box signs one definitive receipt for a claim and otherwise only pending ones,
    * any two deliveries that include it, with any repetitions, forgeries and receipts for other claims
    * in any order, agree on the stored receipt and on the refund row.
    */
  lemma DeliveriesConfluent(verify: Receipt -> bool, n: Node, rs: seq<Receipt>, rs': seq<Receipt>, t: Receipt)
    requires NodeOk(verify, n) && t.ref in n.rows && n.rows[t.ref].status.Waiting? && t.ref != ""
    requires t in rs && t in rs' && verify(t) && t.Definitive()
    requires forall r | (r in rs || r in rs') && r.ref == t.ref && verify(r) :: r == t || r.verdict.VPending?
    ensures Stored(n, DeliverAll(verify, n, rs), t.ref, Some(t))
    ensures Stored(n, DeliverAll(verify, n, rs'), t.ref, Some(t))
    ensures var a, b, meta := DeliverAll(verify, n, rs), DeliverAll(verify, n, rs'), n.rows[t.ref].meta;
      meta.Some? ==> meta.value < |a.refunds| == |b.refunds| && a.refunds[meta.value] == b.refunds[meta.value]
  {
    StoredIsDeciding(verify, n, rs, t.ref);
    StoredIsDeciding(verify, n, rs', t.ref);
    DecidingIs(verify, rs, t);
    DecidingIs(verify, rs', t);
  }

  lemma DecidingIs(verify: Receipt -> bool, rs: seq<Receipt>, t: Receipt)
    requires t in rs && verify(t) && t.Definitive()
    requires forall r | r in rs && r.ref == t.ref && verify(r) :: r == t || r.verdict.VPending?
    ensures Deciding(Relevant(verify, rs, t.ref)) == Some(t)
  {
    var vs := Relevant(verify, rs, t.ref);
    RelevantMembers(verify, rs, t.ref, t);
    RelevantMembers(verify, rs, t.ref, vs[0]);
    FirstDefinitiveIsFirst(vs);
    var k :| 0 <= k < |vs| && FirstAt(vs, k) && vs[k] == FirstDefinitive(vs).value;
    RelevantMembers(verify, rs, t.ref, vs[k]);
    assert vs[0] in vs && vs[k] in vs;
  }
}
