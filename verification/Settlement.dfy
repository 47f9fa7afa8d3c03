/**
  * The node's half of the settlement protocol (escrow-box-mode.js, escrow-settlement-queue.js and
  * the refund bridge of server.js): a durable queue of reports, a drainer that republishes them, and
  * receipts that finalise a refund row.
  *
  * The first half says what each operation does to the node's state, as functions on values; the
  * class below is the node, and does it step by step.
  */
module Settlement {
  import opened Prelude

  type Ref = string

  /** The `status` of a receipt; the box may send a word that the node does not know. */
  datatype Verdict = VSettled | VFailed | VPending | VOther(word: string)

  datatype Receipt = Receipt(ref: Ref, verdict: Verdict, refund: real, disburseTx: string, sig: string)
  {
    predicate Definitive() { verdict.VSettled? || verdict.VFailed? }
  }

  datatype QueueStatus = Waiting | Settled | Parked

  /** A row of pending_reports; `meta` is the refund row to finalise. */
  datatype Row = Row(
    ref: Ref, facts: string, nonce: string, meta: Option<nat>, status: QueueStatus,
    createdAt: int, lastAttempt: Option<int>, attempts: nat, receipt: Option<Receipt>)

  datatype RefundStatus = Pending | Sent | Failed | Skipped

  datatype Refund = Refund(claim: Ref, amount: real, status: RefundStatus, tx: Option<string>)

  /** A signed event-report, without its signature. */
  datatype Report = Report(ref: Ref, facts: string, nonce: string, createdAt: int)

  /**
    * A receipt that changed its queue row: the first one, which calls onSettled, or a completion,
    * which calls onCompleted.  `handled` is false if the node crashed before the call.
    */
  datatype Entry = Entry(receipt: Receipt, completion: bool, meta: Option<nat>, handled: bool)

  /** The database, the transport, and the journal of receipts that made a difference. */
  datatype Node = Node(
    rows: map<Ref, Row>, refunds: seq<Refund>, journal: seq<Entry>, published: seq<Report>, client: bool)

  const FRESH := Node(map[], [], [], [], false)

  function SettleNonce(ref: Ref): string { ref + ":settle" }

  function ReportOf(row: Row): Report { Report(row.ref, row.facts, row.nonce, row.createdAt) }

  // ---------- the queue ----------

  function Enqueue(n: Node, ref: Ref, facts: string, nonce: string, now: int, meta: Option<nat>): Node {
    if ref in n.rows then n
    else n.(rows := n.rows[ref := Row(ref, facts, nonce, meta, Waiting, now, None, 0, None)])
  }

  function Mark(n: Node, receipt: Receipt): Node {
    if receipt.ref in n.rows && n.rows[receipt.ref].status.Waiting? then
      n.(rows := n.rows[receipt.ref := n.rows[receipt.ref].(
        status := if receipt.verdict.VFailed? then Parked else Settled, receipt := Some(receipt))])
    else n
  }

  /** A terminal row that stored a pending receipt takes a definitive one. */
  predicate Completes(row: Row, receipt: Receipt) {
    !row.status.Waiting? && row.receipt.Some? && row.receipt.value.verdict.VPending? && receipt.Definitive()
  }

  function Replace(n: Node, receipt: Receipt): Node {
    if receipt.ref in n.rows
    then n.(rows := n.rows[receipt.ref := n.rows[receipt.ref].(receipt := Some(receipt))])
    else n
  }

  // ---------- receipts ----------

  /** The refund row after a receipt, if the receipt decides anything. */
  function Outcome(refund: Refund, receipt: Receipt): Refund {
    match receipt.verdict
    case VFailed => refund.(status := Failed, tx := None)
    case VSettled => refund.(status := if receipt.refund > 0.0 then Sent else Skipped,
                             tx := if receipt.disburseTx == "" then None else Some(receipt.disburseTx))
    case _ => refund
  }

  /** `finalizeRefund`. */
  function Finalize(n: Node, meta: Option<nat>, receipt: Receipt): Node {
    if meta.Some? && meta.value < |n.refunds|
    then n.(refunds := n.refunds[meta.value := Outcome(n.refunds[meta.value], receipt)])
    else n
  }

  function Journal(n: Node, receipt: Receipt, completion: bool, meta: Option<nat>, handled: bool): Node {
    var noted := n.(journal := n.journal + [Entry(receipt, completion, meta, handled)]);
    if handled then Finalize(noted, meta, receipt) else noted
  }

  /** `handleReceipt`; `handled` is false when the node dies between the row and the handler. */
  function HandleReceipt(verify: Receipt -> bool, n: Node, receipt: Receipt, handled: bool): Node {
    if receipt.ref == "" || !verify(receipt) || receipt.ref !in n.rows then n
    else
      var row := n.rows[receipt.ref];
      if row.status.Waiting? then Journal(Mark(n, receipt), receipt, false, row.meta, handled)
      else if Completes(row, receipt) then Journal(Replace(n, receipt), receipt, true, row.meta, handled)
      else n
  }

  // ---------- publishing ----------

  /** What an attempt to publish meets: the key when the transport comes up, the key when signing, the relays. */
  datatype Attempt = Attempt(keyForClient: bool, keyForSigning: bool, accepted: bool, at: int)

  function MarkAttempt(n: Node, ref: Ref, at: int): Node {
    if ref in n.rows
    then n.(rows := n.rows[ref := n.rows[ref].(lastAttempt := Some(at), attempts := n.rows[ref].attempts + 1)])
    else n
  }

  /** `publishRow` on a row as it was when it was read. */
  function Publish(n: Node, row: Row, a: Attempt): Node {
    if !n.client && !a.keyForClient then n
    else
      var up := n.(client := true);
      if !a.keyForSigning then up
      else
        var tried := MarkAttempt(up, row.ref, a.at);
        if a.accepted then tried.(published := tried.published + [ReportOf(row)]) else tried
  }

  function PublishAll(n: Node, rows: seq<Row>, attempts: seq<Attempt>): Node
    requires |attempts| == |rows|
  {
    var k := |rows| - 1;
    if k < 0 then n else Publish(PublishAll(n, rows[..k], attempts[..k]), rows[k], attempts[k])
  }

  /** `rows` are the waiting rows of the table, each once, oldest first. */
  ghost predicate IsPending(n: Node, rows: seq<Row>) {
    && (forall k | 0 <= k < |rows| ::
        rows[k].ref in n.rows && n.rows[rows[k].ref] == rows[k] && rows[k].status.Waiting?)
    && (forall ref | ref in n.rows && n.rows[ref].status.Waiting? :: n.rows[ref] in rows)
    && (forall j, k | 0 <= j < k < |rows| :: rows[j].createdAt <= rows[k].createdAt && rows[j] != rows[k])
  }

  /** `broadcastRefund` up to the enqueued report; nothing to pay means nothing to settle. */
  function Broadcast(n: Node, ref: Ref, amount: real, facts: string, now: int): Node {
    if amount <= 0.0 then n.(refunds := n.refunds + [Refund(ref, 0.0, Skipped, None)])
    else Enqueue(Recorded(n, ref, amount), ref, facts, SettleNonce(ref), now, Some(|n.refunds|))
  }

  /** Only the refund row is written. */
  function Recorded(n: Node, ref: Ref, amount: real): Node {
    n.(refunds := n.refunds + [Refund(ref, amount, Pending, None)])
  }

  // ---------- the node ----------

  class BoxMode {
    const verify: Receipt -> bool
    var rows: map<Ref, Row>
    var refunds: seq<Refund>
    var journal: seq<Entry>
    var published: seq<Report>
    var client: bool

    function State(): Node
      reads this
    {
      Node(rows, refunds, journal, published, client)
    }

    constructor (verify: Receipt -> bool)
      ensures State() == FRESH && this.verify == verify
    {
      this.verify := verify;
      rows, refunds, journal, published, client := map[], [], [], [], false;
    }

    /** INSERT OR IGNORE: true for the one caller whose row went in. */
    method EnqueueRow(ref: Ref, facts: string, nonce: string, now: int, meta: Option<nat>) returns (won: bool)
      modifies this`rows
      ensures won <==> ref !in old(rows)
      ensures State() == Enqueue(old(State()), ref, facts, nonce, now, meta)
    {
      won := ref !in rows;
      if won { rows := rows[ref := Row(ref, facts, nonce, meta, Waiting, now, None, 0, None)]; }
    }

    /** SELECT ... WHERE status = 'pending' ORDER BY created_at. */
    method PendingRows() returns (out: seq<Row>)
      requires forall ref | ref in rows :: rows[ref].ref == ref
      ensures IsPending(State(), out)
    {
      out := [];
      var todo := rows.Keys;
      while todo != {}
        invariant todo <= rows.Keys
        invariant forall x | x in out :: x.ref in rows && x.ref !in todo && rows[x.ref] == x && x.status.Waiting?
        invariant forall ref | ref in rows && ref !in todo && rows[ref].status.Waiting? :: rows[ref] in out
        invariant forall j, k | 0 <= j < k < |out| :: out[j].createdAt <= out[k].createdAt && out[j] != out[k]
        decreases |todo|
      {
        var ref :| ref in todo;
        todo := todo - {ref};
        if rows[ref].status.Waiting? { out := InsertByAge(out, rows[ref]); }
      }
      assert forall k | 0 <= k < |out| :: out[k] in out;
    }

    /** The guarded UPDATEs: pending to settled, or to failed.  True if this call made the transition. */
    method MarkTerminal(receipt: Receipt) returns (won: bool)
      modifies this`rows
      ensures won <==> receipt.ref in old(rows) && old(rows)[receipt.ref].status.Waiting?
      ensures State() == Mark(old(State()), receipt)
    {
      won := receipt.ref in rows && rows[receipt.ref].status.Waiting?;
      if won {
        rows := rows[receipt.ref := rows[receipt.ref].(
          status := if receipt.verdict.VFailed? then Parked else Settled, receipt := Some(receipt))];
      }
    }

    method UpdateReceipt(receipt: Receipt)
      modifies this`rows
      ensures State() == Replace(old(State()), receipt)
    {
      if receipt.ref in rows { rows := rows[receipt.ref := rows[receipt.ref].(receipt := Some(receipt))]; }
    }

    /** UPDATE refunds SET status, tx_id WHERE refund_id, whatever the status was. */
    method MarkRefundSettled(id: nat, status: RefundStatus, tx: Option<string>)
      modifies this`refunds
      ensures refunds
        == if id < |old(refunds)| then old(refunds)[id := old(refunds)[id].(status := status, tx := tx)]
           else old(refunds)
    {
      if id < |refunds| { refunds := refunds[id := refunds[id].(status := status, tx := tx)]; }
    }

    method FinalizeRefund(receipt: Receipt, meta: Option<nat>)
      modifies this`refunds
      ensures State() == Finalize(old(State()), meta, receipt)
    {
      if meta.None? { return; }
      if receipt.verdict.VFailed? {
        MarkRefundSettled(meta.value, Failed, None);
      } else if receipt.verdict.VSettled? {
        MarkRefundSettled(meta.value, if receipt.refund > 0.0 then Sent else Skipped,
                          if receipt.disburseTx == "" then None else Some(receipt.disburseTx));
      }
    }

    /** `handleReceipt`. */
    method Handle(receipt: Receipt)
      modifies this
      ensures State() == HandleReceipt(verify, old(State()), receipt, true)
    {
      if receipt.ref == "" || !verify(receipt) || receipt.ref !in rows { return; }
      var row := rows[receipt.ref];
      var marked := MarkTerminal(receipt);
      if marked {
        journal := journal + [Entry(receipt, false, row.meta, true)];
        FinalizeRefund(receipt, row.meta);
      } else if row.receipt.Some? && row.receipt.value.verdict.VPending? && receipt.Definitive() {
        UpdateReceipt(receipt);
        journal := journal + [Entry(receipt, true, row.meta, true)];
        FinalizeRefund(receipt, row.meta);
      }
    }

    /** `publishRow`. */
    method PublishRow(row: Row, a: Attempt) returns (ok: bool)
      modifies this
      ensures State() == Publish(old(State()), row, a)
      ensures ok <==> (old(client) || a.keyForClient) && a.keyForSigning && a.accepted
      ensures published
        == old(published) + if ok then [Report(row.ref, row.facts, row.nonce, row.createdAt)] else []
    {
      if !client {
        if !a.keyForClient { return false; }
        client := true;
      }
      if !a.keyForSigning { return false; }
      if row.ref in rows {
        rows := rows[row.ref := rows[row.ref].(lastAttempt := Some(a.at), attempts := rows[row.ref].attempts + 1)];
      }
      if a.accepted { published := published + [ReportOf(row)]; }
      ok := a.accepted;
    }

    /** `drainOnce`, when nothing else happens between its rows: `attempts` says what each one meets. */
    method DrainOnce(attempts: seq<Attempt>) returns (rowsTried: seq<Row>)
      requires forall ref | ref in rows :: rows[ref].ref == ref
      requires |attempts| == |rows|
      modifies this
      ensures IsPending(old(State()), rowsTried) && |rowsTried| <= |attempts|
      ensures State() == PublishAll(old(State()), rowsTried, attempts[..|rowsTried|])
    {
      rowsTried := PendingRows();
      PendingAreRows(State(), rowsTried);
      for k := 0 to |rowsTried|
        invariant State() == PublishAll(old(State()), rowsTried[..k], attempts[..k])
      {
        assert rowsTried[..k + 1][..k] == rowsTried[..k] && attempts[..k + 1][..k] == attempts[..k];
        var ok := PublishRow(rowsTried[k], attempts[k]);
      }
      assert rowsTried[..|rowsTried|] == rowsTried;
    }

    /** `broadcastRefund` in box mode, with the `settleClaim` it calls. */
    method BroadcastRefund(ref: Ref, amount: real, facts: string, now: int, a: Attempt) returns (won: bool)
      modifies this
      ensures won <==> amount > 0.0 && ref !in old(rows)
      ensures var n := Broadcast(old(State()), ref, amount, facts, now);
        State() == if won then Publish(n, n.rows[ref], a) else n
    {
      if amount <= 0.0 {
        refunds := refunds + [Refund(ref, 0.0, Skipped, None)];
        return false;
      }
      var id := |refunds|;
      refunds := refunds + [Refund(ref, amount, Pending, None)];
      won := EnqueueRow(ref, facts, SettleNonce(ref), now, Some(id));
      if won { var ok := PublishRow(rows[ref], a); }
    }
  }

  // ---------- what is published ----------

  /** The attempt gets through: the transport is up or its key is there, the signing key is, and the relays accept. */
  predicate GetsThrough(n: Node, a: Attempt) {
    (n.client || a.keyForClient) && a.keyForSigning && a.accepted
  }

  /** One attempt: the report goes out exactly when it gets through, and the row counts it when it was signed. */
  lemma PublishOutcome(n: Node, row: Row, a: Attempt)
    ensures var m := Publish(n, row, a);
      var signed := (n.client || a.keyForClient) && a.keyForSigning;
      && m.published == (if GetsThrough(n, a)
                         then n.published + [Report(row.ref, row.facts, row.nonce, row.createdAt)] else n.published)
      && m.client == (n.client || a.keyForClient)
      && m.refunds == n.refunds && m.journal == n.journal && m.rows.Keys == n.rows.Keys
      && (forall ref | ref in n.rows :: m.rows[ref] ==
            if signed && ref == row.ref
            then n.rows[ref].(lastAttempt := Some(a.at), attempts := n.rows[ref].attempts + 1) else n.rows[ref])
  {
  }

  predicate AllThrough(n: Node, attempts: seq<Attempt>) {
    forall k | 0 <= k < |attempts| :: GetsThrough(n, attempts[k])
  }

  function Reports(rows: seq<Row>): seq<Report> {
    if rows == [] then []
    else
      var row := rows[|rows| - 1];
      Reports(rows[..|rows| - 1]) + [Report(row.ref, row.facts, row.nonce, row.createdAt)]
  }

  /** How often a claim's row is among the rows. */
  function Times(rows: seq<Row>, ref: Ref): nat {
    if rows == [] then 0 else Times(rows[..|rows| - 1], ref) + if rows[|rows| - 1].ref == ref then 1 else 0
  }

  /** A drain whose attempts all get through publishes the report of every row it tries, in order. */
  lemma {:induction false} DrainPublishes(n: Node, rows: seq<Row>, attempts: seq<Attempt>)
    requires |attempts| == |rows| && AllThrough(n, attempts)
    ensures var m := PublishAll(n, rows, attempts);
      m.published == n.published + Reports(rows) && (n.client ==> m.client)
    decreases |rows|
  {
    if rows != [] {
      var k := |rows| - 1;
      DrainPublishes(n, rows[..k], attempts[..k]);
      PublishOutcome(PublishAll(n, rows[..k], attempts[..k]), rows[k], attempts[k]);
      assert GetsThrough(n, attempts[k]);
    }
  }

  /** Only the attempts and their times change in a row, and each attempt that gets through is counted. */
  ghost predicate CountedTimes(row: Row, later: Row, times: nat) {
    later == row.(lastAttempt := later.lastAttempt, attempts := row.attempts + times)
  }

  lemma {:induction false} DrainCounts(n: Node, rows: seq<Row>, attempts: seq<Attempt>, ref: Ref)
    requires |attempts| == |rows| && AllThrough(n, attempts) && ref in n.rows
    ensures var m := PublishAll(n, rows, attempts);
      && (n.client ==> m.client) && ref in m.rows && CountedTimes(n.rows[ref], m.rows[ref], Times(rows, ref))
    decreases |rows|
  {
    if rows != [] {
      var k := |rows| - 1;
      DrainCounts(n, rows[..k], attempts[..k], ref);
      PublishOutcome(PublishAll(n, rows[..k], attempts[..k]), rows[k], attempts[k]);
      assert GetsThrough(n, attempts[k]);
    }
  }

  /** A row that is there once is counted once, and its report is among the reports. */
  lemma {:induction false} OnceAmong(rows: seq<Row>, k: nat)
    requires k < |rows| && forall i, j | 0 <= i < j < |rows| :: rows[i].ref != rows[j].ref
    ensures Times(rows, rows[k].ref) == 1
    ensures Report(rows[k].ref, rows[k].facts, rows[k].nonce, rows[k].createdAt) in Reports(rows)
    decreases |rows|
  {
    var n := |rows| - 1;
    if k < n { OnceAmong(rows[..n], k); } else { NotAmong(rows[..n], rows[k].ref); }
  }

  lemma {:induction false} NotAmong(rows: seq<Row>, ref: Ref)
    requires forall k | 0 <= k < |rows| :: rows[k].ref != ref
    ensures Times(rows, ref) == 0
    decreases |rows|
  {
    if rows != [] { NotAmong(rows[..|rows| - 1], ref); }
  }

  /**
    * No report is forgotten: a drain whose attempts all get through has published the report of every row
    * that was waiting, and every such row has counted the attempt and is still waiting.
    */
  lemma DrainReachesEveryWaitingRow(n: Node, rows: seq<Row>, attempts: seq<Attempt>, ref: Ref)
    requires IsPending(n, rows) && |attempts| == |rows| && AllThrough(n, attempts)
    requires forall r | r in n.rows :: n.rows[r].ref == r
    requires ref in n.rows && n.rows[ref].status.Waiting?
    ensures var m, row := PublishAll(n, rows, attempts), n.rows[ref];
      && Report(ref, row.facts, row.nonce, row.createdAt) in m.published && n.published <= m.published
      && ref in m.rows && m.rows[ref].status.Waiting? && m.rows[ref].attempts == row.attempts + 1
  {
    DrainPublishes(n, rows, attempts);
    DrainCounts(n, rows, attempts, ref);
    var k :| 0 <= k < |rows| && rows[k] == n.rows[ref];
    OnceAmong(rows, k);
  }

  /**
    * What a refund starts: a skipped row when nothing is to pay; otherwise a pending row, and for a claim not
    * yet queued a waiting report with the given facts and time under the claim's nonce, naming that row.
    */
  lemma BroadcastOutcome(n: Node, ref: Ref, amount: real, facts: string, now: int)
    ensures var m := Broadcast(n, ref, amount, facts, now);
      && m.journal == n.journal && m.published == n.published && m.client == n.client
      && (amount <= 0.0 ==> m.rows == n.rows && m.refunds == n.refunds + [Refund(ref, 0.0, Skipped, None)])
      && (amount > 0.0 ==> m.refunds == n.refunds + [Refund(ref, amount, Pending, None)])
      && (amount > 0.0 && ref in n.rows ==> m.rows == n.rows)
      && (amount > 0.0 && ref !in n.rows ==>
            m.rows == n.rows[ref := Row(ref, facts, ref + ":settle", Some(|n.refunds|), Waiting, now, None, 0, None)])
  {
  }

  /** What a receipt makes of a refund row. */
  lemma OutcomeByVerdict(refund: Refund, receipt: Receipt)
    ensures var r := Outcome(refund, receipt);
      && r.claim == refund.claim && r.amount == refund.amount
      && (receipt.verdict == VFailed ==> r.status == Failed && r.tx == None)
      && (receipt.verdict == VSettled ==>
            && (r.status == Sent <==> receipt.refund > 0.0) && (r.status == Skipped <==> receipt.refund <= 0.0)
            && (r.tx == None <==> receipt.disburseTx == "") && (r.tx.Some? ==> r.tx.value == receipt.disburseTx))
      && (!receipt.Definitive() ==> r == refund)
  {
  }

  /** Insertion into rows sorted by age. */
  function InsertByAge(rows: seq<Row>, row: Row): (r: seq<Row>)
    requires forall j, k | 0 <= j < k < |rows| :: rows[j].createdAt <= rows[k].createdAt && rows[j] != rows[k]
    requires row !in rows
    ensures forall x :: x in r <==> x in rows || x == row
    ensures forall j, k | 0 <= j < k < |r| :: r[j].createdAt <= r[k].createdAt && r[j] != r[k]
  {
    if rows == [] || rows[|rows| - 1].createdAt <= row.createdAt then rows + [row]
    else
      var k := |rows| - 1;
      assert rows[k] in rows && row !in rows[..k] && rows[k] !in rows[..k];
      var front := InsertByAge(rows[..k], row);
      assert rows[k] !in front;
      assert forall j | 0 <= j < |front| :: front[j] in front;
      front + [rows[k]]
  }

  /** There are no more waiting rows than rows. */
  lemma {:induction false} PendingAreRows(n: Node, rows: seq<Row>)
    requires forall k | 0 <= k < |rows| :: rows[k].ref in n.rows && n.rows[rows[k].ref] == rows[k]
    requires forall j, k | 0 <= j < k < |rows| :: rows[j] != rows[k]
    ensures |rows| <= |n.rows|
    decreases |rows|
  {
    if rows != [] {
      var last := rows[|rows| - 1];
      var fewer := n.(rows := n.rows - {last.ref});
      forall k | 0 <= k < |rows| - 1 ensures rows[k].ref in fewer.rows && fewer.rows[rows[k].ref] == rows[k] {
        assert rows[k] != last;
      }
      PendingAreRows(fewer, rows[..|rows| - 1]);
      assert fewer.rows.Keys == n.rows.Keys - {last.ref};
    }
  }
}
