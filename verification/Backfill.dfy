/**
  * Migration 006 (migrations/006_guardian.sql): backstops become guardians, and each guardian gets as
  * its slot the number of guardian rows on its CID that are not after it in the old queue order.
  */
module Backfill {
  import opened Prelude
  import opened Hosting
  import HostingInvariant

  datatype OldKind = OldOriginal | OldOwnCopy | Backstop

  /** A row of the claims table before the migration: no slot and no budget. */
  datatype OldClaim = OldClaim(
    cid: Cid, owner: Account, pin: Option<nat>, sizeBytes: Size, sizeMB: int,
    rateLocked: real, paidHours: int, copies: int, kind: OldKind, state: ClaimState,
    amountPaid: real, payment: nat, startTs: Time, expiryTs: Time, createdTs: Time)

  /** INSERT INTO claims_new SELECT ... for one row. */
  function Copied(c: OldClaim): Claim {
    Claim(c.cid, c.owner, c.pin, c.sizeBytes, c.sizeMB, c.rateLocked, c.paidHours, c.copies,
          match c.kind { case OldOriginal => Original case OldOwnCopy => OwnCopy case Backstop => Guardian },
          c.state, c.amountPaid, c.payment, c.startTs, c.expiryTs, c.createdTs,
          None, if c.kind.Backstop? then Some(c.amountPaid) else None)
  }

  /** The rebuilt table, in rowid order, before the slots are filled in. */
  function Renamed(rows: seq<OldClaim>): seq<Claim> {
    seq(|rows|, i requires 0 <= i < |rows| => Copied(rows[i]))
  }

  /** Row j is not after row i: ORDER BY created_ts, rowid. */
  predicate NotAfter(claims: seq<Claim>, j: nat, i: nat)
    requires i < |claims| && j < |claims|
  {
    claims[j].createdTs < claims[i].createdTs || (claims[j].createdTs == claims[i].createdTs && j <= i)
  }

  predicate Counted(claims: seq<Claim>, j: nat, i: nat)
    requires i < |claims| && j < |claims|
  {
    claims[j].cid == claims[i].cid && claims[j].kind.Guardian? && NotAfter(claims, j, i)
  }

  /** The rows below n that COUNT(*) counts for row i. */
  function CountedBelow(claims: seq<Claim>, i: nat, n: nat): set<nat>
    requires i < |claims| && n <= |claims|
  {
    set j: nat | j < n && Counted(claims, j, i)
  }

  function Rank(claims: seq<Claim>, i: nat): nat
    requires i < |claims|
  {
    |CountedBelow(claims, i, |claims|)|
  }

  /** The table after the UPDATE. */
  function Ranked(claims: seq<Claim>): seq<Claim> {
    seq(|claims|, i requires 0 <= i < |claims| =>
      if claims[i].kind.Guardian? then claims[i].(pledgeOrder := Some(Rank(claims, i))) else claims[i])
  }

  function Migrated(rows: seq<OldClaim>): seq<Claim> {
    Ranked(Renamed(rows))
  }

  // ---------- the migration, in place ----------

  /** SELECT COUNT(*) for one row of the table being updated; `was` is the table before the update. */
  method CountNotAfter(claims: array<Claim>, ghost was: seq<Claim>, i: nat) returns (count: nat)
    requires claims.Length == |was| && i < |was|
    requires forall j | 0 <= j < |was| :: SameKey(was[j], claims[j])
    ensures count == Rank(was, i)
  {
    count := 0;
    for j := 0 to claims.Length
      invariant count == |CountedBelow(was, i, j)|
    {
      assert SameKey(was[j], claims[j]) && SameKey(was[i], claims[i]);
      var here := claims[j].cid == claims[i].cid && claims[j].kind.Guardian?
        && (claims[j].createdTs < claims[i].createdTs || (claims[j].createdTs == claims[i].createdTs && j <= i));
      assert CountedBelow(was, i, j + 1) == CountedBelow(was, i, j) + if here then {j} else {};
      if here { count := count + 1; }
    }
  }

  /** What the subquery reads does not change while the slots are written. */
  ghost predicate SameKey(c: Claim, d: Claim) {
    d == c.(pledgeOrder := d.pledgeOrder)
  }

  method Migrate(rows: array<OldClaim>) returns (claims: array<Claim>)
    ensures fresh(claims) && claims[..] == Migrated(rows[..])
  {
    claims := new Claim[rows.Length](i requires 0 <= i < rows.Length reads rows => Copied(rows[i]));
    ghost var was := claims[..];
    assert was == Renamed(rows[..]);
    for i := 0 to claims.Length
      invariant forall j | 0 <= j < claims.Length :: claims[j] == if j < i then Ranked(was)[j] else was[j]
    {
      if claims[i].kind.Guardian? {
        forall j | 0 <= j < |was|
          ensures SameKey(was[j], claims[j])
        {
          assert claims[j] == if j < i then Ranked(was)[j] else was[j];
        }
        var slot := CountNotAfter(claims, was, i);
        claims[i] := claims[i].(pledgeOrder := Some(slot));
      }
    }
    assert claims[..] == Ranked(was);
  }

  // ---------- the ranks are 1..n ----------

  function GuardiansOn(claims: seq<Claim>, cid: Cid): set<nat> {
    set i: nat | i < |claims| && claims[i].cid == cid && claims[i].kind.Guardian?
  }

  lemma SmallerSet(a: set<nat>, b: set<nat>, x: nat)
    requires a <= b && x in b && x !in a
    ensures |a| < |b|
  {
    Included(a, b - {x});
  }

  lemma {:induction false} Included(a: set<nat>, b: set<nat>)
    requires a <= b
    ensures |a| <= |b|
    ensures |a| == |b| ==> a == b
  {
    if a != {} {
      var x :| x in a;
      Included(a - {x}, b - {x});
      assert a == (a - {x}) + {x} && b == (b - {x}) + {x};
    }
  }

  /** Ranks follow the old order, strictly. */
  lemma RankMonotone(claims: seq<Claim>, i: nat, j: nat)
    requires i < |claims| && j < |claims| && claims[i].cid == claims[j].cid && claims[i].kind.Guardian?
    requires claims[j].kind.Guardian?
    ensures Rank(claims, i) < Rank(claims, j) <==> NotAfter(claims, i, j) && i != j
    ensures Rank(claims, i) == Rank(claims, j) <==> i == j
  {
    var a, b := CountedBelow(claims, i, |claims|), CountedBelow(claims, j, |claims|);
    if i != j {
      if NotAfter(claims, i, j) {
        assert j in b && j !in a;
        SmallerSet(a, b, j);
      } else {
        assert i in a && i !in b;
        SmallerSet(b, a, i);
      }
    }
  }

  lemma RankBounds(claims: seq<Claim>, i: nat)
    requires i < |claims| && claims[i].kind.Guardian?
    ensures 1 <= Rank(claims, i) <= |GuardiansOn(claims, claims[i].cid)|
  {
    var a := CountedBelow(claims, i, |claims|);
    Included({i}, a);
    Included(a, GuardiansOn(claims, claims[i].cid));
  }

  /** The ranks of a set of guardians of one CID. */
  function Ranks(claims: seq<Claim>, ids: set<nat>): set<nat> {
    set i | i in ids && i < |claims| :: Rank(claims, i)
  }

  function Upto(n: nat): (s: set<nat>)
    ensures forall k: nat :: k in s <==> 1 <= k <= n
    ensures |s| == n
  {
    if n == 0 then {} else Upto(n - 1) + {n}
  }

  lemma {:induction false} RanksSize(claims: seq<Claim>, cid: Cid, ids: set<nat>)
    requires ids <= GuardiansOn(claims, cid)
    ensures |Ranks(claims, ids)| == |ids|
  {
    if ids != {} {
      var i :| i in ids;
      var rest := ids - {i};
      RanksSize(claims, cid, rest);
      forall j | j in rest ensures Rank(claims, j) != Rank(claims, i) { RankMonotone(claims, j, i); }
      assert Ranks(claims, ids) == Ranks(claims, rest) + {Rank(claims, i)};
    }
  }

  /** The guardians of a CID get the slots 1..n, each slot once. */
  lemma RanksAreOneToN(claims: seq<Claim>, cid: Cid)
    ensures Ranks(claims, GuardiansOn(claims, cid)) == Upto(|GuardiansOn(claims, cid)|)
    ensures forall i, j | i in GuardiansOn(claims, cid) && j in GuardiansOn(claims, cid) ::
      Rank(claims, i) == Rank(claims, j) ==> i == j
  {
    var g := GuardiansOn(claims, cid);
    RanksSize(claims, cid, g);
    forall i | i in g ensures Rank(claims, i) in Upto(|g|) { RankBounds(claims, i); }
    Included(Ranks(claims, g), Upto(|g|));
    forall i, j | i in g && j in g && Rank(claims, i) == Rank(claims, j) ensures i == j { RankMonotone(claims, i, j); }
  }

  // ---------- the queue is the same, and goes on after it ----------

  /** Row i was before row j in the queue of backstops: ORDER BY created_ts, rowid. */
  predicate OldPrecedes(rows: seq<OldClaim>, i: nat, j: nat)
    requires i < |rows| && j < |rows|
  {
    rows[i].createdTs < rows[j].createdTs || (rows[i].createdTs == rows[j].createdTs && i < j)
  }

  /** A backstop becomes a guardian with a slot and its payment as budget; every other column stays. */
  lemma MigratedRow(rows: seq<OldClaim>, i: nat)
    requires i < |rows|
    ensures |Migrated(rows)| == |rows|
    ensures var c, d := rows[i], Migrated(rows)[i];
      && d.cid == c.cid && d.owner == c.owner && d.pin == c.pin && d.state == c.state
      && d.sizeBytes == c.sizeBytes && d.sizeMB == c.sizeMB && d.rateLocked == c.rateLocked
      && d.paidHours == c.paidHours && d.copies == c.copies && d.amountPaid == c.amountPaid && d.payment == c.payment
      && d.startTs == c.startTs && d.expiryTs == c.expiryTs && d.createdTs == c.createdTs
      && (d.kind.Guardian? <==> c.kind.Backstop?) && (d.kind.Original? <==> c.kind.OldOriginal?)
      && d.pledgeOrder == (if c.kind.Backstop? then Some(Rank(Renamed(rows), i)) else None)
      && d.pledgeBudget == (if c.kind.Backstop? then Some(c.amountPaid) else None)
  {
  }

  /** Sorting the guardians of a CID by their slots gives the order in which the backstops stood. */
  lemma QueueOrderKept(rows: seq<OldClaim>, i: nat, j: nat)
    requires i < |rows| && j < |rows| && i != j && rows[i].cid == rows[j].cid && rows[i].kind.Backstop?
    requires rows[j].kind.Backstop?
    ensures Precedes(Migrated(rows), i, j) <==> OldPrecedes(rows, i, j)
    ensures Migrated(rows)[i].pledgeOrder != Migrated(rows)[j].pledgeOrder
  {
    MigratedRow(rows, i);
    MigratedRow(rows, j);
    RankMonotone(Renamed(rows), i, j);
    RankMonotone(Renamed(rows), j, i);
  }

  predicate Waits(c: OldClaim, cid: Cid) { c.kind.Backstop? && c.state.Dormant? && c.cid == cid }

  /** The head of a CID's queue is the first of its waiting backstops. */
  lemma QueueHeadKept(rows: seq<OldClaim>, cid: Cid)
    ensures var h := QueueHead(Migrated(rows), cid);
      if h.Some? then
        && h.value < |rows| && Waits(rows[h.value], cid)
        && (forall i | 0 <= i < |rows| && i != h.value && Waits(rows[i], cid) ::
              OldPrecedes(rows, h.value, i))
      else forall i | 0 <= i < |rows| && rows[i].cid == cid && rows[i].kind.Backstop? :: !rows[i].state.Dormant?
  {
    var claims := Migrated(rows);
    var h := QueueHead(claims, cid);
    if h.Some? {
      MigratedRow(rows, h.value);
      forall i | 0 <= i < |rows| && i != h.value && Waits(rows[i], cid)
        ensures OldPrecedes(rows, h.value, i)
      {
        MigratedRow(rows, i);
        assert InQueue(claims[i], cid);
        QueueOrderKept(rows, h.value, i);
      }
    } else {
      forall i | 0 <= i < |rows| && rows[i].cid == cid && rows[i].kind.Backstop? ensures !rows[i].state.Dormant? {
        MigratedRow(rows, i);
        assert !InQueue(claims[i], cid);
      }
    }
  }

  /** The next slot handed out on a CID follows the last one given, with no gap. */
  lemma NextSlotFollows(claims: seq<Claim>, cid: Cid)
    ensures NextPledgeOrder(Ranked(claims), cid) == |GuardiansOn(claims, cid)| + 1
  {
    var n := |GuardiansOn(claims, cid)|;
    RanksAreOneToN(claims, cid);
    var after := Ranked(claims);
    SlotIsMax(after, cid, n);
    if n > 0 {
      assert n in Upto(n);
      var i :| i in GuardiansOn(claims, cid) && i < |claims| && Rank(claims, i) == n;
      assert after[i].pledgeOrder == Some(n);
    }
    forall i | 0 <= i < |after| && HasSlot(after[i], cid)
      ensures after[i].pledgeOrder.value <= n
    {
      RankBounds(claims, i);
    }
  }

  lemma {:induction false} SlotIsMax(claims: seq<Claim>, cid: Cid, n: nat)
    ensures (forall i | 0 <= i < |claims| && HasSlot(claims[i], cid) ::
              claims[i].pledgeOrder.value <= n) ==> NextPledgeOrder(claims, cid) <= n + 1
    decreases |claims|
  {
    if claims != [] {
      var m := |claims| - 1;
      SlotIsMax(claims[..m], cid, n);
    }
  }

  /** Where backstops were promoted first come first served, the migrated queues satisfy the gate's invariant. */
  lemma MigratedQueues(rows: seq<OldClaim>, s: Tables)
    requires s.claims == Migrated(rows)
    requires forall i, j | 0 <= i < |rows| && 0 <= j < |rows| && rows[i].cid == rows[j].cid
               && rows[i].kind.Backstop? && rows[j].kind.Backstop?
               && rows[i].pin.Some? && rows[j].pin.None? && rows[j].state.Dormant? :: OldPrecedes(rows, i, j)
    requires forall i | 0 <= i < |rows| && rows[i].state.Dormant? :: rows[i].pin.None?
    ensures HostingInvariant.Queues(s)
  {
    forall i, j | 0 <= i < |s.claims| && 0 <= j < |s.claims| && i != j
      ensures HostingInvariant.QueuePair(s.claims[i], s.claims[j])
    {
      MigratedRow(rows, i);
      MigratedRow(rows, j);
      if rows[i].cid == rows[j].cid && rows[i].kind.Backstop? && rows[j].kind.Backstop? {
        QueueOrderKept(rows, i, j);
        RankMonotone(Renamed(rows), i, j);
      }
    }
  }
}
