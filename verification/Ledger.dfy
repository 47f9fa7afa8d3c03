/** Sums over ledgers whose entries each belong to at most one account. */
module Ledger {
  import opened Prelude

  /** An amount booked for a claim, or for none. */
  datatype Entry = Entry(claim: Option<nat>, amount: real)

  function Total(es: seq<Entry>): real {
    if es == [] then 0.0 else Total(es[..|es| - 1]) + es[|es| - 1].amount
  }

  /** What entry `e` contributes to claim `i`. */
  function Part(e: Entry, i: nat): real {
    if e.claim == Some(i) then e.amount else 0.0
  }

  /** The sum of the entries booked for claim `i`. */
  function Share(es: seq<Entry>, i: nat): real {
    if es == [] then 0.0 else Share(es[..|es| - 1], i) + Part(es[|es| - 1], i)
  }

  /** The number of entries booked for claim `i`. */
  function Count(es: seq<Entry>, i: nat): nat {
    if es == [] then 0 else Count(es[..|es| - 1], i) + if es[|es| - 1].claim == Some(i) then 1 else 0
  }

  /** The shares of the claims below `n`, summed. */
  function Shares(es: seq<Entry>, n: nat): real {
    if n == 0 then 0.0 else Shares(es, n - 1) + Share(es, n - 1)
  }

  lemma Append(es: seq<Entry>, e: Entry, i: nat)
    ensures Share(es + [e], i) == Share(es, i) + Part(e, i)
    ensures Count(es + [e], i) == Count(es, i) + if e.claim == Some(i) then 1 else 0
  {
    assert (es + [e])[..|es|] == es;
  }

  /** Rebooking entry `p` moves its amount and nothing else. */
  lemma {:induction false} Rebook(es: seq<Entry>, p: nat, e: Entry, i: nat)
    requires p < |es|
    ensures Share(es[p := e], i) == Share(es, i) - Part(es[p], i) + Part(e, i)
    ensures Count(es[p := e], i) == Count(es, i)
      - (if es[p].claim == Some(i) then 1 else 0) + if e.claim == Some(i) then 1 else 0
    decreases |es|
  {
    var m := |es| - 1;
    if p == m {
      assert es[p := e][..m] == es[..m];
    } else {
      assert es[p := e][..m] == es[..m][p := e];
      Rebook(es[..m], p, e, i);
    }
  }

  ghost predicate Nonnegative(es: seq<Entry>) {
    forall p | 0 <= p < |es| :: es[p].amount >= 0.0
  }

  lemma {:induction false} ShareBounds(es: seq<Entry>, i: nat)
    requires Nonnegative(es)
    ensures Share(es, i) >= 0.0
    ensures forall p | 0 <= p < |es| && es[p].claim == Some(i) :: Share(es, i) >= es[p].amount
    decreases |es|
  {
    if es != [] {
      ShareBounds(es[..|es| - 1], i);
    }
  }

  lemma {:induction false} SharesOfAppend(es: seq<Entry>, e: Entry, n: nat)
    ensures Shares(es + [e], n) == Shares(es, n) + if e.claim.Some? && e.claim.value < n then e.amount else 0.0
    decreases n
  {
    if n > 0 {
      SharesOfAppend(es, e, n - 1);
      Append(es, e, n - 1);
    }
  }

  lemma {:induction false} SharesOfNothing(n: nat)
    ensures Shares([], n) == 0.0
    decreases n
  {
    if n > 0 { SharesOfNothing(n - 1); }
  }

  /** No amount is counted for two claims, and none is lost when every entry names a claim below `n`. */
  lemma {:induction false} SharesVersusTotal(es: seq<Entry>, n: nat)
    requires Nonnegative(es)
    ensures Shares(es, n) <= Total(es)
    ensures (forall p | 0 <= p < |es| :: es[p].claim.Some? && es[p].claim.value < n) ==> Shares(es, n) == Total(es)
    decreases |es|
  {
    if es == [] {
      SharesOfNothing(n);
    } else {
      var m := |es| - 1;
      SharesVersusTotal(es[..m], n);
      SharesOfAppend(es[..m], es[m], n);
      assert es[..m] + [es[m]] == es;
    }
  }

  /** Entries without a claim may be there as long as they are worth nothing. */
  lemma {:induction false} SharesOfBooked(es: seq<Entry>, n: nat)
    requires forall p | 0 <= p < |es| :: (es[p].claim.Some? && es[p].claim.value < n) || es[p].amount == 0.0
    ensures Shares(es, n) == Total(es)
    decreases |es|
  {
    if es == [] {
      SharesOfNothing(n);
    } else {
      var m := |es| - 1;
      SharesOfBooked(es[..m], n);
      SharesOfAppend(es[..m], es[m], n);
      assert es[..m] + [es[m]] == es;
    }
  }

  lemma {:induction false} ShareOfNone(es: seq<Entry>, i: nat)
    requires forall p | 0 <= p < |es| :: es[p].claim != Some(i)
    ensures Share(es, i) == 0.0 && Count(es, i) == 0
    decreases |es|
  {
    if es != [] { ShareOfNone(es[..|es| - 1], i); }
  }

  /** A claim with one entry has that entry's amount. */
  lemma {:induction false} ShareOfOne(es: seq<Entry>, i: nat, q: nat)
    requires q < |es| && forall p | 0 <= p < |es| :: es[p].claim == Some(i) <==> p == q
    ensures Share(es, i) == es[q].amount
    decreases |es|
  {
    var m := |es| - 1;
    if q == m { ShareOfNone(es[..m], i); } else { ShareOfOne(es[..m], i, q); }
  }

  /** A ledger that books at least as much for a claim, entry by entry, books at least as much in all. */
  lemma {:induction false} ShareMonotone(es: seq<Entry>, fs: seq<Entry>, i: nat)
    requires |es| == |fs| && forall p | 0 <= p < |es| :: Part(es[p], i) <= Part(fs[p], i)
    ensures Share(es, i) <= Share(fs, i)
    decreases |es|
  {
    if es != [] { ShareMonotone(es[..|es| - 1], fs[..|fs| - 1], i); }
  }
}
