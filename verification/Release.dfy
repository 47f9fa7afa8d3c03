/**
  * Who may stop the hosting of an order (release-policy.js), and the release and receipt endpoints
  * that ask (server.js).  Letters are ASCII.
  */
module Release {
  import opened Prelude

  type Name = string

  // ---------- names ----------

  function LowerChar(c: char): (r: char)
    ensures 'A' <= c <= 'Z' ==> r as int - 'a' as int == c as int - 'A' as int
    ensures !('A' <= c <= 'Z') ==> r == c
  {
    if 'A' <= c <= 'Z' then ((c as int) + 32) as char else c
  }

  function ToLower(s: string): (r: string)
    ensures |r| == |s| && forall k | 0 <= k < |s| :: r[k] == LowerChar(s[k])
  {
    seq(|s|, k requires 0 <= k < |s| => LowerChar(s[k]))
  }

  /** Without one leading '@'. */
  function StripAt(s: string): string {
    if s != "" && s[0] == '@' then s[1..] else s
  }

  function Canon(s: string): string { StripAt(ToLower(s)) }

  /** /^[a-z0-9][a-z0-9.\-]*$/ */
  predicate IsAccount(s: string) {
    s != "" && s[0] != '.' && s[0] != '-' && forall c | c in s ::
      'a' <= c <= 'z' || '0' <= c <= '9' || c == '.' || c == '-'
  }

  lemma AccountsAreCanonical(s: string)
    requires IsAccount(s)
    ensures ToLower(s) == s && Canon(s) == s
  {
    forall k | 0 <= k < |s| ensures LowerChar(s[k]) == s[k] { assert s[k] in s; }
    assert s[0] in s;
  }

  // ---------- policies ----------

  /** What JSON.parse gives: no object, or one whose `type` and `addresses` may be missing. */
  datatype RawPolicy = Missing | Raw(kind: Option<string>, addresses: Option<seq<string>>)

  datatype Kind = OwnerOnly | AnyOf | AllOf

  datatype Policy = Policy(kind: Kind, addresses: seq<string>)

  function KindName(kind: Kind): string {
    match kind case OwnerOnly => "owner_only" case AnyOf => "any_of" case AllOf => "all_of"
  }

  /** An absent or empty type means owner_only. */
  function ParseKind(word: Option<string>): Result<Kind> {
    if word.None? || word.value == "" || word.value == "owner_only" then Ok(OwnerOnly)
    else if word.value == "any_of" then Ok(AnyOf)
    else if word.value == "all_of" then Ok(AllOf)
    else Err(BadRequest)
  }

  /** Canonical names in order of first appearance, each once, without the empty one. */
  function Addresses(raw: seq<string>): seq<string> {
    if raw == [] then []
    else
      var front, name := Addresses(raw[..|raw| - 1]), Canon(raw[|raw| - 1]);
      if name == "" || name in front then front else front + [name]
  }

  function RawAddresses(p: RawPolicy): seq<string> {
    if p.Missing? || p.addresses.None? then [] else p.addresses.value
  }

  function Normalize(p: RawPolicy): Result<Policy> {
    var kind := ParseKind(if p.Missing? then None else p.kind);
    if kind.Err? then Err(kind.code)
    else
      var addresses := Addresses(RawAddresses(p));
      if !kind.value.OwnerOnly? && addresses == [] then Err(BadRequest) else Ok(Policy(kind.value, addresses))
  }

  /** A normalised policy as it is stored with the order and read back. */
  function Stored(p: Policy): RawPolicy { Raw(Some(KindName(p.kind)), Some(p.addresses)) }

  datatype Decision = Decision(authorized: bool, ends: bool, recordsConsent: bool)

  /** `evaluateRelease`. */
  function Evaluate(policy: RawPolicy, owner: string, releaser: string, consented: set<string>): Result<Decision> {
    var p := Normalize(policy);
    if p.Err? then Err(p.code)
    else
      var who := Canon(releaser);
      if who != "" && who == ToLower(owner) then Ok(Decision(true, true, false))
      else if p.value.kind.OwnerOnly? || who !in p.value.addresses then Ok(Decision(false, false, false))
      else if p.value.kind.AnyOf? then Ok(Decision(true, true, false))
      else
        var have := (set a | a in consented :: ToLower(a)) + {who};
        Ok(Decision(true, forall a | a in p.value.addresses :: a in have, true))
  }

  // ---------- the endpoints ----------

  /** An order with its release tables; `active` says whether its claim is still active. */
  datatype Order = Order(
    stored: RawPolicy, owner: string, receiptHash: Option<string>,
    consents: set<Name>, receipts: set<Name>, active: bool)

  /** A request to either endpoint; `signed` says whether its signature is the account's. */
  datatype Attempt =
    | Consent(account: string, signed: bool)
    | Receipt(account: string, signed: bool, proof: string)

  datatype Reply = Released(ended: bool) | StillWaiting | ReceiptOnly

  predicate IsHash(s: string) {
    |s| == 64 && forall c | c in s :: 'a' <= c <= 'f' || '0' <= c <= '9'
  }

  /** What an attempt must pass before the policy is asked, on either endpoint. */
  function Screen(o: Order, a: Attempt): Option<Code> {
    if a.Receipt? && !IsHash(ToLower(a.proof)) then Some(BadRequest)
    else if !IsAccount(ToLower(a.account)) then Some(BadRequest)
    else if !a.signed then Some(Unauthorized)
    else if a.Receipt? && (o.receiptHash.None? || o.receiptHash.value == "") then Some(Unprocessable)
    else if a.Receipt? && ToLower(a.proof) != ToLower(o.receiptHash.value) then Some(Forbidden)
    else None
  }

  function Act(o: Order, a: Attempt): (Order, Result<Reply>) {
    var account := ToLower(a.account);
    var screen := Screen(o, a);
    if screen.Some? then (o, Err(screen.value))
    else
      var noted := if a.Receipt? then o.(receipts := o.receipts + {account}) else o;
      var decision := Evaluate(o.stored, o.owner, account, o.consents);
      if decision.Err? then (noted, Err(decision.code))
      else
        var d := decision.value;
        if !d.authorized then (noted, if a.Receipt? then Ok(ReceiptOnly) else Err(Forbidden))
        else
          var agreed := if d.recordsConsent then noted.(consents := noted.consents + {account}) else noted;
          if !d.ends then (agreed, Ok(StillWaiting)) else (agreed.(active := false), Ok(Released(o.active)))
  }

  class ReleaseDesk {
    const stored: RawPolicy
    const owner: string
    const receiptHash: Option<string>
    var consents: set<Name>
    var receipts: set<Name>
    var active: bool

    function State(): Order
      reads this
    {
      Order(stored, owner, receiptHash, consents, receipts, active)
    }

    constructor (stored: RawPolicy, owner: string, receiptHash: Option<string>)
      ensures State() == Order(stored, owner, receiptHash, {}, {}, true)
    {
      this.stored, this.owner, this.receiptHash := stored, owner, receiptHash;
      consents, receipts, active := {}, {}, true;
    }

    /** Ask the policy, record the consent, and end the claim when the threshold is met. */
    method Decide(account: Name) returns (r: Result<Option<Reply>>)
      modifies this`consents, this`active
      ensures var d := Evaluate(stored, owner, account, old(consents));
        && r == (if d.Err? then Err(d.code) else if !d.value.authorized then Ok(None)
                 else if d.value.ends then Ok(Some(Released(old(active)))) else Ok(Some(StillWaiting)))
        && consents == (if d.Ok? && d.value.recordsConsent then old(consents) + {account} else old(consents))
        && active == (old(active) && !(d.Ok? && d.value.authorized && d.value.ends))
    {
      var decision := Evaluate(stored, owner, account, consents);
      if decision.Err? { return Err(decision.code); }
      if !decision.value.authorized { return Ok(None); }
      if decision.value.recordsConsent { consents := consents + {account}; }
      if !decision.value.ends { return Ok(Some(StillWaiting)); }
      r := Ok(Some(Released(active)));
      active := false;
    }

    /** POST /claims/release. */
    method PostRelease(requested: string, signed: bool) returns (r: Result<Reply>)
      modifies this
      ensures (State(), r) == Act(old(State()), Consent(requested, signed))
    {
      var account := ToLower(requested);
      if !IsAccount(account) { return Err(BadRequest); }
      if !signed { return Err(Unauthorized); }
      var decided := Decide(account);
      if decided.Err? { return Err(decided.code); }
      if decided.value.None? { return Err(Forbidden); }
      r := Ok(decided.value.value);
    }

    /** POST /claims/receipt: a proof of decryption counts as a consent. */
    method PostReceipt(requested: string, signed: bool, proof: string) returns (r: Result<Reply>)
      modifies this
      ensures (State(), r) == Act(old(State()), Receipt(requested, signed, proof))
    {
      var account, hash := ToLower(requested), ToLower(proof);
      if !IsHash(hash) || !IsAccount(account) { return Err(BadRequest); }
      if !signed { return Err(Unauthorized); }
      if receiptHash.None? || receiptHash.value == "" { return Err(Unprocessable); }
      if hash != ToLower(receiptHash.value) { return Err(Forbidden); }
      receipts := receipts + {account};
      var decided := Decide(account);
      if decided.Err? { return Err(decided.code); }
      r := Ok(if decided.value.None? then ReceiptOnly else decided.value.value);
    }
  }

  // ---------- traces ----------

  function ActAll(o: Order, attempts: seq<Attempt>): Order {
    if attempts == [] then o else Act(ActAll(o, attempts[..|attempts| - 1]), attempts[|attempts| - 1]).0
  }

  /** The proof is the plaintext hash that the order committed to. */
  predicate Proves(o: Order, proof: string) {
    && IsHash(ToLower(proof)) && o.receiptHash.Some? && o.receiptHash.value != ""
    && ToLower(proof) == ToLower(o.receiptHash.value)
  }

  /** An attempt that is heard: signed by a well-formed account and, if it is a receipt, with the order's hash. */
  predicate Heard(o: Order, a: Attempt) {
    a.signed && IsAccount(ToLower(a.account)) && (a.Receipt? ==> Proves(o, a.proof))
  }

  /** The accounts that were heard. */
  function Voices(o: Order, attempts: seq<Attempt>): set<Name> {
    set a | a in attempts && Heard(o, a) :: ToLower(a.account)
  }

  /** The accounts that proved that they hold the plaintext. */
  function Provers(o: Order, attempts: seq<Attempt>): set<Name> {
    set a | a in attempts && a.Receipt? && Heard(o, a) :: ToLower(a.account)
  }

  /** An attempt that is not heard is refused and changes nothing: no consent, no receipt, no end. */
  lemma UnheardIsRefused(o: Order, a: Attempt)
    ensures !Heard(o, a) ==> Act(o, a).0 == o
    ensures !Heard(o, a) ==>
      Act(o, a).1 == Err(if (a.Receipt? && !IsHash(ToLower(a.proof))) || !IsAccount(ToLower(a.account)) then BadRequest
                         else if !a.signed then Unauthorized
                         else if o.receiptHash.None? || o.receiptHash.value == "" then Unprocessable else Forbidden)
  {
  }

  /**
    * What is answered to an attempt that is heard, under a policy that can be read: whether it ended the
    * claim, whether others are still awaited, or that it has no say.
    */
  lemma HeardIsAnswered(o: Order, a: Attempt)
    requires Heard(o, a) && Normalize(o.stored).Ok?
    ensures var (o', r) := Act(o, a);
      var p, v := Normalize(o.stored).value, ToLower(a.account);
      var hasSay := v == ToLower(o.owner) || (!p.kind.OwnerOnly? && v in p.addresses);
      && (!hasSay ==> r == (if a.Receipt? then Ok(ReceiptOnly) else Err(Forbidden)) && o'.active == o.active)
      && (hasSay ==> r.Ok? && (r.value == StillWaiting || r.value == Released(o.active)))
      && (hasSay && r.value == StillWaiting ==> o'.active == o.active && p.kind.AllOf? && v in o'.consents)
      && (hasSay && r.value.Released? ==> !o'.active)
      && o'.receipts == o.receipts + (if a.Receipt? then {v} else {})
  {
    AccountsAreCanonical(ToLower(a.account));
    Decided(o, ToLower(a.account));
  }

  /** Enough have spoken: the owner, anyone listed, or everyone listed. */
  predicate Met(p: Policy, owner: Name, voices: set<Name>) {
    || owner in voices
    || (p.kind.AnyOf? && exists a :: a in p.addresses && a in voices)
    || (p.kind.AllOf? && forall a :: a in p.addresses ==> a in voices)
  }

  function NewOrder(stored: RawPolicy, owner: string, receiptHash: Option<string>): Order {
    Order(stored, owner, receiptHash, {}, {}, true)
  }

  /** Where an order stands once `voices` have been heard. */
  ghost predicate Stands(o: Order, voices: set<Name>) {
    var p := Normalize(o.stored);
    && (forall v | v in voices :: IsAccount(v))
    && if p.Err? then o.active
       else
         && (o.active <==> !Met(p.value, ToLower(o.owner), voices))
         && (p.value.kind.AllOf? && o.active ==> o.consents == set v | v in voices && v in p.value.addresses)
         && (!p.value.kind.AllOf? ==> o.consents == {})
  }

  /** The receipts kept are those of the accounts that proved the plaintext, whatever the policy. */
  lemma {:induction false} ReceiptsAreProofs(stored: RawPolicy, owner: string, receiptHash: Option<string>,
                                              attempts: seq<Attempt>)
    ensures var o := NewOrder(stored, owner, receiptHash); ActAll(o, attempts).receipts == Provers(o, attempts)
    decreases |attempts|
  {
    var o := NewOrder(stored, owner, receiptHash);
    if attempts == [] {
      assert Provers(o, attempts) == {};
    } else {
      var front, a := attempts[..|attempts| - 1], attempts[|attempts| - 1];
      ReceiptsAreProofs(stored, owner, receiptHash, front);
      OrderStays(o, front);
      assert attempts == front + [a];
      OneMoreAttempt(o, front, a);
      OneMoreReceipt(ActAll(o, front), a);
      assert Heard(ActAll(o, front), a) == Heard(o, a);
    }
  }

  lemma OneMoreReceipt(o: Order, a: Attempt)
    ensures Act(o, a).0.receipts == o.receipts + if a.Receipt? && Heard(o, a) then {ToLower(a.account)} else {}
  {
    UnheardIsRefused(o, a);
  }

  lemma OneMoreVoice(o: Order, voices: set<Name>, a: Attempt)
    requires Stands(o, voices) && Heard(o, a)
    ensures Stands(Act(o, a).0, voices + {ToLower(a.account)})
  {
    var v := ToLower(a.account);
    AccountsAreCanonical(v);
    var p := Normalize(o.stored);
    if p.Ok? { Decided(o, v); }
    if p.Ok? && p.value.kind.AllOf? && o.active {
      OneMoreConsent(o.consents, voices, p.value.addresses, v);
    }
  }

  predicate AllAmong(addresses: seq<Name>, consents: set<Name>, v: Name) {
    forall a | a in addresses :: a in (set c | c in consents :: ToLower(c)) + {v}
  }

  /** The decision for an account, which is its own canonical name. */
  lemma Decided(o: Order, v: Name)
    requires IsAccount(v) && Normalize(o.stored).Ok?
    ensures var p, d := Normalize(o.stored).value, Evaluate(o.stored, o.owner, v, o.consents);
      && d.Ok?
      && (d.value.ends <==>
            || v == ToLower(o.owner)
            || (p.kind.AnyOf? && v in p.addresses)
            || (p.kind.AllOf? && v in p.addresses && AllAmong(p.addresses, o.consents, v)))
      && (d.value.recordsConsent <==> p.kind.AllOf? && v in p.addresses && v != ToLower(o.owner))
      && (d.value.authorized <==> d.value.ends || d.value.recordsConsent)
  {
    AccountsAreCanonical(v);
  }

  /** With the consents that count recorded, everyone listed has consented when everyone listed has spoken. */
  lemma OneMoreConsent(consents: set<Name>, voices: set<Name>, addresses: seq<Name>, v: Name)
    requires (forall c | c in voices :: IsAccount(c)) && consents == set c | c in voices && c in addresses
    ensures var have := (set c | c in consents :: ToLower(c)) + {v};
      (forall a | a in addresses :: a in have) <==> forall a :: a in addresses ==> a in voices + {v}
    ensures v in addresses ==> consents + {v} == set c | c in voices + {v} && c in addresses
    ensures v !in addresses ==> consents == set c | c in voices + {v} && c in addresses
  {
    forall c | c in consents ensures ToLower(c) == c { AccountsAreCanonical(c); }
    assert (set c | c in consents :: ToLower(c)) == consents;
  }

  lemma OneMoreAttempt(o: Order, attempts: seq<Attempt>, a: Attempt)
    ensures Voices(o, attempts + [a]) == Voices(o, attempts) + if Heard(o, a) then {ToLower(a.account)} else {}
    ensures Provers(o, attempts + [a])
      == Provers(o, attempts) + if a.Receipt? && Heard(o, a) then {ToLower(a.account)} else {}
    ensures ActAll(o, attempts + [a]) == Act(ActAll(o, attempts), a).0
  {
    assert (attempts + [a])[..|attempts|] == attempts;
    assert forall x :: x in attempts + [a] <==> x in attempts || x == a;
  }

  /** What a request does not change. */
  ghost predicate SameOrder(o: Order, o': Order) {
    o'.stored == o.stored && o'.owner == o.owner && o'.receiptHash == o.receiptHash
  }

  lemma {:induction false} OrderStays(o: Order, attempts: seq<Attempt>)
    ensures SameOrder(o, ActAll(o, attempts))
    decreases |attempts|
  {
    if attempts != [] { OrderStays(o, attempts[..|attempts| - 1]); }
  }

  lemma StandsAtFirst(o: Order)
    requires o == NewOrder(o.stored, o.owner, o.receiptHash)
    ensures Stands(o, {})
  {
    var p := Normalize(o.stored);
    if p.Ok? && p.value.kind.AllOf? { assert p.value.addresses[0] in p.value.addresses; }
  }

  lemma {:induction false} StandsAfter(o: Order, attempts: seq<Attempt>)
    requires o == NewOrder(o.stored, o.owner, o.receiptHash)
    ensures Stands(ActAll(o, attempts), Voices(o, attempts))
    decreases |attempts|
  {
    if attempts == [] {
      StandsAtFirst(o);
      assert Voices(o, attempts) == {};
    } else {
      var front, a := attempts[..|attempts| - 1], attempts[|attempts| - 1];
      var m := ActAll(o, front);
      StandsAfter(o, front);
      OrderStays(o, front);
      assert attempts == front + [a];
      OneMoreAttempt(o, front, a);
      assert Heard(m, a) == Heard(o, a);
      UnheardIsRefused(m, a);
      if Heard(o, a) {
        OneMoreVoice(m, Voices(o, front), a);
      } else {
        assert Voices(o, attempts) == Voices(o, front);
      }
    }
  }

  /**
    * The release protocol, whatever the order and however often anyone asks: the claim is still active
    * exactly while not enough voices have been heard.  If the stored policy no longer normalises, nothing
    * ever ends it.
    */
  lemma ReleaseTrace(stored: RawPolicy, owner: string, receiptHash: Option<string>, attempts: seq<Attempt>)
    ensures var o := NewOrder(stored, owner, receiptHash);
      var p := Normalize(stored);
      ActAll(o, attempts).active <==> p.Err? || !Met(p.value, ToLower(owner), Voices(o, attempts))
  {
    StandsAfter(NewOrder(stored, owner, receiptHash), attempts);
    OrderStays(NewOrder(stored, owner, receiptHash), attempts);
  }

  /** The claim ends at the first attempt that completes the set, and at no other. */
  lemma EndsAtTheFirst(stored: RawPolicy, owner: string, receiptHash: Option<string>, attempts: seq<Attempt>, k: nat)
    requires k < |attempts| && Normalize(stored).Ok?
    ensures var o, p := NewOrder(stored, owner, receiptHash), Normalize(stored).value;
      ActAll(o, attempts[..k]).active && !ActAll(o, attempts[..k + 1]).active
      <==> !Met(p, ToLower(owner), Voices(o, attempts[..k])) && Met(p, ToLower(owner), Voices(o, attempts[..k + 1]))
  {
    ReleaseTrace(stored, owner, receiptHash, attempts[..k]);
    ReleaseTrace(stored, owner, receiptHash, attempts[..k + 1]);
  }

  /** Two histories in which the same accounts got through leave the claim in the same state. */
  lemma ArrivalOrderIsIrrelevant(stored: RawPolicy, owner: string, receiptHash: Option<string>, some: seq<Attempt>,
                                 others: seq<Attempt>)
    requires var o := NewOrder(stored, owner, receiptHash); Voices(o, some) == Voices(o, others)
    ensures var o := NewOrder(stored, owner, receiptHash); ActAll(o, some).active == ActAll(o, others).active
  {
    ReleaseTrace(stored, owner, receiptHash, some);
    ReleaseTrace(stored, owner, receiptHash, others);
  }

  /** No one but the owner ends an owner_only order. */
  lemma OnlyOwnerEnds(stored: RawPolicy, owner: string, receiptHash: Option<string>, attempts: seq<Attempt>)
    requires Normalize(stored).Ok? && Normalize(stored).value.kind.OwnerOnly?
    ensures var o := NewOrder(stored, owner, receiptHash);
      !ActAll(o, attempts).active <==> exists a ::
        a in attempts && Heard(o, a) && ToLower(a.account) == ToLower(owner)
  {
    ReleaseTrace(stored, owner, receiptHash, attempts);
  }

  // ---------- normalising what is stored ----------

  /** Two leading '@'s: one is left after normalising. */
  predicate DoubleAt(s: string) { |s| >= 2 && s[0] == '@' && s[1] == '@' }

  predicate LeadingAt(s: string) { s != "" && s[0] == '@' }

  lemma CanonLeadingAt(s: string)
    ensures LeadingAt(Canon(s)) <==> DoubleAt(s)
  {
  }

  lemma {:induction false} AddressMembers(raw: seq<string>, name: string)
    ensures name in Addresses(raw) <==> name != "" && exists a :: a in raw && Canon(a) == name
    decreases |raw|
  {
    if raw != [] {
      var n := |raw| - 1;
      AddressMembers(raw[..n], name);
      AddressMembers(raw[..n], Canon(raw[n]));
      assert raw == raw[..n] + [raw[n]];
    }
  }

  /** Normalised names are lower case, not empty, and each there once. */
  lemma {:induction false} AddressesAreClean(raw: seq<string>)
    ensures forall k | 0 <= k < |Addresses(raw)| ::
      Addresses(raw)[k] != "" && ToLower(Addresses(raw)[k]) == Addresses(raw)[k]
    ensures forall j, k | 0 <= j < k < |Addresses(raw)| :: Addresses(raw)[j] != Addresses(raw)[k]
    decreases |raw|
  {
    if raw != [] {
      AddressesAreClean(raw[..|raw| - 1]);
      LowerTwice(raw[|raw| - 1]);
    }
  }

  lemma LowerTwice(s: string)
    ensures ToLower(ToLower(s)) == ToLower(s) && ToLower(Canon(s)) == Canon(s)
  {
  }

  /** Clean names without a leading '@' normalise to themselves. */
  lemma {:induction false} CleanIsFixed(names: seq<string>)
    requires forall k | 0 <= k < |names| :: names[k] != "" && ToLower(names[k]) == names[k] && !LeadingAt(names[k])
    requires forall j, k | 0 <= j < k < |names| :: names[j] != names[k]
    ensures Addresses(names) == names
    decreases |names|
  {
    if names != [] {
      CleanIsFixed(names[..|names| - 1]);
      assert names == names[..|names| - 1] + [names[|names| - 1]];
    }
  }

  function Length(names: seq<string>): nat {
    if names == [] then 0 else Length(names[..|names| - 1]) + |names[|names| - 1]|
  }

  lemma {:induction false} AddressesShrink(names: seq<string>)
    ensures Length(Addresses(names)) <= Length(names)
    ensures (exists k :: 0 <= k < |names| && LeadingAt(names[k])) ==> Length(Addresses(names)) < Length(names)
    decreases |names|
  {
    if names != [] {
      var n := |names| - 1;
      var front, name := Addresses(names[..n]), Canon(names[n]);
      AddressesShrink(names[..n]);
      assert LeadingAt(names[n]) ==> |name| < |names[n]|;
      assert (front + [name])[..|front|] == front;
      if k :| 0 <= k < n && LeadingAt(names[k]) { assert LeadingAt(names[..n][k]); }
    }
  }

  lemma AddressesTwice(raw: seq<string>)
    ensures Addresses(Addresses(raw)) == Addresses(raw) <==> forall a :: a in raw ==> !DoubleAt(a)
  {
    var names := Addresses(raw);
    AddressesAreClean(raw);
    AddressesShrink(names);
    if forall a :: a in raw ==> !DoubleAt(a) {
      forall k | 0 <= k < |names| ensures !LeadingAt(names[k]) { GivenAs(raw, names[k]); }
      CleanIsFixed(names);
    } else {
      var a :| a in raw && DoubleAt(a);
      CanonLeadingAt(a);
      AddressMembers(raw, Canon(a));
      assert Canon(a) in names;
    }
  }

  /**
    * Normalising again, as every evaluation does with the stored policy, changes nothing exactly when no
    * address was given with two leading '@'s.
    */
  lemma NormalizeTwice(p: RawPolicy)
    requires Normalize(p).Ok?
    ensures Normalize(Stored(Normalize(p).value)) == Normalize(p) <==> forall a :: a in RawAddresses(p) ==> !DoubleAt(a)
  {
    AddressesTwice(RawAddresses(p));
    ReadBack(Normalize(p).value);
  }

  lemma GivenAs(raw: seq<string>, name: string)
    requires name in Addresses(raw)
    ensures exists a :: a in raw && Canon(a) == name && (LeadingAt(name) <==> DoubleAt(a))
  {
    AddressMembers(raw, name);
    var a :| a in raw && Canon(a) == name;
    CanonLeadingAt(a);
  }

  lemma {:induction false} OnlyAts(names: seq<string>)
    requires forall k | 0 <= k < |names| :: names[k] == "@"
    ensures Addresses(names) == []
    decreases |names|
  {
    if names != [] { OnlyAts(names[..|names| - 1]); }
  }

  lemma NothingLeft(raw: seq<string>)
    ensures Addresses(Addresses(raw)) == [] <==> forall a :: a in raw ==> a == "" || a == "@" || a == "@@"
  {
    var names := Addresses(raw);
    if forall a :: a in raw ==> a == "" || a == "@" || a == "@@" {
      forall k | 0 <= k < |names| ensures names[k] == "@" { AddressesAreClean(raw); AddressMembers(raw, names[k]); }
      OnlyAts(names);
    } else {
      var a :| a in raw && a != "" && a != "@" && a != "@@";
      SomethingLeft(a);
      AddressMembers(raw, Canon(a));
      AddressMembers(names, Canon(Canon(a)));
    }
  }

  /**
    * When nobody can release, not even the owner: the policy was accepted, but read back it has no address
    * left.  That is so exactly when a list was required and every address given was "", "@" or "@@".
    */
  lemma NobodyCanRelease(p: RawPolicy, owner: string, releaser: string, consented: set<string>)
    requires Normalize(p).Ok?
    ensures Evaluate(Stored(Normalize(p).value), owner, releaser, consented).Err?
      <==> !Normalize(p).value.kind.OwnerOnly? && forall a :: a in RawAddresses(p) ==> a == "" || a == "@" || a == "@@"
  {
    NothingLeft(RawAddresses(p));
    ReadBack(Normalize(p).value);
  }

  /** What evaluation makes of a stored policy. */
  lemma ReadBack(q: Policy)
    ensures Normalize(Stored(q))
      == if !q.kind.OwnerOnly? && Addresses(q.addresses) == [] then Err(BadRequest)
         else Ok(Policy(q.kind, Addresses(q.addresses)))
  {
  }

  lemma SomethingLeft(a: string)
    requires a != "" && a != "@" && a != "@@"
    ensures Canon(a) != "" && Canon(Canon(a)) != ""
  {
    if |a| == 2 { assert a == [a[0]] + [a[1]]; }
  }

  lemma OneAddress(a: string)
    ensures Addresses([a]) == if Canon(a) == "" then [] else [Canon(a)]
  {
    assert [a][..0] == [];
  }

  /** Such a policy: accepted at upload, and then the owner's own release is a bad request. */
  lemma OwnerLockedOut()
    ensures Normalize(Raw(Some("any_of"), Some(["@@"]))) == Ok(Policy(AnyOf, ["@"]))
    ensures Evaluate(Stored(Policy(AnyOf, ["@"])), "alice", "alice", {}) == Err(BadRequest)
  {
    AcceptedWithAts();
    RefusedWithAts();
  }

  lemma CanonOfAts()
    ensures Canon("@@") == "@" && Canon("@") == ""
  {
    assert ToLower("@@") == "@@" && ToLower("@") == "@";
  }

  lemma AcceptedWithAts()
    ensures Normalize(Raw(Some("any_of"), Some(["@@"]))) == Ok(Policy(AnyOf, ["@"]))
  {
    CanonOfAts();
    OneAddress("@@");
  }

  lemma RefusedWithAts()
    ensures Normalize(Stored(Policy(AnyOf, ["@"]))) == Err(BadRequest)
  {
    CanonOfAts();
    OneAddress("@");
    ReadBack(Policy(AnyOf, ["@"]));
  }

  /**
    * From upload to release: an order whose policy was accepted, with no address given with two leading
    * '@'s, is ended exactly when the accounts heard satisfy the policy as its owner wrote it.
    */
  lemma AcceptedPolicyTrace(p: RawPolicy, owner: string, receiptHash: Option<string>, attempts: seq<Attempt>)
    requires Normalize(p).Ok? && forall a :: a in RawAddresses(p) ==> !DoubleAt(a)
    ensures var o := NewOrder(Stored(Normalize(p).value), owner, receiptHash);
      ActAll(o, attempts).active <==> !Met(Normalize(p).value, ToLower(owner), Voices(o, attempts))
  {
    NormalizeTwice(p);
    ReleaseTrace(Stored(Normalize(p).value), owner, receiptHash, attempts);
  }
}
