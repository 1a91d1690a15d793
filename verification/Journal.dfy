/** Balanced journal entries and their reversals. */
module Journal {
  import opened Prelude
  import M = Money

  const MIN_POSTINGS := 2
  const MAX_POSTINGS := 1024

  datatype EntryKind = UnknownKind | Standard | Reversal

  datatype Posting = Posting(account: Uuid, amount: M.Money)

  datatype Entry = Entry(
    id: Uuid,
    kind: EntryKind,
    reverses: Option<Uuid>,
    postings: seq<Posting>,
    recordedAt: Time)

  datatype EntryError = InvalidEntry | Unbalanced | Overflow

  // ---- Exact sums of postings ----

  /** Net minor units of one currency over a posting list. */
  function CurrencySum(ps: seq<Posting>, c: M.Currency): int {
    if ps == [] then 0
    else
      var p := ps[|ps| - 1];
      CurrencySum(ps[..|ps| - 1], c) + (if p.amount.currency == c then p.amount.minor else 0)
  }

  /** Net minor units of one account over a posting list. */
  function AccountSum(ps: seq<Posting>, a: Uuid): int {
    if ps == [] then 0
    else
      var p := ps[|ps| - 1];
      AccountSum(ps[..|ps| - 1], a) + (if p.account == a then p.amount.minor else 0)
  }

  ghost predicate Balanced(ps: seq<Posting>) {
    forall c: M.Currency :: CurrencySum(ps, c) == 0
  }

  predicate ValidPosting(p: Posting) {
    M.ValidCurrency(p.amount.currency) && p.amount.minor != 0 && p.amount.minor != MIN_INT64
  }

  predicate WellFormed(ps: seq<Posting>) {
    MIN_POSTINGS <= |ps| <= MAX_POSTINGS && forall i :: 0 <= i < |ps| ==> ValidPosting(ps[i])
  }

  /** What a constructed entry guarantees to everything downstream. */
  ghost predicate ValidEntry(e: Entry) {
    && e.recordedAt != 0
    && (e.kind == Standard ==> e.reverses.None?)
    && (e.kind == Reversal ==> e.reverses.Some?)
    && e.kind != UnknownKind
    && WellFormed(e.postings)
    && Balanced(e.postings)
  }

  // ---- Validation ----

  /** Accumulates one exact total per currency and accepts exactly the balanced lists. */
  method ValidateBalancedPostings(ps: seq<Posting>) returns (balanced: bool)
    ensures balanced <==> Balanced(ps)
  {
    var totals: map<M.Currency, int> := map[];
    var i := 0;
    while i < |ps|
      invariant 0 <= i <= |ps|
      invariant forall c :: c in totals ==> totals[c] == CurrencySum(ps[..i], c)
      invariant forall c: M.Currency :: c !in totals ==> CurrencySum(ps[..i], c) == 0
    {
      var c := ps[i].amount.currency;
      assert ps[..i + 1][..i] == ps[..i];
      if c !in totals {
        totals := totals[c := 0];
      }
      totals := totals[c := totals[c] + ps[i].amount.minor];
      i := i + 1;
    }
    assert ps[..i] == ps;
    balanced := true;
    var pending := totals.Keys;
    while pending != {}
      invariant pending <= totals.Keys
      invariant balanced
      invariant forall c :: c in totals && c !in pending ==> totals[c] == 0
    {
      var c :| c in pending;
      if totals[c] != 0 {
        assert CurrencySum(ps, c) != 0;
        return false;
      }
      pending := pending - {c};
    }
  }

  method Validate(e: Entry) returns (fault: Option<EntryError>)
    ensures fault.None? <==> ValidEntry(e)
    ensures fault == Some(Unbalanced) ==> WellFormed(e.postings) && !Balanced(e.postings)
  {
    if e.recordedAt == 0 || (e.kind != Standard && e.kind != Reversal) {
      return Some(InvalidEntry);
    }
    if (e.kind == Standard && e.reverses.Some?) || (e.kind == Reversal && e.reverses.None?) {
      return Some(InvalidEntry);
    }
    if |e.postings| < MIN_POSTINGS || |e.postings| > MAX_POSTINGS {
      return Some(InvalidEntry);
    }
    for i := 0 to |e.postings|
      invariant forall k :: 0 <= k < i ==> ValidPosting(e.postings[k])
    {
      if !ValidPosting(e.postings[i]) {
        return Some(InvalidEntry);
      }
    }
    var balanced := ValidateBalancedPostings(e.postings);
    return if balanced then None else Some(Unbalanced);
  }

  // ---- Reversal ----

  predicate Reversible(ps: seq<Posting>) {
    forall i :: 0 <= i < |ps| ==> ps[i].amount.minor != MIN_INT64
  }

  /** The positional inverse of a posting list. */
  function Negated(ps: seq<Posting>): (ns: seq<Posting>)
    requires Reversible(ps)
    ensures |ns| == |ps|
    ensures forall i :: 0 <= i < |ps| ==>
      ns[i].account == ps[i].account && ns[i].amount == M.Money(-ps[i].amount.minor, ps[i].amount.currency)
  {
    if ps == [] then []
    else
      var p := ps[|ps| - 1];
      Negated(ps[..|ps| - 1]) + [Posting(p.account, M.Money(-p.amount.minor, p.amount.currency))]
  }

  lemma {:induction false} NegatedSums(ps: seq<Posting>, a: Uuid, c: M.Currency)
    requires Reversible(ps)
    ensures AccountSum(Negated(ps), a) == -AccountSum(ps, a)
    ensures CurrencySum(Negated(ps), c) == -CurrencySum(ps, c)
  {
    if ps != [] {
      var init := ps[..|ps| - 1];
      NegatedSums(init, a, c);
      assert Negated(ps)[..|ps| - 1] == Negated(init);
    }
  }

  lemma NegatedValid(ps: seq<Posting>)
    requires WellFormed(ps) && Balanced(ps)
    ensures WellFormed(Negated(ps)) && Balanced(Negated(ps))
  {
    forall c: M.Currency ensures CurrencySum(Negated(ps), c) == 0 {
      NegatedSums(ps, 0, c);
    }
  }

  /** Negating twice restores the list position by position. */
  lemma NegatedTwice(ps: seq<Posting>)
    requires Reversible(ps)
    ensures Reversible(Negated(ps)) && Negated(Negated(ps)) == ps
  {
    assert Reversible(Negated(ps));
    var twice := Negated(Negated(ps));
    forall i | 0 <= i < |ps| ensures twice[i] == ps[i] {
      assert twice[i].amount == M.Money(ps[i].amount.minor, ps[i].amount.currency);
    }
  }

  /** Builds the reversal of an entry posting by posting; it fails exactly on an invalid source, on the
      source's own identifier or on an unset time, and never on its arithmetic or its balance. */
  method Reverse(e: Entry, newId: Uuid, recordedAt: Time) returns (r: Result<Entry, EntryError>)
    ensures r.Ok? <==> ValidEntry(e) && newId != e.id && recordedAt != 0
    ensures r.Ok? ==> ValidEntry(r.value)
    ensures r.Ok? ==> r.value == Entry(newId, Reversal, Some(e.id), Negated(e.postings), recordedAt)
  {
    var fault := Validate(e);
    if fault.Some? || newId == e.id {
      return Err(InvalidEntry);
    }
    var reversed: seq<Posting> := [];
    for i := 0 to |e.postings|
      invariant |reversed| == i && Reversible(e.postings[..i])
      invariant reversed == Negated(e.postings[..i])
    {
      assert ValidPosting(e.postings[i]);
      assert e.postings[..i + 1][..i] == e.postings[..i];
      var amount := M.Negate(e.postings[i].amount);
      if amount.Err? {
        assert false;
      } else {
        reversed := reversed + [Posting(e.postings[i].account, amount.value)];
      }
    }
    assert e.postings[..|e.postings|] == e.postings;
    NegatedValid(e.postings);
    var entry := Entry(newId, Reversal, Some(e.id), reversed, recordedAt);
    fault := Validate(entry);
    return if fault.Some? then Err(fault.value) else Ok(entry);
  }
}
