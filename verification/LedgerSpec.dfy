/** What one posting transaction does to the journal and the balance snapshots, as a function of values. */
module LedgerSpec {
  import opened Prelude
  import opened Journal
  import M = Money

  datatype AccountKind = Customer | System | OtherAccount

  datatype Row = Row(currency: M.Currency, kind: AccountKind, balance: Int64, version: Int64)

  /** Immutable entries in commit order, and one balance snapshot per account. */
  datatype Ledger = Ledger(journal: seq<Entry>, rows: map<Uuid, Row>)

  datatype LedgerError =
    | InvalidArgument
    | NotFound
    | AlreadyExists
    | AlreadyReversed
    | CurrencyMismatch
    | InsufficientFunds
    | AmountOverflow
    | InvalidReversal
    | CorruptData

  /** The net effect of an entry on one account; the last two fields are filled in by each attempt. */
  datatype Change = Change(account: Uuid, currency: M.Currency, delta: Int64, newBalance: Int64, newVersion: Int64)

  // ---- Aggregation ----

  function Accounts(ps: seq<Posting>): set<Uuid> {
    set i | 0 <= i < |ps| :: ps[i].account
  }

  predicate OneCurrencyPerAccount(ps: seq<Posting>) {
    forall i, j :: 0 <= i < j < |ps| && ps[i].account == ps[j].account ==>
      ps[i].amount.currency == ps[j].amount.currency
  }

  predicate SumsFit(ps: seq<Posting>) {
    forall a :: a in Accounts(ps) ==> IsInt64(AccountSum(ps, a))
  }

  lemma AccountsSnoc(ps: seq<Posting>, p: Posting)
    ensures Accounts(ps + [p]) == Accounts(ps) + {p.account}
  {
    var all := ps + [p];
    forall a | a in Accounts(ps) ensures a in Accounts(all) {
      var i :| 0 <= i < |ps| && ps[i].account == a;
      assert all[i].account == a;
    }
    assert all[|ps|].account == p.account;
  }

  /** The currency of an account's first posting. */
  function CurrencyOf(ps: seq<Posting>, a: Uuid): M.Currency
    requires a in Accounts(ps)
  {
    var init, last := ps[..|ps| - 1], ps[|ps| - 1];
    if a in Accounts(init) then CurrencyOf(init, a) else last.amount.currency
  }

  lemma {:induction false} CurrencyWitness(ps: seq<Posting>, a: Uuid)
    requires a in Accounts(ps)
    ensures exists i :: 0 <= i < |ps| && ps[i].account == a && ps[i].amount.currency == CurrencyOf(ps, a)
  {
    var init, last := ps[..|ps| - 1], ps[|ps| - 1];
    assert ps == init + [last];
    AccountsSnoc(init, last);
    if a in Accounts(init) {
      CurrencyWitness(init, a);
      var i :| 0 <= i < |init| && init[i].account == a && init[i].amount.currency == CurrencyOf(init, a);
      assert ps[i] == init[i];
    }
  }

  /** Currencies stay unmixed exactly while each posting repeats its account's first currency. */
  lemma OneCurrencySnoc(ps: seq<Posting>, p: Posting)
    ensures OneCurrencyPerAccount(ps + [p]) <==>
            OneCurrencyPerAccount(ps) && (p.account in Accounts(ps) ==> CurrencyOf(ps, p.account) == p.amount.currency)
  {
    var all := ps + [p];
    assert forall i :: 0 <= i < |ps| ==> all[i] == ps[i];
    if p.account in Accounts(ps) {
      CurrencyWitness(ps, p.account);
      var k :| 0 <= k < |ps| && ps[k].account == p.account && ps[k].amount.currency == CurrencyOf(ps, p.account);
      assert all[k].account == all[|ps|].account;
    }
    forall i | 0 <= i < |ps| && ps[i].account == p.account ensures p.account in Accounts(ps) {
    }
  }

  predicate InAccountOrder(cs: seq<Change>) {
    forall i, j :: 0 <= i < j < |cs| ==> cs[i].account < cs[j].account
  }

  function AccountsOf(cs: seq<Change>): set<Uuid> {
    set i | 0 <= i < |cs| :: cs[i].account
  }

  predicate IsNet(c: Change, ps: seq<Posting>) {
    && c.account in Accounts(ps)
    && c.currency == CurrencyOf(ps, c.account)
    && c.delta == AccountSum(ps, c.account)
  }

  /** An aggregated change list: every account once, in order, with its currency and exact net. */
  predicate Aggregates(cs: seq<Change>, ps: seq<Posting>) {
    InAccountOrder(cs) && AccountsOf(cs) == Accounts(ps) && forall i :: 0 <= i < |cs| ==> IsNet(cs[i], ps)
  }

  // ---- Faults of one transaction, in the order the code meets them ----

  ghost function PrepareFault(e: Entry): Option<LedgerError> {
    if e.recordedAt == 0 || !WellFormed(e.postings) || !Balanced(e.postings) then Some(InvalidArgument)
    else if e.kind == UnknownKind then Some(InvalidArgument)
    else if e.kind == Standard && e.reverses.Some? then Some(InvalidArgument)
    else if e.kind == Reversal && (e.reverses.None? || e.reverses == Some(e.id)) then Some(InvalidArgument)
    else if !OneCurrencyPerAccount(e.postings) then Some(CurrencyMismatch)
    else if !SumsFit(e.postings) then Some(AmountOverflow)
    else None
  }

  function Find(journal: seq<Entry>, id: Uuid): (found: Option<Entry>)
    ensures found.Some? ==> found.value in journal && found.value.id == id
    ensures found.None? ==> forall i :: 0 <= i < |journal| ==> journal[i].id != id
  {
    if journal == [] then None
    else if journal[|journal| - 1].id == id then Some(journal[|journal| - 1])
    else Find(journal[..|journal| - 1], id)
  }

  predicate IsReversed(journal: seq<Entry>, id: Uuid) {
    exists i :: 0 <= i < |journal| && journal[i].reverses == Some(id)
  }

  predicate Inverts(ps: seq<Posting>, source: seq<Posting>) {
    |source| == |ps| && forall i :: 0 <= i < |ps| ==>
      && source[i].account == ps[i].account
      && source[i].amount.currency == ps[i].amount.currency
      && source[i].amount.minor + ps[i].amount.minor == 0
  }

  function ReversalFault(journal: seq<Entry>, e: Entry): Option<LedgerError> {
    if e.kind != Reversal || e.reverses.None? then None
    else match Find(journal, e.reverses.value)
      case None => Some(NotFound)
      case Some(source) =>
        if IsReversed(journal, source.id) then Some(AlreadyReversed)
        else if !Inverts(e.postings, source.postings) then Some(InvalidReversal)
        else None
  }

  function RowFault(row: Row, currency: M.Currency, delta: int): Option<LedgerError> {
    if row.currency != currency then Some(CurrencyMismatch)
    else if !IsInt64(row.balance + delta) then Some(AmountOverflow)
    else if row.kind == Customer && row.balance + delta < 0 then Some(InsufficientFunds)
    else if row.kind == OtherAccount then Some(CorruptData)
    else if row.version == MAX_INT64 then Some(AmountOverflow)
    else None
  }

  predicate FaultAt(rows: map<Uuid, Row>, c: Change) {
    c.account in rows && RowFault(rows[c.account], c.currency, c.delta).Some?
  }

  /** The fault of the first locked row, in account order, that refuses its change. */
  function FirstFault(rows: map<Uuid, Row>, cs: seq<Change>): Option<LedgerError> {
    if cs == [] then None
    else if FaultAt(rows, cs[0]) then RowFault(rows[cs[0].account], cs[0].currency, cs[0].delta)
    else FirstFault(rows, cs[1..])
  }

  /** Row faults come first; only then is a missing account noticed, by the count of locked rows. */
  function LockFault(rows: map<Uuid, Row>, cs: seq<Change>): Option<LedgerError> {
    if FirstFault(rows, cs).Some? then FirstFault(rows, cs)
    else if exists i :: 0 <= i < |cs| && cs[i].account !in rows then Some(NotFound)
    else None
  }

  // ---- Effect ----

  predicate Writable(rows: map<Uuid, Row>, ps: seq<Posting>) {
    forall a :: a in Accounts(ps) && a in rows ==>
      IsInt64(rows[a].balance + AccountSum(ps, a)) && rows[a].version < MAX_INT64
  }

  /** Every participating snapshot moves by the account's exact net and counts one more entry. */
  function Moved(rows: map<Uuid, Row>, ps: seq<Posting>): (after: map<Uuid, Row>)
    requires Writable(rows, ps)
    ensures after.Keys == rows.Keys
  {
    map a | a in rows ::
      if a in Accounts(ps)
      then rows[a].(balance := rows[a].balance + AccountSum(ps, a), version := rows[a].version + 1)
      else rows[a]
  }

  /** The blank change list of an entry that passed preparation. */
  function Blank(ps: seq<Posting>): (cs: seq<Change>)
    requires SumsFit(ps)
    ensures |cs| == |Sorted(Accounts(ps))|
    ensures forall i :: 0 <= i < |cs| ==>
      var a := Sorted(Accounts(ps))[i];
      cs[i] == Change(a, CurrencyOf(ps, a), AccountSum(ps, a), 0, 0)
  {
    var keys := Sorted(Accounts(ps));
    seq(|keys|, i requires 0 <= i < |keys| =>
      Change(keys[i], CurrencyOf(ps, keys[i]), AccountSum(ps, keys[i]), 0, 0))
  }

  /** One change per key, filled in from the postings, aggregates them. */
  lemma KeysAggregate(ps: seq<Posting>, keys: seq<Uuid>, cs: seq<Change>)
    requires Ascending(keys) && |cs| == |keys| && forall a :: a in keys <==> a in Accounts(ps)
    requires forall i :: 0 <= i < |cs| ==> keys[i] in keys && cs[i].account == keys[i] && IsNet(cs[i], ps)
    ensures Aggregates(cs, ps)
  {
    forall a | a in Accounts(ps) ensures a in AccountsOf(cs) {
      var i :| 0 <= i < |keys| && keys[i] == a;
      assert cs[i].account == a;
    }
  }

  lemma BlankAggregates(ps: seq<Posting>)
    requires SumsFit(ps)
    ensures Aggregates(Blank(ps), ps)
  {
    KeysAggregate(ps, Sorted(Accounts(ps)), Blank(ps));
  }

  lemma {:induction false} NoFirstFault(rows: map<Uuid, Row>, cs: seq<Change>)
    requires FirstFault(rows, cs).None?
    ensures forall i :: 0 <= i < |cs| ==> !FaultAt(rows, cs[i])
  {
    if cs != [] {
      NoFirstFault(rows, cs[1..]);
      forall i | 0 <= i < |cs| ensures !FaultAt(rows, cs[i]) {
        if i > 0 {
          assert cs[i] == cs[1..][i - 1];
        }
      }
    }
  }

  /** A change list that locks without fault can be written. */
  lemma LockedIsWritable(rows: map<Uuid, Row>, cs: seq<Change>, ps: seq<Posting>)
    requires Aggregates(cs, ps)
    requires LockFault(rows, cs).None?
    ensures Writable(rows, ps)
    ensures Accounts(ps) <= rows.Keys
  {
    NoFirstFault(rows, cs);
    forall a | a in Accounts(ps)
      ensures a in rows && IsInt64(rows[a].balance + AccountSum(ps, a)) && rows[a].version < MAX_INT64
    {
      assert a in AccountsOf(cs);
      var i :| 0 <= i < |cs| && cs[i].account == a;
      assert IsNet(cs[i], ps) && !FaultAt(rows, cs[i]);
    }
  }

  /** A prepared entry inside its transaction, for any change list that aggregates its postings. */
  function Applied(l: Ledger, e: Entry, cs: seq<Change>): Result<Ledger, LedgerError>
    requires Aggregates(cs, e.postings)
  {
    if ReversalFault(l.journal, e).Some? then Err(ReversalFault(l.journal, e).value)
    else if LockFault(l.rows, cs).Some? then Err(LockFault(l.rows, cs).value)
    else if Find(l.journal, e.id).Some? then Err(AlreadyExists)
    else
      LockedIsWritable(l.rows, cs, e.postings);
      Ok(Ledger(l.journal + [e], Moved(l.rows, e.postings)))
  }

  /** One posting transaction: all of its effects, or the first fault and no effect. */
  ghost function Posted(l: Ledger, e: Entry): Result<Ledger, LedgerError> {
    if PrepareFault(e).Some? then Err(PrepareFault(e).value)
    else
      BlankAggregates(e.postings);
      Applied(l, e, Blank(e.postings))
  }

  // ---- Sums over the journal ----

  /** Net minor units of one account over all entries. */
  function JournalSum(journal: seq<Entry>, a: Uuid): int {
    if journal == [] then 0
    else JournalSum(journal[..|journal| - 1], a) + AccountSum(journal[|journal| - 1].postings, a)
  }

  /** Number of entries with a posting on the account. */
  function Touches(journal: seq<Entry>, a: Uuid): nat {
    if journal == [] then 0
    else
      Touches(journal[..|journal| - 1], a) +
      (if a in Accounts(journal[|journal| - 1].postings) then 1 else 0)
  }

  /** SUM(amount_minor) of one entry's postings grouped by account and currency. */
  function GroupSum(ps: seq<Posting>, a: Uuid, c: M.Currency): int {
    if ps == [] then 0
    else
      var p := ps[|ps| - 1];
      GroupSum(ps[..|ps| - 1], a, c) + (if p.account == a && p.amount.currency == c then p.amount.minor else 0)
  }

  function GroupTotal(journal: seq<Entry>, a: Uuid, c: M.Currency): int {
    if journal == [] then 0
    else GroupTotal(journal[..|journal| - 1], a, c) + GroupSum(journal[|journal| - 1].postings, a, c)
  }

  // ---- Reading an entry back ----

  ghost function Restored(journal: seq<Entry>, stored: Entry): Result<Entry, LedgerError> {
    if stored.kind == Standard then
      var rebuilt := Entry(stored.id, Standard, None, stored.postings, stored.recordedAt);
      if ValidEntry(rebuilt) then Ok(rebuilt) else Err(CorruptData)
    else if stored.kind == UnknownKind || stored.reverses.None? then Err(CorruptData)
    else match Find(journal, stored.reverses.value)
      case None => Err(CorruptData)
      case Some(source) =>
        if && ValidEntry(Entry(source.id, Standard, None, source.postings, source.recordedAt))
           && stored.id != source.id && stored.recordedAt != 0
           && Negated(source.postings) == stored.postings
        then Ok(Entry(stored.id, Reversal, Some(source.id), stored.postings, stored.recordedAt))
        else Err(CorruptData)
  }

  ghost function Gotten(l: Ledger, id: Uuid): Result<Entry, LedgerError> {
    match Find(l.journal, id)
    case None => Err(NotFound)
    case Some(stored) => Restored(l.journal, stored)
  }
}
