/** What every sequence of account openings, posts and reversals keeps true of the ledger. */
module LedgerTheory {
  import opened Prelude
  import opened Journal
  import opened LedgerSpec
  import opened LedgerRepository
  import M = Money

  // ---- The invariant ----

  ghost predicate UniqueIds(journal: seq<Entry>) {
    forall i, j :: 0 <= i < j < |journal| ==> journal[i].id != journal[j].id
  }

  /** Every posting sits on an existing account of its own currency. */
  ghost predicate PostingsFit(ps: seq<Posting>, rows: map<Uuid, Row>) {
    forall i :: 0 <= i < |ps| ==> ps[i].account in rows && rows[ps[i].account].currency == ps[i].amount.currency
  }

  /** The snapshot is the exact sum of the account's postings and its version counts the entries. */
  ghost predicate SnapshotAgrees(journal: seq<Entry>, a: Uuid, row: Row) {
    && row.balance == JournalSum(journal, a)
    && row.version == Touches(journal, a)
    && row.kind != OtherAccount
    && (row.kind == Customer ==> row.balance >= 0)
  }

  /** A reversal undoes an earlier entry, position by position. */
  ghost predicate Justified(journal: seq<Entry>, i: nat)
    requires i < |journal|
  {
    journal[i].kind == Reversal ==>
      exists j :: 0 <= j < i && UndoneBy(journal[j], journal[i])
  }

  ghost predicate UndoneBy(source: Entry, reversal: Entry) {
    reversal.reverses == Some(source.id) && Reversible(source.postings) && reversal.postings == Negated(source.postings)
  }

  ghost predicate ReversedOnce(journal: seq<Entry>) {
    forall i, j :: 0 <= i < j < |journal| && journal[i].reverses.Some? ==> journal[i].reverses != journal[j].reverses
  }

  ghost predicate LedgerInv(l: Ledger) {
    && UniqueIds(l.journal)
    && ReversedOnce(l.journal)
    && (forall i :: 0 <= i < |l.journal| ==> ValidEntry(l.journal[i]) && PostingsFit(l.journal[i].postings, l.rows))
    && (forall i :: 0 <= i < |l.journal| ==> Justified(l.journal, i))
    && (forall a :: a in l.rows ==> SnapshotAgrees(l.journal, a, l.rows[a]))
  }

  // ---- Commands and runs ----

  datatype Command =
    | OpenAccount(account: Uuid, currency: M.Currency, kind: AccountKind)
    | PostEntry(entry: Entry)

  function Opened(l: Ledger, account: Uuid, currency: M.Currency, kind: AccountKind): Ledger {
    if account in l.rows || kind == OtherAccount then l
    else l.(rows := l.rows[account := Row(currency, kind, 0, 0)])
  }

  ghost function Step(l: Ledger, c: Command): Ledger {
    match c
    case OpenAccount(a, currency, kind) => Opened(l, a, currency, kind)
    case PostEntry(e) => if Posted(l, e).Ok? then Posted(l, e).value else l
  }

  ghost function Run(l: Ledger, cs: seq<Command>): Ledger {
    if cs == [] then l else Step(Run(l, cs[..|cs| - 1]), cs[|cs| - 1])
  }

  // ---- A committed entry ----

  /** What a committed entry satisfied in the ledger it was posted to. */
  ghost predicate Admitted(l: Ledger, e: Entry) {
    && ValidEntry(e)
    && Find(l.journal, e.id).None?
    && ReversalFault(l.journal, e).None?
    && Writable(l.rows, e.postings)
    && PostingsFit(e.postings, l.rows)
    && (forall a :: a in Accounts(e.postings) ==> a in l.rows && Solvent(l.rows[a], AccountSum(e.postings, a)))
  }

  ghost predicate Solvent(row: Row, delta: int) {
    row.kind != OtherAccount && (row.kind == Customer ==> row.balance + delta >= 0)
  }

  function After(l: Ledger, e: Entry): Ledger
    requires Writable(l.rows, e.postings)
  {
    Ledger(l.journal + [e], Moved(l.rows, e.postings))
  }

  lemma AppliedParts(l: Ledger, e: Entry, cs: seq<Change>)
    requires PrepareFault(e).None? && Aggregates(cs, e.postings) && Applied(l, e, cs).Ok?
    ensures Admitted(l, e) && Applied(l, e, cs) == Ok(After(l, e))
  {
    LockedIsWritable(l.rows, cs, e.postings);
    LockedRowsAgree(l.rows, cs, e.postings);
    CurrenciesFit(l.rows, e.postings);
  }

  lemma PostedParts(l: Ledger, e: Entry)
    requires Posted(l, e).Ok?
    ensures Admitted(l, e) && Posted(l, e) == Ok(After(l, e))
  {
    BlankAggregates(e.postings);
    AppliedParts(l, e, Blank(e.postings));
  }

  lemma LockedRowsAgree(rows: map<Uuid, Row>, cs: seq<Change>, ps: seq<Posting>)
    requires Aggregates(cs, ps) && LockFault(rows, cs).None?
    ensures forall a :: a in Accounts(ps) ==> a in rows && RowFault(rows[a], CurrencyOf(ps, a), AccountSum(ps, a)).None?
  {
    NoFirstFault(rows, cs);
    forall a | a in Accounts(ps) ensures a in rows && RowFault(rows[a], CurrencyOf(ps, a), AccountSum(ps, a)).None? {
      assert a in AccountsOf(cs);
      var i :| 0 <= i < |cs| && cs[i].account == a;
      assert IsNet(cs[i], ps) && !FaultAt(rows, cs[i]);
    }
  }

  lemma CurrenciesFit(rows: map<Uuid, Row>, ps: seq<Posting>)
    requires OneCurrencyPerAccount(ps)
    requires forall a :: a in Accounts(ps) ==> a in rows && rows[a].currency == CurrencyOf(ps, a)
    ensures PostingsFit(ps, rows)
  {
    forall i | 0 <= i < |ps| ensures ps[i].account in rows && rows[ps[i].account].currency == ps[i].amount.currency {
      var a := ps[i].account;
      assert a in Accounts(ps);
      CurrencyWitness(ps, a);
      var k :| 0 <= k < |ps| && ps[k].account == a && ps[k].amount.currency == CurrencyOf(ps, a);
      assert k < i || i < k || i == k;
    }
  }

  lemma InvertsIsNegated(ps: seq<Posting>, source: seq<Posting>)
    requires Reversible(source) && Inverts(ps, source)
    ensures ps == Negated(source)
  {
    forall i | 0 <= i < |ps| ensures ps[i] == Negated(source)[i] {
      assert ps[i].amount == M.Money(-source[i].amount.minor, source[i].amount.currency);
    }
  }

  // ---- When an entry is refused ----

  /** The account's snapshot takes the entry's net. */
  ghost predicate Takes(rows: map<Uuid, Row>, ps: seq<Posting>, a: Uuid)
    requires a in Accounts(ps)
  {
    a in rows && RowFault(rows[a], CurrencyOf(ps, a), AccountSum(ps, a)).None?
  }

  /** The least account, in the order of the locks, whose snapshot does not take its net. */
  ghost predicate FirstRefuser(rows: map<Uuid, Row>, ps: seq<Posting>, a: Uuid) {
    && a in Accounts(ps) && !Takes(rows, ps, a)
    && forall b :: b in Accounts(ps) && b < a ==> Takes(rows, ps, b)
  }

  lemma {:induction false} FirstFaultWitness(rows: map<Uuid, Row>, cs: seq<Change>) returns (i: nat)
    requires FirstFault(rows, cs).Some?
    ensures i < |cs| && FaultAt(rows, cs[i]) && forall j :: 0 <= j < i ==> !FaultAt(rows, cs[j])
    ensures FirstFault(rows, cs) == RowFault(rows[cs[i].account], cs[i].currency, cs[i].delta)
  {
    if FaultAt(rows, cs[0]) {
      i := 0;
    } else {
      var k := FirstFaultWitness(rows, cs[1..]);
      i := k + 1;
      forall j | 0 <= j < i ensures !FaultAt(rows, cs[j]) {
        assert j > 0 ==> cs[j] == cs[1..][j - 1];
      }
    }
  }

  lemma FirstFaultIsRefuser(rows: map<Uuid, Row>, cs: seq<Change>, ps: seq<Posting>, i: nat)
    requires Aggregates(cs, ps) && (forall a :: a in Accounts(ps) ==> a in rows)
    requires i < |cs| && FaultAt(rows, cs[i]) && forall j :: 0 <= j < i ==> !FaultAt(rows, cs[j])
    ensures FirstRefuser(rows, ps, cs[i].account)
  {
    assert IsNet(cs[i], ps);
    forall b | b in Accounts(ps) && b < cs[i].account ensures Takes(rows, ps, b) {
      assert b in AccountsOf(cs);
      var j :| 0 <= j < |cs| && cs[j].account == b;
      assert j < i && IsNet(cs[j], ps);
    }
  }

  lemma LockOutcome(rows: map<Uuid, Row>, cs: seq<Change>, ps: seq<Posting>)
    requires Aggregates(cs, ps) && forall a :: a in Accounts(ps) ==> a in rows
    ensures LockFault(rows, cs).None? <==> forall a :: a in Accounts(ps) ==> Takes(rows, ps, a)
    ensures LockFault(rows, cs).Some? ==>
      exists a :: FirstRefuser(rows, ps, a) &&
        LockFault(rows, cs) == RowFault(rows[a], CurrencyOf(ps, a), AccountSum(ps, a))
  {
    forall i | 0 <= i < |cs| ensures cs[i].account in Accounts(ps) && cs[i].account in rows && IsNet(cs[i], ps) {
      assert cs[i].account in AccountsOf(cs);
    }
    if FirstFault(rows, cs).Some? {
      var i := FirstFaultWitness(rows, cs);
      FirstFaultIsRefuser(rows, cs, ps, i);
      assert IsNet(cs[i], ps) && FirstRefuser(rows, ps, cs[i].account);
    } else {
      LockedRowsAgree(rows, cs, ps);
    }
  }

  /** An entry that prepares, on existing accounts, under a new identifier: it is posted iff every account takes its
      net, and otherwise refused with the fault of the least account that does not. */
  lemma PostedOutcome(l: Ledger, e: Entry)
    requires PrepareFault(e).None? && ReversalFault(l.journal, e).None? && Find(l.journal, e.id).None?
    requires forall a :: a in Accounts(e.postings) ==> a in l.rows
    ensures Posted(l, e).Ok? <==> forall a :: a in Accounts(e.postings) ==> Takes(l.rows, e.postings, a)
    ensures Posted(l, e).Err? ==>
      exists a :: FirstRefuser(l.rows, e.postings, a) &&
        Some(Posted(l, e).error) == RowFault(l.rows[a], CurrencyOf(e.postings, a), AccountSum(e.postings, a))
  {
    BlankAggregates(e.postings);
    LockOutcome(l.rows, Blank(e.postings), e.postings);
  }

  lemma FirstRefuserIsUnique(rows: map<Uuid, Row>, ps: seq<Posting>, a: Uuid, b: Uuid)
    requires FirstRefuser(rows, ps, a) && FirstRefuser(rows, ps, b)
    ensures a == b
  {
    assert !(a < b) && !(b < a);
  }

  lemma LockedThenMissing(rows: map<Uuid, Row>, cs: seq<Change>, ps: seq<Posting>)
    requires Aggregates(cs, ps) && forall a :: a in Accounts(ps) && a in rows ==> Takes(rows, ps, a)
    ensures LockFault(rows, cs) == if forall a :: a in Accounts(ps) ==> a in rows then None else Some(NotFound)
  {
    forall i | 0 <= i < |cs| ensures cs[i].account in Accounts(ps) && !FaultAt(rows, cs[i]) {
      assert cs[i].account in AccountsOf(cs) && IsNet(cs[i], ps);
    }
    NoFaultAnywhere(rows, cs);
    if a :| a in Accounts(ps) && a !in rows {
      assert a in AccountsOf(cs);
      var i :| 0 <= i < |cs| && cs[i].account == a;
      assert cs[i].account !in rows;
    }
  }

  /** The refusals that no row is to blame for, in their order: a reversal of nothing, of something reversed already or
      of something else; a missing account; and an identifier that is taken. */
  lemma RefusalCodes(l: Ledger, e: Entry)
    requires PrepareFault(e).None?
    ensures e.kind == Reversal && e.reverses.Some? ==>
      var source := Find(l.journal, e.reverses.value);
      && (source.None? ==> Posted(l, e) == Err(NotFound))
      && (source.Some? && IsReversed(l.journal, e.reverses.value) ==> Posted(l, e) == Err(AlreadyReversed))
      && (source.Some? && !IsReversed(l.journal, e.reverses.value) && !Inverts(e.postings, source.value.postings) ==>
            Posted(l, e) == Err(InvalidReversal))
    ensures
      ReversalFault(l.journal, e).None? &&
      (forall a :: a in Accounts(e.postings) && a in l.rows ==> Takes(l.rows, e.postings, a)) ==>
        if exists a :: a in Accounts(e.postings) && a !in l.rows then Posted(l, e) == Err(NotFound)
        else Posted(l, e).Ok? <==> Find(l.journal, e.id).None?
    ensures
      ReversalFault(l.journal, e).None? && Find(l.journal, e.id).Some? &&
      (forall a :: a in Accounts(e.postings) ==> a in l.rows && Takes(l.rows, e.postings, a)) ==>
        Posted(l, e) == Err(AlreadyExists)
  {
    BlankAggregates(e.postings);
    if forall a :: a in Accounts(e.postings) && a in l.rows ==> Takes(l.rows, e.postings, a) {
      LockedThenMissing(l.rows, Blank(e.postings), e.postings);
    }
  }

  lemma RefusedBy(l: Ledger, e: Entry, a: Uuid)
    requires PrepareFault(e).None? && ReversalFault(l.journal, e).None? && Find(l.journal, e.id).None?
    requires (forall x :: x in Accounts(e.postings) ==> x in l.rows) && FirstRefuser(l.rows, e.postings, a)
    ensures Posted(l, e).Err?
    ensures Some(Posted(l, e).error) == RowFault(l.rows[a], CurrencyOf(e.postings, a), AccountSum(e.postings, a))
  {
    PostedOutcome(l, e);
    var b :| FirstRefuser(l.rows, e.postings, b) &&
      Some(Posted(l, e).error) == RowFault(l.rows[b], CurrencyOf(e.postings, b), AccountSum(e.postings, b));
    FirstRefuserIsUnique(l.rows, e.postings, a, b);
  }

  /** The faults of a row of known kind, each as an exact condition on the row. */
  lemma FaultMeans(row: Row, currency: M.Currency, delta: int)
    requires row.kind != OtherAccount
    ensures
      var fault, sum := RowFault(row, currency, delta), row.balance + delta;
      var same, short := row.currency == currency, row.kind == Customer && sum < 0;
      && (fault == Some(CurrencyMismatch) <==> !same)
      && (fault == Some(InsufficientFunds) <==> same && IsInt64(sum) && short)
      && (fault == Some(AmountOverflow) <==> same && (!IsInt64(sum) || (!short && row.version == MAX_INT64)))
      && (fault.None? <==> same && IsInt64(sum) && !short && row.version < MAX_INT64)
  {
  }

  /** What each refusal of a prepared entry says about the account that refused it, in terms of its row alone. */
  lemma RefusalMeans(l: Ledger, e: Entry, a: Uuid)
    requires LedgerInv(l) && PrepareFault(e).None? && ReversalFault(l.journal, e).None? && Find(l.journal, e.id).None?
    requires (forall x :: x in Accounts(e.postings) ==> x in l.rows) && FirstRefuser(l.rows, e.postings, a)
    ensures
      var row, sum := l.rows[a], l.rows[a].balance + AccountSum(e.postings, a);
      var same, short := row.currency == CurrencyOf(e.postings, a), row.kind == Customer && sum < 0;
      && Posted(l, e).Err?
      && (Posted(l, e).error == CurrencyMismatch <==> !same)
      && (Posted(l, e).error == InsufficientFunds <==> same && IsInt64(sum) && short)
      && (Posted(l, e).error == AmountOverflow <==> same && (!IsInt64(sum) || (!short && row.version == MAX_INT64)))
  {
    assert SnapshotAgrees(l.journal, a, l.rows[a]);
    FaultMeans(l.rows[a], CurrencyOf(e.postings, a), AccountSum(e.postings, a));
    RefusedBy(l, e, a);
  }

  // ---- Preservation, clause by clause ----

  lemma SnoC(journal: seq<Entry>, e: Entry, a: Uuid)
    ensures JournalSum(journal + [e], a) == JournalSum(journal, a) + AccountSum(e.postings, a)
    ensures Touches(journal + [e], a) == Touches(journal, a) + (if a in Accounts(e.postings) then 1 else 0)
  {
    assert (journal + [e])[..|journal|] == journal;
  }

  lemma SnapshotsMove(l: Ledger, e: Entry, a: Uuid)
    requires Admitted(l, e) && a in l.rows && SnapshotAgrees(l.journal, a, l.rows[a])
    ensures SnapshotAgrees(l.journal + [e], a, Moved(l.rows, e.postings)[a])
  {
    SnoC(l.journal, e, a);
    if a !in Accounts(e.postings) {
      UntouchedSum(e.postings, a);
    }
  }

  lemma WellFormedIsReversible(ps: seq<Posting>)
    requires WellFormed(ps)
    ensures Reversible(ps)
  {
    forall i | 0 <= i < |ps| ensures ps[i].amount.minor != MIN_INT64 {
      assert ValidPosting(ps[i]);
    }
  }

  lemma OldReversalsStayJustified(journal: seq<Entry>, e: Entry, i: nat)
    requires i < |journal| && Justified(journal, i)
    ensures Justified(journal + [e], i)
  {
    var after := journal + [e];
    if journal[i].kind == Reversal {
      var j :| 0 <= j < i && UndoneBy(journal[j], journal[i]);
      assert UndoneBy(after[j], after[i]);
    }
  }

  lemma NewReversalIsJustified(l: Ledger, e: Entry)
    requires Admitted(l, e)
    requires forall i :: 0 <= i < |l.journal| ==> ValidEntry(l.journal[i])
    ensures Justified(l.journal + [e], |l.journal|)
  {
    if e.kind == Reversal {
      var source := Find(l.journal, e.reverses.value).value;
      var j :| 0 <= j < |l.journal| && l.journal[j] == source;
      assert ValidEntry(l.journal[j]);
      WellFormedIsReversible(source.postings);
      InvertsIsNegated(e.postings, source.postings);
      assert UndoneBy((l.journal + [e])[j], e);
    }
  }

  lemma StillReversedOnce(l: Ledger, e: Entry)
    requires Admitted(l, e) && ReversedOnce(l.journal)
    ensures ReversedOnce(l.journal + [e])
  {
    if e.kind == Reversal {
      assert !IsReversed(l.journal, e.reverses.value);
    }
  }

  lemma PostPreserves(l: Ledger, e: Entry)
    requires LedgerInv(l) && Posted(l, e).Ok?
    ensures LedgerInv(Posted(l, e).value)
  {
    PostedParts(l, e);
    AdmittedPreserves(l, e);
  }

  lemma AdmittedPreserves(l: Ledger, e: Entry)
    requires LedgerInv(l) && Admitted(l, e)
    ensures LedgerInv(After(l, e))
  {
    var after := After(l, e);
    StillReversedOnce(l, e);
    NewReversalIsJustified(l, e);
    forall i | 0 <= i < |after.journal| ensures Justified(after.journal, i) {
      if i < |l.journal| {
        OldReversalsStayJustified(l.journal, e, i);
      }
    }
    forall a | a in after.rows ensures SnapshotAgrees(after.journal, a, after.rows[a]) {
      SnapshotsMove(l, e, a);
    }
    forall i | 0 <= i < |after.journal|
      ensures ValidEntry(after.journal[i]) && PostingsFit(after.journal[i].postings, after.rows)
    {
      StillFits(l, e, i);
    }
  }

  lemma StillFits(l: Ledger, e: Entry, i: nat)
    requires LedgerInv(l) && Admitted(l, e) && i <= |l.journal|
    ensures
      var entry := (l.journal + [e])[i];
      ValidEntry(entry) && PostingsFit(entry.postings, Moved(l.rows, e.postings))
  {
    var entry := (l.journal + [e])[i];
    assert i < |l.journal| ==> entry == l.journal[i];
    assert PostingsFit(entry.postings, l.rows);
    MovedFits(entry.postings, l.rows, e.postings);
  }

  lemma MovedFits(ps: seq<Posting>, rows: map<Uuid, Row>, moved: seq<Posting>)
    requires PostingsFit(ps, rows) && Writable(rows, moved)
    ensures PostingsFit(ps, Moved(rows, moved))
  {
  }

  lemma {:induction false} UntouchedAccount(journal: seq<Entry>, a: Uuid)
    requires forall i :: 0 <= i < |journal| ==> a !in Accounts(journal[i].postings)
    ensures JournalSum(journal, a) == 0 && Touches(journal, a) == 0
  {
    if journal != [] {
      var init, last := journal[..|journal| - 1], journal[|journal| - 1];
      assert forall i :: 0 <= i < |init| ==> init[i] == journal[i];
      UntouchedAccount(init, a);
      UntouchedSum(last.postings, a);
    }
  }

  lemma FitAvoids(ps: seq<Posting>, rows: map<Uuid, Row>, a: Uuid)
    requires PostingsFit(ps, rows) && a !in rows
    ensures a !in Accounts(ps)
  {
  }

  lemma OpenPreserves(l: Ledger, a: Uuid, currency: M.Currency, kind: AccountKind)
    requires LedgerInv(l)
    ensures LedgerInv(Opened(l, a, currency, kind))
  {
    var after := Opened(l, a, currency, kind);
    if a !in l.rows {
      forall i | 0 <= i < |l.journal| ensures a !in Accounts(l.journal[i].postings) {
        FitAvoids(l.journal[i].postings, l.rows, a);
      }
      UntouchedAccount(l.journal, a);
    }
    forall i | 0 <= i < |after.journal| ensures PostingsFit(after.journal[i].postings, after.rows) {
      assert PostingsFit(l.journal[i].postings, l.rows);
    }
    forall i | 0 <= i < |after.journal| ensures Justified(after.journal, i) {
      assert Justified(l.journal, i);
    }
  }

  /** Snapshot refines ledger: the invariant holds after every run that starts with no accounts and no entries. */
  lemma {:induction false} SnapshotRefinesLedger(cs: seq<Command>)
    ensures LedgerInv(Run(Ledger([], map[]), cs))
  {
    if cs != [] {
      SnapshotRefinesLedger(cs[..|cs| - 1]);
      var l := Run(Ledger([], map[]), cs[..|cs| - 1]);
      match cs[|cs| - 1]
      case OpenAccount(a, currency, kind) => OpenPreserves(l, a, currency, kind);
      case PostEntry(e) =>
        if Posted(l, e).Ok? {
          PostPreserves(l, e);
        }
    }
  }

  // ---- Reconciliation ----

  lemma {:induction false} GroupIsAccount(ps: seq<Posting>, a: Uuid, c: M.Currency)
    requires forall i :: 0 <= i < |ps| && ps[i].account == a ==> ps[i].amount.currency == c
    ensures GroupSum(ps, a, c) == AccountSum(ps, a)
  {
    if ps != [] {
      GroupIsAccount(ps[..|ps| - 1], a, c);
    }
  }

  /** Every posting on the account is in the account's currency. */
  ghost predicate OneCurrencyOn(journal: seq<Entry>, a: Uuid, c: M.Currency) {
    forall i, k :: 0 <= i < |journal| && 0 <= k < |journal[i].postings| && journal[i].postings[k].account == a ==>
      journal[i].postings[k].amount.currency == c
  }

  lemma {:induction false} GroupTotalIsJournalSum(journal: seq<Entry>, a: Uuid, c: M.Currency)
    requires OneCurrencyOn(journal, a, c)
    ensures GroupTotal(journal, a, c) == JournalSum(journal, a)
  {
    if journal != [] {
      var init, last := journal[..|journal| - 1], journal[|journal| - 1];
      assert forall i :: 0 <= i < |init| ==> init[i] == journal[i];
      GroupTotalIsJournalSum(init, a, c);
      assert journal[|journal| - 1] == last;
      GroupIsAccount(last.postings, a, c);
    }
  }

  /** Reconciliation reports the truth: of any ledger whose postings respect the account's currency, however its
      snapshots came about, an account is reported iff its snapshot is not the exact sum of its postings, and the report
      names both. */
  lemma ReconcileReports(l: Ledger, a: Uuid)
    requires a in l.rows && OneCurrencyOn(l.journal, a, l.rows[a].currency)
    ensures Differs(l, Compared(l, a)) <==> l.rows[a].balance != JournalSum(l.journal, a)
    ensures Compared(l, a) == Discrepancy(a, l.rows[a].currency, JournalSum(l.journal, a), l.rows[a].balance)
  {
    GroupTotalIsJournalSum(l.journal, a, l.rows[a].currency);
  }

  lemma FitIsOneCurrency(l: Ledger, a: Uuid)
    requires LedgerInv(l) && a in l.rows
    ensures OneCurrencyOn(l.journal, a, l.rows[a].currency)
  {
    forall i, k | 0 <= i < |l.journal| && 0 <= k < |l.journal[i].postings| && l.journal[i].postings[k].account == a
      ensures l.journal[i].postings[k].amount.currency == l.rows[a].currency
    {
      assert PostingsFit(l.journal[i].postings, l.rows);
    }
  }

  /** Reconciliation has nothing to report after any run: no row of the join differs. */
  lemma ReconcileFindsNothing(cs: seq<Command>, a: Uuid)
    requires a in Run(Ledger([], map[]), cs).rows
    ensures !Differs(Run(Ledger([], map[]), cs), Compared(Run(Ledger([], map[]), cs), a))
  {
    var l := Run(Ledger([], map[]), cs);
    SnapshotRefinesLedger(cs);
    FitIsOneCurrency(l, a);
    ReconcileReports(l, a);
    assert SnapshotAgrees(l.journal, a, l.rows[a]);
  }

  // ---- Conservation ----

  ghost function Balances(rows: map<Uuid, Row>, c: M.Currency): map<Uuid, int> {
    map a | a in rows && rows[a].currency == c :: rows[a].balance
  }

  /** The money of one currency held by all accounts together. */
  ghost function CurrencyTotal(rows: map<Uuid, Row>, c: M.Currency): int {
    SumValues(Balances(rows, c))
  }

  ghost function Nets(ps: seq<Posting>, accounts: set<Uuid>): map<Uuid, int> {
    map a | a in accounts :: AccountSum(ps, a)
  }

  /** Exchange of summation: netting per account and then summing is summing the postings of the currency. */
  lemma {:induction false} Exchange(ps: seq<Posting>, accounts: set<Uuid>, c: M.Currency)
    requires forall i :: 0 <= i < |ps| ==> (ps[i].account in accounts <==> ps[i].amount.currency == c)
    ensures SumValues(Nets(ps, accounts)) == CurrencySum(ps, c)
  {
    if ps == [] {
      SumZero(Nets(ps, accounts));
    } else {
      var init, p := ps[..|ps| - 1], ps[|ps| - 1];
      assert forall i :: 0 <= i < |init| ==> init[i] == ps[i];
      Exchange(init, accounts, c);
      if p.account in accounts {
        var before := Nets(init, accounts);
        assert Nets(ps, accounts) == before[p.account := before[p.account] + p.amount.minor];
        SumUpdate(before, p.account, before[p.account] + p.amount.minor);
      } else {
        assert Nets(ps, accounts) == Nets(init, accounts);
      }
    }
  }

  lemma AdmittedConserves(l: Ledger, e: Entry, c: M.Currency)
    requires Admitted(l, e)
    ensures CurrencyTotal(Moved(l.rows, e.postings), c) == CurrencyTotal(l.rows, c)
  {
    var before, after := Balances(l.rows, c), Balances(Moved(l.rows, e.postings), c);
    var nets := Nets(e.postings, before.Keys);
    forall a | a in before ensures after[a] == before[a] + nets[a] {
      if a !in Accounts(e.postings) {
        UntouchedSum(e.postings, a);
      }
    }
    assert after.Keys == before.Keys;
    SumAdd(before, nets, after);
    Exchange(e.postings, before.Keys, c);
  }

  lemma PostConserves(l: Ledger, e: Entry, c: M.Currency)
    requires Posted(l, e).Ok?
    ensures CurrencyTotal(Posted(l, e).value.rows, c) == CurrencyTotal(l.rows, c)
  {
    PostedParts(l, e);
    AdmittedConserves(l, e, c);
  }

  lemma OpenConserves(l: Ledger, a: Uuid, currency: M.Currency, kind: AccountKind, c: M.Currency)
    ensures CurrencyTotal(Opened(l, a, currency, kind).rows, c) == CurrencyTotal(l.rows, c)
  {
    if a !in l.rows && kind != OtherAccount {
      var before, after := Balances(l.rows, c), Balances(Opened(l, a, currency, kind).rows, c);
      if currency == c {
        assert after == before[a := 0];
        SumInsert(before, a, 0);
      } else {
        assert after == before;
      }
    }
  }

  /** Conservation: from any ledger whatsoever, no run changes the money of any currency. */
  lemma {:induction false} RunConserves(l: Ledger, cs: seq<Command>, c: M.Currency)
    ensures CurrencyTotal(Run(l, cs).rows, c) == CurrencyTotal(l.rows, c)
  {
    if cs != [] {
      RunConserves(l, cs[..|cs| - 1], c);
      var mid := Run(l, cs[..|cs| - 1]);
      match cs[|cs| - 1]
      case OpenAccount(a, currency, kind) => OpenConserves(mid, a, currency, kind, c);
      case PostEntry(e) =>
        if Posted(mid, e).Ok? {
          PostConserves(mid, e, c);
        }
    }
  }

  // ---- Reversals and round trips ----

  /** A chain of stored entries, each reversing the one before it. */
  ghost predicate ReversalChain(l: Ledger, chain: seq<Entry>) {
    && |chain| > 0
    && (forall i :: 0 <= i < |chain| ==> chain[i] in l.journal)
    && (forall i :: 0 < i < |chain| ==> chain[i].reverses == Some(chain[i - 1].id))
  }

  lemma FindUnique(journal: seq<Entry>, e: Entry)
    requires UniqueIds(journal) && e in journal
    ensures Find(journal, e.id) == Some(e)
  {
    var found := Find(journal, e.id).value;
    var i :| 0 <= i < |journal| && journal[i] == e;
    var j :| 0 <= j < |journal| && journal[j] == found;
    assert i == j;
  }

  lemma SourceOf(l: Ledger, source: Entry, reversal: Entry)
    requires LedgerInv(l) && source in l.journal && reversal in l.journal && reversal.reverses == Some(source.id)
    ensures reversal.kind == Reversal && UndoneBy(source, reversal)
  {
    var i :| 0 <= i < |l.journal| && l.journal[i] == reversal;
    assert ValidEntry(l.journal[i]) && Justified(l.journal, i);
    var j :| 0 <= j < i && UndoneBy(l.journal[j], l.journal[i]);
    FindUnique(l.journal, l.journal[j]);
    FindUnique(l.journal, source);
  }

  /** Each entry is reversed at most once. */
  lemma ReversedAtMostOnce(l: Ledger, source: Entry, first: Entry, second: Entry)
    requires LedgerInv(l) && first in l.journal && second in l.journal
    requires first.reverses == Some(source.id) && second.reverses == Some(source.id)
    ensures first == second
  {
    var i :| 0 <= i < |l.journal| && l.journal[i] == first;
    var j :| 0 <= j < |l.journal| && l.journal[j] == second;
    assert !(i < j) && !(j < i);
  }

  /** The account can give the entry's effect back. */
  ghost predicate GivesBack(row: Row, effect: int) {
    && IsInt64(-effect) && IsInt64(row.balance - effect) && (row.kind == Customer ==> row.balance - effect >= 0)
    && row.version < MAX_INT64
  }

  lemma NegatedAccounts(ps: seq<Posting>)
    requires Reversible(ps)
    ensures Accounts(Negated(ps)) == Accounts(ps)
  {
    var ns := Negated(ps);
    forall a | a in Accounts(ps) ensures a in Accounts(ns) {
      var i :| 0 <= i < |ps| && ps[i].account == a;
      assert ns[i].account == a;
    }
    forall a | a in Accounts(ns) ensures a in Accounts(ps) {
      var i :| 0 <= i < |ns| && ns[i].account == a;
      assert ps[i].account == a;
    }
  }

  lemma FitCurrency(ps: seq<Posting>, rows: map<Uuid, Row>, a: Uuid)
    requires PostingsFit(ps, rows) && a in Accounts(ps)
    ensures a in rows && CurrencyOf(ps, a) == rows[a].currency
  {
    CurrencyWitness(ps, a);
  }

  lemma FitIsUnmixed(ps: seq<Posting>, rows: map<Uuid, Row>)
    requires PostingsFit(ps, rows)
    ensures OneCurrencyPerAccount(ps)
  {
  }

  lemma NegatedFits(ps: seq<Posting>, rows: map<Uuid, Row>)
    requires PostingsFit(ps, rows) && Reversible(ps)
    ensures PostingsFit(Negated(ps), rows)
  {
  }

  /** The second list undoes the first on every account, in accounts' own currencies. */
  ghost predicate Undoes(ps: seq<Posting>, ns: seq<Posting>, rows: map<Uuid, Row>) {
    && Accounts(ns) == Accounts(ps)
    && (forall a :: a in Accounts(ps) ==>
      a in rows && rows[a].kind != OtherAccount && CurrencyOf(ns, a) == rows[a].currency)
    && (forall a :: a in Accounts(ps) ==> AccountSum(ns, a) == -AccountSum(ps, a))
  }

  ghost predicate AllGiveBack(rows: map<Uuid, Row>, ps: seq<Posting>) {
    forall a :: a in Accounts(ps) ==> a in rows && GivesBack(rows[a], AccountSum(ps, a))
  }

  lemma TakesNegation(rows: map<Uuid, Row>, ns: seq<Posting>, a: Uuid, effect: int)
    requires a in rows && a in Accounts(ns) && rows[a].kind != OtherAccount
    requires AccountSum(ns, a) == -effect && CurrencyOf(ns, a) == rows[a].currency
    ensures IsInt64(-effect) && Takes(rows, ns, a) <==> GivesBack(rows[a], effect)
  {
    FaultMeans(rows[a], rows[a].currency, -effect);
  }

  lemma AllTaken(rows: map<Uuid, Row>, ps: seq<Posting>, ns: seq<Posting>)
    requires Undoes(ps, ns, rows)
    ensures SumsFit(ns) && (forall a :: a in Accounts(ns) ==> Takes(rows, ns, a)) <==> AllGiveBack(rows, ps)
  {
    forall a | a in Accounts(ps)
      ensures IsInt64(AccountSum(ns, a)) && Takes(rows, ns, a) <==> GivesBack(rows[a], AccountSum(ps, a))
    {
      TakesNegation(rows, ns, a, AccountSum(ps, a));
    }
  }

  lemma NegationUndoes(l: Ledger, ps: seq<Posting>, ns: seq<Posting>)
    requires LedgerInv(l) && PostingsFit(ps, l.rows) && Reversible(ps) && ns == Negated(ps)
    ensures Undoes(ps, ns, l.rows) && PostingsFit(ns, l.rows)
  {
    NegatedAccounts(ps);
    NegatedFits(ps, l.rows);
    forall a | a in Accounts(ps)
      ensures a in l.rows && l.rows[a].kind != OtherAccount && CurrencyOf(ns, a) == l.rows[a].currency
      ensures AccountSum(ns, a) == -AccountSum(ps, a)
    {
      NegatedSums(ps, a, "");
      FitCurrency(ns, l.rows, a);
      assert SnapshotAgrees(l.journal, a, l.rows[a]);
    }
  }

  lemma ReversalPrepares(rows: map<Uuid, Row>, source: Entry, e: Entry)
    requires ValidEntry(source) && Reversible(source.postings) && PostingsFit(e.postings, rows)
    requires e.kind == Reversal && e.reverses == Some(source.id) && e.postings == Negated(source.postings)
    requires e.id != source.id && e.recordedAt != 0
    ensures PrepareFault(e).None? <==> SumsFit(e.postings)
  {
    NegatedValid(source.postings);
    FitIsUnmixed(e.postings, rows);
  }

  lemma CorrectReversal(l: Ledger, source: Entry, e: Entry)
    requires LedgerInv(l) && source in l.journal && !IsReversed(l.journal, source.id) && Reversible(source.postings)
    requires e.reverses == Some(source.id) && e.postings == Negated(source.postings)
    ensures ReversalFault(l.journal, e).None? && ValidEntry(source) && PostingsFit(source.postings, l.rows)
  {
    var i :| 0 <= i < |l.journal| && l.journal[i] == source;
    assert ValidEntry(l.journal[i]) && PostingsFit(l.journal[i].postings, l.rows);
    FindUnique(l.journal, source);
  }

  /** The first reversal of a stored entry is never refused as a reversal, and it is posted iff every account can give
      the entry's effect back. */
  lemma FirstReversalIsAdmitted(l: Ledger, source: Entry, e: Entry)
    requires LedgerInv(l) && source in l.journal && !IsReversed(l.journal, source.id) && Reversible(source.postings)
    requires e.kind == Reversal && e.reverses == Some(source.id) && e.postings == Negated(source.postings)
    requires Find(l.journal, e.id).None? && e.recordedAt != 0
    ensures ReversalFault(l.journal, e).None?
    ensures Posted(l, e).Ok? <==> AllGiveBack(l.rows, source.postings)
  {
    CorrectReversal(l, source, e);
    NegationUndoes(l, source.postings, e.postings);
    ReversalPrepares(l.rows, source, e);
    AllTaken(l.rows, source.postings, e.postings);
    ReversalPosts(l, e);
  }

  lemma ReversalPosts(l: Ledger, e: Entry)
    requires ReversalFault(l.journal, e).None? && Find(l.journal, e.id).None?
    requires forall a :: a in Accounts(e.postings) ==> a in l.rows
    ensures Posted(l, e).Ok? <==>
      PrepareFault(e).None? && forall a :: a in Accounts(e.postings) ==> Takes(l.rows, e.postings, a)
  {
    if PrepareFault(e).None? {
      PostedOutcome(l, e);
    }
  }

  lemma ReversalNegates(l: Ledger, source: Entry, reversal: Entry, a: Uuid)
    requires LedgerInv(l) && source in l.journal && reversal in l.journal && reversal.reverses == Some(source.id)
    ensures AccountSum(reversal.postings, a) == -AccountSum(source.postings, a)
  {
    SourceOf(l, source, reversal);
    NegatedSums(source.postings, a, "");
  }

  /** Each entry of the list undoes the effect of the one before it on the account. */
  ghost predicate Alternates(chain: seq<Entry>, a: Uuid) {
    forall i :: 0 < i < |chain| ==> AccountSum(chain[i].postings, a) == -AccountSum(chain[i - 1].postings, a)
  }

  lemma ChainAlternates(l: Ledger, chain: seq<Entry>, a: Uuid)
    requires LedgerInv(l) && ReversalChain(l, chain)
    ensures Alternates(chain, a)
  {
    forall i | 0 < i < |chain| ensures AccountSum(chain[i].postings, a) == -AccountSum(chain[i - 1].postings, a) {
      ReversalNegates(l, chain[i - 1], chain[i], a);
    }
  }

  lemma {:induction false} AlternatingNets(chain: seq<Entry>, a: Uuid)
    requires |chain| > 0 && Alternates(chain, a)
    ensures JournalSum(chain, a) == if |chain| % 2 == 1 then AccountSum(chain[0].postings, a) else 0
    ensures AccountSum(chain[|chain| - 1].postings, a) ==
      if |chain| % 2 == 1 then AccountSum(chain[0].postings, a) else -AccountSum(chain[0].postings, a)
  {
    var init := chain[..|chain| - 1];
    if init == [] {
      assert JournalSum(init, a) == 0;
    } else {
      assert forall i :: 0 <= i < |init| ==> init[i] == chain[i];
      AlternatingNets(init, a);
    }
  }

  /** Reversal algebra: a chain nets to the original effect when its length is odd and to nothing when even,
      on every account. */
  lemma ChainNets(l: Ledger, chain: seq<Entry>, a: Uuid)
    requires LedgerInv(l) && ReversalChain(l, chain)
    ensures JournalSum(chain, a) == if |chain| % 2 == 1 then AccountSum(chain[0].postings, a) else 0
  {
    ChainAlternates(l, chain, a);
    AlternatingNets(chain, a);
  }

  lemma RestoresReversal(journal: seq<Entry>, source: Entry, stored: Entry)
    requires ValidEntry(stored) && stored.kind == Reversal && ValidEntry(source) && stored.id != source.id
    requires Find(journal, source.id) == Some(source) && UndoneBy(source, stored)
    ensures Restored(journal, stored) == Ok(stored)
  {
  }

  /** Round trip: reading back any posted entry, including a reversal of a reversal, rebuilds it exactly. */
  lemma GetRebuilds(l: Ledger, e: Entry)
    requires LedgerInv(l) && e in l.journal
    ensures Gotten(l, e.id) == Ok(e)
  {
    FindUnique(l.journal, e);
    var i :| 0 <= i < |l.journal| && l.journal[i] == e;
    assert ValidEntry(l.journal[i]) && Justified(l.journal, i);
    if e.kind == Reversal {
      var j :| 0 <= j < i && UndoneBy(l.journal[j], l.journal[i]);
      var source := l.journal[j];
      assert ValidEntry(source) && source.id != e.id && source in l.journal;
      FindUnique(l.journal, source);
      RestoresReversal(l.journal, source, e);
    }
  }
}
