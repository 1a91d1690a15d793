/** The posting engine as it runs: accumulators, a change array reused across attempts, bounded retries. */
module LedgerRepository {
  import opened Prelude
  import opened Journal
  import opened LedgerSpec
  import M = Money

  const MAX_ATTEMPTS := 3

  datatype Accumulator = Accumulator(currency: M.Currency, total: int)

  // ---- Preparation ----

  /** One accumulator per account, holding its first currency and its exact total. */
  predicate Accumulates(accumulators: map<Uuid, Accumulator>, ps: seq<Posting>) {
    && accumulators.Keys == Accounts(ps)
    && forall a :: a in accumulators ==>
      accumulators[a] == Accumulator(CurrencyOf(ps, a), AccountSum(ps, a))
  }

  lemma {:induction false} UntouchedSum(ps: seq<Posting>, a: Uuid)
    requires a !in Accounts(ps)
    ensures AccountSum(ps, a) == 0
  {
    if ps != [] {
      AccountsSnoc(ps[..|ps| - 1], ps[|ps| - 1]);
      assert ps == ps[..|ps| - 1] + [ps[|ps| - 1]];
      UntouchedSum(ps[..|ps| - 1], a);
    }
  }

  lemma AccumulateOne(accumulators: map<Uuid, Accumulator>, ps: seq<Posting>, p: Posting)
    requires Accumulates(accumulators, ps)
    ensures
      var total := if p.account in accumulators then accumulators[p.account].total else 0;
      var currency := if p.account in accumulators then accumulators[p.account].currency else p.amount.currency;
      Accumulates(accumulators[p.account := Accumulator(currency, total + p.amount.minor)], ps + [p])
  {
    var all := ps + [p];
    AccountsSnoc(ps, p);
    assert all[..|all| - 1] == ps;
    if p.account !in accumulators {
      UntouchedSum(ps, p.account);
    }
  }

  /** The first loop: it stops at the first posting whose currency differs from its account's. */
  method Accumulate(ps: seq<Posting>) returns (accumulators: map<Uuid, Accumulator>, mixed: bool)
    ensures mixed <==> !OneCurrencyPerAccount(ps)
    ensures !mixed ==> Accumulates(accumulators, ps)
  {
    accumulators := map[];
    for i := 0 to |ps|
      invariant Accumulates(accumulators, ps[..i])
      invariant OneCurrencyPerAccount(ps[..i])
    {
      var a, amount := ps[i].account, ps[i].amount;
      assert ps[..i + 1] == ps[..i] + [ps[i]];
      OneCurrencySnoc(ps[..i], ps[i]);
      AccumulateOne(accumulators, ps[..i], ps[i]);
      var accumulator := if a in accumulators then accumulators[a] else Accumulator(amount.currency, 0);
      if accumulator.currency != amount.currency {
        MixedPrefix(ps, i + 1);
        return accumulators, true;
      }
      accumulators := accumulators[a := accumulator.(total := accumulator.total + amount.minor)];
    }
    assert ps[..|ps|] == ps;
    mixed := false;
  }

  lemma MixedPrefix(ps: seq<Posting>, n: nat)
    requires n <= |ps| && !OneCurrencyPerAccount(ps[..n])
    ensures !OneCurrencyPerAccount(ps)
  {
    var i, j :| 0 <= i < j < n && ps[..n][i].account == ps[..n][j].account
      && ps[..n][i].amount.currency != ps[..n][j].amount.currency;
    assert ps[i].account == ps[j].account;
  }

  /** The second loop: one change per key in ascending order, unless some total leaves the 64-bit range. */
  method BuildChanges(accumulators: map<Uuid, Accumulator>, keys: seq<Uuid>) returns (changes: seq<Change>, fits: bool)
    requires forall k :: 0 <= k < |keys| ==> keys[k] in accumulators
    ensures fits <==> forall k :: 0 <= k < |keys| ==> IsInt64(accumulators[keys[k]].total)
    ensures fits ==> |changes| == |keys| && forall k :: 0 <= k < |keys| ==>
      changes[k] == Change(keys[k], accumulators[keys[k]].currency, accumulators[keys[k]].total, 0, 0)
  {
    changes := [];
    for i := 0 to |keys|
      invariant |changes| == i
      invariant forall k :: 0 <= k < i ==> IsInt64(accumulators[keys[k]].total)
      invariant forall k :: 0 <= k < i ==>
        changes[k] == Change(keys[k], accumulators[keys[k]].currency, accumulators[keys[k]].total, 0, 0)
    {
      var accumulator := accumulators[keys[i]];
      if !IsInt64(accumulator.total) {
        return changes, false;
      }
      changes := changes + [Change(keys[i], accumulator.currency, accumulator.total, 0, 0)];
    }
    fits := true;
  }

  /** Groups postings per account with exact totals; mixed currencies win over an overflowing total. */
  method PreparePostings(ps: seq<Posting>) returns (r: Result<seq<Change>, LedgerError>)
    ensures r == Err(CurrencyMismatch) <==> !OneCurrencyPerAccount(ps)
    ensures r == Err(AmountOverflow) <==> OneCurrencyPerAccount(ps) && !SumsFit(ps)
    ensures r.Ok? <==> OneCurrencyPerAccount(ps) && SumsFit(ps)
    ensures r.Ok? ==> r.value == Blank(ps)
  {
    var accumulators, mixed := Accumulate(ps);
    if mixed {
      return Err(CurrencyMismatch);
    }
    var keys := Sorted(accumulators.Keys);
    var changes, fits := BuildChanges(accumulators, keys);
    if !fits {
      assert !SumsFit(ps);
      return Err(AmountOverflow);
    }
    assert SumsFit(ps) by {
      assert forall a :: a in Accounts(ps) ==> a in keys;
    }
    r := Ok(changes);
  }

  method PrepareEntry(e: Entry) returns (r: Result<seq<Change>, LedgerError>)
    ensures r.Err? <==> PrepareFault(e).Some?
    ensures r.Err? ==> PrepareFault(e) == Some(r.error)
    ensures r.Ok? ==> r.value == Blank(e.postings)
  {
    var fault := Validate(Entry(e.id, Standard, None, e.postings, e.recordedAt));
    if fault.Some? {
      return Err(InvalidArgument);
    }
    match e.kind {
      case Standard =>
        if e.reverses.Some? {
          return Err(InvalidArgument);
        }
      case Reversal =>
        if e.reverses.None? || e.reverses.value == e.id {
          return Err(InvalidArgument);
        }
      case UnknownKind =>
        return Err(InvalidArgument);
    }
    r := PreparePostings(e.postings);
  }

  // ---- Locking and calculation ----

  /** Two change lists that differ at most in the fields an attempt fills in. */
  predicate SameChanges(left: seq<Change>, right: seq<Change>) {
    |left| == |right| && forall i :: 0 <= i < |left| ==>
      left[i].account == right[i].account && left[i].currency == right[i].currency && left[i].delta == right[i].delta
  }

  lemma SameAggregates(left: seq<Change>, right: seq<Change>, ps: seq<Posting>)
    requires SameChanges(left, right) && Aggregates(left, ps)
    ensures Aggregates(right, ps)
  {
    assert AccountsOf(right) == AccountsOf(left);
    forall i | 0 <= i < |right| ensures IsNet(right[i], ps) {
      assert IsNet(left[i], ps);
    }
  }

  lemma {:induction false} FaultIsFirst(rows: map<Uuid, Row>, cs: seq<Change>, i: nat)
    requires i < |cs| && FaultAt(rows, cs[i])
    requires forall j :: 0 <= j < i ==> !FaultAt(rows, cs[j])
    ensures FirstFault(rows, cs) == RowFault(rows[cs[i].account], cs[i].currency, cs[i].delta)
  {
    if i > 0 {
      assert cs[1..][i - 1] == cs[i];
      forall j | 0 <= j < i - 1 ensures !FaultAt(rows, cs[1..][j]) {
        assert cs[1..][j] == cs[j + 1];
      }
      FaultIsFirst(rows, cs[1..], i - 1);
    }
  }

  lemma {:induction false} NoFaultAnywhere(rows: map<Uuid, Row>, cs: seq<Change>)
    requires forall i :: 0 <= i < |cs| ==> !FaultAt(rows, cs[i])
    ensures FirstFault(rows, cs).None?
  {
    if cs != [] {
      forall j | 0 <= j < |cs| - 1 ensures !FaultAt(rows, cs[1..][j]) {
        assert cs[1..][j] == cs[j + 1];
      }
      NoFaultAnywhere(rows, cs[1..]);
    }
  }

  lemma {:induction false} SameFirstFault(rows: map<Uuid, Row>, left: seq<Change>, right: seq<Change>)
    requires SameChanges(left, right)
    ensures FirstFault(rows, left) == FirstFault(rows, right)
    ensures LockFault(rows, left) == LockFault(rows, right)
  {
    if left != [] {
      assert left[0].account == right[0].account;
      SameFirstFault(rows, left[1..], right[1..]);
    }
    assert (exists i :: 0 <= i < |left| && left[i].account !in rows) <==>
        (exists i :: 0 <= i < |right| && right[i].account !in rows) by {
      forall i | 0 <= i < |left| ensures left[i].account == right[i].account {}
      if exists i :: 0 <= i < |left| && left[i].account !in rows {
        var i :| 0 <= i < |left| && left[i].account !in rows;
        assert right[i].account !in rows;
      }
    }
  }

  lemma {:induction false} DistinctCount(cs: seq<Change>)
    requires InAccountOrder(cs)
    ensures |AccountsOf(cs)| == |cs|
  {
    if cs != [] {
      var init, last := cs[..|cs| - 1], cs[|cs| - 1];
      DistinctCount(init);
      assert cs == init + [last];
      AccountsOfSnoc(init, last);
      assert last.account !in AccountsOf(init);
    }
  }

  lemma {:induction false} SubsetOfSameSize(a: set<Uuid>, b: set<Uuid>)
    requires a <= b && |a| == |b|
    ensures a == b
  {
    if a != b {
      var x :| x in b && x !in a;
      assert a <= b - {x};
      SubsetNotLarger(a, b - {x});
    }
  }

  lemma {:induction false} SubsetNotLarger(a: set<Uuid>, b: set<Uuid>)
    requires a <= b
    ensures |a| <= |b|
  {
    if a != {} {
      var x :| x in a;
      SubsetNotLarger(a - {x}, b - {x});
    }
  }

  /** The result fields were computed from the row of the change's account in `rows`. */
  predicate IsFresh(rows: map<Uuid, Row>, c: Change) {
    && c.account in rows
    && c.newBalance == rows[c.account].balance + c.delta
    && c.newVersion == rows[c.account].version + 1
  }

  predicate Fresh(rows: map<Uuid, Row>, cs: seq<Change>) {
    forall i :: 0 <= i < |cs| ==> IsFresh(rows, cs[i])
  }

  /** The index from account to position in the change list. */
  predicate Indexes(byId: map<Uuid, nat>, cs: seq<Change>) {
    && byId.Keys == AccountsOf(cs)
    && (forall i :: 0 <= i < |cs| ==> cs[i].account in byId && byId[cs[i].account] == i)
    && (forall a :: a in byId ==> byId[a] < |cs| && cs[byId[a]].account == a)
  }

  lemma AccountsOfSnoc(cs: seq<Change>, c: Change)
    ensures AccountsOf(cs + [c]) == AccountsOf(cs) + {c.account}
  {
    var all := cs + [c];
    forall a | a in AccountsOf(cs) ensures a in AccountsOf(all) {
      var i :| 0 <= i < |cs| && cs[i].account == a;
      assert all[i].account == a;
    }
    assert all[|cs|].account == c.account;
  }

  method IndexChanges(changes: array<Change>) returns (byId: map<Uuid, nat>)
    requires InAccountOrder(changes[..])
    ensures Indexes(byId, changes[..])
  {
    byId := map[];
    for n := 0 to changes.Length
      invariant Indexes(byId, changes[..n])
    {
      assert changes[..n + 1] == changes[..n] + [changes[n]];
      AccountsOfSnoc(changes[..n], changes[n]);
      assert changes[..][n] == changes[n];
      assert forall i :: 0 <= i < n ==> changes[..][i] == changes[..n][i];
      byId := byId[changes[n].account := n];
    }
    assert changes[..changes.Length] == changes[..];
  }

  /** SELECT ... WHERE account_id = ANY(ids) ORDER BY account_id: the existing accounts, ascending. */
  method SelectForUpdate(rows: map<Uuid, Row>, ids: set<Uuid>) returns (accounts: seq<Uuid>)
    ensures Ascending(accounts)
    ensures forall a :: a in accounts <==> a in ids && a in rows
    ensures |accounts| == |ids * rows.Keys|
  {
    accounts := Sorted(ids * rows.Keys);
  }

  /** Progress of the walk: the first `k` locked rows passed and their results are written. */
  predicate Walked(rows: map<Uuid, Row>, before: seq<Change>, now: seq<Change>, byId: map<Uuid, nat>,
                   accounts: seq<Uuid>, k: nat) {
    && k <= |accounts|
    && SameChanges(now, before)
    && (forall a :: a in accounts ==> a in byId && a in rows && byId[a] < |before|)
    && (forall m :: 0 <= m < k ==> !FaultAt(rows, before[byId[accounts[m]]]) && IsFresh(rows, now[byId[accounts[m]]]))
  }

  lemma WalkOne(rows: map<Uuid, Row>, before: seq<Change>, now: seq<Change>, byId: map<Uuid, nat>, accounts: seq<Uuid>,
                k: nat, written: Change)
    requires Indexes(byId, before) && Ascending(accounts)
    requires k < |accounts| && Walked(rows, before, now, byId, accounts, k)
    requires accounts[k] in accounts && byId[accounts[k]] < |now| && !FaultAt(rows, before[byId[accounts[k]]])
    requires
      var stale := now[byId[accounts[k]]];
      written.account == stale.account && written.currency == stale.currency && written.delta == stale.delta &&
        IsFresh(rows, written)
    ensures Walked(rows, before, now[byId[accounts[k]] := written], byId, accounts, k + 1)
  {
    var next := now[byId[accounts[k]] := written];
    forall m | 0 <= m < k ensures IsFresh(rows, next[byId[accounts[m]]]) {
      assert accounts[m] in accounts && accounts[m] != accounts[k];
      assert byId[accounts[m]] != byId[accounts[k]];
    }
  }

  /** Walks the locked rows in account order and writes results through an index into the shared array.
      Whatever an earlier attempt left in the result fields, success means all of them are fresh. */
  method LockAndCalculateBalances(rows: map<Uuid, Row>, changes: array<Change>) returns (fault: Option<LedgerError>)
    requires InAccountOrder(changes[..])
    modifies changes
    ensures SameChanges(changes[..], old(changes[..]))
    ensures fault == LockFault(rows, old(changes[..]))
    ensures fault.None? ==> Fresh(rows, changes[..])
  {
    ghost var before := changes[..];
    var byId := IndexChanges(changes);
    var accounts := SelectForUpdate(rows, byId.Keys);
    var locked := 0;
    while locked < |accounts|
      invariant Walked(rows, before, changes[..], byId, accounts, locked)
    {
      var account := accounts[locked];
      assert account in accounts;
      var index := byId[account];
      ghost var now := changes[..];
      assert now[index].account == before[index].account == account;
      fault := CalculateRow(rows[account], changes, index);
      if fault.Some? {
        EarlierRowsPass(rows, before, byId, accounts, locked);
        FaultIsFirst(rows, before, index);
        return;
      }
      WalkOne(rows, before, now, byId, accounts, locked, changes[index]);
      assert changes[..] == now[index := changes[index]];
      locked := locked + 1;
    }
    AllRowsPass(rows, before, byId, accounts);
    fault := CountFault(changes.Length, locked, rows, before, byId);
    if fault.None? {
      AllFresh(rows, before, changes[..], byId, accounts);
    }
  }

  lemma AllFresh(rows: map<Uuid, Row>, before: seq<Change>, now: seq<Change>, byId: map<Uuid, nat>, accounts: seq<Uuid>)
    requires Indexes(byId, before) && byId.Keys <= rows.Keys
    requires forall a :: a in accounts <==> a in byId && a in rows
    requires Walked(rows, before, now, byId, accounts, |accounts|)
    ensures Fresh(rows, now)
  {
    forall i | 0 <= i < |now| ensures IsFresh(rows, now[i]) {
      assert before[i].account in accounts;
      var k :| 0 <= k < |accounts| && accounts[k] == before[i].account;
    }
  }

  /** One locked row: the checks in the code's order, then the two result fields. */
  method CalculateRow(row: Row, changes: array<Change>, index: nat) returns (fault: Option<LedgerError>)
    requires index < changes.Length
    modifies changes
    ensures fault == RowFault(row, old(changes[index].currency), old(changes[index].delta))
    ensures fault.Some? ==> changes[..] == old(changes[..])
    ensures fault.None? ==>
      && IsInt64(row.balance + old(changes[index].delta)) && row.version < MAX_INT64
      && changes[..] == old(changes[..])[index :=
           old(changes[index]).(newBalance := row.balance + old(changes[index].delta), newVersion := row.version + 1)]
  {
    var change := changes[index];
    if row.currency != change.currency {
      return Some(CurrencyMismatch);
    }
    var sum := M.CheckedAdd(row.balance, change.delta);
    if sum.Err? {
      return Some(AmountOverflow);
    }
    if row.kind == Customer && sum.value < 0 {
      return Some(InsufficientFunds);
    }
    if row.kind != Customer && row.kind != System {
      return Some(CorruptData);
    }
    if row.version == MAX_INT64 {
      return Some(AmountOverflow);
    }
    changes[index] := change.(newBalance := sum.value, newVersion := row.version + 1);
    return None;
  }

  lemma SomeAccountMissing(rows: map<Uuid, Row>, cs: seq<Change>, byId: map<Uuid, nat>)
    requires Indexes(byId, cs) && |byId.Keys * rows.Keys| != |byId.Keys|
    ensures exists i :: 0 <= i < |cs| && cs[i].account !in rows
  {
    assert (forall a :: a in byId ==> a in rows) ==> byId.Keys * rows.Keys == byId.Keys;
    var a :| a in byId && a !in rows;
    assert cs[byId[a]].account !in rows;
  }

  lemma NoAccountMissing(rows: map<Uuid, Row>, cs: seq<Change>, byId: map<Uuid, nat>)
    requires Indexes(byId, cs) && |byId.Keys * rows.Keys| == |byId.Keys|
    ensures byId.Keys <= rows.Keys && forall i :: 0 <= i < |cs| ==> cs[i].account in rows
  {
    SubsetOfSameSize(byId.Keys * rows.Keys, byId.Keys);
  }

  /** The count check: distinct locked rows number as many as the changes only if no account is missing. */
  method CountFault(expected: nat, locked: nat, ghost rows: map<Uuid, Row>, ghost cs: seq<Change>,
                    ghost byId: map<Uuid, nat>)
    returns (fault: Option<LedgerError>)
    requires InAccountOrder(cs) && Indexes(byId, cs) && expected == |cs|
    requires FirstFault(rows, cs).None?
    requires locked == |byId.Keys * rows.Keys|
    ensures fault == LockFault(rows, cs)
    ensures fault.None? ==> byId.Keys <= rows.Keys
  {
    DistinctCount(cs);
    if locked != expected {
      SomeAccountMissing(rows, cs, byId);
      return Some(NotFound);
    }
    NoAccountMissing(rows, cs, byId);
    return None;
  }

  lemma EarlierRowsPass(rows: map<Uuid, Row>, cs: seq<Change>, byId: map<Uuid, nat>, accounts: seq<Uuid>, k: nat)
    requires InAccountOrder(cs) && Ascending(accounts) && k < |accounts|
    requires Indexes(byId, cs)
    requires forall a :: a in accounts <==> a in byId && a in rows
    requires forall m :: 0 <= m < k ==> !FaultAt(rows, cs[byId[accounts[m]]])
    ensures forall j :: 0 <= j < byId[accounts[k]] ==> !FaultAt(rows, cs[j])
  {
    assert accounts[k] in accounts;
    forall j | 0 <= j < byId[accounts[k]] ensures !FaultAt(rows, cs[j]) {
      if cs[j].account in rows {
        assert cs[j].account in accounts;
        var m :| 0 <= m < |accounts| && accounts[m] == cs[j].account;
        assert cs[j].account < cs[byId[accounts[k]]].account;
        assert m < k;
      }
    }
  }

  lemma AllRowsPass(rows: map<Uuid, Row>, cs: seq<Change>, byId: map<Uuid, nat>, accounts: seq<Uuid>)
    requires Indexes(byId, cs)
    requires forall a :: a in accounts <==> a in byId && a in rows
    requires forall m :: 0 <= m < |accounts| ==> !FaultAt(rows, cs[byId[accounts[m]]])
    ensures FirstFault(rows, cs).None?
  {
    forall j | 0 <= j < |cs| ensures !FaultAt(rows, cs[j]) {
      if cs[j].account in rows {
        assert cs[j].account in accounts;
        var m :| 0 <= m < |accounts| && accounts[m] == cs[j].account;
      }
    }
    NoFaultAnywhere(rows, cs);
  }

  // ---- Writing ----

  function Written(row: Row, c: Change): Row {
    row.(balance := c.newBalance, version := c.newVersion)
  }

  /** Rows overwritten change by change are the rows moved by the entry's per-account nets. */
  lemma WrittenIsMoved(rows: map<Uuid, Row>, after: map<Uuid, Row>, cs: seq<Change>, ps: seq<Posting>)
    requires Aggregates(cs, ps) && Fresh(rows, cs)
    requires after.Keys == rows.Keys
    requires forall k :: 0 <= k < |cs| ==>
      cs[k].account in rows && after[cs[k].account] == Written(rows[cs[k].account], cs[k])
    requires forall a :: a in rows && a !in AccountsOf(cs) ==> after[a] == rows[a]
    ensures Writable(rows, ps) && after == Moved(rows, ps)
  {
    forall a | a in Accounts(ps)
      ensures a in rows && rows[a].version < MAX_INT64 && IsInt64(rows[a].balance + AccountSum(ps, a))
      ensures after[a].balance == rows[a].balance + AccountSum(ps, a) && after[a].version == rows[a].version + 1
      ensures after[a].currency == rows[a].currency && after[a].kind == rows[a].kind
    {
      assert a in AccountsOf(cs);
      var k :| 0 <= k < |cs| && cs[k].account == a;
      assert IsNet(cs[k], ps) && IsFresh(rows, cs[k]);
    }
  }

  /** Writes one row at a time; the rows end up moved by exactly the entry's per-account nets. */
  method UpdateBalances(rows: map<Uuid, Row>, changes: array<Change>, ghost ps: seq<Posting>)
    returns (after: map<Uuid, Row>, fault: Option<LedgerError>)
    requires Aggregates(changes[..], ps)
    requires Fresh(rows, changes[..])
    ensures fault.None?
    ensures Writable(rows, ps) && after == Moved(rows, ps)
  {
    ghost var cs := changes[..];
    after := rows;
    for i := 0 to changes.Length
      invariant after.Keys == rows.Keys
      invariant forall k :: 0 <= k < i ==>
        cs[k].account in rows && after[cs[k].account] == Written(rows[cs[k].account], cs[k])
      invariant forall a :: a in rows && a !in AccountsOf(cs[..i]) ==> after[a] == rows[a]
    {
      var change := changes[i];
      assert IsFresh(rows, cs[i]);
      assert cs[..i + 1] == cs[..i] + [cs[i]];
      AccountsOfSnoc(cs[..i], cs[i]);
      assert change.account !in AccountsOf(cs[..i]);
      if change.account !in after {
        assert false;
      }
      after := after[change.account := Written(after[change.account], change)];
    }
    assert cs[..|cs|] == cs;
    WrittenIsMoved(rows, after, cs, ps);
    fault := None;
  }

  method ValidatePersistedReversal(journal: seq<Entry>, e: Entry) returns (fault: Option<LedgerError>)
    requires e.kind == Reversal && e.reverses.Some?
    ensures fault == ReversalFault(journal, e)
  {
    var source := Find(journal, e.reverses.value);
    if source.None? {
      return Some(NotFound);
    }
    if IsReversed(journal, source.value.id) {
      return Some(AlreadyReversed);
    }
    var stored := source.value.postings;
    if |stored| != |e.postings| {
      return Some(InvalidReversal);
    }
    for i := 0 to |stored|
      invariant forall k :: 0 <= k < i ==>
        && stored[k].account == e.postings[k].account
        && stored[k].amount.currency == e.postings[k].amount.currency
        && stored[k].amount.minor + e.postings[k].amount.minor == 0
    {
      var sameAccount := stored[i].account == e.postings[i].account;
      var sameCurrency := stored[i].amount.currency == e.postings[i].amount.currency;
      var oppositeAmount := stored[i].amount.minor + e.postings[i].amount.minor == 0;
      if !sameAccount || !sameCurrency || !oppositeAmount {
        return Some(InvalidReversal);
      }
    }
    return None;
  }

  lemma SameApplied(l: Ledger, e: Entry, left: seq<Change>, right: seq<Change>)
    requires SameChanges(left, right) && Aggregates(left, e.postings)
    ensures Aggregates(right, e.postings) && Applied(l, e, left) == Applied(l, e, right)
  {
    SameAggregates(left, right, e.postings);
    SameFirstFault(l.rows, left, right);
  }

  // ---- Transactions ----

  datatype Outcome = Committed | Faulted(error: LedgerError) | Conflict

  /** Stored, refused by the ledger, out of attempts, or given up by the caller. */
  datatype PostResult = Done | Refused(error: LedgerError) | Exhausted | Abandoned

  /** What the environment does to one attempt: the ledger other transactions left for it to see, how many
      of its statements run before a serialization failure hits it, and whether the caller gave up. */
  datatype Attempt = Attempt(seen: Ledger, survives: nat, cancelled: bool)

  datatype Discrepancy = Discrepancy(account: Uuid, currency: M.Currency, ledgerMinor: int, snapshotMinor: int)

  /** One row of the reconciliation join: the exact total of the account's postings beside its snapshot. */
  function Compared(l: Ledger, a: Uuid): Discrepancy
    requires a in l.rows
  {
    Discrepancy(a, l.rows[a].currency, GroupTotal(l.journal, a, l.rows[a].currency), l.rows[a].balance)
  }

  predicate Differs(l: Ledger, d: Discrepancy) {
    d.account in l.rows && d == Compared(l, d.account) && d.ledgerMinor != d.snapshotMinor
  }

  /** The found rows are the differing ones among the given accounts, in order. */
  ghost predicate Listed(l: Ledger, found: seq<Discrepancy>, keys: seq<Uuid>) {
    && (forall i :: 0 <= i < |found| ==> Differs(l, found[i]) && found[i].account in keys)
    && (forall a :: a in keys && a in l.rows && Differs(l, Compared(l, a)) ==> Compared(l, a) in found)
    && (forall i, j :: 0 <= i < j < |found| ==> found[i].account < found[j].account)
  }

  lemma ListedSnoc(l: Ledger, found: seq<Discrepancy>, keys: seq<Uuid>, key: Uuid)
    requires Listed(l, found, keys) && key in l.rows && forall a :: a in keys ==> a < key
    ensures
      var compared := Compared(l, key);
      Listed(l, if compared.ledgerMinor != compared.snapshotMinor then found + [compared] else found, keys + [key])
  {
  }

  class Repository {
    var ledger: Ledger

    constructor (ledger: Ledger)
      ensures this.ledger == ledger
    {
      this.ledger := ledger;
    }

    /** One transaction over a working copy. A conflict may strike after any statement, in particular after
        the shared change array has been overwritten; only a commit touches the ledger. */
    method PostOnce(e: Entry, changes: array<Change>, survives: nat) returns (outcome: Outcome)
      requires (e.kind == Reversal ==> e.reverses.Some?) && Aggregates(changes[..], e.postings)
      modifies this, changes
      ensures SameChanges(old(changes[..]), changes[..])
      ensures outcome.Committed? ==> Applied(old(ledger), e, old(changes[..])) == Ok(ledger)
      ensures outcome.Faulted? ==> Applied(old(ledger), e, old(changes[..])) == Err(outcome.error)
      ensures !outcome.Committed? ==> ledger == old(ledger)
      ensures survives > 5 ==> !outcome.Conflict?
    {
      var work := ledger;
      if survives == 0 {
        return Conflict;
      }
      var fault := None;
      if e.kind == Reversal {
        fault := ValidatePersistedReversal(work.journal, e);
        if fault.Some? {
          return Faulted(fault.value);
        }
      }
      if survives == 1 {
        return Conflict;
      }
      fault := LockAndCalculateBalances(work.rows, changes);
      if fault.Some? {
        return Faulted(fault.value);
      }
      SameAggregates(old(changes[..]), changes[..], e.postings);
      if survives == 2 {
        return Conflict;
      }
      if Find(work.journal, e.id).Some? {
        return Faulted(AlreadyExists);
      }
      work := work.(journal := work.journal + [e]);
      if survives <= 4 {
        return Conflict;
      }
      var rows, lost := UpdateBalances(work.rows, changes, e.postings);
      work := work.(rows := rows);
      if survives == 5 {
        return Conflict;
      }
      ledger := work;
      return Committed;
    }

    /** Posts with at most three attempts over one change array. Success means that the ledger is what a single
        posting makes of the state seen by the last attempt; failure means that this call changed nothing. */
    method Post(e: Entry, script: seq<Attempt>) returns (r: PostResult, attempts: nat)
      requires |script| == MAX_ATTEMPTS
      modifies this
      ensures attempts <= MAX_ATTEMPTS
      ensures attempts == 0 <==> PrepareFault(e).Some?
      ensures r.Done? ==> attempts > 0 && Posted(script[attempts - 1].seen, e) == Ok(ledger)
      ensures !r.Done? ==> ledger == if attempts == 0 then old(ledger) else script[attempts - 1].seen
      ensures r.Refused? ==> Err(r.error) == Posted(if attempts == 0 then old(ledger) else script[attempts - 1].seen, e)
      ensures r.Exhausted? ==> attempts == MAX_ATTEMPTS
      ensures r.Abandoned? ==> attempts > 0 && script[attempts - 1].cancelled
    {
      var prepared := PrepareEntry(e);
      if prepared.Err? {
        return Refused(prepared.error), 0;
      }
      BlankAggregates(e.postings);
      r, attempts := PostPrepared(e, prepared.value, script);
    }

    method PostPrepared(e: Entry, blank: seq<Change>, script: seq<Attempt>) returns (r: PostResult, attempts: nat)
      requires |script| == MAX_ATTEMPTS
      requires (e.kind == Reversal ==> e.reverses.Some?) && Aggregates(blank, e.postings)
      modifies this
      ensures 0 < attempts <= MAX_ATTEMPTS
      ensures r.Done? ==> Applied(script[attempts - 1].seen, e, blank) == Ok(ledger)
      ensures !r.Done? ==> ledger == script[attempts - 1].seen
      ensures r.Refused? ==> Applied(script[attempts - 1].seen, e, blank) == Err(r.error)
      ensures r.Exhausted? ==> attempts == MAX_ATTEMPTS
      ensures r.Abandoned? ==> script[attempts - 1].cancelled
    {
      var changes := new Change[|blank|](i requires 0 <= i < |blank| => blank[i]);
      assert changes[..] == blank;
      attempts := 0;
      while attempts < MAX_ATTEMPTS
        invariant attempts <= MAX_ATTEMPTS
        invariant fresh(changes) && SameChanges(blank, changes[..])
        invariant attempts > 0 ==> ledger == script[attempts - 1].seen
      {
        ledger := script[attempts].seen;
        attempts := attempts + 1;
        if script[attempts - 1].cancelled {
          return Abandoned, attempts;
        }
        SameApplied(ledger, e, blank, changes[..]);
        var outcome := PostOnce(e, changes, script[attempts - 1].survives);
        if outcome.Committed? {
          return Done, attempts;
        }
        if outcome.Faulted? {
          return Refused(outcome.error), attempts;
        }
      }
      return Exhausted, attempts;
    }

    /** Rebuilds one stored entry through the domain constructors. */
    method Get(id: Uuid) returns (r: Result<Entry, LedgerError>)
      ensures r == Gotten(ledger, id)
    {
      var record := Find(ledger.journal, id);
      if record.None? {
        return Err(NotFound);
      }
      var stored := record.value;
      if stored.kind == Standard {
        var entry := Entry(stored.id, Standard, None, stored.postings, stored.recordedAt);
        var fault := Validate(entry);
        return if fault.Some? then Err(CorruptData) else Ok(entry);
      }
      if stored.kind != Reversal || stored.reverses.None? {
        return Err(CorruptData);
      }
      var sourceRecord := Find(ledger.journal, stored.reverses.value);
      if sourceRecord.None? {
        return Err(CorruptData);
      }
      var source := Entry(sourceRecord.value.id, Standard, None, sourceRecord.value.postings,
        sourceRecord.value.recordedAt);
      var reversal := Reverse(source, stored.id, stored.recordedAt);
      if reversal.Err? || reversal.value.postings != stored.postings {
        return Err(CorruptData);
      }
      return Ok(reversal.value);
    }

    /** Lists, in account order, exactly the snapshots that differ from their postings. */
    method Reconcile() returns (found: seq<Discrepancy>)
      ensures forall i :: 0 <= i < |found| ==> Differs(ledger, found[i])
      ensures forall a :: a in ledger.rows && Differs(ledger, Compared(ledger, a)) ==> Compared(ledger, a) in found
      ensures forall i, j :: 0 <= i < j < |found| ==> found[i].account < found[j].account
    {
      found := [];
      var keys := SelectForUpdate(ledger.rows, ledger.rows.Keys);
      for k := 0 to |keys|
        invariant Listed(ledger, found, keys[..k])
      {
        assert keys[k] in keys && keys[..k + 1] == keys[..k] + [keys[k]];
        var compared := Compared(ledger, keys[k]);
        ListedSnoc(ledger, found, keys[..k], keys[k]);
        if compared.ledgerMinor != compared.snapshotMinor {
          found := found + [compared];
        }
      }
      assert keys[..|keys|] == keys;
      forall a | a in ledger.rows && Differs(ledger, Compared(ledger, a)) ensures Compared(ledger, a) in found {
        assert a in keys;
      }
    }
  }
}
