/** Acceptance as it runs: reserve the key, authorize, post or announce, with at most three attempts. */
module TransferRepository {
  import opened Prelude
  import opened Events
  import opened Tables
  import opened Transactions
  import M = Money
  import J = Journal
  import L = Lifecycle
  import LS = LedgerSpec

  const MAX_ATTEMPTS := 3

  /** What the environment does to one attempt: the tables other transactions left for it to see, the event
      identifier it draws, how many of its statements run before a serialization failure, and whether the
      caller gave up. */
  datatype Attempt = Attempt(seen: Tables, newId: Uuid, survives: nat, cancelled: bool)

  datatype Once = Committed(stored: L.Lifecycle) | Faulted(error: Refusal) | Conflict

  datatype Reply = Done(stored: L.Lifecycle) | Refused(error: Refusal) | Exhausted | Abandoned

  type Answer = Result<Accepted, Refusal>

  /** One attempt against the function that specifies its transaction. */
  ghost predicate Performs(once: Once, answer: Answer, before: Tables, after: Tables) {
    match once
    case Committed(stored) => answer == Ok(Accepted(after, stored))
    case Faulted(error) => answer == Err(error) && after == before
    case Conflict => after == before
  }

  /** A call with retries: the outcome of its last attempt, and nothing from the earlier ones. */
  ghost predicate Settles(reply: Reply, answer: Answer, seen: Tables, after: Tables) {
    match reply
    case Done(stored) => answer == Ok(Accepted(after, stored))
    case Refused(error) => answer == Err(error) && after == seen
    case Exhausted => after == seen
    case Abandoned => after == seen
  }

  // ---- Authorization ----

  datatype AccountRecord = AccountRecord(id: Uuid, owner: Uuid, active: bool, kind: LS.AccountKind,
    currency: M.Currency)

  function RecordOf(t: Tables, a: Uuid): AccountRecord
    requires AccountExists(t, a)
  {
    AccountRecord(a, t.accounts[a].owner, t.accounts[a].active, t.ledger.rows[a].kind, t.ledger.rows[a].currency)
  }

  /** Reads both rows into a map, then checks ownership, existence, and each record in turn. */
  method AuthorizeTransferAccounts(t: Tables, tr: L.Transfer) returns (fault: Option<Refusal>)
    ensures fault == AuthorizationFault(t, tr)
  {
    var records: map<Uuid, AccountRecord> := map[];
    var wanted := [tr.source, tr.destination];
    for i := 0 to |wanted|
      invariant forall a :: a in records <==> (exists k :: 0 <= k < i && wanted[k] == a) && AccountExists(t, a)
      invariant forall a :: a in records ==> records[a] == RecordOf(t, a)
    {
      var a := wanted[i];
      if a in t.accounts && a in t.ledger.rows {
        records := records[a := AccountRecord(a, t.accounts[a].owner, t.accounts[a].active, t.ledger.rows[a].kind,
          t.ledger.rows[a].currency)];
      }
    }
    assert wanted[0] == tr.source && wanted[1] == tr.destination;
    if tr.source !in records || records[tr.source].owner != tr.requester {
      return Some(SourceNotOwned);
    }
    if tr.destination !in records {
      return Some(DestinationNotFound);
    }
    var checked := [records[tr.source], records[tr.destination]];
    for i := 0 to 2
      invariant forall k :: 0 <= k < i ==> AccountFault(t, wanted[k], tr.amount.currency).None?
    {
      var record := checked[i];
      if !record.active {
        return Some(InactiveAccount);
      }
      if record.kind != LS.Customer {
        return Some(NonCustomerAccount);
      }
      if record.currency != tr.amount.currency {
        return Some(AccountCurrencyMismatch);
      }
    }
    return None;
  }

  // ---- Reservation ----

  /** INSERT ... ON CONFLICT (requester, key) DO NOTHING; a taken identifier is an error. */
  method ReserveKey(tx: Transaction, l: L.Lifecycle) returns (inserted: Result<bool, Refusal>)
    modifies tx
    ensures
      var free := HolderOf(old(tx.work), l.transfer.requester, l.transfer.key).None?;
      inserted == if !free then Ok(false) else if l.transfer.id in old(tx.work).transfers then Err(AlreadyExists)
        else Ok(true)
    ensures tx.work == if inserted == Ok(true)
      then old(tx.work).(transfers := old(tx.work).transfers[l.transfer.id := l]) else old(tx.work)
  {
    var holder := HolderOf(tx.work, l.transfer.requester, l.transfer.key);
    if holder.Some? {
      return Ok(false);
    }
    if l.transfer.id in tx.work.transfers {
      return Err(AlreadyExists);
    }
    tx.work := tx.work.(transfers := tx.work.transfers[l.transfer.id := l]);
    return Ok(true);
  }

  /** Answers a held key from its stored row. */
  method AnswerReplay(t: Tables, tr: L.Transfer, wholeRow: bool) returns (r: Result<L.Lifecycle, Refusal>)
    requires HolderOf(t, tr.requester, tr.key).Some?
    ensures
      var replay := Replay(t, HolderOf(t, tr.requester, tr.key).value, tr, wholeRow);
      r == if replay.Ok? then Ok(replay.value.stored) else Err(replay.error)
  {
    var stored := t.transfers[HolderOf(t, tr.requester, tr.key).value];
    if (wholeRow && !L.Valid(stored)) || (!wholeRow && !L.ValidTransfer(stored.transfer)) {
      return Err(CorruptRow);
    }
    if !SameIntent(stored.transfer, tr) {
      return Err(IdempotencyConflict);
    }
    return Ok(stored);
  }

  // ---- One attempt ----

  method CreatePendingOnce(db: Database, l: L.Lifecycle, draft: Draft, newId: Uuid, survives: nat) returns (once: Once)
    requires L.Valid(l) && l.status == L.PendingRisk && Requested(l) == Ok(draft)
    modifies db
    ensures Performs(once, PendingCreated(old(db.tables), l, newId), old(db.tables), db.tables)
    ensures survives > 3 ==> !once.Conflict?
  {
    var tx := new Transaction(db);
    if survives == 0 {
      return Conflict;
    }
    var inserted := ReserveKey(tx, l);
    if inserted.Err? {
      return Faulted(inserted.error);
    }
    if survives == 1 {
      return Conflict;
    }
    if !inserted.value {
      var stored := AnswerReplay(tx.work, l.transfer, true);
      if stored.Err? {
        return Faulted(stored.error);
      }
      return if survives <= 3 then Conflict else Committed(stored.value);
    }
    var fault := AuthorizeTransferAccounts(tx.work, l.transfer);
    assert fault == AuthorizationFault(db.tables, l.transfer);
    if fault.Some? {
      return Faulted(fault.value);
    }
    if survives == 2 {
      return Conflict;
    }
    fault := tx.AddEvent(draft, newId);
    if fault.Some? {
      return Faulted(fault.value);
    }
    if survives == 3 {
      return Conflict;
    }
    db.tables := tx.work;
    return Committed(l);
  }

  method CreateOnce(db: Database, tr: L.Transfer, entry: J.Entry, draft: Draft, newId: Uuid, survives: nat)
    returns (once: Once)
    requires L.ValidTransfer(tr) && entry == L.EntryOf(tr, tr.requestedAt) && Completed(tr) == Ok(draft)
    modifies db
    ensures Performs(once, Created(old(db.tables), tr, newId), old(db.tables), db.tables)
    ensures survives > 4 ==> !once.Conflict?
  {
    var tx := new Transaction(db);
    var row := SyncLifecycle(tr);
    if survives == 0 {
      return Conflict;
    }
    var inserted := ReserveKey(tx, row);
    if inserted.Err? {
      return Faulted(inserted.error);
    }
    if survives == 1 {
      return Conflict;
    }
    if !inserted.value {
      var stored := AnswerReplay(tx.work, tr, false);
      if stored.Err? {
        return Faulted(stored.error);
      }
      return if survives <= 4 then Conflict else Committed(stored.value);
    }
    var fault := AuthorizeTransferAccounts(tx.work, tr);
    assert fault == AuthorizationFault(db.tables, tr);
    if fault.Some? {
      return Faulted(fault.value);
    }
    if survives == 2 {
      return Conflict;
    }
    var refused := tx.Post(entry);
    if refused.Some? {
      return Faulted(LedgerFault(refused.value));
    }
    if survives == 3 {
      return Conflict;
    }
    fault := tx.AddEvent(draft, newId);
    if fault.Some? {
      return Faulted(fault.value);
    }
    if survives == 4 {
      return Conflict;
    }
    db.tables := tx.work;
    return Committed(row);
  }

  // ---- Calls ----

  /** Accepts a pending transfer; whatever the earlier attempts did is gone, and a call that does not succeed
      leaves the key as it found it. */
  method CreatePending(db: Database, l: L.Lifecycle, script: seq<Attempt>) returns (reply: Reply, attempts: nat)
    requires |script| == MAX_ATTEMPTS
    modifies db
    ensures attempts <= MAX_ATTEMPTS && (attempts == 0 <==> !L.Valid(l) || l.status != L.PendingRisk)
    ensures attempts == 0 ==> reply == Refused(BadArgument) && db.tables == old(db.tables)
    ensures attempts > 0 ==>
      var last := script[attempts - 1];
      Settles(reply, PendingCreated(last.seen, l, last.newId), last.seen, db.tables)
    ensures reply.Exhausted? ==> attempts == MAX_ATTEMPTS
    ensures reply.Abandoned? ==> attempts > 0 && script[attempts - 1].cancelled
  {
    if !L.Valid(l) || l.status != L.PendingRisk {
      return Refused(BadArgument), 0;
    }
    var draft := Requested(l).value;
    attempts := 0;
    while attempts < MAX_ATTEMPTS
      invariant attempts <= MAX_ATTEMPTS
      invariant attempts > 0 ==> db.tables == script[attempts - 1].seen
    {
      var attempt := script[attempts];
      db.tables := attempt.seen;
      attempts := attempts + 1;
      if attempt.cancelled {
        return Abandoned, attempts;
      }
      var once := CreatePendingOnce(db, l, draft, attempt.newId, attempt.survives);
      if once.Committed? {
        return Done(once.stored), attempts;
      }
      if once.Faulted? {
        return Refused(once.error), attempts;
      }
    }
    return Exhausted, attempts;
  }

  /** Accepts and posts a transfer at once, under the same rules. */
  method Create(db: Database, tr: L.Transfer, script: seq<Attempt>) returns (reply: Reply, attempts: nat)
    requires |script| == MAX_ATTEMPTS
    modifies db
    ensures attempts <= MAX_ATTEMPTS && (attempts == 0 <==> !L.ValidTransfer(tr))
    ensures attempts == 0 ==> reply == Refused(BadArgument) && db.tables == old(db.tables)
    ensures attempts > 0 ==>
      var last := script[attempts - 1];
      Settles(reply, Created(last.seen, tr, last.newId), last.seen, db.tables)
    ensures reply.Exhausted? ==> attempts == MAX_ATTEMPTS
    ensures reply.Abandoned? ==> attempts > 0 && script[attempts - 1].cancelled
  {
    if !L.ValidTransfer(tr) {
      return Refused(BadArgument), 0;
    }
    var entry := L.JournalEntry(tr);
    var draft := Completed(tr).value;
    attempts := 0;
    while attempts < MAX_ATTEMPTS
      invariant attempts <= MAX_ATTEMPTS
      invariant attempts > 0 ==> db.tables == script[attempts - 1].seen
    {
      var attempt := script[attempts];
      db.tables := attempt.seen;
      attempts := attempts + 1;
      if attempt.cancelled {
        return Abandoned, attempts;
      }
      var once := CreateOnce(db, tr, entry.value, draft, attempt.newId, attempt.survives);
      if once.Committed? {
        return Done(once.stored), attempts;
      }
      if once.Faulted? {
        return Refused(once.error), attempts;
      }
    }
    return Exhausted, attempts;
  }
}
