/** The handlers as they run: statements in order on one transaction, then commit or roll back. */
module Workers {
  import opened Prelude
  import opened Events
  import opened Tables
  import opened Transactions
  import L = Lifecycle
  import P = Policy
  import LS = LedgerSpec

  /** Committed, refused and rolled back, or rolled back because the database aborted the transaction. */
  datatype Reply = Done | Refused(error: Refusal) | Aborted

  /** What a handler did to the database, against the function that specifies its transaction. */
  ghost predicate Performs(reply: Reply, outcome: Outcome, before: Tables, after: Tables, commits: bool) {
    match reply
    case Done => outcome == Ok(after) && commits
    case Refused(error) => outcome == Err(error) && after == before
    case Aborted => outcome.Ok? && after == before && !commits
  }

  /** COMMIT succeeds or the whole transaction is undone. */
  method Finish(db: Database, tx: Transaction, commits: bool) returns (reply: Reply)
    modifies db
    ensures reply == if commits then Done else Aborted
    ensures db.tables == if commits then tx.work else old(db.tables)
  {
    if !commits {
      return Aborted;
    }
    db.tables := tx.work;
    return Done;
  }

  // ---- Risk worker ----

  method HandleRequest(db: Database, policies: Policies, e: Envelope, velocity: Option<nat>, now: Time, newId: Uuid,
                       commits: bool)
    returns (reply: Reply)
    requires Keyed(db.tables)
    modifies db
    ensures Performs(reply, RiskHandled(policies, old(db.tables), e, velocity, now, newId), old(db.tables), db.tables,
      commits)
  {
    var requested := ParseRequested(e);
    if requested.Err? {
      return Refused(BadEnvelope);
    }
    if requested.value.policy !in policies {
      return Refused(UnknownPolicy);
    }
    var tx := new Transaction(db);
    var reserved := tx.Reserve(RiskConsumer, e);
    if !reserved {
      assert tx.work == db.tables;
      reply := Finish(db, tx, commits);
      return;
    }
    var loaded := Load(tx.work, requested.value.transfer.id);
    if loaded.Err? {
      return Refused(loaded.error);
    }
    var current := loaded.value;
    if !SameRequest(current, requested.value) {
      return Refused(StateConflict);
    }
    reply := StoreAssessment(db, tx, policies, current, e, velocity, now, newId, commits);
  }

  /** Captures the input, evaluates, moves the lifecycle and stores and announces the assessment. */
  method StoreAssessment(db: Database, tx: Transaction, policies: Policies, current: L.Lifecycle, e: Envelope,
                         velocity: Option<nat>, now: Time, newId: Uuid, commits: bool) returns (reply: Reply)
    requires current.policy in policies && current.status == L.PendingRisk && L.Valid(current)
    requires current.transfer.id in tx.work.transfers && tx.work.transfers[current.transfer.id] == current
    requires tx.work == db.tables.(inbox := db.tables.inbox + {(RiskConsumer, e.id)})
    modifies db, tx
    ensures Performs(reply, Assess(policies, old(db.tables), current, e, velocity, now, newId), old(db.tables),
      db.tables, commits)
  {
    var input := Captured(current, velocity);
    var evaluation := P.Evaluate(policies[current.policy], input);
    if evaluation.Err? {
      return Refused(BadArgument);
    }
    var ev := evaluation.value;
    var moved := Transition(current, ev.decision);
    if moved.Err? {
      return Refused(BadArgument);
    }
    var next := moved.value;
    var fault := tx.StoreRiskAssessment(current, next, input, ev, e.id, now);
    if fault.Some? {
      return Refused(fault.value);
    }
    var draft := RiskAssessed(next, ev, now, e.id);
    if draft.Err? {
      return Refused(BadArgument);
    }
    fault := tx.AddEvent(draft.value, newId);
    if fault.Some? {
      return Refused(fault.value);
    }
    reply := Finish(db, tx, commits);
  }

  // ---- Transaction worker ----

  method HandleDelivery(db: Database, e: Envelope, now: Time, newId: Uuid, commits: bool) returns (reply: Reply)
    requires Keyed(db.tables)
    modifies db
    ensures Performs(reply, TransactionHandled(old(db.tables), e, now, newId), old(db.tables), db.tables, commits)
  {
    if e.draft.eventType == ReviewDecidedType {
      reply := HandleReviewDecision(db, e, now, newId, commits);
    } else {
      reply := HandleAssessment(db, e, now, newId, commits);
    }
  }

  method HandleAssessment(db: Database, e: Envelope, now: Time, newId: Uuid, commits: bool) returns (reply: Reply)
    requires Keyed(db.tables)
    modifies db
    ensures Performs(reply, AssessmentHandled(old(db.tables), e, now, newId), old(db.tables), db.tables, commits)
  {
    var assessment := ParseRiskAssessed(e);
    if assessment.Err? {
      return Refused(BadEnvelope);
    }
    var tx := new Transaction(db);
    var reserved := tx.Reserve(TransactionConsumer, e);
    if !reserved {
      assert tx.work == db.tables;
      reply := Finish(db, tx, commits);
      return;
    }
    assert tx.work == Consumed(db.tables, e);
    var loaded := Load(tx.work, assessment.value.transferId);
    if loaded.Err? {
      return Refused(loaded.error);
    }
    var current := loaded.value;
    if current.version != e.Version() || current.policy != assessment.value.policy ||
      current.status != StatusFor(assessment.value.decision) {
      return Refused(StateConflict);
    }
    if assessment.value.decision != P.Approve {
      reply := Finish(db, tx, commits);
      return;
    }
    reply := Post(db, tx, current, e.id, now, newId, commits);
  }

  method HandleReviewDecision(db: Database, e: Envelope, now: Time, newId: Uuid, commits: bool) returns (reply: Reply)
    requires Keyed(db.tables)
    modifies db
    ensures Performs(reply, DecisionHandled(old(db.tables), e, now, newId), old(db.tables), db.tables, commits)
  {
    var decision := ParseReviewDecided(e);
    if decision.Err? {
      return Refused(BadEnvelope);
    }
    var tx := new Transaction(db);
    var reserved := tx.Reserve(TransactionConsumer, e);
    if !reserved {
      assert tx.work == db.tables;
      reply := Finish(db, tx, commits);
      return;
    }
    assert tx.work == Consumed(db.tables, e);
    var loaded := Load(tx.work, decision.value.transferId);
    if loaded.Err? {
      return Refused(loaded.error);
    }
    var current := loaded.value;
    if current.version != e.Version() ||
      current.status != (if decision.value.approved then L.Approved else L.Declined) {
      return Refused(StateConflict);
    }
    if !decision.value.approved {
      reply := Finish(db, tx, commits);
      return;
    }
    reply := Post(db, tx, current, e.id, now, newId, commits);
  }

  /** The row of the transfer in the transaction is the one that was loaded. */
  ghost predicate Holding(t: Tables, current: L.Lifecycle) {
    L.Valid(current) && current.status == L.Approved && current.transfer.id in t.transfers &&
      t.transfers[current.transfer.id] == current
  }

  /** Posts the entry and completes the transfer, or turns insufficient funds, and nothing else, into a failure. */
  method Post(db: Database, tx: Transaction, current: L.Lifecycle, cause: Uuid, now: Time, newId: Uuid, commits: bool)
    returns (reply: Reply)
    requires Holding(tx.work, current)
    modifies db, tx
    ensures Performs(reply, PostedOrFailed(old(tx.work), current, cause, now, newId), old(db.tables), db.tables,
      commits)
  {
    var entry := L.ApprovedEntry(current, now);
    if entry.Err? {
      return Refused(BadArgument);
    }
    var refused := tx.Post(entry.value);
    if refused.Some? && refused.value != LS.InsufficientFunds {
      return Refused(LedgerFault(refused.value));
    }
    if refused.Some? {
      reply := Fail(db, tx, current, cause, now, newId, commits);
      return;
    }
    var moved := L.Complete(current);
    if moved.Err? {
      return Refused(BadArgument);
    }
    var fault := tx.StoreTransition(current, moved.value);
    if fault.Some? {
      assert false;
    }
    var draft := CompletedLifecycle(moved.value, now, cause);
    if draft.Err? {
      return Refused(BadArgument);
    }
    fault := tx.AddEvent(draft.value, newId);
    if fault.Some? {
      return Refused(fault.value);
    }
    reply := Finish(db, tx, commits);
  }

  method Fail(db: Database, tx: Transaction, current: L.Lifecycle, cause: Uuid, now: Time, newId: Uuid, commits: bool)
    returns (reply: Reply)
    requires Holding(tx.work, current)
    modifies db, tx
    ensures Performs(reply, FailedWith(old(tx.work), current, cause, now, newId), old(db.tables), db.tables, commits)
  {
    var moved := L.Fail(current, L.INSUFFICIENT_FUNDS);
    if moved.Err? {
      return Refused(BadArgument);
    }
    var fault := tx.StoreTransition(current, moved.value);
    if fault.Some? {
      assert false;
    }
    var draft := Failed(moved.value, now, cause);
    if draft.Err? {
      return Refused(BadArgument);
    }
    fault := tx.AddEvent(draft.value, newId);
    if fault.Some? {
      return Refused(fault.value);
    }
    reply := Finish(db, tx, commits);
  }

  // ---- Analysts ----

  lemma TrimmedEmpty(subject: string)
    requires ValidSubject(Trim(subject))
    ensures subject != ""
  {
  }

  method Decide(db: Database, who: Principal, id: Uuid, approved: bool, now: Time, newId: Uuid, commits: bool)
    returns (reply: Reply)
    requires Keyed(db.tables)
    modifies db
    ensures Performs(reply, ReviewDecidedBy(old(db.tables), who, id, approved, now, newId), old(db.tables), db.tables,
      commits)
  {
    if !who.analyst || !ValidSubject(Trim(who.subject)) {
      return Refused(NotAnalyst);
    }
    TrimmedEmpty(who.subject);
    var tx := new Transaction(db);
    var loaded := Load(tx.work, id);
    if loaded.Err? {
      return Refused(loaded.error);
    }
    var current := loaded.value;
    if current.status != L.ReviewRequired {
      return Refused(StateConflict);
    }
    var moved := if approved then L.Approve(current) else L.Decline(current);
    if moved.Err? {
      return Refused(BadArgument);
    }
    var next := moved.value;
    var fault := tx.StoreTransition(current, next);
    if fault.Some? {
      assert false;
    }
    fault := tx.DecideCase(id, approved, who.subject, now);
    if fault.Some? {
      return Refused(fault.value);
    }
    fault := tx.AppendAudit(Audit(id, next.version, approved, who.subject, now));
    if fault.Some? {
      return Refused(fault.value);
    }
    var draft := ReviewDecided(next, who.subject, now);
    if draft.Err? {
      return Refused(BadArgument);
    }
    fault := tx.AddEvent(draft.value, newId);
    if fault.Some? {
      return Refused(fault.value);
    }
    reply := Finish(db, tx, commits);
  }
}
