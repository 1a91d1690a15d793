/** The database and one open transaction, statement by statement. */
module Transactions {
  import opened Prelude
  import opened Events
  import opened Tables
  import J = Journal
  import L = Lifecycle
  import P = Policy
  import LS = LedgerSpec
  import LR = LedgerRepository

  /** The identifier column is the primary key. */
  ghost predicate Keyed(t: Tables) {
    forall id :: id in t.transfers ==> t.transfers[id].transfer.id == id
  }

  /** The guard of both lifecycle updates: the row still has the status and version that were read. */
  predicate Unchanged(t: Tables, previous: L.Lifecycle) {
    && previous.transfer.id in t.transfers
    && t.transfers[previous.transfer.id].status == previous.status
    && t.transfers[previous.transfer.id].version == previous.version
  }

  /** The arguments describe one assessment of a pending lifecycle. */
  predicate Coherent(previous: L.Lifecycle, next: L.Lifecycle, input: P.Input, ev: P.Evaluation, at: Time) {
    && at != 0 && previous.status == L.PendingRisk
    && previous.transfer.id == next.transfer.id
    && input.amount == previous.transfer.amount && input.velocityCount >= 0
    && previous.policy == next.policy && next.version == previous.version + 1
    && ev.policyVersion == previous.policy && next.status == StatusFor(ev.decision)
  }

  /** Malformed arguments first, then a stale row, then the keys of the assessment and of the case. */
  function AssessmentFault(t: Tables, previous: L.Lifecycle, next: L.Lifecycle, input: P.Input, ev: P.Evaluation,
                           cause: Uuid, at: Time): Option<Refusal> {
    var id := previous.transfer.id;
    if !Coherent(previous, next, input, ev, at) then Some(BadArgument)
    else if !Unchanged(t, previous) then Some(StateConflict)
    else if Assessed(t.assessments, id, next.version, cause) then Some(ConstraintViolation)
    else if next.status == L.ReviewRequired && id in t.cases then Some(ConstraintViolation)
    else None
  }

  class Database {
    var tables: Tables

    constructor (tables: Tables)
      ensures this.tables == tables
    {
      this.tables := tables;
    }
  }

  /** A working copy that becomes the database's tables on commit and is dropped on rollback. */
  class Transaction {
    var work: Tables

    constructor (db: Database)
      ensures work == db.tables
    {
      work := db.tables;
    }

    /** INSERT ... ON CONFLICT DO NOTHING: whether the event is new to the consumer. */
    method Reserve(c: Consumer, e: Envelope) returns (reserved: bool)
      modifies this
      ensures reserved <==> (c, e.id) !in old(work).inbox
      ensures work == old(work).(inbox := old(work).inbox + {(c, e.id)})
    {
      reserved := (c, e.id) !in work.inbox;
      if reserved {
        work := work.(inbox := work.inbox + {(c, e.id)});
      } else {
        assert work.inbox + {(c, e.id)} == work.inbox;
      }
    }

    /** UPDATE guarded by the status and version that were read. */
    method StoreTransition(previous: L.Lifecycle, next: L.Lifecycle) returns (fault: Option<Refusal>)
      modifies this
      ensures fault == if Unchanged(old(work), previous) then None else Some(StateConflict)
      ensures fault.Some? ==> work == old(work)
      ensures fault.None? ==>
        var id := previous.transfer.id;
        work == old(work).(transfers := old(work).transfers[id := old(work).transfers[id].(
          status := next.status, version := next.version, journalId := next.journalId, failure := next.failure)])
    {
      var id := previous.transfer.id;
      if !Unchanged(work, previous) {
        return Some(StateConflict);
      }
      var row := work.transfers[id].(
        status := next.status, version := next.version, journalId := next.journalId, failure := next.failure);
      work := work.(transfers := work.transfers[id := row]);
      return None;
    }

    /** Advances a pending row and appends its assessment, and opens a case when review is required. */
    method StoreRiskAssessment(previous: L.Lifecycle, next: L.Lifecycle, input: P.Input, ev: P.Evaluation, cause: Uuid,
                               at: Time)
      returns (fault: Option<Refusal>)
      modifies this
      ensures fault == AssessmentFault(old(work), previous, next, input, ev, cause, at)
      ensures fault.None? ==>
        var id := previous.transfer.id;
        work == old(work).(
          transfers := old(work).transfers[id := old(work).transfers[id].(status := next.status,
            version := next.version)],
          assessments := old(work).assessments + [Assessment(id, next.version, cause, input, ev, at)],
          cases := if next.status == L.ReviewRequired then old(work).cases[id := ReviewCase(next.version, Open)]
                   else old(work).cases)
    {
      var id := previous.transfer.id;
      if !Coherent(previous, next, input, ev, at) {
        return Some(BadArgument);
      }
      if !Unchanged(work, previous) {
        return Some(StateConflict);
      }
      var row := work.transfers[id].(status := next.status, version := next.version);
      work := work.(transfers := work.transfers[id := row]);
      if Assessed(work.assessments, id, next.version, cause) {
        return Some(ConstraintViolation);
      }
      work := work.(assessments := work.assessments + [Assessment(id, next.version, cause, input, ev, at)]);
      if next.status == L.ReviewRequired {
        if id in work.cases {
          return Some(ConstraintViolation);
        }
        work := work.(cases := work.cases[id := ReviewCase(next.version, Open)]);
      }
      return None;
    }

    /** Closes one open case; the columns refuse a subject with blanks. */
    method DecideCase(id: Uuid, approved: bool, subject: string, at: Time) returns (fault: Option<Refusal>)
      modifies this
      ensures fault ==
        if subject == "" then Some(BadArgument)
        else if id !in old(work).cases || old(work).cases[id].status != Open then Some(StateConflict)
        else if !ValidSubject(subject) then Some(ConstraintViolation) else None
      ensures fault.None? ==>
        work == old(work).(cases := old(work).cases[id := old(work).cases[id].(status := Decided(approved, subject,
          at))])
    {
      if subject == "" {
        return Some(BadArgument);
      }
      if id !in work.cases || work.cases[id].status != Open {
        return Some(StateConflict);
      }
      if !ValidSubject(subject) {
        return Some(ConstraintViolation);
      }
      work := work.(cases := work.cases[id := work.cases[id].(status := Decided(approved, subject, at))]);
      return None;
    }

    method AppendAudit(record: Audit) returns (fault: Option<Refusal>)
      modifies this
      ensures fault ==
        if record.version < 3 || !ValidSubject(record.actor) || record.at == 0 then Some(BadArgument)
        else if Audited(old(work).audits, record.transfer, record.version) then Some(ConstraintViolation) else None
      ensures fault.None? ==> work == old(work).(audits := old(work).audits + [record])
    {
      if record.version < 3 || !ValidSubject(record.actor) || record.at == 0 {
        return Some(BadArgument);
      }
      if Audited(work.audits, record.transfer, record.version) {
        return Some(ConstraintViolation);
      }
      work := work.(audits := work.audits + [record]);
      return None;
    }

    method AddEvent(draft: Draft, newId: Uuid) returns (fault: Option<Refusal>)
      modifies this
      ensures fault == if CanAppend(old(work).events, draft, newId) then None else Some(ConstraintViolation)
      ensures fault.None? ==> work == old(work).(events := old(work).events + [Envelope(newId, draft)])
    {
      if !CanAppend(work.events, draft, newId) {
        return Some(ConstraintViolation);
      }
      work := work.(events := work.events + [Envelope(newId, draft)]);
      return None;
    }

    /** Posts through the ledger's own engine inside the caller's transaction; a refused entry leaves no trace. */
    method Post(e: J.Entry) returns (fault: Option<LS.LedgerError>)
      modifies this
      ensures fault.None? ==>
        LS.Posted(old(work).ledger, e) == Ok(work.ledger) && work == old(work).(ledger := work.ledger)
      ensures fault.Some? ==> LS.Posted(old(work).ledger, e) == Err(fault.value) && work == old(work)
    {
      var prepared := LR.PrepareEntry(e);
      if prepared.Err? {
        return Some(prepared.error);
      }
      LS.BlankAggregates(e.postings);
      fault := PostPrepared(e, prepared.value);
    }

    method PostPrepared(e: J.Entry, blank: seq<LS.Change>) returns (fault: Option<LS.LedgerError>)
      requires (e.kind == J.Reversal ==> e.reverses.Some?) && LS.Aggregates(blank, e.postings)
      modifies this
      ensures fault.None? ==>
        LS.Applied(old(work).ledger, e, blank) == Ok(work.ledger) && work == old(work).(ledger := work.ledger)
      ensures fault.Some? ==> LS.Applied(old(work).ledger, e, blank) == Err(fault.value) && work == old(work)
    {
      var changes := new LS.Change[|blank|](i requires 0 <= i < |blank| => blank[i]);
      assert changes[..] == blank;
      var repository := new LR.Repository(work.ledger);
      var outcome := repository.PostOnce(e, changes, 6);
      if outcome.Faulted? {
        return Some(outcome.error);
      }
      work := work.(ledger := repository.ledger);
      return None;
    }
  }
}
