/** The consume loop of both workers: handle, quarantine or stop, and commit offsets. */
module ConsumeLoop {
  import opened Prelude
  import opened Events
  import opened Tables
  import opened Transactions
  import opened Workers
  import CF = Conflicts

  /** A broker record: a well-formed envelope, or bytes that are not one. */
  datatype Record = Garbage | Wire(envelope: Envelope)

  /** Records by partition and offset. */
  type Log = seq<seq<Record>>

  predicate Known(kind: EventType) {
    !kind.OtherType?
  }

  /** The event types a worker hands to its handler. */
  predicate Mine(c: Consumer, kind: EventType) {
    match c
    case RiskConsumer => kind == RequestedType
    case TransactionConsumer => kind == RiskAssessedType || kind == ReviewDecidedType
  }

  /** A known event that belongs to somebody else. */
  predicate Foreign(c: Consumer, record: Record) {
    record.Wire? && Known(record.envelope.draft.eventType) && !Mine(c, record.envelope.draft.eventType)
  }

  ghost function HandledBy(c: Consumer, policies: Policies, t: Tables, e: Envelope, velocity: Option<nat>, now: Time,
                           newId: Uuid): Outcome {
    match c
    case RiskConsumer => RiskHandled(policies, t, e, velocity, now, newId)
    case TransactionConsumer => TransactionHandled(t, e, now, newId)
  }

  /** What becomes of one record: consumed, skipped, set aside for good, or the reason to stop and retry. */
  datatype Verdict = Handled(tables: Tables) | Ignored | Poison | Stop

  ghost function Judged(c: Consumer, policies: Policies, t: Tables, record: Record, velocity: Option<nat>, now: Time,
                        newId: Uuid): Verdict {
    if record.Garbage? || !Known(record.envelope.draft.eventType) then Poison
    else if !Mine(c, record.envelope.draft.eventType) then Ignored
    else match HandledBy(c, policies, t, record.envelope, velocity, now, newId)
      case Ok(after) => Handled(after)
      case Err(error) => if error == BadEnvelope then Poison else Stop
  }

  /** A record that need not be read again. */
  ghost predicate Accounted(c: Consumer, inbox: set<(Consumer, Uuid)>, quarantine: set<(nat, nat)>, record: Record,
                            p: nat, k: nat) {
    || (p, k) in quarantine
    || Foreign(c, record)
    || (record.Wire? && (c, record.envelope.id) in inbox)
  }

  // ---- Handlers leave their mark ----

  lemma AssessmentReserves(policies: Policies, t: Tables, e: Envelope, velocity: Option<nat>, now: Time, newId: Uuid)
    ensures
      var r := RiskHandled(policies, t, e, velocity, now, newId);
      r.Ok? ==> r.value.inbox == t.inbox + {(RiskConsumer, e.id)}
  {
    assert (RiskConsumer, e.id) in t.inbox ==> t.inbox + {(RiskConsumer, e.id)} == t.inbox;
  }

  /** A handler that succeeds has the event in its inbox, and forgets nothing. */
  lemma HandlerReserves(c: Consumer, policies: Policies, t: Tables, e: Envelope, velocity: Option<nat>, now: Time,
                        newId: Uuid)
    requires HandledBy(c, policies, t, e, velocity, now, newId).Ok?
    ensures HandledBy(c, policies, t, e, velocity, now, newId).value.inbox == t.inbox + {(c, e.id)}
  {
    match c
    case RiskConsumer => AssessmentReserves(policies, t, e, velocity, now, newId);
    case TransactionConsumer => CF.SettlementFrame(t, e, now, newId);
  }

  // ---- The loop ----

  /** What the environment does around one record: what other transactions have made of the tables, what the
      handler observes, and which of its writes get through. */
  datatype Turn = Turn(
    others: Tables, velocity: Option<nat>, now: Time, newId: Uuid,
    transactionCommits: bool, quarantineStored: bool, offsetCommitted: bool)

  /** Inbox rows are never deleted; anything else may have changed. */
  function Interfered(mine: Tables, others: Tables): Tables {
    others.(inbox := others.inbox + mine.inbox)
  }

  datatype Fetched = Fetched(partition: nat, offset: nat)

  /** Committing a record moves its partition's offset just past it. */
  function Bumped(committed: seq<nat>, f: Fetched): (after: seq<nat>)
    ensures |after| == |committed|
  {
    if f.partition < |committed| then committed[f.partition := f.offset + 1] else committed
  }

  /** Offsets after the fetched records have been committed. */
  function Advanced(committed: seq<nat>, fetched: seq<Fetched>): (after: seq<nat>)
    ensures |after| == |committed|
  {
    if fetched == [] then committed
    else Bumped(Advanced(committed, fetched[..|fetched| - 1]), fetched[|fetched| - 1])
  }

  /** A poll returns, per partition, consecutive records from the position the worker holds. */
  ghost predicate Polled(log: Log, committed: seq<nat>, fetched: seq<Fetched>) {
    && |committed| == |log|
    && (forall i :: 0 <= i < |fetched| ==>
      fetched[i].partition < |log| && fetched[i].offset < |log[fetched[i].partition]|)
    && forall i :: 0 <= i < |fetched| ==> Advanced(committed, fetched[..i])[fetched[i].partition] == fetched[i].offset
  }

  /** Every record below a committed offset is in the inbox, foreign, or quarantined. */
  ghost predicate OffsetsOk(c: Consumer, inbox: set<(Consumer, Uuid)>, q: set<(nat, nat)>, log: Log,
                            committed: seq<nat>) {
    && |committed| == |log|
    && (forall p :: 0 <= p < |log| ==> committed[p] <= |log[p]|)
    && forall p, k :: 0 <= p < |log| && 0 <= k < committed[p] ==> Accounted(c, inbox, q, log[p][k], p, k)
  }

  lemma OffsetsGrow(c: Consumer, inbox: set<(Consumer, Uuid)>, more: set<(Consumer, Uuid)>, q: set<(nat, nat)>,
                    wider: set<(nat, nat)>, log: Log, committed: seq<nat>)
    requires OffsetsOk(c, inbox, q, log, committed) && inbox <= more && q <= wider
    ensures OffsetsOk(c, more, wider, log, committed)
  {
  }

  lemma OffsetsAdvance(c: Consumer, inbox: set<(Consumer, Uuid)>, q: set<(nat, nat)>, log: Log, committed: seq<nat>,
                       f: Fetched)
    requires OffsetsOk(c, inbox, q, log, committed) && f.partition < |log| && f.offset < |log[f.partition]|
    requires committed[f.partition] == f.offset
    requires Accounted(c, inbox, q, log[f.partition][f.offset], f.partition, f.offset)
    ensures OffsetsOk(c, inbox, q, log, committed[f.partition := f.offset + 1])
  {
  }

  lemma AdvancedSnoc(committed: seq<nat>, fetched: seq<Fetched>, n: nat)
    requires n < |fetched|
    ensures Advanced(committed, fetched[..n + 1]) == Bumped(Advanced(committed, fetched[..n]), fetched[n])
  {
    var prefix := fetched[..n + 1];
    assert prefix[..n] == fetched[..n] && prefix[n] == fetched[n];
  }

  class Worker {
    const consumer: Consumer
    const policies: Policies
    const log: Log
    const db: Database
    var committed: seq<nat>
    var quarantine: set<(nat, nat)>

    constructor (consumer: Consumer, policies: Policies, log: Log, db: Database, committed: seq<nat>,
                 quarantine: set<(nat, nat)>)
      ensures this.consumer == consumer && this.policies == policies && this.log == log && this.db == db
      ensures this.committed == committed && this.quarantine == quarantine
    {
      this.consumer, this.policies, this.log, this.db := consumer, policies, log, db;
      this.committed, this.quarantine := committed, quarantine;
    }

    /** Offset accounting. */
    ghost predicate Valid()
      reads this, db
    {
      OffsetsOk(consumer, db.tables.inbox, quarantine, log, committed)
    }

    method Handle(e: Envelope, turn: Turn) returns (reply: Reply)
      requires Keyed(db.tables)
      modifies db
      ensures Performs(reply, HandledBy(consumer, policies, old(db.tables), e, turn.velocity, turn.now, turn.newId),
                       old(db.tables), db.tables, turn.transactionCommits)
    {
      match consumer {
        case RiskConsumer => reply := HandleRequest(db, policies, e, turn.velocity, turn.now, turn.newId,
          turn.transactionCommits);
        case TransactionConsumer => reply := HandleDelivery(db, e, turn.now, turn.newId, turn.transactionCommits);
      }
    }

    /** Handles one record up to its quarantine row; `settled` allows the offset to be committed. The record is
        quarantined exactly when it is poison, and a record that stops the worker leaves no trace at all. */
    method HandleRecord(f: Fetched, turn: Turn) returns (settled: bool)
      requires f.partition < |log| && f.offset < |log[f.partition]| && Keyed(db.tables)
      modifies this`quarantine, db
      ensures quarantine == old(quarantine) || quarantine == old(quarantine) + {(f.partition, f.offset)}
      ensures old(db.tables.inbox) <= db.tables.inbox
      ensures
        var verdict := Judged(consumer, policies, old(db.tables), log[f.partition][f.offset], turn.velocity, turn.now,
          turn.newId);
        match verdict
        case Handled(after) =>
          && quarantine == old(quarantine) && settled == turn.transactionCommits
          && db.tables == if settled then after else old(db.tables)
        case Ignored => settled && quarantine == old(quarantine) && db.tables == old(db.tables)
        case Poison =>
          && settled == turn.quarantineStored && db.tables == old(db.tables)
          && quarantine == if settled then old(quarantine) + {(f.partition, f.offset)} else old(quarantine)
        case Stop => !settled && quarantine == old(quarantine) && db.tables == old(db.tables)
      ensures settled ==>
        Accounted(consumer, db.tables.inbox, quarantine, log[f.partition][f.offset], f.partition, f.offset)
    {
      var record := log[f.partition][f.offset];
      var poison := record.Garbage? || !Known(record.envelope.draft.eventType);
      if !poison {
        if !Mine(consumer, record.envelope.draft.eventType) {
          return true;
        }
        var reply := Handle(record.envelope, turn);
        if reply.Done? {
          HandlerReserves(consumer, policies, old(db.tables), record.envelope, turn.velocity, turn.now, turn.newId);
          return true;
        }
        if reply.Aborted? {
          return false;
        }
        poison := reply.error == BadEnvelope;
      }
      if !poison || !turn.quarantineStored {
        return false;
      }
      quarantine := quarantine + {(f.partition, f.offset)};
      return true;
    }

    /** Runs through one poll. Whatever fails, every record below a committed offset stays accounted for, and
        offsets move only past records that were settled. */
    method Consume(fetched: seq<Fetched>, turns: seq<Turn>) returns (processed: nat)
      requires Valid() && Polled(log, committed, fetched) && |turns| == |fetched|
      requires forall i :: 0 <= i < |turns| ==> Keyed(turns[i].others)
      modifies this, db
      ensures Valid()
      ensures processed <= |fetched| && committed == Advanced(old(committed), fetched[..processed])
      ensures old(db.tables.inbox) <= db.tables.inbox && old(quarantine) <= quarantine
    {
      processed := 0;
      assert fetched[..0] == [];
      while processed < |fetched|
        invariant processed <= |fetched| && Valid()
        invariant committed == Advanced(old(committed), fetched[..processed])
        invariant old(db.tables.inbox) <= db.tables.inbox && old(quarantine) <= quarantine
      {
        var f, turn := fetched[processed], turns[processed];
        ghost var inbox, aside := db.tables.inbox, quarantine;
        db.tables := Interfered(db.tables, turn.others);
        var settled := HandleRecord(f, turn);
        OffsetsGrow(consumer, inbox, db.tables.inbox, aside, quarantine, log, committed);
        if !settled || !turn.offsetCommitted {
          return;
        }
        AdvancedSnoc(old(committed), fetched, processed);
        OffsetsAdvance(consumer, db.tables.inbox, quarantine, log, committed, f);
        committed := committed[f.partition := f.offset + 1];
        processed := processed + 1;
      }
    }
  }
}
