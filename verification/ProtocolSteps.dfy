/** Every step of the protocol keeps the shape of every transfer's rows. */
module ProtocolSteps {
  import opened Prelude
  import opened Events
  import opened Tables
  import opened Protocol
  import J = Journal
  import L = Lifecycle
  import P = Policy
  import LS = LedgerSpec
  import LT = LedgerTheory

  // ---- Filtering an appended row ----

  lemma EventAppended(events: seq<Envelope>, e: Envelope, id: Uuid)
    ensures EventsFor(events + [e], id) == if e.Transfer() ==
      id then EventsFor(events, id) + [e] else EventsFor(events, id)
  {
    assert (events + [e])[..|events|] == events;
  }

  lemma AssessmentAppended(rows: seq<Assessment>, a: Assessment, id: Uuid)
    ensures AssessmentsFor(rows + [a], id) == if a.transfer ==
      id then AssessmentsFor(rows, id) + [a] else AssessmentsFor(rows, id)
  {
    assert (rows + [a])[..|rows|] == rows;
  }

  lemma AuditAppended(rows: seq<Audit>, a: Audit, id: Uuid)
    ensures AuditsFor(rows + [a], id) == if a.transfer == id then AuditsFor(rows, id) + [a] else AuditsFor(rows, id)
  {
    assert (rows + [a])[..|rows|] == rows;
  }

  lemma EntryAppended(journal: seq<J.Entry>, e: J.Entry, id: Uuid)
    ensures EntriesFor(journal + [e], id) == if e.id ==
      id then EntriesFor(journal, id) + [e] else EntriesFor(journal, id)
  {
    assert (journal + [e])[..|journal|] == journal;
  }

  lemma {:induction false} NoEntries(journal: seq<J.Entry>, id: Uuid)
    requires LS.Find(journal, id).None?
    ensures EntriesFor(journal, id) == []
  {
    if journal != [] {
      var init := journal[..|journal| - 1];
      assert forall i :: 0 <= i < |init| ==> init[i] == journal[i];
      NoEntries(init, id);
    }
  }

  // ---- Membership in a history ----

  lemma {:induction false} HistoryIsCommitted(events: seq<Envelope>, id: Uuid, k: nat)
    requires k < |EventsFor(events, id)|
    ensures EventsFor(events, id)[k] in events && EventsFor(events, id)[k].Transfer() == id
  {
    var init := events[..|events| - 1];
    if k < |EventsFor(init, id)| {
      HistoryIsCommitted(init, id, k);
    }
  }

  lemma {:induction false} CommittedIsInHistory(events: seq<Envelope>, e: Envelope)
    requires e in events
    ensures e in EventsFor(events, e.Transfer())
  {
    var init, last := events[..|events| - 1], events[|events| - 1];
    if e != last {
      var i :| 0 <= i < |events| && events[i] == e;
      assert init[i] == e;
      CommittedIsInHistory(init, e);
    }
  }

  lemma IdDeterminesEvent(events: seq<Envelope>, d: Envelope, e: Envelope)
    requires UniqueEventIds(events) && d in events && e in events && d.id == e.id
    ensures d == e
  {
    var i :| 0 <= i < |events| && events[i] == d;
    var j :| 0 <= j < |events| && events[j] == e;
    assert i == j;
  }

  /** Identifiers within one history are distinct. */
  lemma {:induction false} HistoryIdsDistinct(events: seq<Envelope>, id: Uuid, i: nat, j: nat)
    requires UniqueEventIds(events) && i < j < |EventsFor(events, id)|
    ensures EventsFor(events, id)[i].id != EventsFor(events, id)[j].id
  {
    var init, last := events[..|events| - 1], events[|events| - 1];
    var before := EventsFor(init, id);
    if j < |before| {
      HistoryIdsDistinct(init, id, i, j);
    } else {
      HistoryIsCommitted(init, id, i);
      var k :| 0 <= k < |init| && init[k] == before[i];
      assert events[k].id != last.id;
    }
  }

  // ---- Frames ----

  /** Two inboxes agree on the events of a history. */
  ghost predicate SameSeen(history: seq<Envelope>, left: set<(Consumer, Uuid)>, right: set<(Consumer, Uuid)>) {
    forall k, c :: 0 <= k < |history| ==> ((c, history[k].id) in left <==> (c, history[k].id) in right)
  }

  lemma InboxFrame(policies: Policies, s: Slice, id: Uuid, before: set<(Consumer, Uuid)>, after: set<(Consumer, Uuid)>)
    requires SliceOk(policies, s, id, before) && SameSeen(s.history, before, after)
    ensures SliceOk(policies, s, id, after)
  {
  }

  lemma OtherInbox(events: seq<Envelope>, e: Envelope, c: Consumer, id: Uuid, inbox: set<(Consumer, Uuid)>)
    requires UniqueEventIds(events) && e in events && e.Transfer() != id
    ensures SameSeen(EventsFor(events, id), inbox, inbox + {(c, e.id)})
  {
    var history := EventsFor(events, id);
    forall k | 0 <= k < |history| ensures history[k].id != e.id {
      HistoryIsCommitted(events, id, k);
      var other := history[k];
      if other.id == e.id {
        IdDeterminesEvent(events, other, e);
      }
    }
  }

  lemma AppendKeepsUnique(t: Tables, d: Draft, newId: Uuid)
    requires UniqueEventIds(t.events) && InboxCommitted(t) && CanAppend(t.events, d, newId)
    ensures UniqueEventIds(t.events + [Envelope(newId, d)])
    ensures forall c :: (c, newId) !in t.inbox
    ensures InboxCommitted(t.(events := t.events + [Envelope(newId, d)]))
  {
    assert forall i :: 0 <= i < |t.events| ==> t.events[i].id != newId;
    var after := t.events + [Envelope(newId, d)];
    forall c, id | (c, id) in t.inbox ensures EventIdUsed(after, id) {
      assert EventIdUsed(t.events, id);
      var i :| 0 <= i < |t.events| && t.events[i].id == id;
      assert after[i].id == id;
    }
  }

  lemma ConsumeKeepsInbox(t: Tables, c: Consumer, e: Envelope)
    requires InboxCommitted(t) && e in t.events
    ensures InboxCommitted(t.(inbox := t.inbox + {(c, e.id)}))
  {
    var i :| 0 <= i < |t.events| && t.events[i] == e;
    assert EventIdUsed(t.events, e.id);
  }

  lemma UpdateKeepsKeys(transfers: map<Uuid, L.Lifecycle>, id: Uuid, next: L.Lifecycle)
    requires UniqueKeys(transfers) && id in transfers && next.transfer == transfers[id].transfer
    ensures UniqueKeys(transfers[id := next])
  {
  }

  // ---- Acceptance ----

  lemma InsertKeepsKeys(t: Tables, l: L.Lifecycle)
    requires UniqueKeys(t.transfers) && HolderOf(t, l.transfer.requester, l.transfer.key).None?
    ensures UniqueKeys(t.transfers[l.transfer.id := l])
  {
  }

  lemma InsertedSlice(t: Tables, l: L.Lifecycle, e: Envelope, id: Uuid)
    requires e.Transfer() == l.transfer.id
    ensures
      var after := t.(transfers := t.transfers[l.transfer.id := l], events := t.events + [e]);
      SliceOf(after, id) == if id == l.transfer.id
        then SliceOf(t, id).(row := Some(l), history := EventsFor(t.events, id) + [e])
        else SliceOf(t, id)
  {
    EventAppended(t.events, e, id);
  }

  lemma AcceptKeeps(policies: Policies, t: Tables, l: L.Lifecycle, newId: Uuid)
    requires TablesInv(policies, t) && LS.Find(t.ledger.journal, l.transfer.id).None?
    ensures TablesInv(policies, AcceptedOrElse(PendingCreated(t, l, newId), t))
  {
    var r := PendingCreated(t, l, newId);
    if r.Ok? && r.value.tables != t {
      AcceptCommits(policies, t, l, Envelope(newId, Requested(l).value));
    }
  }

  lemma AcceptCommits(policies: Policies, t: Tables, l: L.Lifecycle, e: Envelope)
    requires TablesInv(policies, t) && LS.Find(t.ledger.journal, l.transfer.id).None?
    requires L.Valid(l) && l.status == L.PendingRisk && Is(e.draft, Requested(l)) && CanAppend(t.events, e.draft, e.id)
    requires HolderOf(t, l.transfer.requester, l.transfer.key).None? && l.transfer.id !in t.transfers
    ensures TablesInv(policies, t.(transfers := t.transfers[l.transfer.id := l], events := t.events + [e]))
  {
    var id := l.transfer.id;
    var after := t.(transfers := t.transfers[id := l], events := t.events + [e]);
    assert SliceOk(policies, SliceOf(t, id), id, t.inbox);
    NoEntries(t.ledger.journal, id);
    AppendKeepsUnique(t, e.draft, e.id);
    assert InboxCommitted(after);
    InsertKeepsKeys(t, l);
    InsertedSlice(t, l, e, id);
    NewPendingShape(policies, t, SliceOf(after, id), l, e);
    forall x: Uuid ensures SliceOk(policies, SliceOf(after, x), x, after.inbox) {
      if x != id {
        assert SliceOk(policies, SliceOf(t, x), x, t.inbox);
        InsertedSlice(t, l, e, x);
      }
    }
  }

  lemma NewPendingShape(policies: Policies, t: Tables, s: Slice, l: L.Lifecycle, e: Envelope)
    requires L.Valid(l) && l.status == L.PendingRisk && Is(e.draft, Requested(l))
    requires s == Slice(Some(l), [e], [], None, [], [])
    requires (RiskConsumer, e.id) !in t.inbox
    ensures SliceOk(policies, s, l.transfer.id, t.inbox)
  {
    assert l == At(l, L.PendingRisk, 1);
  }

  lemma TransactKeeps(policies: Policies, t: Tables, tr: L.Transfer, newId: Uuid)
    requires TablesInv(policies, t)
    ensures TablesInv(policies, AcceptedOrElse(Created(t, tr, newId), t))
  {
    var r := Created(t, tr, newId);
    if r.Ok? && HolderOf(t, tr.requester, tr.key).None? {
      var entry := L.EntryOf(tr, tr.requestedAt);
      LT.PostedParts(t.ledger, entry);
      LT.PostPreserves(t.ledger, entry);
      TransactCommits(policies, t, tr, entry, Envelope(newId, Completed(tr).value), LT.After(t.ledger, entry));
    }
  }

  lemma TransactCommits(policies: Policies, t: Tables, tr: L.Transfer, entry: J.Entry, e: Envelope, ledger: LS.Ledger)
    requires TablesInv(policies, t) && L.ValidTransfer(tr)
    requires HolderOf(t, tr.requester, tr.key).None? && tr.id !in t.transfers
    requires entry == L.EntryOf(tr, tr.requestedAt) && LS.Find(t.ledger.journal, tr.id).None?
    requires LT.LedgerInv(ledger) && ledger.journal == t.ledger.journal + [entry]
    requires Is(e.draft, Completed(tr)) && CanAppend(t.events, e.draft, e.id)
    ensures TablesInv(policies,
      t.(ledger := ledger, transfers := t.transfers[tr.id := SyncLifecycle(tr)], events := t.events + [e]))
  {
    var l := SyncLifecycle(tr);
    var after := t.(ledger := ledger, transfers := t.transfers[tr.id := l], events := t.events + [e]);
    assert UniqueEventIds(after.events) && InboxCommitted(after) by {
      AppendKeepsUnique(t, e.draft, e.id);
    }
    assert UniqueKeys(after.transfers) by {
      InsertKeepsKeys(t, l);
    }
    NoEntries(t.ledger.journal, tr.id);
    forall x: Uuid ensures SliceOk(policies, SliceOf(after, x), x, after.inbox) {
      assert SliceOk(policies, SliceOf(t, x), x, t.inbox) && (x == tr.id ==> SliceOf(t, x).row.None?);
      TransactedSlice(t, tr, entry, e, ledger, x);
    }
  }

  lemma TransactedSlice(t: Tables, tr: L.Transfer, entry: J.Entry, e: Envelope, ledger: LS.Ledger, x: Uuid)
    requires e.Transfer() == entry.id == tr.id && ledger.journal == t.ledger.journal + [entry] &&
      EntriesFor(t.ledger.journal, tr.id) == []
    ensures
      var l, s := SyncLifecycle(tr), SliceOf(t, x);
      var after := t.(ledger := ledger, transfers := t.transfers[tr.id := l], events := t.events + [e]);
      SliceOf(after, x) == if x == tr.id then s.(row := Some(l), history := s.history + [e], entries := [entry]) else s
  {
    InsertedSlice(t.(ledger := ledger), SyncLifecycle(tr), e, x);
    EntryAppended(t.ledger.journal, entry, x);
  }

  // ---- Assessment ----

  lemma AssessedSlice(t: Tables, next: L.Lifecycle, a: Assessment, e: Envelope, result: Envelope, id: Uuid)
    requires a.transfer == next.transfer.id == result.Transfer()
    ensures
      var s, after := SliceOf(t, id), WithAssessment(t, next, a, e, result);
      SliceOf(after, id) ==
        if id != next.transfer.id then s
        else Slice(Some(next), s.history + [result], s.assessed + [a],
                   if next.status == L.ReviewRequired then Some(ReviewCase(next.version, Open)) else s.review,
                     s.audits, s.entries)
  {
    EventAppended(t.events, result, id);
    AssessmentAppended(t.assessments, a, id);
  }

  /** A pending transfer has only its request on record. */
  lemma PendingSlice(policies: Policies, t: Tables, l: L.Lifecycle, e: Envelope)
    requires TablesInv(policies, t) && e in t.events && e.Transfer() in t.transfers
    requires t.transfers[e.Transfer()] == l && l.status == L.PendingRisk
    ensures SliceOf(t, e.Transfer()) == Slice(Some(l), [e], [], None, [], []) && l == At(l, L.PendingRisk, 1)
  {
    var id := e.Transfer();
    assert SliceOk(policies, SliceOf(t, id), id, t.inbox);
    CommittedIsInHistory(t.events, e);
  }

  lemma AssessedRowShape(policies: Policies, l: L.Lifecycle, a: Assessment, e: Envelope, result: Envelope,
                         inbox: set<(Consumer, Uuid)>)
    requires L.Valid(l) && l == At(l, L.PendingRisk, 1) && Is(e.draft, Requested(l))
    requires Reproducible(policies, a, l, e.id) && a.at != 0
    requires
      var next := At(l, StatusFor(a.evaluation.decision), 2);
      && Is(result.draft, RiskAssessed(next, a.evaluation, a.at, e.id))
    requires (RiskConsumer, e.id) in inbox && forall c :: (c, result.id) !in inbox
    ensures
      var next := At(l, StatusFor(a.evaluation.decision), 2);
      var review := if next.status == L.ReviewRequired then Some(ReviewCase(2, Open)) else None;
      SliceOk(policies, Slice(Some(next), [e, result], [a], review, [], []), l.transfer.id, inbox)
  {
    var next := At(l, StatusFor(a.evaluation.decision), 2);
    assert At(next, L.PendingRisk, 1) == l;
    assert At(next, next.status, 2) == next;
  }

  lemma AssessKeeps(policies: Policies, t: Tables, e: Envelope, velocity: Option<nat>, now: Time, newId: Uuid)
    requires TablesInv(policies, t) && e in t.events
    ensures TablesInv(policies, OrElse(RiskHandled(policies, t, e, velocity, now, newId), t))
  {
    var r := RiskHandled(policies, t, e, velocity, now, newId);
    if r.Ok? && (RiskConsumer, e.id) !in t.inbox {
      var l := t.transfers[e.Transfer()];
      PendingSlice(policies, t, l, e);
      AssessCommits(policies, t, l, e, velocity, now, newId);
    }
  }

  lemma AssessCommits(policies: Policies, t: Tables, l: L.Lifecycle, e: Envelope, velocity: Option<nat>, now: Time,
                      newId: Uuid)
    requires TablesInv(policies, t) && e in t.events && e.Transfer() in t.transfers && t.transfers[e.Transfer()] == l
    requires L.Valid(l) && l == At(l, L.PendingRisk, 1) &&
      SliceOf(t, e.Transfer()) == Slice(Some(l), [e], [], None, [], [])
    requires l.policy in policies && Assess(policies, t, l, e, velocity, now, newId).Ok?
    ensures TablesInv(policies, Assess(policies, t, l, e, velocity, now, newId).value)
  {
    var id := e.Transfer();
    var input := Captured(l, velocity);
    var ev := P.Evaluate(policies[l.policy], input).value;
    var next := Transition(l, ev.decision).value;
    var a := Assessment(id, 2, e.id, input, ev, now);
    assert SliceOk(policies, SliceOf(t, id), id, t.inbox);
    assert next == At(l, StatusFor(ev.decision), 2);
    AssessmentKeeps(policies, t, l, a, e, Envelope(newId, RiskAssessed(next, ev, now, e.id).value));
  }

  lemma AssessmentKeeps(policies: Policies, t: Tables, l: L.Lifecycle, a: Assessment, e: Envelope, result: Envelope)
    requires TablesInv(policies, t) && e in t.events && e.Transfer() in t.transfers && t.transfers[e.Transfer()] == l
    requires L.Valid(l) && l == At(l, L.PendingRisk, 1) &&
      SliceOf(t, e.Transfer()) == Slice(Some(l), [e], [], None, [], [])
    requires l.transfer.id == e.Transfer() && Is(e.draft, Requested(l))
    requires Reproducible(policies, a, l, e.id) && a.at != 0
    requires Is(result.draft, RiskAssessed(At(l, StatusFor(a.evaluation.decision), 2), a.evaluation, a.at, e.id))
    requires CanAppend(t.events, result.draft, result.id)
    ensures TablesInv(policies, WithAssessment(t, At(l, StatusFor(a.evaluation.decision), 2), a, e, result))
  {
    var id, next := e.Transfer(), At(l, StatusFor(a.evaluation.decision), 2);
    var after := WithAssessment(t, next, a, e, result);
    AssessedFrame(t, l, next, a, e, result);
    AssessedOwnRow(policies, t, l, a, e, result);
    forall x: Uuid ensures SliceOk(policies, SliceOf(after, x), x, after.inbox) {
      AssessedElsewhere(policies, t, next, a, e, result, x);
    }
  }

  lemma AssessedFrame(t: Tables, l: L.Lifecycle, next: L.Lifecycle, a: Assessment, e: Envelope, result: Envelope)
    requires UniqueEventIds(t.events) && InboxCommitted(t) && UniqueKeys(t.transfers) && e in t.events
    requires CanAppend(t.events, result.draft, result.id)
    requires next.transfer == l.transfer && l.transfer.id in t.transfers && t.transfers[l.transfer.id] == l
    ensures
      var after := WithAssessment(t, next, a, e, result);
      && UniqueEventIds(after.events) && InboxCommitted(after) && UniqueKeys(after.transfers)
      && forall c :: (c, result.id) !in after.inbox
  {
    var after := WithAssessment(t, next, a, e, result);
    AppendKeepsUnique(t, result.draft, result.id);
    ConsumeKeepsInbox(t.(events := after.events), RiskConsumer, e);
    assert InboxCommitted(after);
    AssessedIdFresh(t, e, result.id);
    UpdateKeepsKeys(t.transfers, l.transfer.id, next);
  }

  lemma AssessedOwnRow(policies: Policies, t: Tables, l: L.Lifecycle, a: Assessment, e: Envelope, result: Envelope)
    requires L.Valid(l) && l == At(l, L.PendingRisk, 1) &&
      SliceOf(t, e.Transfer()) == Slice(Some(l), [e], [], None, [], [])
    requires l.transfer.id == e.Transfer() && Is(e.draft, Requested(l))
    requires Reproducible(policies, a, l, e.id) && a.at != 0
    requires Is(result.draft, RiskAssessed(At(l, StatusFor(a.evaluation.decision), 2), a.evaluation, a.at, e.id))
    requires e.id != result.id && forall c :: (c, result.id) !in t.inbox
    ensures
      var after := WithAssessment(t, At(l, StatusFor(a.evaluation.decision), 2), a, e, result);
      SliceOk(policies, SliceOf(after, e.Transfer()), e.Transfer(), after.inbox)
  {
    var next := At(l, StatusFor(a.evaluation.decision), 2);
    AssessedRowShape(policies, l, a, e, result, t.inbox + {(RiskConsumer, e.id)});
    AssessedSlice(t, next, a, e, result, e.Transfer());
    assert [e] + [result] == [e, result] && [] + [a] == [a];
  }

  lemma AssessedElsewhere(policies: Policies, t: Tables, next: L.Lifecycle, a: Assessment, e: Envelope,
                          result: Envelope, x: Uuid)
    requires TablesInv(policies, t) && e in t.events
    requires a.transfer == next.transfer.id == result.Transfer() == e.Transfer()
    ensures
      var after := WithAssessment(t, next, a, e, result);
      x != e.Transfer() ==> SliceOk(policies, SliceOf(after, x), x, after.inbox)
  {
    if x != e.Transfer() {
      var after := WithAssessment(t, next, a, e, result);
      assert SliceOk(policies, SliceOf(t, x), x, t.inbox);
      AssessedSlice(t, next, a, e, result, x);
      OtherInbox(t.events, e, RiskConsumer, x, t.inbox);
      InboxFrame(policies, SliceOf(t, x), x, t.inbox, after.inbox);
    }
  }

  lemma AssessedIdFresh(t: Tables, e: Envelope, newId: Uuid)
    requires e in t.events && !EventIdUsed(t.events, newId)
    ensures e.id != newId
  {
    var i :| 0 <= i < |t.events| && t.events[i] == e;
  }

  // ---- Settlement ----

  lemma ApprovedHistory(policies: Policies, s: Slice, id: Uuid, inbox: set<(Consumer, Uuid)>)
    requires SliceOk(policies, s, id, inbox) && s.row.Some? && s.row.value.status == L.Approved
    ensures |s.history| == s.row.value.version && s.entries == []
    ensures forall k :: 0 <= k < |s.history| ==> s.history[k].Version() == k + 1
  {
  }

  /** The event that approved a transfer is the last of its history, is not yet consumed, and nothing is posted. */
  lemma ApprovedSlice(policies: Policies, t: Tables, l: L.Lifecycle, e: Envelope)
    requires TablesInv(policies, t) && e in t.events && e.Transfer() in t.transfers
    requires t.transfers[e.Transfer()] == l && l.status == L.Approved && e.Version() == l.version
    ensures
      var s := SliceOf(t, e.Transfer());
      && SliceOk(policies, s, e.Transfer(), t.inbox) && l.transfer.id == e.Transfer()
      && |s.history| >= 1 && s.history[|s.history| - 1] == e && s.entries == []
  {
    var id := e.Transfer();
    var s := SliceOf(t, id);
    assert SliceOk(policies, s, id, t.inbox);
    ApprovedHistory(policies, s, id, t.inbox);
    CommittedIsInHistory(t.events, e);
    var k :| 0 <= k < |s.history| && s.history[k] == e;
  }

  ghost predicate Settles(l: L.Lifecycle, next: L.Lifecycle, result: Envelope, cause: Uuid, entries: seq<J.Entry>) {
    var d := result.draft;
    || (&& L.Complete(l) == Ok(next) && Is(d, CompletedLifecycle(next, d.occurredAt, cause))
        && l.transfer.amount.minor > 0 && entries == [L.EntryOf(l.transfer, d.occurredAt)])
    || (L.Fail(l, L.INSUFFICIENT_FUNDS) == Ok(next) && Is(d, Failed(next, d.occurredAt, cause)) && entries == [])
  }

  lemma SettledPosting(s: Slice, after: Slice, l: L.Lifecycle, next: L.Lifecycle, result: Envelope,
                       entries: seq<J.Entry>, inbox: set<(Consumer, Uuid)>)
    requires |s.history| >= 1 && l.status == L.Approved
    requires Settles(l, next, result, s.history[|s.history| - 1].id, entries)
    requires after == s.(row := Some(next), history := s.history + [result], entries := entries)
    ensures PostingShape(after, next, l, |s.history|, inbox + {(TransactionConsumer, s.history[|s.history| - 1].id)})
  {
    var n := |s.history|;
    assert after.history[n - 1] == s.history[n - 1] && after.history[n] == result;
  }

  /** The settled slice keeps everything but the row, one more event and the entries. */
  ghost predicate Extends(s: Slice, after: Slice, l: L.Lifecycle, next: L.Lifecycle) {
    && after.assessed == s.assessed && after.review == s.review && after.audits == s.audits
    && |after.history| == |s.history| + 1 && (forall k :: 0 <= k < |s.history| ==> after.history[k] == s.history[k])
    && next.transfer == l.transfer && next.policy == l.policy
  }

  lemma SettledReview(s: Slice, after: Slice, l: L.Lifecycle, next: L.Lifecycle, x: L.Lifecycle,
                      inbox: set<(Consumer, Uuid)>, more: set<(Consumer, Uuid)>)
    requires |s.history| >= 2 && ReviewShape(s, l, x, inbox) && l.status == L.Approved && x.status != L.Approved
    requires Extends(s, after, l, next) && PostingShape(after, next, l, |s.history|, more)
    ensures |s.history| == 3 && ReviewShape(after, next, x, more)
  {
  }

  lemma SettledAssessed(policies: Policies, s: Slice, after: Slice, l: L.Lifecycle, next: L.Lifecycle,
                        inbox: set<(Consumer, Uuid)>, more: set<(Consumer, Uuid)>)
    requires |s.history| >= 1 && AssessedShape(policies, s, l, inbox) && l.status == L.Approved && inbox <= more
    requires Extends(s, after, l, next) && PostingShape(after, next, l, |s.history|, more)
    ensures AssessedShape(policies, after, next, more)
  {
    var a := s.assessed[0];
    if a.evaluation.decision == P.Review {
      SettledReview(s, after, l, next, At(l, L.ReviewRequired, 2), inbox, more);
    }
    assert after.history[0] == s.history[0] && after.history[1] == s.history[1];
  }

  lemma SettledShape(policies: Policies, s: Slice, id: Uuid, l: L.Lifecycle, next: L.Lifecycle, result: Envelope,
                     entries: seq<J.Entry>, inbox: set<(Consumer, Uuid)>)
    requires SliceOk(policies, s, id, inbox) && s.row == Some(l) && l.status == L.Approved && |s.history| >= 1
    requires Settles(l, next, result, s.history[|s.history| - 1].id, entries)
    ensures
      var cause := s.history[|s.history| - 1].id;
      SliceOk(policies, s.(row := Some(next), history := s.history + [result], entries := entries), id,
              inbox + {(TransactionConsumer, cause)})
  {
    var after := s.(row := Some(next), history := s.history + [result], entries := entries);
    var more := inbox + {(TransactionConsumer, s.history[|s.history| - 1].id)};
    SettledPosting(s, after, l, next, result, entries, inbox);
    assert Extends(s, after, l, next);
    SettledAssessed(policies, s, after, l, next, inbox, more);
    assert after.history[0] == s.history[0] && next.version > 1 && L.Valid(next);
  }

  /** While a transfer is under review or declined, its shape does not depend on what the transaction worker
      consumed. */
  lemma QuietShape(policies: Policies, s: Slice, id: Uuid, inbox: set<(Consumer, Uuid)>, seen: Uuid)
    requires SliceOk(policies, s, id, inbox)
    requires s.row.Some? && (s.row.value.status == L.ReviewRequired || s.row.value.status == L.Declined)
    ensures SliceOk(policies, s, id, inbox + {(TransactionConsumer, seen)})
  {
  }

  lemma ConsumeKeeps(policies: Policies, t: Tables, e: Envelope)
    requires TablesInv(policies, t) && e in t.events && e.Transfer() in t.transfers
    requires t.transfers[e.Transfer()].status == L.ReviewRequired || t.transfers[e.Transfer()].status == L.Declined
    ensures TablesInv(policies, Consumed(t, e))
  {
    var after := Consumed(t, e);
    ConsumeKeepsInbox(t, TransactionConsumer, e);
    forall x: Uuid ensures SliceOk(policies, SliceOf(after, x), x, after.inbox) {
      assert SliceOk(policies, SliceOf(t, x), x, t.inbox);
      assert SliceOf(after, x) == SliceOf(t, x);
      if x == e.Transfer() {
        QuietShape(policies, SliceOf(t, x), x, t.inbox, e.id);
      } else {
        OtherInbox(t.events, e, TransactionConsumer, x, t.inbox);
        InboxFrame(policies, SliceOf(t, x), x, t.inbox, after.inbox);
      }
    }
  }

  ghost function WithSettlement(t: Tables, ledger: LS.Ledger, next: L.Lifecycle, e: Envelope,
                                result: Envelope): Tables {
    Consumed(t, e).(ledger := ledger, transfers := t.transfers[next.transfer.id := next], events := t.events + [result])
  }

  /** The journal the settlement leaves: one more entry, or the same. */
  ghost predicate Journaled(t: Tables, ledger: LS.Ledger, id: Uuid, entries: seq<J.Entry>) {
    || (ledger.journal == t.ledger.journal && entries == [])
    || exists entry :: ledger.journal == t.ledger.journal + [entry] && entry.id == id && entries == [entry]
  }

  lemma JournaledEntries(t: Tables, ledger: LS.Ledger, id: Uuid, entries: seq<J.Entry>, x: Uuid)
    requires Journaled(t, ledger, id, entries)
    ensures EntriesFor(ledger.journal, x) == EntriesFor(t.ledger.journal, x) + if x == id then entries else []
  {
    if ledger.journal != t.ledger.journal {
      var entry :| ledger.journal == t.ledger.journal + [entry] && entry.id == id && entries == [entry];
      EntryAppended(t.ledger.journal, entry, x);
    }
  }

  lemma SettlementKeeps(policies: Policies, t: Tables, ledger: LS.Ledger, l: L.Lifecycle, next: L.Lifecycle,
                        e: Envelope,
                        result: Envelope, entries: seq<J.Entry>)
    requires TablesInv(policies, t) && e in t.events && e.Transfer() in t.transfers
    requires t.transfers[e.Transfer()] == l && l.status == L.Approved && e.Version() == l.version
    requires LT.LedgerInv(ledger) && Journaled(t, ledger, e.Transfer(), entries)
    requires Settles(l, next, result, e.id, entries) && CanAppend(t.events, result.draft, result.id)
    ensures TablesInv(policies, WithSettlement(t, ledger, next, e, result))
  {
    var id, after := e.Transfer(), WithSettlement(t, ledger, next, e, result);
    ApprovedSlice(policies, t, l, e);
    assert next.transfer == l.transfer && result.Transfer() == id;
    assert UniqueEventIds(after.events) && InboxCommitted(after) by {
      AppendKeepsUnique(t, result.draft, result.id);
      ConsumeKeepsInbox(t.(events := after.events), TransactionConsumer, e);
    }
    assert UniqueKeys(after.transfers) by {
      UpdateKeepsKeys(t.transfers, id, next);
    }
    forall x: Uuid ensures SliceOk(policies, SliceOf(after, x), x, after.inbox) {
      assert SliceOk(policies, SliceOf(t, x), x, t.inbox);
      SettledRow(policies, t, ledger, l, next, e, result, entries, x);
    }
  }

  lemma SettledRow(policies: Policies, t: Tables, ledger: LS.Ledger, l: L.Lifecycle, next: L.Lifecycle, e: Envelope,
                   result: Envelope, entries: seq<J.Entry>, x: Uuid)
    requires UniqueEventIds(t.events) && e in t.events && SliceOk(policies, SliceOf(t, x), x, t.inbox)
    requires e.Transfer() in t.transfers && t.transfers[e.Transfer()] == l && l.status == L.Approved
    requires next.transfer.id == result.Transfer() == e.Transfer()
    requires
      var s := SliceOf(t, e.Transfer());
      |s.history| >= 1 && s.history[|s.history| - 1] == e && s.entries == []
    requires Journaled(t, ledger, e.Transfer(), entries) && Settles(l, next, result, e.id, entries)
    ensures SliceOk(policies, SliceOf(WithSettlement(t, ledger, next, e, result), x), x,
      t.inbox + {(TransactionConsumer, e.id)})
  {
    SettledSlice(t, ledger, next, e, result, entries, x);
    if x == e.Transfer() {
      SettledOwnRow(policies, SliceOf(t, x), x, l, next, e, result, entries, t.inbox);
    } else {
      SettledElsewhere(policies, t, e, x);
    }
  }

  lemma SettledOwnRow(policies: Policies, s: Slice, id: Uuid, l: L.Lifecycle, next: L.Lifecycle, e: Envelope,
                      result: Envelope, entries: seq<J.Entry>, inbox: set<(Consumer, Uuid)>)
    requires SliceOk(policies, s, id, inbox) && s.row == Some(l) && l.status == L.Approved
    requires |s.history| >= 1 && s.history[|s.history| - 1] == e && s.entries == []
    requires Settles(l, next, result, e.id, entries)
    ensures SliceOk(policies, s.(row := Some(next), history := s.history + [result], entries := s.entries + entries),
      id,
                    inbox + {(TransactionConsumer, e.id)})
  {
    SettledShape(policies, s, id, l, next, result, entries, inbox);
    assert [] + entries == entries;
  }

  lemma SettledSlice(t: Tables, ledger: LS.Ledger, next: L.Lifecycle, e: Envelope, result: Envelope,
                     entries: seq<J.Entry>, x: Uuid)
    requires Journaled(t, ledger, next.transfer.id, entries) && result.Transfer() == next.transfer.id
    ensures
      var s := SliceOf(t, x);
      SliceOf(WithSettlement(t, ledger, next, e, result), x) ==
        if x != next.transfer.id then s
        else s.(row := Some(next), history := s.history + [result], entries := s.entries + entries)
  {
    EventAppended(t.events, result, x);
    JournaledEntries(t, ledger, next.transfer.id, entries, x);
    assert forall es: seq<J.Entry> :: es + [] == es;
  }

  lemma SettledElsewhere(policies: Policies, t: Tables, e: Envelope, x: Uuid)
    requires UniqueEventIds(t.events) && e in t.events && SliceOk(policies, SliceOf(t, x), x, t.inbox) &&
      x != e.Transfer()
    ensures SliceOk(policies, SliceOf(t, x), x, t.inbox + {(TransactionConsumer, e.id)})
  {
    OtherInbox(t.events, e, TransactionConsumer, x, t.inbox);
    InboxFrame(policies, SliceOf(t, x), x, t.inbox, t.inbox + {(TransactionConsumer, e.id)});
  }

  lemma CompletionKeeps(policies: Policies, t: Tables, ledger: LS.Ledger, l: L.Lifecycle, e: Envelope, now: Time,
                        newId: Uuid)
    requires TablesInv(policies, t) && e in t.events && e.Transfer() in t.transfers && l.transfer.id == e.Transfer()
    requires t.transfers[e.Transfer()] == l && L.Valid(l) && l.status == L.Approved && e.Version() == l.version
    requires LT.LedgerInv(ledger) && ledger.journal == t.ledger.journal + [L.EntryOf(l.transfer, now)]
    requires CompletedWith(Consumed(t, e), ledger, l, e.id, now, newId).Ok?
    ensures TablesInv(policies, CompletedWith(Consumed(t, e), ledger, l, e.id, now, newId).value)
  {
    var next := L.Complete(l).value;
    var result := Envelope(newId, CompletedLifecycle(next, now, e.id).value);
    SettlementKeeps(policies, t, ledger, l, next, e, result, [L.EntryOf(l.transfer, now)]);
  }

  lemma FailureKeeps(policies: Policies, t: Tables, l: L.Lifecycle, e: Envelope, now: Time, newId: Uuid)
    requires TablesInv(policies, t) && e in t.events && e.Transfer() in t.transfers && l.transfer.id == e.Transfer()
    requires t.transfers[e.Transfer()] == l && L.Valid(l) && l.status == L.Approved && e.Version() == l.version
    requires FailedWith(Consumed(t, e), l, e.id, now, newId).Ok?
    ensures TablesInv(policies, FailedWith(Consumed(t, e), l, e.id, now, newId).value)
  {
    var next := L.Fail(l, L.INSUFFICIENT_FUNDS).value;
    var result := Envelope(newId, Failed(next, now, e.id).value);
    SettlementKeeps(policies, t, t.ledger, l, next, e, result, []);
  }

  lemma PostKeeps(policies: Policies, t: Tables, l: L.Lifecycle, e: Envelope, now: Time, newId: Uuid)
    requires TablesInv(policies, t) && e in t.events && e.Transfer() in t.transfers
    requires t.transfers[e.Transfer()] == l && L.Valid(l) && l.status == L.Approved && e.Version() == l.version
    requires PostedOrFailed(Consumed(t, e), l, e.id, now, newId).Ok?
    ensures TablesInv(policies, PostedOrFailed(Consumed(t, e), l, e.id, now, newId).value)
  {
    ApprovedSlice(policies, t, l, e);
    var entry := L.EntryOf(l.transfer, now);
    if LS.Posted(t.ledger, entry).Ok? {
      LT.PostedParts(t.ledger, entry);
      LT.PostPreserves(t.ledger, entry);
      CompletionKeeps(policies, t, LT.After(t.ledger, entry), l, e, now, newId);
    } else {
      FailureKeeps(policies, t, l, e, now, newId);
    }
  }

  /** Everything a delivery to the transaction worker can commit. */
  ghost predicate Delivered(t: Tables, after: Tables, e: Envelope, now: Time, newId: Uuid) {
    if (TransactionConsumer, e.id) in t.inbox then after == t
    else
      && e.Transfer() in t.transfers && L.Valid(t.transfers[e.Transfer()])
      && var l := t.transfers[e.Transfer()];
         && l.version == e.Version()
         && (if l.status == L.Approved then PostedOrFailed(Consumed(t, e), l, e.id, now, newId) == Ok(after)
             else (l.status == L.ReviewRequired || l.status == L.Declined) && after == Consumed(t, e))
  }

  lemma AssessmentDelivered(t: Tables, e: Envelope, now: Time, newId: Uuid)
    ensures
      var r := AssessmentHandled(t, e, now, newId);
      r.Ok? ==> Delivered(t, r.value, e, now, newId)
  {
  }

  lemma DecisionDelivered(t: Tables, e: Envelope, now: Time, newId: Uuid)
    ensures
      var r := DecisionHandled(t, e, now, newId);
      r.Ok? ==> Delivered(t, r.value, e, now, newId)
  {
  }

  lemma DeliveryCases(t: Tables, e: Envelope, now: Time, newId: Uuid)
    ensures
      var r := TransactionHandled(t, e, now, newId);
      r.Ok? ==> Delivered(t, r.value, e, now, newId)
  {
    AssessmentDelivered(t, e, now, newId);
    DecisionDelivered(t, e, now, newId);
  }

  ghost function PostedOrSame(ledger: LS.Ledger, e: J.Entry): LS.Ledger {
    var r := LS.Posted(ledger, e);
    if r.Ok? then r.value else ledger
  }

  /** What posting or failing an approved transfer changes: its row, by one transition, the ledger, and one event. */
  ghost predicate Concluded(t: Tables, after: Tables, l: L.Lifecycle, ledger: LS.Ledger) {
    var id := l.transfer.id;
    && id in after.transfers && after.transfers == t.transfers[id := after.transfers[id]]
    && after.transfers[id].transfer == l.transfer
    && |after.events| == |t.events| + 1 && after.events == t.events + [after.events[|t.events|]]
    && after == t.(ledger := ledger, transfers := after.transfers, events := after.events)
  }

  lemma CompletionConcludes(t: Tables, ledger: LS.Ledger, l: L.Lifecycle, cause: Uuid, now: Time, newId: Uuid)
    ensures
      var r := CompletedWith(t, ledger, l, cause, now, newId);
      r.Ok? ==> Concluded(t, r.value, l, ledger)
  {
  }

  lemma FailureConcludes(t: Tables, l: L.Lifecycle, cause: Uuid, now: Time, newId: Uuid)
    ensures
      var r := FailedWith(t, l, cause, now, newId);
      r.Ok? ==> Concluded(t, r.value, l, t.ledger)
  {
  }

  lemma PostConcludes(t: Tables, l: L.Lifecycle, cause: Uuid, now: Time, newId: Uuid)
    requires L.Valid(l) && l.status == L.Approved && PostedOrFailed(t, l, cause, now, newId).Ok?
    ensures Concluded(t, PostedOrFailed(t, l, cause, now, newId).value, l,
      PostedOrSame(t.ledger, L.EntryOf(l.transfer, now)))
  {
    CompletionConcludes(t, PostedOrSame(t.ledger, L.EntryOf(l.transfer, now)), l, cause, now, newId);
    FailureConcludes(t, l, cause, now, newId);
  }

  lemma SettleKeeps(policies: Policies, t: Tables, e: Envelope, now: Time, newId: Uuid)
    requires TablesInv(policies, t) && e in t.events
    ensures TablesInv(policies, OrElse(TransactionHandled(t, e, now, newId), t))
  {
    if TransactionHandled(t, e, now, newId).Ok? && (TransactionConsumer, e.id) !in t.inbox {
      DeliveryCases(t, e, now, newId);
      var l := t.transfers[e.Transfer()];
      if l.status == L.Approved {
        PostKeeps(policies, t, l, e, now, newId);
      } else {
        ConsumeKeeps(policies, t, e);
      }
    }
  }

  // ---- Review decisions ----

  lemma DecidedSlice(t: Tables, next: L.Lifecycle, approved: bool, actor: string, at: Time, result: Envelope, id: Uuid)
    requires next.transfer.id in t.cases && result.Transfer() == next.transfer.id
    ensures
      var s, after := SliceOf(t, id), WithDecision(t, next, approved, actor, at, result);
      SliceOf(after, id) ==
        if id != next.transfer.id then s
        else s.(row := Some(next), history := s.history + [result],
                review := Some(t.cases[id].(status := Decided(approved, actor, at))),
                audits := s.audits + [Audit(id, next.version, approved, actor, at)])
  {
    EventAppended(t.events, result, id);
    AuditAppended(t.audits, Audit(next.transfer.id, next.version, approved, actor, at), id);
  }

  /** Deciding an open case of a transfer under review leaves a decided one. */
  lemma DecidedRowShape(policies: Policies, s: Slice, id: Uuid, l: L.Lifecycle, next: L.Lifecycle, approved: bool,
                        actor: string,
                        at: Time, result: Envelope, inbox: set<(Consumer, Uuid)>)
    requires SliceOk(policies, s, id, inbox) && s.row == Some(l) && l.status == L.ReviewRequired
    requires s.review.Some? && s.review.value.status == Open && ValidSubject(actor)
    requires (if approved then L.Approve(l) else L.Decline(l)) == Ok(next)
    requires Is(result.draft, ReviewDecided(next, actor, at)) && forall c :: (c, result.id) !in inbox
    ensures SliceOk(policies,
      s.(row := Some(next), history := s.history + [result],
         review := Some(s.review.value.(status := Decided(approved, actor, at))),
         audits := s.audits + [Audit(id, next.version, approved, actor, at)]), id, inbox)
  {
    var history := s.history + [result];
    assert |s.history| == 2 && history[0] == s.history[0] && history[1] == s.history[1] && history[2] == result;
    assert next == At(next, next.status, 3);
  }

  lemma DecideKeeps(policies: Policies, t: Tables, who: Principal, id: Uuid, approved: bool, now: Time, newId: Uuid)
    requires TablesInv(policies, t)
    ensures TablesInv(policies, OrElse(ReviewDecidedBy(t, who, id, approved, now, newId), t))
  {
    var r := ReviewDecidedBy(t, who, id, approved, now, newId);
    if r.Ok? {
      var l := t.transfers[id];
      var next := (if approved then L.Approve(l) else L.Decline(l)).value;
      var result := Envelope(newId, ReviewDecided(next, who.subject, now).value);
      var after := r.value;
      AppendKeepsUnique(t, result.draft, newId);
      assert InboxCommitted(after);
      UpdateKeepsKeys(t.transfers, id, next);
      forall x: Uuid ensures SliceOk(policies, SliceOf(after, x), x, after.inbox) {
        assert SliceOk(policies, SliceOf(t, x), x, t.inbox);
        DecidedSlice(t, next, approved, who.subject, now, result, x);
        if x == id {
          DecidedRowShape(policies, SliceOf(t, id), id, l, next, approved, who.subject, now, result, t.inbox);
        }
      }
    }
  }

  // ---- Direct postings and accounts ----

  lemma PostDirectKeeps(policies: Policies, t: Tables, entry: J.Entry)
    requires TablesInv(policies, t) && entry.id !in t.transfers && LS.Posted(t.ledger, entry).Ok?
    ensures TablesInv(policies, t.(ledger := LS.Posted(t.ledger, entry).value))
  {
    LT.PostedParts(t.ledger, entry);
    LT.PostPreserves(t.ledger, entry);
    LedgerMovesKeep(policies, t, LT.After(t.ledger, entry), entry);
  }

  lemma LedgerMovesKeep(policies: Policies, t: Tables, ledger: LS.Ledger, entry: J.Entry)
    requires TablesInv(policies, t) && entry.id !in t.transfers && LT.LedgerInv(ledger)
    requires ledger.journal == t.ledger.journal + [entry]
    ensures TablesInv(policies, t.(ledger := ledger))
  {
    var after := t.(ledger := ledger);
    forall x: Uuid ensures SliceOk(policies, SliceOf(after, x), x, after.inbox) {
      assert SliceOk(policies, SliceOf(t, x), x, t.inbox);
      EntryAppended(t.ledger.journal, entry, x);
      assert x in t.transfers ==> SliceOf(after, x) == SliceOf(t, x);
    }
  }

  lemma AccountsFrame(policies: Policies, t: Tables, after: Tables)
    requires TablesInv(policies, t) && LT.LedgerInv(after.ledger) && after.ledger.journal == t.ledger.journal
    requires after == t.(ledger := after.ledger, accounts := after.accounts)
    ensures TablesInv(policies, after)
  {
    assert InboxCommitted(after);
    forall x: Uuid ensures SliceOk(policies, SliceOf(after, x), x, after.inbox) {
      assert SliceOk(policies, SliceOf(t, x), x, t.inbox);
      assert SliceOf(after, x) == SliceOf(t, x);
    }
  }

  // ---- All steps ----

  lemma StepKeeps(policies: Policies, t: Tables, a: Action)
    requires TablesInv(policies, t)
    ensures TablesInv(policies, Step(policies, t, a))
  {
    if Admissible(t, a) {
      match a
      case Accept(pending, newId) => AcceptKeeps(policies, t, pending, newId);
      case Transact(transfer, newId) => TransactKeeps(policies, t, transfer, newId);
      case AssessRisk(event, velocity, now, newId) => AssessKeeps(policies, t, event, velocity, now, newId);
      case Settle(event, now, newId) => SettleKeeps(policies, t, event, now, newId);
      case DecideReview(who, id, approved, now, newId) => DecideKeeps(policies, t, who, id, approved, now, newId);
      case PostDirect(entry) =>
        if LS.Posted(t.ledger, entry).Ok? {
          PostDirectKeeps(policies, t, entry);
        }
      case OpenAccount(account, owner, currency, kind) =>
        LT.OpenPreserves(t.ledger, account, currency, kind);
        AccountsFrame(policies, t, Step(policies, t, a));
      case SetActive(account, active) => AccountsFrame(policies, t, Step(policies, t, a));
    }
  }

  /** Every reachable state of the tables satisfies the invariant, whatever was delivered, in whatever order
      and however often. */
  lemma {:induction false} RunKeeps(policies: Policies, actions: seq<Action>)
    ensures TablesInv(policies, Run(policies, actions))
  {
    if actions != [] {
      RunKeeps(policies, actions[..|actions| - 1]);
      StepKeeps(policies, Run(policies, actions[..|actions| - 1]), actions[|actions| - 1]);
    }
  }
}
