/** Published events say what the rows say: contents, times and causes, for every transfer of every run. */
module Descriptions {
  import opened Prelude
  import opened Events
  import opened Tables
  import opened Protocol
  import opened ProtocolSteps
  import L = Lifecycle
  import P = Policy

  /** The request as accepted. */
  ghost predicate DescribesRequest(d: Draft, l: L.Lifecycle) {
    var tr := l.transfer;
    && d.eventType == RequestedType && d.correlation == tr.id && d.causation.None? && d.occurredAt == tr.requestedAt
    && d.payload ==
      RequestedPayload(tr.id, tr.requester, tr.source, tr.destination, tr.amount.currency, tr.amount.minor,
                                     tr.requestedAt, l.policy)
  }

  /** The stored evaluation, in full, caused by the request. */
  ghost predicate DescribesAssessment(d: Draft, a: Assessment, l: L.Lifecycle, cause: Uuid) {
    && d.eventType == RiskAssessedType && d.correlation == l.transfer.id && d.causation == Some(cause) &&
      d.occurredAt == a.at
    && d.payload == RiskPayload(l.transfer.id, l.policy, a.evaluation.score,
                                match a.evaluation.decision
                                case Approve => ApproveWord
                                case Review => ReviewWord
                                case Decline => DeclineWord,
                                a.evaluation.signals)
  }

  /** The move that was made. */
  ghost predicate DescribesCompletion(d: Draft, tr: L.Transfer, cause: Option<Uuid>) {
    && d.eventType == CompletedType && d.correlation == tr.id && d.causation == cause
    && d.payload ==
      CompletedPayload(tr.id, tr.requester, tr.source, tr.destination, tr.amount.currency, tr.amount.minor,
                                     tr.requestedAt)
  }

  ghost predicate DescribesFailure(d: Draft, tr: L.Transfer, cause: Uuid) {
    && d.eventType == FailedType && d.correlation == tr.id && d.causation == Some(cause)
    && d.payload == FailedPayload(tr.id, "insufficient_funds")
  }


  lemma SliceRequest(policies: Policies, s: Slice, id: Uuid, inbox: set<(Consumer, Uuid)>)
    requires SliceOk(policies, s, id, inbox) && s.row.Some? && s.row.value.policy != ""
    ensures |s.history| >= 1 && DescribesRequest(s.history[0].draft, s.row.value)
  {
  }

  lemma SliceAssessment(policies: Policies, s: Slice, id: Uuid, inbox: set<(Consumer, Uuid)>)
    requires SliceOk(policies, s, id, inbox) && s.row.Some? && s.row.value.policy != "" && s.row.value.version > 1
    ensures |s.history| >= 2 && |s.assessed| == 1
    ensures DescribesAssessment(s.history[1].draft, s.assessed[0], s.row.value, s.history[0].id)
  {
  }

  lemma PostingConclusion(s: Slice, l: L.Lifecycle, approved: L.Lifecycle, n: nat, inbox: set<(Consumer, Uuid)>)
    requires 0 < n <= |s.history| && PostingShape(s, l, approved, n, inbox) && approved.status == L.Approved
    ensures l.status == L.Completed ==>
      && |s.history| == n + 1 && DescribesCompletion(s.history[n].draft, l.transfer, Some(s.history[n - 1].id))
      && l.transfer.amount.minor > 0 && s.entries == [L.EntryOf(l.transfer, s.history[n].draft.occurredAt)]
    ensures l.status == L.Failed ==>
      |s.history| == n + 1 && DescribesFailure(s.history[n].draft, l.transfer, s.history[n - 1].id)
  {
  }

  lemma SliceConclusion(policies: Policies, s: Slice, id: Uuid, inbox: set<(Consumer, Uuid)>)
    requires SliceOk(policies, s, id, inbox) && s.row.Some? && s.row.value.policy != ""
    ensures DescribesConclusion(s, s.row.value)
  {
    var l := s.row.value;
    if l.status == L.Completed || l.status == L.Failed {
      var a := s.assessed[0];
      if a.evaluation.decision == P.Approve {
        PostingConclusion(s, l, At(l, L.Approved, 2), 2, inbox);
      } else {
        PostingConclusion(s, l, At(l, L.Approved, 3), 3, inbox);
      }
    }
  }

  ghost predicate DescribesConclusion(s: Slice, l: L.Lifecycle) {
    var n := |s.history| - 1;
    && (l.status == L.Completed ==>
          && n >= 1 && DescribesCompletion(s.history[n].draft, l.transfer, Some(s.history[n - 1].id))
          && l.transfer.amount.minor > 0 && s.entries == [L.EntryOf(l.transfer, s.history[n].draft.occurredAt)])
    && (l.status == L.Failed ==> n >= 1 && DescribesFailure(s.history[n].draft, l.transfer, s.history[n - 1].id))
  }

  /** The events of a transfer, against its row, its assessment and its entry. */
  ghost predicate Described(s: Slice, l: L.Lifecycle) {
    && |s.history| >= 1 && DescribesRequest(s.history[0].draft, l)
    && (l.version > 1 ==>
          && |s.history| >= 2 && |s.assessed| == 1
          && DescribesAssessment(s.history[1].draft, s.assessed[0], l, s.history[0].id))
    && DescribesConclusion(s, l)
  }

  lemma SliceDescribed(policies: Policies, s: Slice, id: Uuid, inbox: set<(Consumer, Uuid)>)
    requires SliceOk(policies, s, id, inbox) && s.row.Some? && s.row.value.policy != ""
    ensures Described(s, s.row.value)
  {
    SliceRequest(policies, s, id, inbox);
    if s.row.value.version > 1 {
      SliceAssessment(policies, s, id, inbox);
    }
    SliceConclusion(policies, s, id, inbox);
  }

  /** Each event of an asynchronous transfer describes the row it came with: the request as accepted, the evaluation as
      stored, the move as made at the time of its journal entry, or the reason it failed; each is caused by the event
      that led to it. */
  lemma EventsDescribeRows(policies: Policies, actions: seq<Action>, id: Uuid)
    requires id in Run(policies, actions).transfers && Run(policies, actions).transfers[id].policy != ""
    ensures Described(SliceOf(Run(policies, actions), id), Run(policies, actions).transfers[id])
  {
    RunKeeps(policies, actions);
    var t := Run(policies, actions);
    SliceDescribed(policies, SliceOf(t, id), id, t.inbox);
  }

  /** The one event of a transfer posted at once describes the move as made at the time of its entry. */
  lemma SyncEventDescribesRow(policies: Policies, actions: seq<Action>, id: Uuid)
    requires id in Run(policies, actions).transfers && Run(policies, actions).transfers[id].policy == ""
    ensures
      var t := Run(policies, actions);
      var tr, history := t.transfers[id].transfer, EventsFor(t.events, id);
      && |history| == 1 && DescribesCompletion(history[0].draft, tr, None) &&
        history[0].draft.occurredAt == tr.requestedAt
      && tr.amount.minor > 0 && EntriesFor(t.ledger.journal, id) == [L.EntryOf(tr, tr.requestedAt)]
  {
    RunKeeps(policies, actions);
    var t := Run(policies, actions);
    assert SliceOk(policies, SliceOf(t, id), id, t.inbox);
  }
}
