/** What the invariant of the tables means for money, events, conflicts, authority and idempotency, in every run. */
module ProtocolTheory {
  import opened Prelude
  import opened Events
  import opened Tables
  import opened Protocol
  import opened ProtocolSteps
  import M = Money
  import J = Journal
  import L = Lifecycle
  import P = Policy
  import LS = LedgerSpec
  import LT = LedgerTheory

  // ---- Exactly-once money ----

  /** What a transfer is meant to do to an account, once. */
  function Effect(tr: L.Transfer, a: Uuid): int {
    var amount: int := tr.amount.minor;
    if a == tr.source then -amount else if a == tr.destination then amount else 0
  }

  lemma EntryEffect(tr: L.Transfer, at: Time, a: Uuid)
    requires L.ValidTransfer(tr)
    ensures J.AccountSum(L.EntryOf(tr, at).postings, a) == Effect(tr, a)
    ensures LS.JournalSum([L.EntryOf(tr, at)], a) == Effect(tr, a)
  {
    var ps := L.EntryOf(tr, at).postings;
    assert ps[..1] == [ps[0]] && [ps[0]][..0] == [];
    assert J.AccountSum([ps[0]], a) == if tr.source == a then -tr.amount.minor else 0;
    assert [L.EntryOf(tr, at)][..0] == [];
  }

  /** Exactly-once money: a completed transfer has exactly one journal entry under its identifier and any other
      transfer has none, so on every account it has moved its amount once or not at all. */
  lemma ExactlyOnceMoney(policies: Policies, actions: seq<Action>, id: Uuid, a: Uuid)
    requires id in Run(policies, actions).transfers
    ensures
      var t := Run(policies, actions);
      var l, entries := t.transfers[id], EntriesFor(t.ledger.journal, id);
      && L.ValidTransfer(l.transfer)
      && (l.status == L.Completed <==> |entries| == 1)
      && (l.status == L.Completed ==> exists at :: entries == [L.EntryOf(l.transfer, at)])
      && (l.status != L.Completed ==> entries == [])
      && LS.JournalSum(entries, a) == if l.status == L.Completed then Effect(l.transfer, a) else 0
  {
    RunKeeps(policies, actions);
    var t := Run(policies, actions);
    MoneyShape(policies, SliceOf(t, id), id, t.inbox);
    var l, entries := t.transfers[id], EntriesFor(t.ledger.journal, id);
    if l.status == L.Completed {
      var at :| entries == [L.EntryOf(l.transfer, at)];
      EntryEffect(l.transfer, at, a);
    }
  }

  lemma MoneyShape(policies: Policies, s: Slice, id: Uuid, inbox: set<(Consumer, Uuid)>)
    requires SliceOk(policies, s, id, inbox) && s.row.Some?
    ensures L.ValidTransfer(s.row.value.transfer)
    ensures s.row.value.status == L.Completed ==> exists at :: s.entries == [L.EntryOf(s.row.value.transfer, at)]
    ensures s.row.value.status != L.Completed ==> s.entries == []
  {
    var l := s.row.value;
    if l.status == L.Completed {
      var at := s.history[|s.history| - 1].draft.occurredAt;
      assert s.entries == [L.EntryOf(l.transfer, at)];
    }
  }

  /** Conservation: no run of the protocol creates or destroys money of any currency. */
  lemma {:induction false} ProtocolConserves(policies: Policies, actions: seq<Action>, c: M.Currency)
    ensures LT.CurrencyTotal(Run(policies, actions).ledger.rows, c) == 0
  {
    if actions == [] {
      SumZero(LT.Balances(map[], c));
    } else {
      ProtocolConserves(policies, actions[..|actions| - 1], c);
      StepConserves(policies, Run(policies, actions[..|actions| - 1]), actions[|actions| - 1], c);
    }
  }

  lemma SettleMovesLedger(t: Tables, e: Envelope, now: Time, newId: Uuid)
    requires TransactionHandled(t, e, now, newId).Ok?
    ensures
      var after := TransactionHandled(t, e, now, newId).value.ledger;
      || after == t.ledger
      || (e.Transfer() in t.transfers && L.ValidTransfer(t.transfers[e.Transfer()].transfer) &&
          after == PostedOrSame(t.ledger, L.EntryOf(t.transfers[e.Transfer()].transfer, now)))
  {
    DeliveryCases(t, e, now, newId);
    if (TransactionConsumer, e.id) !in t.inbox && t.transfers[e.Transfer()].status == L.Approved {
      PostConcludes(Consumed(t, e), t.transfers[e.Transfer()], e.id, now, newId);
    }
  }

  lemma TransactMovesLedger(t: Tables, tr: L.Transfer, newId: Uuid)
    requires Created(t, tr, newId).Ok?
    ensures
      var after := Created(t, tr, newId).value.tables.ledger;
      L.ValidTransfer(tr) && (after == t.ledger || after == PostedOrSame(t.ledger, L.EntryOf(tr, tr.requestedAt)))
  {
  }

  lemma StepConserves(policies: Policies, t: Tables, a: Action, c: M.Currency)
    ensures LT.CurrencyTotal(Step(policies, t, a).ledger.rows, c) == LT.CurrencyTotal(t.ledger.rows, c)
  {
    if Step(policies, t, a).ledger != t.ledger {
      match a
      case Settle(e, now, newId) =>
        SettleMovesLedger(t, e, now, newId);
        LT.PostConserves(t.ledger, L.EntryOf(t.transfers[e.Transfer()].transfer, now), c);
      case Transact(tr, newId) =>
        TransactMovesLedger(t, tr, newId);
        LT.PostConserves(t.ledger, L.EntryOf(tr, tr.requestedAt), c);
      case PostDirect(entry) => LT.PostConserves(t.ledger, entry, c);
      case OpenAccount(account, owner, currency, kind) => LT.OpenConserves(t.ledger, account, currency, kind, c);
      case Accept(_, _) =>
      case AssessRisk(_, _, _, _) =>
      case DecideReview(_, _, _, _, _) =>
      case SetActive(_, _) =>
    }
  }

  // ---- Events and inbox rows are only added ----

  ghost predicate Appended(before: seq<Envelope>, after: seq<Envelope>) {
    after == before || (|after| == |before| + 1 && after == before + [after[|before|]])
  }

  ghost predicate Grows(before: Tables, after: Tables) {
    Appended(before.events, after.events) && before.inbox <= after.inbox
  }

  lemma SettleGrows(t: Tables, e: Envelope, now: Time, newId: Uuid)
    requires TransactionHandled(t, e, now, newId).Ok?
    ensures Grows(t, TransactionHandled(t, e, now, newId).value)
  {
    DeliveryCases(t, e, now, newId);
    if (TransactionConsumer, e.id) !in t.inbox && t.transfers[e.Transfer()].status == L.Approved {
      PostConcludes(Consumed(t, e), t.transfers[e.Transfer()], e.id, now, newId);
    }
  }

  lemma AssessGrows(policies: Policies, t: Tables, e: Envelope, velocity: Option<nat>, now: Time, newId: Uuid)
    requires RiskHandled(policies, t, e, velocity, now, newId).Ok?
    ensures Grows(t, RiskHandled(policies, t, e, velocity, now, newId).value)
  {
  }

  lemma CreateGrows(t: Tables, tr: L.Transfer, newId: Uuid)
    requires Created(t, tr, newId).Ok?
    ensures Grows(t, Created(t, tr, newId).value.tables)
  {
  }

  lemma PendingGrows(t: Tables, l: L.Lifecycle, newId: Uuid)
    requires PendingCreated(t, l, newId).Ok?
    ensures Grows(t, PendingCreated(t, l, newId).value.tables)
  {
  }

  lemma DecideGrows(t: Tables, who: Principal, id: Uuid, approved: bool, now: Time, newId: Uuid)
    requires ReviewDecidedBy(t, who, id, approved, now, newId).Ok?
    ensures Grows(t, ReviewDecidedBy(t, who, id, approved, now, newId).value)
  {
  }

  lemma StepGrows(policies: Policies, t: Tables, a: Action)
    ensures Grows(t, Step(policies, t, a))
  {
    if Step(policies, t, a) != t {
      match a
      case Accept(pending, newId) => PendingGrows(t, pending, newId);
      case Transact(transfer, newId) => CreateGrows(t, transfer, newId);
      case AssessRisk(e, velocity, now, newId) => AssessGrows(policies, t, e, velocity, now, newId);
      case Settle(e, now, newId) => SettleGrows(t, e, now, newId);
      case DecideReview(who, id, approved, now, newId) => DecideGrows(t, who, id, approved, now, newId);
      case PostDirect(_) =>
      case OpenAccount(_, _, _, _) =>
      case SetActive(_, _) =>
    }
  }

  // ---- Faithful event log ----

  /** What one event after the first says happened, independently of any stored row. */
  function Announces(e: Envelope): Option<L.Operation> {
    match e.draft.payload
    case RiskPayload(_, _, _, decision, _) =>
      (match decision
       case ApproveWord => Some(L.DoApprove)
       case ReviewWord => Some(L.DoReview)
       case DeclineWord => Some(L.DoDecline)
       case OtherDecision(_) => None)
    case ReviewPayload(_, outcome, _) =>
      (match outcome
       case ApprovedWord => Some(L.DoApprove)
       case DeclinedWord => Some(L.DoDecline)
       case OtherOutcome(_) => None)
    case CompletedPayload(_, _, _, _, _, _, _) => Some(L.DoComplete)
    case FailedPayload(_, reason) => Some(L.DoFail(reason))
    case _ => None
  }

  /** Rebuilds a lifecycle from its events alone: the first is the request, each later one is a transition. */
  function Folded(history: seq<Envelope>): Option<L.Lifecycle> {
    if history == [] then None
    else
      var last := history[|history| - 1];
      if |history| == 1 then
        match ParseRequested(last)
        case Err(_) => None
        case Ok(l) => Some(l)
      else
        match Folded(history[..|history| - 1])
        case None => None
        case Some(before) =>
          match Announces(last)
          case None => None
          case Some(op) =>
            match L.Apply(before, op)
            case Err(_) => None
            case Ok(after) => Some(after)
  }

  /** The key is not published. */
  function Anonymous(l: L.Lifecycle): L.Lifecycle {
    l.(transfer := l.transfer.(key := "event-request"))
  }

  lemma AnonymousApplies(before: L.Lifecycle, op: L.Operation, after: L.Lifecycle)
    requires L.Valid(before) && L.Apply(before, op) == Ok(after)
    ensures L.Apply(Anonymous(before), op) == Ok(Anonymous(after))
  {
    EventKeyIsValid();
  }

  lemma FoldSnoc(history: seq<Envelope>, e: Envelope, before: L.Lifecycle, op: L.Operation, after: L.Lifecycle)
    requires |history| >= 1 && Folded(history) == Some(Anonymous(before))
    requires Announces(e) == Some(op) && L.Valid(before) && L.Apply(before, op) == Ok(after)
    ensures Folded(history + [e]) == Some(Anonymous(after))
  {
    assert (history + [e])[..|history|] == history;
    AnonymousApplies(before, op, after);
  }

  ghost predicate Numbered(history: seq<Envelope>) {
    forall i :: 0 <= i < |history| ==> history[i].Version() == i + 1
  }

  /** The log as one statement about a slice. */
  ghost predicate Logged(s: Slice, l: L.Lifecycle) {
    && |s.history| == l.version && Numbered(s.history)
    && (l.policy != "" ==> Folded(s.history) == Some(Anonymous(l)))
  }

  lemma PostingLogged(s: Slice, l: L.Lifecycle, approved: L.Lifecycle, n: nat, inbox: set<(Consumer, Uuid)>)
    requires 1 < n <= |s.history| && PostingShape(s, l, approved, n, inbox)
    requires L.Valid(approved) && approved.status == L.Approved && approved.version == n && approved.policy != ""
    requires Numbered(s.history[..n]) && Folded(s.history[..n]) == Some(Anonymous(approved))
    ensures Logged(s, l)
  {
    var done := s.history[..n];
    assert forall i :: 0 <= i < n ==> s.history[i].Version() == done[i].Version();
    if |s.history| == n {
      assert s.history == done;
    } else {
      assert s.history == done + [s.history[n]];
      var op := if l.status == L.Completed then L.DoComplete else L.DoFail(L.INSUFFICIENT_FUNDS);
      FoldSnoc(done, s.history[n], approved, op, l);
    }
  }

  lemma RequestLogged(history: seq<Envelope>, l: L.Lifecycle)
    requires |history| >= 1 && L.Valid(l) && Is(history[0].draft, Requested(l))
    ensures Folded(history[..1]) == Some(Anonymous(l)) && Numbered(history[..1])
  {
    RequestedRoundTrip(l, history[0].id);
    assert history[..1] == [history[0]];
  }

  lemma AssessmentLogged(history: seq<Envelope>, pending: L.Lifecycle, next: L.Lifecycle, a: Assessment)
    requires |history| >= 2 && L.Valid(pending) && pending == At(pending, L.PendingRisk, 1)
    requires Is(history[0].draft, Requested(pending))
    requires next == At(pending, StatusFor(a.evaluation.decision), 2)
    requires Is(history[1].draft, RiskAssessed(next, a.evaluation, a.at, history[0].id))
    ensures Folded(history[..2]) == Some(Anonymous(next)) && Numbered(history[..2])
  {
    RequestLogged(history, pending);
    assert history[..2] == history[..1] + [history[1]];
    var op :=
      match a.evaluation.decision
      case Approve => L.DoApprove
      case Review => L.DoReview
      case Decline => L.DoDecline;
    FoldSnoc(history[..1], history[1], pending, op, next);
  }

  lemma DecisionLogged(history: seq<Envelope>, next: L.Lifecycle, after: L.Lifecycle, actor: string, at: Time)
    requires |history| >= 3 && Folded(history[..2]) == Some(Anonymous(next)) && Numbered(history[..2])
    requires L.Valid(next) && next == At(next, L.ReviewRequired, 2)
    requires after == At(next, L.Approved, 3) || after == At(next, L.Declined, 3)
    requires Is(history[2].draft, ReviewDecided(after, actor, at))
    ensures Folded(history[..3]) == Some(Anonymous(after)) && Numbered(history[..3])
  {
    assert history[..3] == history[..2] + [history[2]];
    FoldSnoc(history[..2], history[2], next, if after.status == L.Approved then L.DoApprove else L.DoDecline, after);
    forall i | 0 <= i < 3 ensures history[..3][i].Version() == i + 1 {
      if i < 2 {
        assert history[..2][i].Version() == i + 1;
      }
    }
  }

  lemma SliceLogged(policies: Policies, s: Slice, id: Uuid, inbox: set<(Consumer, Uuid)>)
    requires SliceOk(policies, s, id, inbox) && s.row.Some?
    ensures Logged(s, s.row.value)
  {
    var l := s.row.value;
    if l.policy == "" {
    } else if l.version == 1 {
      RequestLogged(s.history, l);
      assert s.history[..1] == s.history;
    } else {
      var a := s.assessed[0];
      var pending := At(l, L.PendingRisk, 1);
      var next := At(l, StatusFor(a.evaluation.decision), 2);
      assert At(pending, next.status, 2) == next;
      AssessmentLogged(s.history, pending, next, a);
      if a.evaluation.decision == P.Review {
        ReviewLogged(policies, s, id, l, next, inbox);
      } else if a.evaluation.decision == P.Approve {
        PostingLogged(s, l, next, 2, inbox);
      } else {
        assert s.history[..2] == s.history;
      }
    }
  }

  lemma ReviewLogged(policies: Policies, s: Slice, id: Uuid, l: L.Lifecycle, next: L.Lifecycle,
                     inbox: set<(Consumer, Uuid)>)
    requires |s.history| >= 2 && ReviewShape(s, l, next, inbox) && L.Valid(l) && l.policy != "" &&
      L.ValidPolicyVersion(l.policy)
    requires next == At(l, L.ReviewRequired, 2)
    requires Folded(s.history[..2]) == Some(Anonymous(next)) && Numbered(s.history[..2])
    ensures Logged(s, l)
  {
    var c := s.review.value;
    if c.status == Open {
      assert s.history[..2] == s.history;
    } else {
      var after := At(l, if c.status.approved then L.Approved else L.Declined, 3);
      assert after == At(next, after.status, 3);
      DecisionLogged(s.history, next, after, c.status.actor, c.status.at);
      if c.status.approved {
        PostingLogged(s, l, after, 3, inbox);
      } else {
        assert s.history[..3] == s.history;
      }
    }
  }

  /** Faithful event log: in every run, a transfer at version v has exactly one event per version 1..v, in order, v is
      at most 4, and folding the events of an asynchronous transfer rebuilds its stored row up to the private key. */
  lemma FaithfulEventLog(policies: Policies, actions: seq<Action>, id: Uuid)
    requires id in Run(policies, actions).transfers
    ensures
      var t := Run(policies, actions);
      var l, history := t.transfers[id], EventsFor(t.events, id);
      && |history| == l.version <= 4 && Numbered(history)
      && (l.policy != "" ==> Folded(history) == Some(Anonymous(l)))
  {
    RunKeeps(policies, actions);
    var t := Run(policies, actions);
    SliceLogged(policies, SliceOf(t, id), id, t.inbox);
  }

  /** No event without its transfer, and no case, assessment or audit either. */
  lemma NoOrphans(policies: Policies, actions: seq<Action>, id: Uuid)
    requires id !in Run(policies, actions).transfers
    ensures
      var t := Run(policies, actions);
      EventsFor(t.events, id) == [] && AssessmentsFor(t.assessments, id) == [] && AuditsFor(t.audits, id) == [] &&
        id !in t.cases
  {
    RunKeeps(policies, actions);
    var t := Run(policies, actions);
    assert SliceOk(policies, SliceOf(t, id), id, t.inbox);
  }
}
