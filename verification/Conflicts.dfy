/** Which refusals a committed event can meet when it is delivered, in any reachable state. */
module Conflicts {
  import opened Prelude
  import opened Events
  import opened Tables
  import opened Protocol
  import opened ProtocolSteps
  import opened ProtocolTheory
  import L = Lifecycle
  import P = Policy
  import LS = LedgerSpec
  import LT = LedgerTheory
  import RT = Routes
  import opened Acceptance

  // ---- Versions ----

  /** The status an event says its transfer has reached. */
  function AnnouncedStatus(e: Envelope): Option<L.Status> {
    match e.draft.payload
    case RequestedPayload(_, _, _, _, _, _, _, _) => Some(L.PendingRisk)
    case RiskPayload(_, _, _, ApproveWord, _) => Some(L.Approved)
    case RiskPayload(_, _, _, ReviewWord, _) => Some(L.ReviewRequired)
    case RiskPayload(_, _, _, DeclineWord, _) => Some(L.Declined)
    case ReviewPayload(_, ApprovedWord, _) => Some(L.Approved)
    case ReviewPayload(_, DeclinedWord, _) => Some(L.Declined)
    case CompletedPayload(_, _, _, _, _, _, _) => Some(L.Completed)
    case FailedPayload(_, _) => Some(L.Failed)
    case _ => None
  }

  function AnnouncedPolicy(e: Envelope): Option<string> {
    match e.draft.payload
    case RequestedPayload(_, _, _, _, _, _, _, policy) => Some(policy)
    case RiskPayload(_, policy, _, _, _) => Some(policy)
    case _ => None
  }

  ghost predicate Announced(e: Envelope, l: L.Lifecycle) {
    && 1 <= e.Version() <= l.version
    && (e.Version() == l.version ==> AnnouncedStatus(e) == Some(l.status))
    && (AnnouncedPolicy(e).Some? ==> AnnouncedPolicy(e) == Some(l.policy))
  }

  /** The event is of a known type and its consumer's parser accepts it. */
  ghost predicate Parses(e: Envelope) {
    match e.draft.eventType
    case RequestedType => ParseRequested(e).Ok?
    case RiskAssessedType => ParseRiskAssessed(e).Ok?
    case ReviewDecidedType => ParseReviewDecided(e).Ok?
    case CompletedType => true
    case FailedType => true
    case OtherType(_) => false
  }

  /** The event parses, names the policy if it names one, and is the third if it is a review decision. */
  ghost predicate WellFormed(e: Envelope, policy: string) {
    && Parses(e) && (AnnouncedPolicy(e).Some? ==> AnnouncedPolicy(e).value == policy)
    && (e.draft.eventType == ReviewDecidedType ==> e.Version() == 3)
  }

  lemma RequestWellFormed(e: Envelope, l: L.Lifecycle)
    requires L.Valid(l) && Is(e.draft, Requested(l))
    ensures WellFormed(e, l.policy)
  {
    RequestedRoundTrip(l, e.id);
  }

  lemma AssessmentWellFormed(e: Envelope, l: L.Lifecycle, ev: P.Evaluation, at: Time, cause: Uuid)
    requires l.version == 2 && L.ValidPolicyVersion(l.policy) && Is(e.draft, RiskAssessed(l, ev, at, cause))
    ensures WellFormed(e, l.policy)
  {
  }

  lemma DecisionWellFormed(e: Envelope, l: L.Lifecycle, subject: string, at: Time)
    requires l.version == 3 && Is(e.draft, ReviewDecided(l, subject, at))
    ensures WellFormed(e, l.policy)
  {
  }

  lemma PostingWellFormed(s: Slice, l: L.Lifecycle, approved: L.Lifecycle, n: nat, inbox: set<(Consumer, Uuid)>)
    requires 0 < n < |s.history| && PostingShape(s, l, approved, n, inbox)
    ensures |s.history| == n + 1 && WellFormed(s.history[n], l.policy)
  {
  }

  lemma LaterWellFormed(s: Slice, l: L.Lifecycle, a: Assessment, inbox: set<(Consumer, Uuid)>, k: nat)
    requires 2 <= k < |s.history|
    requires
      var after := At(l, StatusFor(a.evaluation.decision), 2);
      match a.evaluation.decision
      case Approve => PostingShape(s, l, after, 2, inbox)
      case Decline => |s.history| == 2
      case Review => ReviewShape(s, l, after, inbox)
    ensures WellFormed(s.history[k], l.policy)
  {
    if a.evaluation.decision == P.Approve {
      PostingWellFormed(s, l, At(l, L.Approved, 2), 2, inbox);
    } else {
      var c := s.review.value.status;
      if k == 2 {
        DecisionWellFormed(s.history[2], At(l, if c.approved then L.Approved else L.Declined, 3), c.actor, c.at);
      } else {
        PostingWellFormed(s, l, At(l, L.Approved, 3), 3, inbox);
      }
    }
  }

  lemma SliceWellFormed(policies: Policies, s: Slice, id: Uuid, inbox: set<(Consumer, Uuid)>, k: nat)
    requires SliceOk(policies, s, id, inbox) && s.row.Some? && k < |s.history|
    ensures WellFormed(s.history[k], s.row.value.policy)
  {
    var l := s.row.value;
    if l.policy != "" {
      if k == 0 {
        RequestWellFormed(s.history[0], At(l, L.PendingRisk, 1));
      } else {
        var a := s.assessed[0];
        if k == 1 {
          var next := At(l, StatusFor(a.evaluation.decision), 2);
          AssessmentWellFormed(s.history[1], next, a.evaluation, a.at, s.history[0].id);
        } else {
          LaterWellFormed(s, l, a, inbox, k);
        }
      }
    }
  }

  lemma FirstAnnounces(policies: Policies, s: Slice, id: Uuid, inbox: set<(Consumer, Uuid)>)
    requires SliceOk(policies, s, id, inbox) && s.row.Some?
    ensures s.row.value.version == 1 ==> |s.history| >= 1 && AnnouncedStatus(s.history[0]) == Some(s.row.value.status)
    ensures s.row.value.policy == "" ==> s.row.value.version == 1
  {
  }

  lemma LoggedAnnounces(s: Slice, l: L.Lifecycle, k: nat)
    requires Logged(s, l) && k < |s.history| && WellFormed(s.history[k], l.policy)
    requires l.version == 1 ==> AnnouncedStatus(s.history[0]) == Some(l.status)
    requires l.policy == "" ==> l.version == 1
    ensures s.history[k].Version() == k + 1 && Announced(s.history[k], l)
  {
    if k + 1 == l.version && k > 0 {
      LastAnnounces(s.history, l);
    }
  }

  lemma SliceAnnounced(policies: Policies, s: Slice, id: Uuid, inbox: set<(Consumer, Uuid)>, k: nat)
    requires SliceOk(policies, s, id, inbox) && s.row.Some? && k < |s.history|
    ensures s.history[k].Version() == k + 1 && Announced(s.history[k], s.row.value)
  {
    SliceLogged(policies, s, id, inbox);
    SliceWellFormed(policies, s, id, inbox, k);
    FirstAnnounces(policies, s, id, inbox);
    LoggedAnnounces(s, s.row.value, k);
  }

  function TargetOf(op: L.Operation): L.Status {
    match op
    case DoApprove => L.Approved
    case DoReview => L.ReviewRequired
    case DoDecline => L.Declined
    case DoComplete => L.Completed
    case DoFail(_) => L.Failed
  }

  lemma OperationReaches(before: L.Lifecycle, op: L.Operation)
    requires L.Apply(before, op).Ok?
    ensures L.Apply(before, op).value.status == TargetOf(op)
  {
  }

  lemma AnnouncesTarget(e: Envelope)
    requires Announces(e).Some?
    ensures AnnouncedStatus(e) == Some(TargetOf(Announces(e).value))
  {
  }

  lemma LastAnnounces(history: seq<Envelope>, l: L.Lifecycle)
    requires |history| > 1 && Folded(history) == Some(Anonymous(l))
    ensures AnnouncedStatus(history[|history| - 1]) == Some(l.status)
  {
    var last, before := history[|history| - 1], Folded(history[..|history| - 1]);
    assert before.Some? && Announces(last).Some?;
    AnnouncesTarget(last);
    OperationReaches(before.value, Announces(last).value);
  }

  /** A committed event never runs ahead of its transfer's row, and one that is level with it agrees with its
      status and policy. */
  lemma StoredVersionCoversEvent(policies: Policies, actions: seq<Action>, e: Envelope)
    requires e in Run(policies, actions).events
    ensures
      var t := Run(policies, actions);
      e.Transfer() in t.transfers && Announced(e, t.transfers[e.Transfer()])
  {
    RunKeeps(policies, actions);
    CoversEvent(policies, Run(policies, actions), e);
  }

  lemma HistoryHasRow(policies: Policies, s: Slice, id: Uuid, inbox: set<(Consumer, Uuid)>)
    requires SliceOk(policies, s, id, inbox) && |s.history| > 0
    ensures s.row.Some? && L.Valid(s.row.value) && s.row.value.transfer.id == id
  {
  }

  lemma CoversEvent(policies: Policies, t: Tables, e: Envelope)
    requires TablesInv(policies, t) && e in t.events
    ensures e.Transfer() in t.transfers && Announced(e, t.transfers[e.Transfer()])
    ensures 1 <= e.Version() <= |EventsFor(t.events, e.Transfer())|
    ensures e == EventsFor(t.events, e.Transfer())[e.Version() - 1]
    ensures L.Valid(t.transfers[e.Transfer()]) && t.transfers[e.Transfer()].transfer.id == e.Transfer() && Parses(e)
  {
    var id := e.Transfer();
    var s := SliceOf(t, id);
    var k := PositionOf(t.events, e);
    HistoryHasRow(policies, s, id, t.inbox);
    SliceAnnounced(policies, s, id, t.inbox, k);
    SliceWellFormed(policies, s, id, t.inbox, k);
  }

  lemma PositionOf(events: seq<Envelope>, e: Envelope) returns (k: nat)
    requires e in events
    ensures k < |EventsFor(events, e.Transfer())| && EventsFor(events, e.Transfer())[k] == e
  {
    CommittedIsInHistory(events, e);
    k :| 0 <= k < |EventsFor(events, e.Transfer())| && EventsFor(events, e.Transfer())[k] == e;
  }

  // ---- Risk worker ----

  /** Everything the risk worker needs to know about a request that it has not handled yet. */
  lemma UnhandledRequestIsPending(policies: Policies, t: Tables, e: Envelope)
    requires TablesInv(policies, t) && e in t.events && ParseRequested(e).Ok? && (RiskConsumer, e.id) !in t.inbox
    ensures e.Transfer() in t.transfers && SameRequest(t.transfers[e.Transfer()], ParseRequested(e).value)
  {
    CoversEvent(policies, t, e);
    var l := t.transfers[e.Transfer()];
    assert SliceOk(policies, SliceOf(t, e.Transfer()), e.Transfer(), t.inbox);
    RequestedRoundTrip(At(l, L.PendingRisk, 1), e.id);
  }

  /** The risk worker never meets a state conflict, a missing transfer or a corrupt row. */
  lemma RiskWorkerNeverConflicts(policies: Policies, actions: seq<Action>, e: Envelope, velocity: Option<nat>,
                                 now: Time, newId: Uuid)
    requires e in Run(policies, actions).events
    ensures
      var r := RiskHandled(policies, Run(policies, actions), e, velocity, now, newId);
      r.Err? ==> r.error in {BadEnvelope, UnknownPolicy, BadArgument, ConstraintViolation}
  {
    var t := Run(policies, actions);
    RunKeeps(policies, actions);
    if ParseRequested(e).Ok? && (RiskConsumer, e.id) !in t.inbox {
      UnhandledRequestIsPending(policies, t, e);
      CoversEvent(policies, t, e);
    }
  }

  // ---- Transaction worker ----

  /** An undelivered request for review whose case an analyst has already decided. */
  ghost predicate Overtaken(t: Tables, e: Envelope) {
    && ParseRiskAssessed(e).Ok? && ParseRiskAssessed(e).value.decision == P.Review
    && (TransactionConsumer, e.id) !in t.inbox
    && e.Transfer() in t.cases && t.cases[e.Transfer()].status.Decided?
  }

  lemma PostingNeverConflicts(t: Tables, l: L.Lifecycle, cause: Uuid, now: Time, newId: Uuid)
    requires L.Valid(l) && l.status == L.Approved
    ensures PostedOrFailed(t, l, cause, now, newId) != Err(StateConflict)
  {
  }

  /** The stored row agrees with an assessment not yet consumed, unless the assessment was overtaken. */
  lemma AssessmentMatches(policies: Policies, s: Slice, id: Uuid, inbox: set<(Consumer, Uuid)>)
    requires SliceOk(policies, s, id, inbox) && s.row.Some? && |s.history| >= 2
    requires ParseRiskAssessed(s.history[1]).Ok? && (TransactionConsumer, s.history[1].id) !in inbox
    ensures
      var l, a := s.row.value, ParseRiskAssessed(s.history[1]).value;
      && a.policy == l.policy && a.transferId == id
      && (l.version == 2 && l.status == StatusFor(a.decision) <==>
          !(a.decision == P.Review && s.review.Some? && s.review.value.status.Decided?))
  {
    var l, a := s.row.value, s.assessed[0];
    RiskAssessedRoundTrip(At(l, StatusFor(a.evaluation.decision), 2), a.evaluation, a.at, s.history[0].id,
      s.history[1].id);
  }

  lemma AssessmentConflicts(policies: Policies, t: Tables, e: Envelope, now: Time, newId: Uuid)
    requires TablesInv(policies, t) && e in t.events && ParseRiskAssessed(e).Ok?
    ensures AssessmentHandled(t, e, now, newId) == Err(StateConflict) <==> Overtaken(t, e)
  {
    if (TransactionConsumer, e.id) !in t.inbox {
      CoversEvent(policies, t, e);
      var id := e.Transfer();
      var l := t.transfers[id];
      assert SliceOk(policies, SliceOf(t, id), id, t.inbox);
      AssessmentMatches(policies, SliceOf(t, id), id, t.inbox);
      if l.status == L.Approved {
        PostingNeverConflicts(Consumed(t, e), l, e.id, now, newId);
      }
    }
  }

  lemma DecisionMatches(policies: Policies, s: Slice, id: Uuid, inbox: set<(Consumer, Uuid)>)
    requires SliceOk(policies, s, id, inbox) && s.row.Some? && |s.history| >= 3
    requires ParseReviewDecided(s.history[2]).Ok? && (TransactionConsumer, s.history[2].id) !in inbox
    ensures
      var l, d := s.row.value, ParseReviewDecided(s.history[2]).value;
      d.transferId == id && l.version == 3 && l.status == if d.approved then L.Approved else L.Declined
  {
    var l, c := s.row.value, s.review.value.status;
    ReviewDecidedRoundTrip(At(l, if c.approved then L.Approved else L.Declined, 3), c.actor, c.at, s.history[2].id);
  }

  lemma DecisionIsThird(policies: Policies, t: Tables, e: Envelope)
    requires TablesInv(policies, t) && e in t.events && ParseReviewDecided(e).Ok?
    ensures e.Version() == 3
  {
    CoversEvent(policies, t, e);
    var s := SliceOf(t, e.Transfer());
    assert SliceOk(policies, s, e.Transfer(), t.inbox);
    SliceWellFormed(policies, s, e.Transfer(), t.inbox, e.Version() - 1);
  }

  lemma DecisionNeverConflicts(policies: Policies, t: Tables, e: Envelope, now: Time, newId: Uuid)
    requires TablesInv(policies, t) && e in t.events
    ensures DecisionHandled(t, e, now, newId) != Err(StateConflict)
  {
    if ParseReviewDecided(e).Ok? && (TransactionConsumer, e.id) !in t.inbox {
      CoversEvent(policies, t, e);
      DecisionIsThird(policies, t, e);
      var id := e.Transfer();
      var l := t.transfers[id];
      assert SliceOk(policies, SliceOf(t, id), id, t.inbox);
      DecisionMatches(policies, SliceOf(t, id), id, t.inbox);
      if l.status == L.Approved {
        PostingNeverConflicts(Consumed(t, e), l, e.id, now, newId);
      }
    }
  }

  /** Conflict characterisation: whatever has been delivered before, a committed event is refused with a state
      conflict exactly when it is a request for review that its analyst's decision has overtaken. */
  lemma ConflictIffOvertaken(policies: Policies, actions: seq<Action>, e: Envelope, now: Time, newId: Uuid)
    requires e in Run(policies, actions).events
    ensures TransactionHandled(Run(policies, actions), e, now, newId) == Err(StateConflict) <==>
      Overtaken(Run(policies, actions), e)
  {
    RunKeeps(policies, actions);
    ConflictsExactly(policies, Run(policies, actions), e, now, newId);
  }

  lemma ConflictsExactly(policies: Policies, t: Tables, e: Envelope, now: Time, newId: Uuid)
    requires TablesInv(policies, t) && e in t.events
    ensures TransactionHandled(t, e, now, newId) == Err(StateConflict) <==> Overtaken(t, e)
  {
    if e.draft.eventType == ReviewDecidedType {
      DecisionNeverConflicts(policies, t, e, now, newId);
    } else if ParseRiskAssessed(e).Ok? {
      AssessmentConflicts(policies, t, e, now, newId);
    }
  }

  // ---- An overtaken event stays refused ----

  lemma DecisionIsFinal(policies: Policies, t: Tables, a: Action, id: Uuid)
    requires id in t.cases && t.cases[id].status.Decided?
    ensures id in Step(policies, t, a).cases && Step(policies, t, a).cases[id] == t.cases[id]
  {
    match a
    case AssessRisk(event, velocity, now, newId) => AssessmentFrame(policies, t, event, velocity, now, newId, id);
    case Settle(event, now, newId) => SettlementFrame(t, event, now, newId);
    case Transact(transfer, newId) => CreatedFrame(t, transfer, newId);
    case Accept(_, _) =>
    case DecideReview(_, _, _, _, _) =>
    case PostDirect(_) =>
    case OpenAccount(_, _, _, _) =>
    case SetActive(_, _) =>
  }

  lemma AssessmentFrame(policies: Policies, t: Tables, e: Envelope, velocity: Option<nat>, now: Time, newId: Uuid,
                        id: Uuid)
    requires id in t.cases
    ensures
      var r := RiskHandled(policies, t, e, velocity, now, newId);
      r.Ok? ==>
        && id in r.value.cases && r.value.cases[id] == t.cases[id]
        && forall x :: (TransactionConsumer, x) in r.value.inbox ==> (TransactionConsumer, x) in t.inbox
  {
  }

  lemma SettlementFrame(t: Tables, e: Envelope, now: Time, newId: Uuid)
    ensures
      var r := TransactionHandled(t, e, now, newId);
      r.Ok? ==> r.value.cases == t.cases && r.value.inbox == t.inbox + {(TransactionConsumer, e.id)}
  {
    DeliveryCases(t, e, now, newId);
    if TransactionHandled(t, e, now, newId).Ok? && (TransactionConsumer, e.id) !in t.inbox {
      var l := t.transfers[e.Transfer()];
      if l.status == L.Approved {
        PostConcludes(Consumed(t, e), l, e.id, now, newId);
      }
    }
  }

  lemma CreatedFrame(t: Tables, tr: L.Transfer, newId: Uuid)
    ensures
      var r := Created(t, tr, newId);
      r.Ok? ==> r.value.tables.cases == t.cases && r.value.tables.inbox == t.inbox
  {
  }

  lemma OvertakenStays(policies: Policies, t: Tables, a: Action, e: Envelope)
    requires TablesInv(policies, t) && e in t.events && Overtaken(t, e)
    ensures Overtaken(Step(policies, t, a), e)
  {
    DecisionIsFinal(policies, t, a, e.Transfer());
    if Admissible(t, a) {
      match a
      case AssessRisk(event, velocity, now, newId) =>
        AssessmentFrame(policies, t, event, velocity, now, newId, e.Transfer());
      case Settle(event, now, newId) =>
        SettlementFrame(t, event, now, newId);
        if event.id == e.id {
          IdDeterminesEvent(t.events, event, e);
          ConflictsExactly(policies, t, e, now, newId);
        }
      case Transact(transfer, newId) =>
        CreatedFrame(t, transfer, newId);
      case Accept(_, _) =>
      case DecideReview(_, _, _, _, _) =>
      case PostDirect(_) =>
      case OpenAccount(_, _, _, _) =>
      case SetActive(_, _) =>
    }
  }

  lemma EventStays(policies: Policies, t: Tables, a: Action, e: Envelope)
    requires e in t.events
    ensures e in Step(policies, t, a).events
  {
    StepGrows(policies, t, a);
  }

  /** Once overtaken, always refused: the event stays committed and overtaken in every continuation of the run, so
      every later delivery of it meets a state conflict. */
  lemma {:induction false} OvertakenForever(policies: Policies, actions: seq<Action>, more: seq<Action>, e: Envelope,
                                            now: Time, newId: Uuid)
    requires e in Run(policies, actions).events && Overtaken(Run(policies, actions), e)
    ensures e in Run(policies, actions + more).events && Overtaken(Run(policies, actions + more), e)
    ensures TransactionHandled(Run(policies, actions + more), e, now, newId) == Err(StateConflict)
    decreases |more|
  {
    if more == [] {
      assert actions + more == actions;
    } else {
      var init, last := more[..|more| - 1], more[|more| - 1];
      assert actions + more == actions + init + [last];
      OvertakenForever(policies, actions, init, e, now, newId);
      OvertakenOnce(policies, actions + init, last, e);
    }
    ConflictIffOvertaken(policies, actions + more, e, now, newId);
  }

  lemma OvertakenOnce(policies: Policies, actions: seq<Action>, a: Action, e: Envelope)
    requires e in Run(policies, actions).events && Overtaken(Run(policies, actions), e)
    ensures e in Run(policies, actions + [a]).events && Overtaken(Run(policies, actions + [a]), e)
  {
    RunSnoc(policies, actions, a);
    RunKeeps(policies, actions);
    EventStays(policies, Run(policies, actions), a, e);
    OvertakenStays(policies, Run(policies, actions), a, e);
  }

  // ---- Everything else is handled ----

  /** The next version of a transfer's events is free. */
  lemma NextKeyIsFree(policies: Policies, t: Tables, id: Uuid, d: Draft)
    requires TablesInv(policies, t) && id in t.transfers
    requires d.aggregateId == id && d.aggregateVersion > t.transfers[id].version
    ensures !EventKeyUsed(t.events, d)
  {
    forall i | 0 <= i < |t.events|
      ensures t.events[i].draft.aggregateId != id || t.events[i].draft.aggregateVersion != d.aggregateVersion
    {
      CoversEvent(policies, t, t.events[i]);
    }
  }

  lemma {:induction false} AssessmentInHistory(rows: seq<Assessment>, i: nat)
    requires i < |rows|
    ensures rows[i] in AssessmentsFor(rows, rows[i].transfer)
  {
    if i < |rows| - 1 {
      AssessmentInHistory(rows[..|rows| - 1], i);
    }
  }

  lemma RequestUnassessed(policies: Policies, t: Tables, e: Envelope)
    requires TablesInv(policies, t) && e in t.events && e.Transfer() in t.transfers
    requires t.transfers[e.Transfer()].status == L.PendingRisk
    ensures !Assessed(t.assessments, e.Transfer(), 2, e.id) && e.Transfer() !in t.cases
  {
    PendingSlice(policies, t, t.transfers[e.Transfer()], e);
    forall i | 0 <= i < |t.assessments|
      ensures t.assessments[i].transfer != e.Transfer() && t.assessments[i].causation != e.id
    {
      var a := t.assessments[i];
      AssessmentInHistory(t.assessments, i);
      assert SliceOk(policies, SliceOf(t, a.transfer), a.transfer, t.inbox);
      if a.causation == e.id {
        HistoryIsCommitted(t.events, a.transfer, 0);
        IdDeterminesEvent(t.events, EventsFor(t.events, a.transfer)[0], e);
      }
    }
  }

  /** The registry files every policy under its own version. */
  ghost predicate Registry(policies: Policies) {
    forall v :: v in policies ==> P.ValidPolicy(policies[v]) && policies[v].version == v
  }

  lemma PendingIsAssessed(policies: Policies, t: Tables, l: L.Lifecycle, e: Envelope, velocity: Option<nat>, now: Time,
                          newId: Uuid)
    requires Registry(policies) && l.policy in policies && L.Valid(l) && l.status == L.PendingRisk
    requires now != 0 && !EventIdUsed(t.events, newId)
    requires forall d: Draft :: d.aggregateId == l.transfer.id && d.aggregateVersion == 2 ==> !EventKeyUsed(t.events, d)
    requires !Assessed(t.assessments, l.transfer.id, 2, e.id) && l.transfer.id !in t.cases
    ensures Assess(policies, t, l, e, velocity, now, newId).Ok?
  {
    var input := Captured(l, velocity);
    var ev := P.Evaluate(policies[l.policy], input).value;
    P.DecisionsExactly(policies[l.policy], input);
    assert Transition(l, ev.decision) == Ok(At(l, StatusFor(ev.decision), 2));
  }

  /** Risk worker progress: a committed request whose policy is known is always handled. */
  lemma RequestIsHandled(policies: Policies, actions: seq<Action>, e: Envelope, velocity: Option<nat>, now: Time,
                         newId: Uuid)
    requires Registry(policies) && e in Run(policies, actions).events && ParseRequested(e).Ok?
    requires ParseRequested(e).value.policy in policies && now != 0 &&
      !EventIdUsed(Run(policies, actions).events, newId)
    ensures RiskHandled(policies, Run(policies, actions), e, velocity, now, newId).Ok?
  {
    var t := Run(policies, actions);
    RunKeeps(policies, actions);
    if (RiskConsumer, e.id) !in t.inbox {
      UnhandledRequestIsPending(policies, t, e);
      CoversEvent(policies, t, e);
      RequestUnassessed(policies, t, e);
      var l := t.transfers[e.Transfer()];
      forall d: Draft | d.aggregateId == l.transfer.id && d.aggregateVersion == 2 ensures !EventKeyUsed(t.events, d) {
        NextKeyIsFree(policies, t, l.transfer.id, d);
      }
      PendingIsAssessed(policies, t, l, e, velocity, now, newId);
    }
  }

  lemma CodeIsValid()
    ensures L.ValidCode(L.INSUFFICIENT_FUNDS)
  {
  }

  /** Nothing but a used event identifier or an unset clock stops an approved transfer from being concluded. */
  lemma ConclusionCommits(t: Tables, ledger: LS.Ledger, l: L.Lifecycle, cause: Uuid, now: Time, newId: Uuid)
    requires L.Valid(l) && l.status == L.Approved && now != 0
    requires forall d: Draft :: d.aggregateId == l.transfer.id && d.aggregateVersion > l.version ==>
      !EventKeyUsed(t.events, d)
    ensures CompletedWith(t, ledger, l, cause, now, newId).Ok? <==> !EventIdUsed(t.events, newId)
    ensures FailedWith(t, l, cause, now, newId).Ok? <==> !EventIdUsed(t.events, newId)
  {
    CodeIsValid();
  }

  lemma PostingOutcome(t: Tables, l: L.Lifecycle, cause: Uuid, now: Time, newId: Uuid)
    requires L.Valid(l) && l.status == L.Approved && now != 0 && !EventIdUsed(t.events, newId)
    requires forall d: Draft :: d.aggregateId == l.transfer.id && d.aggregateVersion > l.version ==>
      !EventKeyUsed(t.events, d)
    ensures
      var r, posted := PostedOrFailed(t, l, cause, now, newId), LS.Posted(t.ledger, L.EntryOf(l.transfer, now));
      if posted.Ok? || posted.error == LS.InsufficientFunds then r.Ok? else r == Err(LedgerFault(posted.error))
  {
    ConclusionCommits(t, PostedOrSame(t.ledger, L.EntryOf(l.transfer, now)), l, cause, now, newId);
  }

  /** The delivered event is the one that approved the transfer. */
  ghost predicate Awaiting(t: Tables, e: Envelope) {
    && e in t.events && e.Transfer() in t.transfers
    && t.transfers[e.Transfer()].status == L.Approved && t.transfers[e.Transfer()].version == e.Version()
  }

  lemma ApprovedLast(policies: Policies, s: Slice, id: Uuid, inbox: set<(Consumer, Uuid)>)
    requires SliceOk(policies, s, id, inbox) && s.row.Some? && s.row.value.status == L.Approved
    ensures |s.history| >= 1
    ensures
      var l, e := s.row.value, s.history[|s.history| - 1];
      && (TransactionConsumer, e.id) !in inbox
      && (if e.draft.eventType == ReviewDecidedType then ParseReviewDecided(e) == Ok(ReviewDecision(id, true))
          else ParseRiskAssessed(e) == Ok(RiskAssessment(id, l.policy, P.Approve)))
  {
    var l, a := s.row.value, s.assessed[0];
    if |s.history| == 2 {
      RiskAssessedRoundTrip(At(l, L.Approved, 2), a.evaluation, a.at, s.history[0].id, s.history[1].id);
    } else {
      var c := s.review.value.status;
      ReviewDecidedRoundTrip(At(l, L.Approved, 3), c.actor, c.at, s.history[2].id);
    }
  }

  /** The event that approved a transfer reaches posting. */
  lemma AwaitingReachesPosting(policies: Policies, t: Tables, e: Envelope, now: Time, newId: Uuid)
    requires TablesInv(policies, t) && Awaiting(t, e)
    ensures L.Valid(t.transfers[e.Transfer()])
    ensures TransactionHandled(t, e, now, newId) ==
      PostedOrFailed(Consumed(t, e), t.transfers[e.Transfer()], e.id, now, newId)
  {
    ApprovedSlice(policies, t, t.transfers[e.Transfer()], e);
    ApprovedLast(policies, SliceOf(t, e.Transfer()), e.Transfer(), t.inbox);
  }

  /** Everything a settlement leaves alone, and the one event it appends. */
  ghost predicate SettledBy(t: Tables, after: Tables, e: Envelope, newId: Uuid, row: L.Lifecycle, draft: Draft) {
    && after.transfers == t.transfers[e.Transfer() := row]
    && after.inbox == t.inbox + {(TransactionConsumer, e.id)}
    && after.events == t.events + [Envelope(newId, draft)]
    && after.accounts == t.accounts && after.assessments == t.assessments && after.cases == t.cases
    && after.audits == t.audits
  }

  /** The transfer completed: one entry, the row under its own identifier, one completed event with all its fields. */
  ghost predicate CompletedNow(t: Tables, after: Tables, e: Envelope, now: Time, newId: Uuid)
    requires e.Transfer() in t.transfers && t.transfers[e.Transfer()].transfer.amount.minor != MIN_INT64
  {
    var id, l := e.Transfer(), t.transfers[e.Transfer()];
    var tr := l.transfer;
    && after.ledger.journal == t.ledger.journal + [L.EntryOf(tr, now)]
    && SettledBy(t, after, e, newId,
         L.Lifecycle(tr, L.Completed, l.version + 1, l.policy, Some(id), None),
         Draft(CompletedType, 1, TransferAggregate, id, l.version + 1, id, Some(e.id), now,
               CompletedPayload(id, tr.requester, tr.source, tr.destination, tr.amount.currency, tr.amount.minor,
                                tr.requestedAt)))
  }

  /** The transfer failed for insufficient funds: no entry, no balance moved, one failed event that says why. */
  ghost predicate FailedNow(t: Tables, after: Tables, e: Envelope, now: Time, newId: Uuid)
    requires e.Transfer() in t.transfers
  {
    var id, l := e.Transfer(), t.transfers[e.Transfer()];
    && after.ledger == t.ledger
    && SettledBy(t, after, e, newId,
         L.Lifecycle(l.transfer, L.Failed, l.version + 1, l.policy, None, Some("insufficient_funds")),
         Draft(FailedType, 1, TransferAggregate, id, l.version + 1, id, Some(e.id), now,
               FailedPayload(id, "insufficient_funds")))
  }

  lemma CompletionIs(t: Tables, ledger: LS.Ledger, e: Envelope, now: Time, newId: Uuid)
    requires e.Transfer() in t.transfers && L.Valid(t.transfers[e.Transfer()])
    requires t.transfers[e.Transfer()].status == L.Approved && t.transfers[e.Transfer()].transfer.id == e.Transfer()
    requires ledger.journal == t.ledger.journal + [L.EntryOf(t.transfers[e.Transfer()].transfer, now)]
    ensures
      var r := CompletedWith(Consumed(t, e), ledger, t.transfers[e.Transfer()], e.id, now, newId);
      r.Ok? ==> CompletedNow(t, r.value, e, now, newId)
  {
  }

  lemma FailureIs(t: Tables, e: Envelope, now: Time, newId: Uuid)
    requires e.Transfer() in t.transfers && L.Valid(t.transfers[e.Transfer()])
    requires t.transfers[e.Transfer()].status == L.Approved && t.transfers[e.Transfer()].transfer.id == e.Transfer()
    ensures
      var r := FailedWith(Consumed(t, e), t.transfers[e.Transfer()], e.id, now, newId);
      r.Ok? ==> FailedNow(t, r.value, e, now, newId)
  {
  }

  lemma AwaitingKeysFree(policies: Policies, t: Tables, e: Envelope)
    requires TablesInv(policies, t) && Awaiting(t, e)
    ensures
      var l := t.transfers[e.Transfer()];
      forall d: Draft :: d.aggregateId == l.transfer.id && d.aggregateVersion > l.version ==>
        !EventKeyUsed(t.events, d)
  {
    var l := t.transfers[e.Transfer()];
    CoversEvent(policies, t, e);
    forall d: Draft | d.aggregateId == l.transfer.id && d.aggregateVersion > l.version
      ensures !EventKeyUsed(t.events, d)
    {
      NextKeyIsFree(policies, t, l.transfer.id, d);
    }
  }

  lemma PostedCompletes(t: Tables, e: Envelope, now: Time, newId: Uuid)
    requires e.Transfer() in t.transfers && L.Valid(t.transfers[e.Transfer()]) && now != 0
    requires t.transfers[e.Transfer()].status == L.Approved && t.transfers[e.Transfer()].transfer.id == e.Transfer()
    requires LS.Posted(t.ledger, L.EntryOf(t.transfers[e.Transfer()].transfer, now)).Ok?
    requires PostedOrFailed(Consumed(t, e), t.transfers[e.Transfer()], e.id, now, newId).Ok?
    ensures
      var after := PostedOrFailed(Consumed(t, e), t.transfers[e.Transfer()], e.id, now, newId).value;
      && CompletedNow(t, after, e, now, newId)
      && Ok(after.ledger) == LS.Posted(t.ledger, L.EntryOf(t.transfers[e.Transfer()].transfer, now))
  {
    var entry := L.EntryOf(t.transfers[e.Transfer()].transfer, now);
    LT.PostedParts(t.ledger, entry);
    CompletionIs(t, LT.After(t.ledger, entry), e, now, newId);
  }

  /** What becomes of the event that approved a transfer, on its accounts' rows alone: completed iff funded, failed iff
      funds are short and that is met first, and otherwise refused for overflow without a trace. */
  lemma AwaitingOutcome(policies: Policies, t: Tables, e: Envelope, now: Time, newId: Uuid)
    requires TablesInv(policies, t) && RT.AllRouted(t) && Awaiting(t, e) && now != 0 && !EventIdUsed(t.events, newId)
    ensures
      var r, tr := TransactionHandled(t, e, now, newId), t.transfers[e.Transfer()].transfer;
      && L.ValidTransfer(tr) && RT.Routed(t.ledger.rows, tr)
      && (RT.Funded(t.ledger.rows, tr) ==>
            && r.Ok? && CompletedNow(t, r.value, e, now, newId)
            && Ok(r.value.ledger) == LS.Posted(t.ledger, L.EntryOf(tr, now)))
      && (RT.FailsForFunds(t.ledger.rows, tr) ==> r.Ok? && FailedNow(t, r.value, e, now, newId))
      && (!RT.Funded(t.ledger.rows, tr) && !RT.FailsForFunds(t.ledger.rows, tr) ==>
            r == Err(LedgerFault(LS.AmountOverflow)))
  {
    var l := t.transfers[e.Transfer()];
    AwaitingReachesPosting(policies, t, e, now, newId);
    RT.ApprovedPosts(policies, t, e.Transfer(), now);
    CoversEvent(policies, t, e);
    AwaitingKeysFree(policies, t, e);
    PostingOutcome(Consumed(t, e), l, e.id, now, newId);
    if RT.Funded(t.ledger.rows, l.transfer) {
      PostedCompletes(t, e, now, newId);
    } else {
      FailureIs(t, e, now, newId);
    }
  }

  /** Short of funds, with room at the destination, a transfer always becomes failed. */
  lemma ShortTransferFails(policies: Policies, actions: seq<Action>, e: Envelope, now: Time, newId: Uuid)
    requires Awaiting(Run(policies, actions), e) && now != 0 && !EventIdUsed(Run(policies, actions).events, newId)
    requires
      var t := Run(policies, actions);
      var rows, tr := t.ledger.rows, t.transfers[e.Transfer()].transfer;
      && tr.source in rows && rows[tr.source].balance < tr.amount.minor
      && tr.destination in rows && rows[tr.destination].balance + tr.amount.minor <= MAX_INT64
      && rows[tr.destination].version < MAX_INT64
    ensures
      var t := Run(policies, actions);
      var r := TransactionHandled(t, e, now, newId);
      r.Ok? && FailedNow(t, r.value, e, now, newId)
  {
    RunKeeps(policies, actions);
    RT.RunRouted(policies, actions);
    AwaitingOutcome(policies, Run(policies, actions), e, now, newId);
  }

  /** Transaction worker progress: a committed decision that was not overtaken is handled, or its posting would leave 64
      bits; insufficient funds always becomes a failed transfer and no other ledger fault is reachable. */
  lemma DecisionIsHandled(policies: Policies, actions: seq<Action>, e: Envelope, now: Time, newId: Uuid)
    requires e in Run(policies, actions).events && (ParseRiskAssessed(e).Ok? || ParseReviewDecided(e).Ok?)
    requires !Overtaken(Run(policies, actions), e) && now != 0 && !EventIdUsed(Run(policies, actions).events, newId)
    ensures
      var r := TransactionHandled(Run(policies, actions), e, now, newId);
      r.Ok? || r.error == LedgerFault(LS.AmountOverflow)
  {
    var t := Run(policies, actions);
    RunKeeps(policies, actions);
    RT.RunRouted(policies, actions);
    CoversEvent(policies, t, e);
    if Awaiting(t, e) {
      AwaitingOutcome(policies, t, e, now, newId);
    } else {
      ConflictsExactly(policies, t, e, now, newId);
      NotAwaitingOutcome(t, e, now, newId);
    }
  }

  /** A delivery that does not reach posting commits or meets a state conflict. */
  lemma NotAwaitingOutcome(t: Tables, e: Envelope, now: Time, newId: Uuid)
    requires e in t.events && (ParseRiskAssessed(e).Ok? || ParseReviewDecided(e).Ok?)
    requires e.Transfer() in t.transfers && L.Valid(t.transfers[e.Transfer()]) && !Awaiting(t, e)
    ensures
      var r := TransactionHandled(t, e, now, newId);
      if r.Ok? then r.value.ledger == t.ledger else r.error == StateConflict
  {
  }
}
