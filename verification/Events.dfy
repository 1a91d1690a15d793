/** Integration event envelopes and the producers and parsers of the transfer contracts. */
module Events {
  import opened Prelude
  import M = Money
  import L = Lifecycle
  import P = Policy

  datatype EventType =
    | RequestedType
    | RiskAssessedType
    | ReviewDecidedType
    | CompletedType
    | FailedType
    | OtherType(name: string)

  datatype AggregateType = TransferAggregate | OtherAggregate

  datatype DecisionWord = ApproveWord | ReviewWord | DeclineWord | OtherDecision(text: string)

  datatype OutcomeWord = ApprovedWord | DeclinedWord | OtherOutcome(text: string)

  datatype Payload =
    | RequestedPayload(transferId: Uuid, requester: Uuid, source: Uuid, destination: Uuid,
                       currency: M.Currency, amount: int, requestedAt: Time, policy: string)
    | RiskPayload(transferId: Uuid, policy: string, score: int, decision: DecisionWord, signals: seq<P.Signal>)
    | ReviewPayload(transferId: Uuid, outcome: OutcomeWord, decidedBy: string)
    | CompletedPayload(transferId: Uuid, requester: Uuid, source: Uuid, destination: Uuid,
                       currency: M.Currency, amount: int, requestedAt: Time)
    | FailedPayload(transferId: Uuid, reason: string)
    | OtherPayload

  datatype Draft = Draft(
    eventType: EventType,
    eventVersion: int,
    aggregateType: AggregateType,
    aggregateId: Uuid,
    aggregateVersion: int,
    correlation: Uuid,
    causation: Option<Uuid>,
    occurredAt: Time,
    payload: Payload)

  datatype Envelope = Envelope(id: Uuid, draft: Draft) {
    function Transfer(): Uuid {
      draft.aggregateId
    }

    function Version(): int {
      draft.aggregateVersion
    }
  }

  datatype EventError = InvalidEnvelope | InvalidSubject

  /** Structural validity that every stored and every parsed envelope has. */
  predicate ValidDraft(d: Draft) {
    d.eventVersion > 0 && d.aggregateVersion > 0 && d.occurredAt != 0
  }

  function NewDraft(d: Draft): Result<Draft, EventError> {
    if ValidDraft(d) then Ok(d) else Err(InvalidEnvelope)
  }

  function TransferDraft(kind: EventType, l: L.Lifecycle, causation: Option<Uuid>, at: Time,
                         payload: Payload): Result<Draft, EventError> {
    NewDraft(Draft(kind, 1, TransferAggregate, l.transfer.id, l.version, l.transfer.id, causation, at, payload))
  }

  // ---- transfer.requested ----

  function Requested(l: L.Lifecycle): Result<Draft, EventError> {
    if l.status != L.PendingRisk then Err(InvalidSubject)
    else
      var t := l.transfer;
      TransferDraft(RequestedType, l, None, t.requestedAt,
        RequestedPayload(t.id, t.requester, t.source, t.destination, t.amount.currency, t.amount.minor, t.requestedAt,
          l.policy))
  }

  function ParseRequested(e: Envelope): Result<L.Lifecycle, EventError> {
    var d := e.draft;
    if d.eventType != RequestedType || d.eventVersion != 1 || d.aggregateType != TransferAggregate
       || d.aggregateVersion != 1 || d.causation.Some? || !d.payload.RequestedPayload? then Err(InvalidEnvelope)
    else
      var p := d.payload;
      if p.transferId != d.aggregateId || d.correlation != p.transferId || !IsInt64(p.amount) then Err(InvalidEnvelope)
      else
        var t := L.Transfer(p.transferId, "event-request", p.requester, p.source, p.destination,
          M.Money(p.amount, p.currency), p.requestedAt);
        match L.NewPending(t, p.policy)
        case Err(_) => Err(InvalidEnvelope)
        case Ok(l) => Ok(l)
  }

  // ---- transfer.risk_assessed ----

  function DecisionText(d: P.Decision): DecisionWord {
    match d
    case Approve => ApproveWord
    case Review => ReviewWord
    case Decline => DeclineWord
  }

  function ParseDecision(w: DecisionWord): Option<P.Decision> {
    match w
    case ApproveWord => Some(P.Approve)
    case ReviewWord => Some(P.Review)
    case DeclineWord => Some(P.Decline)
    case OtherDecision(_) => None
  }

  function StatusFor(d: P.Decision): L.Status {
    match d
    case Approve => L.Approved
    case Review => L.ReviewRequired
    case Decline => L.Declined
  }

  datatype RiskAssessment = RiskAssessment(transferId: Uuid, policy: string, decision: P.Decision)

  function RiskAssessed(l: L.Lifecycle, ev: P.Evaluation, at: Time, causation: Uuid): Result<Draft, EventError> {
    if l.status != StatusFor(ev.decision) || ev.policyVersion != l.policy || ev.score < 0 ||
      ev.score > P.MAX_SCORE then Err(InvalidSubject)
    else
      TransferDraft(RiskAssessedType, l, Some(causation), at,
        RiskPayload(l.transfer.id, ev.policyVersion, ev.score, DecisionText(ev.decision), ev.signals))
  }

  function ParseRiskAssessed(e: Envelope): Result<RiskAssessment, EventError> {
    var d := e.draft;
    if d.eventType != RiskAssessedType || d.eventVersion != 1 || d.aggregateType != TransferAggregate
       || d.aggregateVersion != 2 || d.causation.None? || !d.payload.RiskPayload? then Err(InvalidEnvelope)
    else
      var p := d.payload;
      if p.transferId != d.aggregateId || d.correlation != p.transferId || p.policy == "" || p.score < 0 ||
        p.score > P.MAX_SCORE then Err(InvalidEnvelope)
      else match ParseDecision(p.decision)
        case None => Err(InvalidEnvelope)
        case Some(decision) => Ok(RiskAssessment(p.transferId, p.policy, decision))
  }

  // ---- transfer.review_decided ----

  datatype ReviewDecision = ReviewDecision(transferId: Uuid, approved: bool)

  function ReviewDecided(l: L.Lifecycle, subject: string, at: Time): Result<Draft, EventError> {
    if (l.status != L.Approved && l.status != L.Declined) || subject == "" then Err(InvalidSubject)
    else
      TransferDraft(ReviewDecidedType, l, None, at,
        ReviewPayload(l.transfer.id, if l.status == L.Approved then ApprovedWord else DeclinedWord, subject))
  }

  function ParseReviewDecided(e: Envelope): Result<ReviewDecision, EventError> {
    var d := e.draft;
    if d.eventType != ReviewDecidedType || d.eventVersion != 1 || d.aggregateType != TransferAggregate
       || d.aggregateVersion < 3 || !d.payload.ReviewPayload? then Err(InvalidEnvelope)
    else
      var p := d.payload;
      if p.transferId != d.aggregateId || d.correlation != p.transferId || p.decidedBy == "" ||
        p.outcome.OtherOutcome? then Err(InvalidEnvelope)
      else Ok(ReviewDecision(p.transferId, p.outcome == ApprovedWord))
  }

  // ---- transfer.completed and transfer.failed ----

  function CompletedFields(t: L.Transfer): Payload {
    CompletedPayload(t.id, t.requester, t.source, t.destination, t.amount.currency, t.amount.minor, t.requestedAt)
  }

  /** The event of a transfer that was posted synchronously, always at version 1. */
  function Completed(t: L.Transfer): Result<Draft, EventError> {
    if !L.ValidTransfer(t) then Err(InvalidSubject)
    else NewDraft(Draft(CompletedType, 1, TransferAggregate, t.id, 1, t.id, None, t.requestedAt, CompletedFields(t)))
  }

  function CompletedLifecycle(l: L.Lifecycle, at: Time, causation: Uuid): Result<Draft, EventError> {
    if l.status != L.Completed then Err(InvalidSubject)
    else TransferDraft(CompletedType, l, Some(causation), at, CompletedFields(l.transfer))
  }

  function Failed(l: L.Lifecycle, at: Time, causation: Uuid): Result<Draft, EventError> {
    if l.status != L.Failed || l.failure.None? then Err(InvalidSubject)
    else TransferDraft(FailedType, l, Some(causation), at, FailedPayload(l.transfer.id, l.failure.value))
  }

  // ---- Round trips ----

  lemma EventKeyIsValid()
    ensures L.Visible("event-request") && 0 < |"event-request"| <= L.MAX_KEY_BYTES
  {
  }

  /** Parsing what was produced gives back the accepted lifecycle, except for the key that is not published. */
  lemma RequestedRoundTrip(l: L.Lifecycle, id: Uuid)
    requires L.Valid(l) && l.status == L.PendingRisk
    ensures Requested(l).Ok?
    ensures ParseRequested(Envelope(id, Requested(l).value)) == Ok(l.(transfer := l.transfer.(key := "event-request")))
  {
    EventKeyIsValid();
  }

  lemma RiskAssessedRoundTrip(l: L.Lifecycle, ev: P.Evaluation, at: Time, causation: Uuid, id: Uuid)
    requires L.Valid(l) && l.version == 2 && at != 0 && RiskAssessed(l, ev, at, causation).Ok?
    ensures ParseRiskAssessed(Envelope(id, RiskAssessed(l, ev, at, causation).value))
         == Ok(RiskAssessment(l.transfer.id, l.policy, ev.decision))
  {
    assert ParseDecision(DecisionText(ev.decision)) == Some(ev.decision);
  }

  lemma ReviewDecidedRoundTrip(l: L.Lifecycle, subject: string, at: Time, id: Uuid)
    requires L.Valid(l) && l.version >= 3 && at != 0 && ReviewDecided(l, subject, at).Ok?
    ensures ParseReviewDecided(Envelope(id, ReviewDecided(l, subject, at).value))
         == Ok(ReviewDecision(l.transfer.id, l.status == L.Approved))
  {
  }

  // ---- Parsers accept nothing but what a producer writes ----

  /** An accepted request is what its own lifecycle would publish, up to the time stamp of the envelope. */
  lemma RequestedInverse(e: Envelope)
    requires ParseRequested(e).Ok?
    ensures
      var l := ParseRequested(e).value;
      && L.Valid(l) && l.status == L.PendingRisk
      && Requested(l) == Ok(e.draft.(occurredAt := l.transfer.requestedAt))
  {
  }

  /** An accepted assessment is what any version 2 lifecycle of that transfer, policy and decision would publish for
      the evaluation it carries. */
  lemma RiskAssessedInverse(e: Envelope, l: L.Lifecycle)
    requires ParseRiskAssessed(e).Ok? && e.draft.occurredAt != 0 && l.version == 2
    requires
      var a := ParseRiskAssessed(e).value;
      l.transfer.id == a.transferId && l.policy == a.policy && l.status == StatusFor(a.decision)
    ensures e.draft.causation.Some? && e.draft.payload.RiskPayload?
    ensures
      var a, p := ParseRiskAssessed(e).value, e.draft.payload;
      RiskAssessed(l, P.Evaluation(a.policy, p.score, a.decision, p.signals), e.draft.occurredAt,
        e.draft.causation.value)
        == Ok(e.draft)
  {
  }

  /** An accepted review decision is what any lifecycle at that version and outcome would publish under the name it
      carries, up to a cause that the parser does not look at. */
  lemma ReviewDecidedInverse(e: Envelope, l: L.Lifecycle)
    requires ParseReviewDecided(e).Ok? && e.draft.occurredAt != 0 && l.version == e.Version()
    requires
      var d := ParseReviewDecided(e).value;
      l.transfer.id == d.transferId && l.status == if d.approved then L.Approved else L.Declined
    ensures e.Version() >= 3 && e.draft.payload.ReviewPayload?
    ensures ReviewDecided(l, e.draft.payload.decidedBy, e.draft.occurredAt) == Ok(e.draft.(causation := None))
  {
  }
}
