/** The shared database, and each SERIALIZABLE transaction as a function: all of its effects, or a refusal. */
module Tables {
  import opened Prelude
  import opened Events
  import M = Money
  import L = Lifecycle
  import P = Policy
  import LS = LedgerSpec

  datatype Consumer = RiskConsumer | TransactionConsumer

  datatype Account = Account(owner: Uuid, active: bool)

  datatype Assessment = Assessment(
    transfer: Uuid, version: int, causation: Uuid, input: P.Input, evaluation: P.Evaluation, at: Time)

  datatype CaseStatus = Open | Decided(approved: bool, actor: string, at: Time)

  datatype ReviewCase = ReviewCase(assessmentVersion: int, status: CaseStatus)

  datatype Audit = Audit(transfer: Uuid, version: int, approved: bool, actor: string, at: Time)

  datatype Tables = Tables(
    ledger: LS.Ledger,
    accounts: map<Uuid, Account>,
    transfers: map<Uuid, L.Lifecycle>,
    events: seq<Envelope>,
    inbox: set<(Consumer, Uuid)>,
    assessments: seq<Assessment>,
    cases: map<Uuid, ReviewCase>,
    audits: seq<Audit>)

  datatype Refusal =
    | BadEnvelope
    | UnknownPolicy
    | BadArgument
    | TransferNotFound
    | CorruptRow
    | StateConflict
    | ConstraintViolation
    | LedgerFault(error: LS.LedgerError)
    | NotAnalyst
    | SourceNotOwned
    | DestinationNotFound
    | InactiveAccount
    | NonCustomerAccount
    | AccountCurrencyMismatch
    | IdempotencyConflict
    | AlreadyExists

  type Outcome = Result<Tables, Refusal>

  /** Immutable policy versions: the registry of every risk worker. */
  type Policies = map<string, P.Policy>

  // ---- Rows and their constraints ----

  predicate EventIdUsed(events: seq<Envelope>, id: Uuid) {
    exists i :: 0 <= i < |events| && events[i].id == id
  }

  predicate EventKeyUsed(events: seq<Envelope>, d: Draft) {
    exists i :: 0 <= i < |events| &&
      events[i].draft.aggregateType == d.aggregateType && events[i].draft.aggregateId == d.aggregateId &&
      events[i].draft.aggregateVersion == d.aggregateVersion && events[i].draft.eventType == d.eventType &&
      events[i].draft.eventVersion == d.eventVersion
  }

  /** The primary key and the aggregate key of the outbox admit the event. */
  predicate CanAppend(events: seq<Envelope>, d: Draft, id: Uuid) {
    !EventIdUsed(events, id) && !EventKeyUsed(events, d)
  }

  predicate Assessed(assessments: seq<Assessment>, transfer: Uuid, version: int, causation: Uuid) {
    exists i :: 0 <= i < |assessments| &&
      ((assessments[i].transfer == transfer && assessments[i].version == version) ||
        assessments[i].causation == causation)
  }

  predicate Audited(audits: seq<Audit>, transfer: Uuid, version: int) {
    exists i :: 0 <= i < |audits| && audits[i].transfer == transfer && audits[i].version == version
  }

  function Load(t: Tables, id: Uuid): Result<L.Lifecycle, Refusal> {
    if id !in t.transfers then Err(TransferNotFound)
    else if !L.Valid(t.transfers[id]) then Err(CorruptRow)
    else Ok(t.transfers[id])
  }

  // ---- Risk worker ----

  predicate SameRequest(current: L.Lifecycle, requested: L.Lifecycle) {
    && current.status == L.PendingRisk
    && current.transfer == requested.transfer.(key := current.transfer.key)
    && current.policy == requested.policy
  }

  /** The captured input: a failed observation is recorded as degraded, with no count. */
  function Captured(l: L.Lifecycle, velocity: Option<nat>): P.Input {
    if velocity.None? then P.Input(l.transfer.amount, 0, true) else P.Input(l.transfer.amount, velocity.value, false)
  }

  function Transition(l: L.Lifecycle, d: P.Decision): Result<L.Lifecycle, L.LifecycleError> {
    match d
    case Approve => L.Approve(l)
    case Review => L.RequireReview(l)
    case Decline => L.Decline(l)
  }

  /** The effects of one assessment, applied at once. */
  function WithAssessment(t: Tables, next: L.Lifecycle, a: Assessment, e: Envelope, result: Envelope): Tables {
    t.(inbox := t.inbox + {(RiskConsumer, e.id)},
       transfers := t.transfers[next.transfer.id := next],
       assessments := t.assessments + [a],
       cases := if next.status ==
         L.ReviewRequired then t.cases[next.transfer.id := ReviewCase(next.version, Open)] else t.cases,
       events := t.events + [result])
  }

  function Assess(policies: Policies, t: Tables, current: L.Lifecycle, e: Envelope, velocity: Option<nat>, now: Time,
                  newId: Uuid): Outcome
    requires current.policy in policies
  {
    var input := Captured(current, velocity);
    match P.Evaluate(policies[current.policy], input)
    case Err(_) => Err(BadArgument)
    case Ok(ev) =>
      match Transition(current, ev.decision)
      case Err(_) => Err(BadArgument)
      case Ok(next) =>
        var id := current.transfer.id;
        if now == 0 || ev.policyVersion != current.policy then Err(BadArgument)
        else if Assessed(t.assessments, id, next.version, e.id) ||
          (next.status == L.ReviewRequired && id in t.cases) then Err(ConstraintViolation)
        else match RiskAssessed(next, ev, now, e.id)
          case Err(_) => Err(BadArgument)
          case Ok(draft) =>
            if !CanAppend(t.events, draft, newId) then Err(ConstraintViolation)
            else Ok(WithAssessment(t, next, Assessment(id, next.version, e.id, input, ev, now), e,
              Envelope(newId, draft)))
  }

  function RiskHandled(policies: Policies, t: Tables, e: Envelope, velocity: Option<nat>, now: Time,
                       newId: Uuid): Outcome {
    match ParseRequested(e)
    case Err(_) => Err(BadEnvelope)
    case Ok(requested) =>
      if requested.policy !in policies then Err(UnknownPolicy)
      else if (RiskConsumer, e.id) in t.inbox then Ok(t)
      else match Load(t, requested.transfer.id)
        case Err(r) => Err(r)
        case Ok(current) =>
          if !SameRequest(current, requested) then Err(StateConflict)
          else Assess(policies, t, current, e, velocity, now, newId)
  }

  // ---- Transaction worker ----

  function CompletedWith(t: Tables, ledger: LS.Ledger, current: L.Lifecycle, cause: Uuid, now: Time,
                         newId: Uuid): Outcome {
    match L.Complete(current)
    case Err(_) => Err(BadArgument)
    case Ok(next) =>
      match CompletedLifecycle(next, now, cause)
      case Err(_) => Err(BadArgument)
      case Ok(draft) =>
        if !CanAppend(t.events, draft, newId) then Err(ConstraintViolation)
        else Ok(t.(ledger := ledger, transfers := t.transfers[current.transfer.id := next],
          events := t.events + [Envelope(newId, draft)]))
  }

  function FailedWith(t: Tables, current: L.Lifecycle, cause: Uuid, now: Time, newId: Uuid): Outcome {
    match L.Fail(current, L.INSUFFICIENT_FUNDS)
    case Err(_) => Err(BadArgument)
    case Ok(next) =>
      match Failed(next, now, cause)
      case Err(_) => Err(BadArgument)
      case Ok(draft) =>
        if !CanAppend(t.events, draft, newId) then Err(ConstraintViolation)
        else Ok(t.(transfers := t.transfers[current.transfer.id := next],
          events := t.events + [Envelope(newId, draft)]))
  }

  /** A posted entry completes the transfer; insufficient funds, and no other fault, fails it. */
  function ConcludedWith(t: Tables, posted: Result<LS.Ledger, LS.LedgerError>, current: L.Lifecycle, cause: Uuid,
                         now: Time,
                         newId: Uuid): Outcome {
    match posted
    case Ok(ledger) => CompletedWith(t, ledger, current, cause, now, newId)
    case Err(error) =>
      if error != LS.InsufficientFunds then Err(LedgerFault(error)) else FailedWith(t, current, cause, now, newId)
  }

  /** Posts an approved transfer and completes it, or fails it on insufficient funds alone. */
  ghost function PostedOrFailed(t: Tables, current: L.Lifecycle, cause: Uuid, now: Time, newId: Uuid): Outcome
    requires L.Valid(current) && current.status == L.Approved
  {
    if now == 0 then Err(BadArgument)
    else ConcludedWith(t, LS.Posted(t.ledger, L.EntryOf(current.transfer, now)), current, cause, now, newId)
  }

  function Consumed(t: Tables, e: Envelope): Tables {
    t.(inbox := t.inbox + {(TransactionConsumer, e.id)})
  }

  ghost function AssessmentHandled(t: Tables, e: Envelope, now: Time, newId: Uuid): Outcome {
    match ParseRiskAssessed(e)
    case Err(_) => Err(BadEnvelope)
    case Ok(a) =>
      if (TransactionConsumer, e.id) in t.inbox then Ok(t)
      else match Load(t, a.transferId)
        case Err(r) => Err(r)
        case Ok(current) =>
          if current.version != e.Version() || current.policy != a.policy ||
            current.status != StatusFor(a.decision) then Err(StateConflict)
          else if a.decision != P.Approve then Ok(Consumed(t, e))
          else PostedOrFailed(Consumed(t, e), current, e.id, now, newId)
  }

  ghost function DecisionHandled(t: Tables, e: Envelope, now: Time, newId: Uuid): Outcome {
    match ParseReviewDecided(e)
    case Err(_) => Err(BadEnvelope)
    case Ok(d) =>
      if (TransactionConsumer, e.id) in t.inbox then Ok(t)
      else match Load(t, d.transferId)
        case Err(r) => Err(r)
        case Ok(current) =>
          if current.version != e.Version() ||
            current.status != (if d.approved then L.Approved else L.Declined) then Err(StateConflict)
          else if !d.approved then Ok(Consumed(t, e))
          else PostedOrFailed(Consumed(t, e), current, e.id, now, newId)
  }

  ghost function TransactionHandled(t: Tables, e: Envelope, now: Time, newId: Uuid): Outcome {
    if e.draft.eventType ==
      ReviewDecidedType then DecisionHandled(t, e, now, newId) else AssessmentHandled(t, e, now, newId)
  }

  // ---- Review decisions ----

  datatype Principal = Principal(subject: string, analyst: bool)

  predicate IsSpace(c: char) {
    c == ' ' || '\t' <= c <= '\r' || c == '\U{0085}' || c == '\U{00A0}'
  }

  function TrimLeft(s: string): string {
    if s != "" && IsSpace(s[0]) then TrimLeft(s[1..]) else s
  }

  function TrimRight(s: string): string {
    if s != "" && IsSpace(s[|s| - 1]) then TrimRight(s[..|s| - 1]) else s
  }

  function Trim(s: string): string {
    TrimRight(TrimLeft(s))
  }

  /** The column and audit rule; the handler applies it to the trimmed subject only. */
  predicate ValidSubject(s: string) {
    0 < |s| <= 128 && L.Visible(s)
  }

  function WithDecision(t: Tables, next: L.Lifecycle, approved: bool, actor: string, at: Time, result: Envelope): Tables
    requires next.transfer.id in t.cases
  {
    var id := next.transfer.id;
    t.(transfers := t.transfers[id := next],
       cases := t.cases[id := t.cases[id].(status := Decided(approved, actor, at))],
       audits := t.audits + [Audit(id, next.version, approved, actor, at)],
       events := t.events + [result])
  }

  function ReviewDecidedBy(t: Tables, who: Principal, id: Uuid, approved: bool, now: Time, newId: Uuid): Outcome {
    if !who.analyst || !ValidSubject(Trim(who.subject)) then Err(NotAnalyst)
    else match Load(t, id)
      case Err(r) => Err(r)
      case Ok(current) =>
        if current.status != L.ReviewRequired then Err(StateConflict)
        else match (if approved then L.Approve(current) else L.Decline(current))
          case Err(_) => Err(BadArgument)
          case Ok(next) =>
            if id !in t.cases || t.cases[id].status != Open then Err(StateConflict)
            else if !ValidSubject(who.subject) then Err(ConstraintViolation)
            else if next.version < 3 || now == 0 then Err(BadArgument)
            else if Audited(t.audits, id, next.version) then Err(ConstraintViolation)
            else match ReviewDecided(next, who.subject, now)
              case Err(_) => Err(BadArgument)
              case Ok(draft) =>
                if !CanAppend(t.events, draft, newId) then Err(ConstraintViolation)
                else if next.transfer.id != id then Err(CorruptRow)
                else Ok(WithDecision(t, next, approved, who.subject, now, Envelope(newId, draft)))
  }

  // ---- Acceptance ----

  predicate SameIntent(left: L.Transfer, right: L.Transfer) {
    left.requester == right.requester && left.source == right.source &&
    left.destination == right.destination && left.amount == right.amount
  }

  predicate HoldsKey(l: L.Lifecycle, requester: Uuid, key: string) {
    l.transfer.requester == requester && l.transfer.key == key
  }

  function Holders(t: Tables, requester: Uuid, key: string): set<Uuid> {
    set id | id in t.transfers && HoldsKey(t.transfers[id], requester, key)
  }

  /** The row found through the unique (requester, key) index. */
  function HolderOf(t: Tables, requester: Uuid, key: string): (id: Option<Uuid>)
    ensures id.Some? ==> id.value in t.transfers && HoldsKey(t.transfers[id.value], requester, key)
    ensures id.None? ==> forall x :: x in t.transfers ==> !HoldsKey(t.transfers[x], requester, key)
  {
    if Holders(t, requester, key) == {} then
      assert forall x :: x in t.transfers && HoldsKey(t.transfers[x], requester, key) ==>
        x in Holders(t, requester, key);
      None
    else Some(Least(Holders(t, requester, key)))
  }

  function AccountFault(t: Tables, a: Uuid, currency: M.Currency): Option<Refusal>
    requires a in t.accounts && a in t.ledger.rows
  {
    if !t.accounts[a].active then Some(InactiveAccount)
    else if t.ledger.rows[a].kind != LS.Customer then Some(NonCustomerAccount)
    else if t.ledger.rows[a].currency != currency then Some(AccountCurrencyMismatch)
    else None
  }

  predicate AccountExists(t: Tables, a: Uuid) {
    a in t.accounts && a in t.ledger.rows
  }

  /** Ownership first, then existence, then both accounts' status, type and currency, source before destination. */
  function AuthorizationFault(t: Tables, tr: L.Transfer): Option<Refusal> {
    if !AccountExists(t, tr.source) || t.accounts[tr.source].owner != tr.requester then Some(SourceNotOwned)
    else if !AccountExists(t, tr.destination) then Some(DestinationNotFound)
    else if AccountFault(t, tr.source, tr.amount.currency).Some? then AccountFault(t, tr.source, tr.amount.currency)
    else AccountFault(t, tr.destination, tr.amount.currency)
  }

  datatype Accepted = Accepted(tables: Tables, stored: L.Lifecycle)

  /** A key that is already held answers with its stored transfer, or conflicts; nothing is written.
      A pending creation reads the whole row back, a synchronous one only the intent, whatever its status. */
  function Replay(t: Tables, id: Uuid, tr: L.Transfer, wholeRow: bool): Result<Accepted, Refusal>
    requires id in t.transfers
  {
    var stored := t.transfers[id];
    if (if wholeRow then !L.Valid(stored) else !L.ValidTransfer(stored.transfer)) then Err(CorruptRow)
    else if !SameIntent(stored.transfer, tr) then Err(IdempotencyConflict)
    else Ok(Accepted(t, stored))
  }

  /** Accepts a transfer for risk assessment without moving money. */
  function PendingCreated(t: Tables, l: L.Lifecycle, newId: Uuid): Result<Accepted, Refusal> {
    if !L.Valid(l) || l.status != L.PendingRisk then Err(BadArgument)
    else match HolderOf(t, l.transfer.requester, l.transfer.key)
      case Some(id) => Replay(t, id, l.transfer, true)
      case None =>
        if l.transfer.id in t.transfers then Err(AlreadyExists)
        else if AuthorizationFault(t, l.transfer).Some? then Err(AuthorizationFault(t, l.transfer).value)
        else match Requested(l)
          case Err(_) => Err(BadArgument)
          case Ok(draft) =>
            if !CanAppend(t.events, draft, newId) then Err(ConstraintViolation)
            else Ok(Accepted(t.(transfers := t.transfers[l.transfer.id := l],
              events := t.events + [Envelope(newId, draft)]), l))
  }

  function SyncLifecycle(tr: L.Transfer): L.Lifecycle {
    L.Lifecycle(tr, L.Completed, 1, "", Some(tr.id), None)
  }

  /** Accepts and posts a transfer in one transaction. */
  ghost function Created(t: Tables, tr: L.Transfer, newId: Uuid): Result<Accepted, Refusal> {
    if !L.ValidTransfer(tr) then Err(BadArgument)
    else match HolderOf(t, tr.requester, tr.key)
      case Some(id) => Replay(t, id, tr, false)
      case None =>
        if tr.id in t.transfers then Err(AlreadyExists)
        else if AuthorizationFault(t, tr).Some? then Err(AuthorizationFault(t, tr).value)
        else match LS.Posted(t.ledger, L.EntryOf(tr, tr.requestedAt))
          case Err(error) => Err(LedgerFault(error))
          case Ok(ledger) =>
            match Completed(tr)
            case Err(_) => Err(BadArgument)
            case Ok(draft) =>
              if !CanAppend(t.events, draft, newId) then Err(ConstraintViolation)
              else
                Ok(Accepted(t.(ledger := ledger, transfers := t.transfers[tr.id := SyncLifecycle(tr)],
                               events := t.events + [Envelope(newId, draft)]), SyncLifecycle(tr)))
  }
}
