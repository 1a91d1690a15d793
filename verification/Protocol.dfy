/** The asynchronous transfer protocol as a step system over the shared tables, and the shape every
    transfer's rows have in every reachable state. */
module Protocol {
  import opened Prelude
  import opened Events
  import opened Tables
  import M = Money
  import J = Journal
  import L = Lifecycle
  import P = Policy
  import LS = LedgerSpec
  import LT = LedgerTheory

  // ---- Steps ----

  /** Everything the environment can do to the database. Deliveries name any committed event, as often
      and in any order as the broker likes; a transaction that aborts is a step that does not happen. */
  datatype Action =
    | Accept(pending: L.Lifecycle, newId: Uuid)
    | Transact(transfer: L.Transfer, newId: Uuid)
    | AssessRisk(event: Envelope, velocity: Option<nat>, now: Time, newId: Uuid)
    | Settle(event: Envelope, now: Time, newId: Uuid)
    | DecideReview(who: Principal, id: Uuid, approved: bool, now: Time, newId: Uuid)
    | PostDirect(entry: J.Entry)
    | OpenAccount(account: Uuid, owner: Uuid, currency: M.Currency, kind: LS.AccountKind)
    | SetActive(account: Uuid, active: bool)

  function OrElse(r: Outcome, t: Tables): Tables {
    if r.Ok? then r.value else t
  }

  function AcceptedOrElse(r: Result<Accepted, Refusal>, t: Tables): Tables {
    if r.Ok? then r.value.tables else t
  }

  /** Identifiers of transfers are assigned by the server: a new transfer never takes the identifier of an
      existing journal entry, and a direct posting never takes that of a transfer. */
  ghost predicate Admissible(t: Tables, a: Action) {
    match a
    case Accept(pending, _) => LS.Find(t.ledger.journal, pending.transfer.id).None?
    case PostDirect(entry) => entry.id !in t.transfers
    case AssessRisk(event, _, _, _) => event in t.events
    case Settle(event, _, _) => event in t.events
    case _ => true
  }

  ghost function Step(policies: Policies, t: Tables, a: Action): Tables {
    if !Admissible(t, a) then t
    else match a
      case Accept(pending, newId) => AcceptedOrElse(PendingCreated(t, pending, newId), t)
      case Transact(transfer, newId) => AcceptedOrElse(Created(t, transfer, newId), t)
      case AssessRisk(event, velocity, now, newId) => OrElse(RiskHandled(policies, t, event, velocity, now, newId), t)
      case Settle(event, now, newId) => OrElse(TransactionHandled(t, event, now, newId), t)
      case DecideReview(who, id, approved, now, newId) => OrElse(ReviewDecidedBy(t, who, id, approved, now, newId), t)
      case PostDirect(entry) =>
        var r := LS.Posted(t.ledger, entry);
        if r.Ok? then t.(ledger := r.value) else t
      case OpenAccount(account, owner, currency, kind) =>
        if account in t.ledger.rows || account in t.accounts then t
        else t.(ledger := LT.Opened(t.ledger, account, currency, kind),
          accounts := t.accounts[account := Account(owner, true)])
      case SetActive(account, active) =>
        if account in t.accounts
          then t.(accounts := t.accounts[account := t.accounts[account].(active := active)]) else t
  }

  function Empty(): Tables {
    Tables(LS.Ledger([], map[]), map[], map[], [], {}, [], map[], [])
  }

  ghost function Run(policies: Policies, actions: seq<Action>): Tables {
    if actions == [] then Empty()
    else Step(policies, Run(policies, actions[..|actions| - 1]), actions[|actions| - 1])
  }

  // ---- The rows of one transfer ----

  function EventsFor(events: seq<Envelope>, id: Uuid): seq<Envelope> {
    if events == [] then []
    else
      var init, last := EventsFor(events[..|events| - 1], id), events[|events| - 1];
      if last.Transfer() == id then init + [last] else init
  }

  function AssessmentsFor(rows: seq<Assessment>, id: Uuid): seq<Assessment> {
    if rows == [] then []
    else
      var init, last := AssessmentsFor(rows[..|rows| - 1], id), rows[|rows| - 1];
      if last.transfer == id then init + [last] else init
  }

  function AuditsFor(rows: seq<Audit>, id: Uuid): seq<Audit> {
    if rows == [] then []
    else
      var init, last := AuditsFor(rows[..|rows| - 1], id), rows[|rows| - 1];
      if last.transfer == id then init + [last] else init
  }

  function EntriesFor(journal: seq<J.Entry>, id: Uuid): seq<J.Entry> {
    if journal == [] then []
    else
      var init, last := EntriesFor(journal[..|journal| - 1], id), journal[|journal| - 1];
      if last.id == id then init + [last] else init
  }

  datatype Slice = Slice(
    row: Option<L.Lifecycle>,
    history: seq<Envelope>,
    assessed: seq<Assessment>,
    review: Option<ReviewCase>,
    audits: seq<Audit>,
    entries: seq<J.Entry>)

  function SliceOf(t: Tables, id: Uuid): Slice {
    Slice(if id in t.transfers then Some(t.transfers[id]) else None,
          EventsFor(t.events, id),
          AssessmentsFor(t.assessments, id),
          if id in t.cases then Some(t.cases[id]) else None,
          AuditsFor(t.audits, id),
          EntriesFor(t.ledger.journal, id))
  }

  // ---- The shape of a transfer's rows ----

  function At(l: L.Lifecycle, status: L.Status, version: int): L.Lifecycle {
    L.Lifecycle(l.transfer, status, version, l.policy, None, None)
  }

  predicate Is(d: Draft, expected: Result<Draft, EventError>) {
    expected == Ok(d)
  }

  /** Posted synchronously: one completed event and one entry, both of the request's own time. */
  predicate SyncShape(s: Slice, l: L.Lifecycle) {
    && l == SyncLifecycle(l.transfer)
    && |s.history| == 1 && Is(s.history[0].draft, Completed(l.transfer))
    && s.entries == [L.EntryOf(l.transfer, l.transfer.requestedAt)]
    && s.assessed == [] && s.review.None? && s.audits == []
  }

  /** After an approval at `approved`, caused by event `cause`: still waiting, completed with one entry, or failed with
      none. */
  predicate PostingShape(s: Slice, l: L.Lifecycle, approved: L.Lifecycle, n: nat, inbox: set<(Consumer, Uuid)>)
    requires 0 < n <= |s.history|
  {
    var cause := s.history[n - 1].id;
    if |s.history| == n then
      l == approved && s.entries == [] && (TransactionConsumer, cause) !in inbox
    else
      && |s.history| == n + 1
      && (TransactionConsumer, cause) in inbox
      && var last := s.history[n].draft;
         || (&& L.Complete(approved) == Ok(l) && Is(last, CompletedLifecycle(l, last.occurredAt, cause))
             && l.transfer.amount.minor > 0
             && s.entries == [L.EntryOf(l.transfer, last.occurredAt)])
         || (&& L.Fail(approved, L.INSUFFICIENT_FUNDS) == Ok(l) && Is(last, Failed(l, last.occurredAt, cause))
             && s.entries == [])
  }

  predicate DecidedShape(s: Slice, l: L.Lifecycle, c: ReviewCase, inbox: set<(Consumer, Uuid)>)
    requires c.status.Decided? && |s.history| >= 2
  {
    var after := At(l, if c.status.approved then L.Approved else L.Declined, 3);
    && s.audits == [Audit(l.transfer.id, 3, c.status.approved, c.status.actor, c.status.at)]
    && ValidSubject(c.status.actor)
    && |s.history| >= 3 && Is(s.history[2].draft, ReviewDecided(after, c.status.actor, c.status.at))
    && (if c.status.approved then PostingShape(s, l, after, 3, inbox)
        else l == after && |s.history| == 3 && s.entries == [])
  }

  predicate ReviewShape(s: Slice, l: L.Lifecycle, after: L.Lifecycle, inbox: set<(Consumer, Uuid)>)
    requires |s.history| >= 2
  {
    && s.review.Some? && s.review.value.assessmentVersion == 2
    && (if s.review.value.status == Open then l == after && |s.history| == 2 && s.audits == [] && s.entries == []
        else DecidedShape(s, l, s.review.value, inbox))
  }

  /** The stored assessment re-evaluates, under the transfer's own policy version, to what was decided. */
  predicate Reproducible(policies: Policies, a: Assessment, l: L.Lifecycle, cause: Uuid) {
    && a.transfer == l.transfer.id && a.version == 2 && a.causation == cause
    && l.policy in policies
    && a.input.amount == l.transfer.amount
    && P.Evaluate(policies[l.policy], a.input) == Ok(a.evaluation)
  }

  predicate AssessedShape(policies: Policies, s: Slice, l: L.Lifecycle, inbox: set<(Consumer, Uuid)>)
    requires |s.history| >= 1
  {
    && |s.assessed| == 1 && |s.history| >= 2
    && var a := s.assessed[0];
       var after := At(l, StatusFor(a.evaluation.decision), 2);
       && Reproducible(policies, a, l, s.history[0].id)
       && Is(s.history[1].draft, RiskAssessed(after, a.evaluation, a.at, s.history[0].id))
       && (RiskConsumer, s.history[0].id) in inbox
       && (match a.evaluation.decision
           case Approve => s.review.None? && s.audits == [] && PostingShape(s, l, after, 2, inbox)
           case Decline => s.review.None? && s.audits == [] && l == after && |s.history| == 2 && s.entries == []
           case Review => ReviewShape(s, l, after, inbox))
  }

  predicate AsyncShape(policies: Policies, s: Slice, l: L.Lifecycle, inbox: set<(Consumer, Uuid)>) {
    && L.ValidPolicyVersion(l.policy)
    && |s.history| >= 1 && Is(s.history[0].draft, Requested(At(l, L.PendingRisk, 1)))
    && (if l.version == 1 then
          && l == At(l, L.PendingRisk, 1) && |s.history| == 1
          && s.assessed == [] && s.review.None? && s.audits == [] && s.entries == []
          && (RiskConsumer, s.history[0].id) !in inbox
        else AssessedShape(policies, s, l, inbox))
  }

  predicate Untouched(s: Slice) {
    s.history == [] && s.assessed == [] && s.review.None? && s.audits == []
  }

  predicate SliceOk(policies: Policies, s: Slice, id: Uuid, inbox: set<(Consumer, Uuid)>) {
    match s.row
    case None => Untouched(s)
    case Some(l) =>
      && l.transfer.id == id && L.Valid(l)
      && (if l.policy == "" then SyncShape(s, l) else AsyncShape(policies, s, l, inbox))
  }

  // ---- The invariant of the tables ----

  ghost predicate UniqueEventIds(events: seq<Envelope>) {
    forall i, j :: 0 <= i < j < |events| ==> events[i].id != events[j].id
  }

  ghost predicate UniqueKeys(transfers: map<Uuid, L.Lifecycle>) {
    forall a, b :: a in transfers && b in transfers && a != b ==>
      !HoldsKey(transfers[b], transfers[a].transfer.requester, transfers[a].transfer.key)
  }

  /** Consumers remember only committed events. */
  ghost predicate InboxCommitted(t: Tables) {
    forall c, id :: (c, id) in t.inbox ==> EventIdUsed(t.events, id)
  }

  ghost predicate TablesInv(policies: Policies, t: Tables) {
    && LT.LedgerInv(t.ledger)
    && UniqueEventIds(t.events)
    && InboxCommitted(t)
    && UniqueKeys(t.transfers)
    && forall id: Uuid :: SliceOk(policies, SliceOf(t, id), id, t.inbox)
  }
}
