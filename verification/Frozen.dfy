/** Account status: it is checked at acceptance and never again, so an account frozen later can still move. */
module Frozen {
  import opened Prelude
  import opened Events
  import opened Tables
  import opened Protocol
  import opened ProtocolSteps
  import opened ProtocolTheory
  import opened Acceptance
  import opened Routes
  import opened Conflicts
  import AU = Authority
  import J = Journal
  import L = Lifecycle
  import P = Policy
  import LS = LedgerSpec
  import LT = LedgerTheory

  // ---- Posting does not read the accounts ----

  function WithAccounts(r: Outcome, accounts: map<Uuid, Account>): Outcome {
    if r.Ok? then Ok(r.value.(accounts := accounts)) else r
  }

  lemma ConclusionIgnoresAccounts(t: Tables, posted: Result<LS.Ledger, LS.LedgerError>, l: L.Lifecycle, cause: Uuid,
                                  now: Time,
                                  newId: Uuid, accounts: map<Uuid, Account>)
    ensures ConcludedWith(t.(accounts := accounts), posted, l, cause, now, newId) ==
      WithAccounts(ConcludedWith(t, posted, l, cause, now, newId), accounts)
  {
  }

  lemma PostIgnoresAccounts(t: Tables, l: L.Lifecycle, cause: Uuid, now: Time, newId: Uuid,
                            accounts: map<Uuid, Account>)
    requires L.Valid(l) && l.status == L.Approved
    ensures PostedOrFailed(t.(accounts := accounts), l, cause, now, newId) ==
      WithAccounts(PostedOrFailed(t, l, cause, now, newId), accounts)
  {
    ConclusionIgnoresAccounts(t, LS.Posted(t.ledger, L.EntryOf(l.transfer, now)), l, cause, now, newId, accounts);
  }

  lemma AssessmentIgnoresAccounts(t: Tables, e: Envelope, now: Time, newId: Uuid, accounts: map<Uuid, Account>)
    ensures AssessmentHandled(t.(accounts := accounts), e, now, newId) ==
      WithAccounts(AssessmentHandled(t, e, now, newId), accounts)
  {
    assert Consumed(t.(accounts := accounts), e) == Consumed(t, e).(accounts := accounts);
    if e.Transfer() in t.transfers && L.Valid(t.transfers[e.Transfer()]) &&
      t.transfers[e.Transfer()].status == L.Approved {
      PostIgnoresAccounts(Consumed(t, e), t.transfers[e.Transfer()], e.id, now, newId, accounts);
    }
  }

  lemma DecisionIgnoresAccounts(t: Tables, e: Envelope, now: Time, newId: Uuid, accounts: map<Uuid, Account>)
    ensures DecisionHandled(t.(accounts := accounts), e, now, newId) ==
      WithAccounts(DecisionHandled(t, e, now, newId), accounts)
  {
    assert Consumed(t.(accounts := accounts), e) == Consumed(t, e).(accounts := accounts);
    if e.Transfer() in t.transfers && L.Valid(t.transfers[e.Transfer()]) &&
      t.transfers[e.Transfer()].status == L.Approved {
      PostIgnoresAccounts(Consumed(t, e), t.transfers[e.Transfer()], e.id, now, newId, accounts);
    }
  }

  /** The transaction worker does the same whatever the accounts' owners and status are. */
  lemma PostingIgnoresStatus(t: Tables, e: Envelope, now: Time, newId: Uuid, accounts: map<Uuid, Account>)
    ensures TransactionHandled(t.(accounts := accounts), e, now, newId) ==
      WithAccounts(TransactionHandled(t, e, now, newId), accounts)
  {
    AssessmentIgnoresAccounts(t, e, now, newId, accounts);
    DecisionIgnoresAccounts(t, e, now, newId, accounts);
  }

  // ---- Acceptance does ----

  lemma AuthorizedIsActive(t: Tables, tr: L.Transfer)
    requires AuthorizationFault(t, tr).None?
    ensures tr.source in t.accounts && t.accounts[tr.source].active
    ensures tr.destination in t.accounts && t.accounts[tr.destination].active
  {
  }

  /** Neither kind of acceptance commits a transfer from or to an inactive account. */
  lemma AcceptanceNeedsActive(policies: Policies, t: Tables, a: Action)
    requires Offer(a).Some? && Step(policies, t, a) != t
    ensures
      var tr := Offer(a).value;
      && tr.source in t.accounts && t.accounts[tr.source].active
      && tr.destination in t.accounts && t.accounts[tr.destination].active
  {
    OfferInsertsOrNothing(policies, t, a);
    AuthorizedIsActive(t, Offer(a).value);
  }

  // ---- When a frozen account moves ----

  ghost predicate Inactive(t: Tables, a: Uuid) {
    a in t.accounts && !t.accounts[a].active && a in t.ledger.rows
  }

  predicate Involves(tr: L.Transfer, a: Uuid) {
    a == tr.source || a == tr.destination
  }

  /** The action settles a funded, approved transfer on the account, or is a direct posting to it. */
  ghost predicate Moves(t: Tables, a: Uuid, action: Action) {
    match action
    case Settle(e, now, newId) =>
      && Awaiting(t, e) && now != 0 && !EventIdUsed(t.events, newId)
      && var tr := t.transfers[e.Transfer()].transfer;
         Involves(tr, a) && Routed(t.ledger.rows, tr) && Funded(t.ledger.rows, tr)
    case PostDirect(entry) =>
      entry.id !in t.transfers && LS.Posted(t.ledger, entry).Ok? && a in LS.Accounts(entry.postings)
    case _ => false
  }

  ghost predicate RowMoves(before: LS.Ledger, after: LS.Ledger, a: Uuid)
    requires a in before.rows
  {
    a !in after.rows || after.rows[a] != before.rows[a]
  }

  lemma PostedMoves(l: LS.Ledger, e: J.Entry, a: Uuid)
    requires a in l.rows
    ensures RowMoves(l, PostedOrSame(l, e), a) <==> LS.Posted(l, e).Ok? && a in LS.Accounts(e.postings)
  {
    if LS.Posted(l, e).Ok? {
      LT.PostedParts(l, e);
    }
  }

  lemma SettleMoves(policies: Policies, t: Tables, a: Uuid, e: Envelope, now: Time, newId: Uuid)
    requires TablesInv(policies, t) && AllRouted(t) && a in t.ledger.rows && e in t.events
    ensures RowMoves(t.ledger, OrElse(TransactionHandled(t, e, now, newId), t).ledger, a) <==>
      Moves(t, a, Settle(e, now, newId))
  {
    if !Awaiting(t, e) {
      DeliveryCases(t, e, now, newId);
    } else if now == 0 || EventIdUsed(t.events, newId) {
      AwaitingReachesPosting(policies, t, e, now, newId);
      UnusableIdOrTime(Consumed(t, e), t.transfers[e.Transfer()], e.id, now, newId);
    } else {
      AwaitingMoves(policies, t, a, e, now, newId);
    }
  }

  lemma UnusableIdOrTime(t: Tables, l: L.Lifecycle, cause: Uuid, now: Time, newId: Uuid)
    requires L.Valid(l) && l.status == L.Approved && (now == 0 || EventIdUsed(t.events, newId))
    ensures PostedOrFailed(t, l, cause, now, newId).Err?
  {
  }

  lemma TransferMoves(l: LS.Ledger, tr: L.Transfer, at: Time, a: Uuid)
    requires a in l.rows && L.ValidTransfer(tr) && at != 0
    ensures RowMoves(l, PostedOrSame(l, L.EntryOf(tr, at)), a) <==>
      LS.Posted(l, L.EntryOf(tr, at)).Ok? && Involves(tr, a)
  {
    TransferEntry(tr, at);
    PostedMoves(l, L.EntryOf(tr, at), a);
  }

  lemma AwaitingMoves(policies: Policies, t: Tables, a: Uuid, e: Envelope, now: Time, newId: Uuid)
    requires TablesInv(policies, t) && AllRouted(t) && a in t.ledger.rows
    requires Awaiting(t, e) && now != 0 && !EventIdUsed(t.events, newId)
    ensures RowMoves(t.ledger, OrElse(TransactionHandled(t, e, now, newId), t).ledger, a) <==>
      Moves(t, a, Settle(e, now, newId))
  {
    var tr := t.transfers[e.Transfer()].transfer;
    AwaitingOutcome(policies, t, e, now, newId);
    var r := TransactionHandled(t, e, now, newId);
    assert (LS.Posted(t.ledger, L.EntryOf(tr, now)).Ok? <==> Funded(t.ledger.rows, tr)) by {
      ApprovedPosts(policies, t, e.Transfer(), now);
    }
    TransferMoves(t.ledger, tr, now, a);
  }

  lemma TransactMoves(policies: Policies, t: Tables, a: Uuid, tr: L.Transfer, newId: Uuid)
    requires Inactive(t, a)
    ensures !RowMoves(t.ledger, Step(policies, t, Transact(tr, newId)).ledger, a)
  {
    var action := Transact(tr, newId);
    if Step(policies, t, action).ledger != t.ledger {
      AcceptanceNeedsActive(policies, t, action);
      TransactMovesLedger(t, tr, newId);
      TransferMoves(t.ledger, tr, tr.requestedAt, a);
    }
  }

  /** Exactly when a frozen account moves: in every reachable state, a step changes the snapshot of an inactive account
      iff it delivers the approving event of a funded transfer on that account, or is a direct posting to it. */
  lemma FrozenMovesIff(policies: Policies, actions: seq<Action>, a: Uuid, action: Action)
    requires Inactive(Run(policies, actions), a)
    ensures
      var t := Run(policies, actions);
      RowMoves(t.ledger, Step(policies, t, action).ledger, a) <==> Moves(t, a, action)
  {
    var t := Run(policies, actions);
    RunKeeps(policies, actions);
    RunRouted(policies, actions);
    StepMoves(policies, t, a, action);
  }

  /** Only settlement, synchronous acceptance, direct posting and opening touch the ledger. */
  lemma LedgerStays(policies: Policies, t: Tables, action: Action)
    requires action.Accept? || action.AssessRisk? || action.DecideReview? || action.SetActive?
    ensures Step(policies, t, action).ledger == t.ledger
  {
  }

  lemma StepMoves(policies: Policies, t: Tables, a: Uuid, action: Action)
    requires TablesInv(policies, t) && AllRouted(t) && Inactive(t, a)
    ensures RowMoves(t.ledger, Step(policies, t, action).ledger, a) <==> Moves(t, a, action)
  {
    if action.Settle? {
      if action.event in t.events {
        SettleMoves(policies, t, a, action.event, action.now, action.newId);
      }
    } else if action.Transact? {
      TransactMoves(policies, t, a, action.transfer, action.newId);
    } else if action.PostDirect? {
      PostedMoves(t.ledger, action.entry, a);
    } else if !action.OpenAccount? {
      LedgerStays(policies, t, action);
    }
  }

  // ---- A frozen account with nothing in flight stays put ----

  predicate InFlight(s: L.Status) {
    s == L.PendingRisk || s == L.ReviewRequired || s == L.Approved
  }

  /** Frozen, and no transfer on the account can still reach posting. */
  ghost predicate AtRest(t: Tables, a: Uuid) {
    Inactive(t, a) && forall id :: id in t.transfers && Involves(t.transfers[id].transfer, a) ==>
      !InFlight(t.transfers[id].status)
  }

  /** Not a reactivation of the account, and not a direct posting to it. */
  predicate LeavesAlone(action: Action, a: Uuid) {
    match action
    case SetActive(account, active) => !(account == a && active)
    case PostDirect(entry) => a !in LS.Accounts(entry.postings)
    case _ => true
  }

  /** A delivery to the transaction worker leaves the accounts and every transfer that is not approved alone. */
  lemma SettleFrame(t: Tables, e: Envelope, now: Time, newId: Uuid)
    requires e.Transfer() in t.transfers ==> t.transfers[e.Transfer()].transfer.id == e.Transfer()
    ensures
      var after := OrElse(TransactionHandled(t, e, now, newId), t);
      && after.accounts == t.accounts
      && forall id :: id in t.transfers && t.transfers[id].status != L.Approved ==>
           id in after.transfers && after.transfers[id] == t.transfers[id]
  {
    DeliveryCases(t, e, now, newId);
    var r := TransactionHandled(t, e, now, newId);
    if r.Ok? && (TransactionConsumer, e.id) !in t.inbox && t.transfers[e.Transfer()].status == L.Approved {
      PostConcludes(Consumed(t, e), t.transfers[e.Transfer()], e.id, now, newId);
    }
  }

  lemma AssessFrame(policies: Policies, t: Tables, e: Envelope, velocity: Option<nat>, now: Time, newId: Uuid)
    requires e.Transfer() in t.transfers ==> t.transfers[e.Transfer()].transfer.id == e.Transfer()
    ensures
      var after := OrElse(RiskHandled(policies, t, e, velocity, now, newId), t);
      && after.accounts == t.accounts
      && forall id :: id in t.transfers && t.transfers[id].status != L.PendingRisk ==>
           id in after.transfers && after.transfers[id] == t.transfers[id]
  {
  }

  lemma DecideFrame(t: Tables, who: Principal, x: Uuid, approved: bool, now: Time, newId: Uuid)
    ensures
      var after := OrElse(ReviewDecidedBy(t, who, x, approved, now, newId), t);
      && after.accounts == t.accounts
      && forall id :: id in t.transfers && t.transfers[id].status != L.ReviewRequired ==>
           id in after.transfers && after.transfers[id] == t.transfers[id]
  {
  }

  lemma AcceptFrame(t: Tables, l: L.Lifecycle, newId: Uuid)
    ensures AcceptedOrElse(PendingCreated(t, l, newId), t).accounts == t.accounts
  {
  }

  lemma TransactFrame(t: Tables, tr: L.Transfer, newId: Uuid)
    ensures AcceptedOrElse(Created(t, tr, newId), t).accounts == t.accounts
  {
  }

  lemma AccountsStay(policies: Policies, t: Tables, action: Action)
    requires TablesInv(policies, t) && !action.OpenAccount? && !action.SetActive?
    ensures Step(policies, t, action).accounts == t.accounts
  {
    if Admissible(t, action) {
      match action
      case Settle(e, now, newId) =>
        EventHasRow(policies, t, e);
        SettleFrame(t, e, now, newId);
      case AssessRisk(e, velocity, now, newId) =>
        EventHasRow(policies, t, e);
        AssessFrame(policies, t, e, velocity, now, newId);
      case DecideReview(who, id, approved, now, newId) => DecideFrame(t, who, id, approved, now, newId);
      case Accept(l, newId) => AcceptFrame(t, l, newId);
      case Transact(tr, newId) => TransactFrame(t, tr, newId);
      case PostDirect(_) =>
    }
  }

  /** A concluded transfer never changes again. */
  lemma ConcludedIsFinal(policies: Policies, t: Tables, action: Action, id: Uuid)
    requires TablesInv(policies, t) && id in t.transfers && !InFlight(t.transfers[id].status)
    ensures id in Step(policies, t, action).transfers && Step(policies, t, action).transfers[id] == t.transfers[id]
  {
    if Offer(action).Some? {
      OfferInsertsOrNothing(policies, t, action);
    } else if Admissible(t, action) {
      match action
      case Settle(e, now, newId) =>
        EventHasRow(policies, t, e);
        SettleFrame(t, e, now, newId);
      case AssessRisk(e, velocity, now, newId) =>
        EventHasRow(policies, t, e);
        AssessFrame(policies, t, e, velocity, now, newId);
      case DecideReview(who, x, approved, now, newId) => DecideFrame(t, who, x, approved, now, newId);
      case PostDirect(_) =>
      case OpenAccount(_, _, _, _) =>
      case SetActive(_, _) =>
    }
  }

  lemma StillInactive(policies: Policies, t: Tables, action: Action, a: Uuid)
    requires TablesInv(policies, t) && Inactive(t, a) && LeavesAlone(action, a)
    ensures Inactive(Step(policies, t, action), a)
  {
    StepPersists(policies, t, action);
    if !action.OpenAccount? && !action.SetActive? {
      AccountsStay(policies, t, action);
    }
  }

  lemma StillConcluded(policies: Policies, t: Tables, action: Action, a: Uuid, id: Uuid)
    requires TablesInv(policies, t) && AtRest(t, a) && id in Step(policies, t, action).transfers
    requires Involves(Step(policies, t, action).transfers[id].transfer, a)
    ensures !InFlight(Step(policies, t, action).transfers[id].status)
  {
    if Offer(action).None? {
      OtherStepsKeepIntents(policies, t, action);
      ConcludedIsFinal(policies, t, action, id);
    } else if Step(policies, t, action) != t {
      AcceptanceNeedsActive(policies, t, action);
      OfferInsertsOrNothing(policies, t, action);
    }
  }

  lemma AtRestStays(policies: Policies, t: Tables, action: Action, a: Uuid)
    requires TablesInv(policies, t) && AllRouted(t) && AtRest(t, a) && LeavesAlone(action, a)
    ensures AtRest(Step(policies, t, action), a) && !RowMoves(t.ledger, Step(policies, t, action).ledger, a)
  {
    var after := Step(policies, t, action);
    StillInactive(policies, t, action, a);
    forall id | id in after.transfers && Involves(after.transfers[id].transfer, a)
      ensures !InFlight(after.transfers[id].status)
    {
      StillConcluded(policies, t, action, a, id);
    }
    StepMoves(policies, t, a, action);
  }

  /** A frozen account with no transfer in flight keeps its snapshot in every continuation of the run that neither
      reactivates it nor posts to it directly. */
  lemma {:induction false} FrozenStays(policies: Policies, actions: seq<Action>, more: seq<Action>, a: Uuid)
    requires AtRest(Run(policies, actions), a)
    requires forall i :: 0 <= i < |more| ==> LeavesAlone(more[i], a)
    ensures
      var before, after := Run(policies, actions), Run(policies, actions + more);
      AtRest(after, a) && a in before.ledger.rows && after.ledger.rows[a] == before.ledger.rows[a]
    decreases |more|
  {
    if more == [] {
      assert actions + more == actions;
    } else {
      var init, last := more[..|more| - 1], more[|more| - 1];
      assert actions + more == actions + init + [last];
      assert forall i :: 0 <= i < |init| ==> init[i] == more[i];
      FrozenStays(policies, actions, init, a);
      FrozenStaysOnce(policies, actions + init, last, a);
    }
  }

  lemma FrozenStaysOnce(policies: Policies, actions: seq<Action>, action: Action, a: Uuid)
    requires AtRest(Run(policies, actions), a) && LeavesAlone(action, a)
    ensures
      var before, after := Run(policies, actions), Run(policies, actions + [action]);
      AtRest(after, a) && a in before.ledger.rows && after.ledger.rows[a] == before.ledger.rows[a]
  {
    RunSnoc(policies, actions, action);
    RunKeeps(policies, actions);
    RunRouted(policies, actions);
    AtRestStays(policies, Run(policies, actions), action, a);
  }

  // ---- A frozen account with a funded transfer in flight can still move ----

  lemma {:induction false} FreshEventId(events: seq<Envelope>) returns (n: Uuid)
    ensures forall i :: 0 <= i < |events| ==> events[i].id < n
    ensures !EventIdUsed(events, n)
  {
    n := 0;
    if events != [] {
      var init, last := events[..|events| - 1], events[|events| - 1];
      n := FreshEventId(init);
      assert forall i :: 0 <= i < |init| ==> events[i].id == init[i].id < n;
      n := if n <= last.id then last.id + 1 else n;
    }
  }

  /** The transfer is stored with the given status, touches the account and could be paid now. */
  ghost predicate Payable(t: Tables, a: Uuid, id: Uuid, status: L.Status) {
    && id in t.transfers && t.transfers[id].status == status
    && var tr := t.transfers[id].transfer;
       Involves(tr, a) && Routed(t.ledger.rows, tr) && Funded(t.ledger.rows, tr)
  }

  /** The ledger as it was, and the transfer moved on to the next status. */
  ghost predicate Advances(t: Tables, after: Tables, id: Uuid, status: L.Status) {
    && after.ledger == t.ledger && id in t.transfers && id in after.transfers
    && after.transfers[id].transfer == t.transfers[id].transfer && after.transfers[id].status == status
  }

  lemma ApprovingEvent(policies: Policies, t: Tables, id: Uuid) returns (e: Envelope)
    requires TablesInv(policies, t) && id in t.transfers && t.transfers[id].status == L.Approved
    ensures Awaiting(t, e) && e.Transfer() == id
  {
    var s := SliceOf(t, id);
    assert SliceOk(policies, s, id, t.inbox);
    ApprovedHistory(policies, s, id, t.inbox);
    e := s.history[|s.history| - 1];
    HistoryIsCommitted(t.events, id, |s.history| - 1);
  }

  lemma ApprovedCanMove(policies: Policies, actions: seq<Action>, a: Uuid, id: Uuid) returns (action: Action)
    requires Payable(Run(policies, actions), a, id, L.Approved)
    ensures action.Settle? && RowMoves(Run(policies, actions).ledger, Run(policies, actions + [action]).ledger, a)
  {
    var t := Run(policies, actions);
    RunKeeps(policies, actions);
    RunRouted(policies, actions);
    var e := ApprovingEvent(policies, t, id);
    var n := FreshEventId(t.events);
    action := Settle(e, 1, n);
    SettleMoves(policies, t, a, e, 1, n);
    RunSnoc(policies, actions, action);
  }

  lemma DecisionAdvances(t: Tables, who: Principal, id: Uuid, now: Time, newId: Uuid)
    requires ReviewDecidedBy(t, who, id, true, now, newId).Ok?
    ensures Advances(t, ReviewDecidedBy(t, who, id, true, now, newId).value, id, L.Approved)
  {
  }

  lemma ReviewCanAdvance(policies: Policies, actions: seq<Action>, id: Uuid) returns (action: Action)
    requires id in Run(policies, actions).transfers && Run(policies, actions).transfers[id].status == L.ReviewRequired
    ensures action.DecideReview? && Advances(Run(policies, actions), Run(policies, actions + [action]), id, L.Approved)
  {
    var t := Run(policies, actions);
    var n := FreshEventId(t.events);
    var who := Principal("a", true);
    assert ValidSubject(who.subject);
    AU.DecidesExactly(policies, actions, who, id, true, 1, n);
    DecisionAdvances(t, who, id, 1, n);
    action := DecideReview(who, id, true, 1, n);
    RunSnoc(policies, actions, action);
  }

  /** The transfer's policy is registered and does not decline its amount. */
  ghost predicate Approvable(policies: Policies, l: L.Lifecycle) {
    && l.policy in policies
    && (l.transfer.amount.currency in policies[l.policy].thresholds ==>
          l.transfer.amount.minor < policies[l.policy].thresholds[l.transfer.amount.currency].declineMinor)
  }

  lemma DegradedNeedsReview(policies: Policies, l: L.Lifecycle)
    requires Registry(policies) && Approvable(policies, l) && L.ValidTransfer(l.transfer)
    ensures P.Evaluate(policies[l.policy], Captured(l, None)).Ok?
    ensures P.Evaluate(policies[l.policy], Captured(l, None)).value.decision == P.Review
  {
  }

  lemma AssessmentAdvances(policies: Policies, t: Tables, l: L.Lifecycle, e: Envelope, now: Time, newId: Uuid)
    requires Registry(policies) && Approvable(policies, l) && L.Valid(l) && l.transfer.id in t.transfers
    requires t.transfers[l.transfer.id] == l && Assess(policies, t, l, e, None, now, newId).Ok?
    ensures Advances(t, Assess(policies, t, l, e, None, now, newId).value, l.transfer.id, L.ReviewRequired)
  {
    DegradedNeedsReview(policies, l);
  }

  lemma PendingRequest(policies: Policies, t: Tables, id: Uuid) returns (e: Envelope)
    requires TablesInv(policies, t) && id in t.transfers && t.transfers[id].status == L.PendingRisk
    ensures e in t.events && e.Transfer() == id && (RiskConsumer, e.id) !in t.inbox && L.Valid(t.transfers[id])
    ensures t.transfers[id].transfer.id == id && Is(e.draft, Requested(t.transfers[id]))
  {
    var s := SliceOf(t, id);
    assert SliceOk(policies, s, id, t.inbox);
    e := s.history[0];
    HistoryIsCommitted(t.events, id, 0);
    assert At(t.transfers[id], L.PendingRisk, 1) == t.transfers[id];
  }

  lemma PendingCanAdvance(policies: Policies, actions: seq<Action>, id: Uuid) returns (action: Action)
    requires Registry(policies) && id in Run(policies, actions).transfers
    requires Run(policies, actions).transfers[id].status == L.PendingRisk
    requires Approvable(policies, Run(policies, actions).transfers[id])
    ensures action.AssessRisk? &&
      Advances(Run(policies, actions), Run(policies, actions + [action]), id, L.ReviewRequired)
  {
    var t := Run(policies, actions);
    RunKeeps(policies, actions);
    var l := t.transfers[id];
    var e := PendingRequest(policies, t, id);
    var n := FreshEventId(t.events);
    RequestedRoundTrip(l, e.id);
    RequestIsHandled(policies, actions, e, None, 1, n);
    AssessmentAdvances(policies, t, l, e, 1, n);
    action := AssessRisk(e, None, 1, n);
    RunSnoc(policies, actions, action);
  }

  lemma PayableAdvances(t: Tables, after: Tables, a: Uuid, id: Uuid, before: L.Status, next: L.Status)
    requires Payable(t, a, id, before) && Advances(t, after, id, next)
    ensures Payable(after, a, id, next)
  {
  }

  predicate OnlyDeliveries(more: seq<Action>) {
    forall i :: 0 <= i < |more| ==> more[i].AssessRisk? || more[i].DecideReview? || more[i].Settle?
  }

  lemma ReviewCanMove(policies: Policies, actions: seq<Action>, a: Uuid, id: Uuid) returns (more: seq<Action>)
    requires Payable(Run(policies, actions), a, id, L.ReviewRequired)
    ensures OnlyDeliveries(more) && RowMoves(Run(policies, actions).ledger, Run(policies, actions + more).ledger, a)
  {
    var decide := ReviewCanAdvance(policies, actions, id);
    var t, after := Run(policies, actions), Run(policies, actions + [decide]);
    PayableAdvances(t, after, a, id, L.ReviewRequired, L.Approved);
    var settle := ApprovedCanMove(policies, actions + [decide], a, id);
    more := [decide, settle];
    assert actions + more == actions + [decide] + [settle];
  }

  lemma Reassociated(actions: seq<Action>, first: Action, rest: seq<Action>)
    requires (first.AssessRisk? || first.DecideReview? || first.Settle?) && OnlyDeliveries(rest)
    ensures actions + ([first] + rest) == actions + [first] + rest && OnlyDeliveries([first] + rest)
  {
  }

  lemma PendingCanMove(policies: Policies, actions: seq<Action>, a: Uuid, id: Uuid) returns (more: seq<Action>)
    requires Registry(policies) && Payable(Run(policies, actions), a, id, L.PendingRisk)
    requires Approvable(policies, Run(policies, actions).transfers[id])
    ensures OnlyDeliveries(more) && RowMoves(Run(policies, actions).ledger, Run(policies, actions + more).ledger, a)
  {
    var assess := PendingCanAdvance(policies, actions, id);
    var t, after := Run(policies, actions), Run(policies, actions + [assess]);
    PayableAdvances(t, after, a, id, L.PendingRisk, L.ReviewRequired);
    var rest := ReviewCanMove(policies, actions + [assess], a, id);
    more := [assess] + rest;
    Reassociated(actions, assess, rest);
  }

  /** Status does not protect a frozen account: if a transfer on it is in flight and payable, and pending only under a
      registered policy that does not decline it, then deliveries and an analyst's approval alone can move the
      account. */
  lemma FrozenCanMove(policies: Policies, actions: seq<Action>, a: Uuid, id: Uuid, status: L.Status)
    returns (more: seq<Action>)
    requires Registry(policies) && InFlight(status) && Payable(Run(policies, actions), a, id, status)
    requires status == L.PendingRisk ==> Approvable(policies, Run(policies, actions).transfers[id])
    ensures OnlyDeliveries(more) && RowMoves(Run(policies, actions).ledger, Run(policies, actions + more).ledger, a)
  {
    match status
    case Approved =>
      var settle := ApprovedCanMove(policies, actions, a, id);
      more := [settle];
    case ReviewRequired => more := ReviewCanMove(policies, actions, a, id);
    case PendingRisk => more := PendingCanMove(policies, actions, a, id);
  }
}
