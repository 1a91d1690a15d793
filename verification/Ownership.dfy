/** Who may move money out of which account: acceptance as an exact condition on the accounts' rows. */
module Ownership {
  import opened Prelude
  import opened Events
  import opened Tables
  import opened Protocol
  import opened ProtocolSteps
  import opened Acceptance
  import opened Routes
  import FZ = Frozen
  import L = Lifecycle
  import LS = LedgerSpec

  // ---- What acceptance demands of the accounts ----

  ghost predicate Exists(t: Tables, a: Uuid) {
    a in t.accounts && a in t.ledger.rows
  }

  /** The account exists and its owner made the request. */
  ghost predicate OwnedBy(t: Tables, a: Uuid, requester: Uuid) {
    Exists(t, a) && t.accounts[a].owner == requester
  }

  /** An active customer account of the transfer's currency. */
  ghost predicate Fits(t: Tables, a: Uuid, tr: L.Transfer)
    requires Exists(t, a)
  {
    t.accounts[a].active && t.ledger.rows[a].kind == LS.Customer && t.ledger.rows[a].currency == tr.amount.currency
  }

  /** The source is the requester's, the destination exists, and both fit. */
  ghost predicate Eligible(t: Tables, tr: L.Transfer) {
    && OwnedBy(t, tr.source, tr.requester) && Exists(t, tr.destination)
    && Fits(t, tr.source, tr) && Fits(t, tr.destination, tr)
  }

  lemma AuthorizedIffEligible(t: Tables, tr: L.Transfer)
    ensures AuthorizationFault(t, tr).None? <==> Eligible(t, tr)
  {
  }

  /** The refusals, each as an exact condition, in the order the accounts are examined: ownership, existence, and then
      the source's status, type and currency before the destination's. */
  lemma RefusalsInOrder(t: Tables, tr: L.Transfer)
    ensures
      var fault, owned := AuthorizationFault(t, tr), OwnedBy(t, tr.source, tr.requester);
      && (fault == Some(SourceNotOwned) <==> !owned)
      && (fault == Some(DestinationNotFound) <==> owned && !Exists(t, tr.destination))
    ensures OwnedBy(t, tr.source, tr.requester) && Exists(t, tr.destination) ==>
      var fault := AuthorizationFault(t, tr);
      var refuser := if Fits(t, tr.source, tr) then tr.destination else tr.source;
      var active, customer := t.accounts[refuser].active, t.ledger.rows[refuser].kind == LS.Customer;
      && (fault == Some(InactiveAccount) <==> !active)
      && (fault == Some(NonCustomerAccount) <==> active && !customer)
      && (fault == Some(AccountCurrencyMismatch) <==>
            active && customer && t.ledger.rows[refuser].currency != tr.amount.currency)
  {
  }

  // ---- Every stored transfer was requested by the owner of its source ----

  ghost predicate SourceOwned(accounts: map<Uuid, Account>, tr: L.Transfer) {
    tr.source in accounts && accounts[tr.source].owner == tr.requester
  }

  ghost predicate AllOwned(t: Tables) {
    forall id :: id in t.transfers ==> SourceOwned(t.accounts, t.transfers[id].transfer)
  }

  /** Accounts are never removed and never change hands. */
  ghost predicate OwnersPersist(before: map<Uuid, Account>, after: map<Uuid, Account>) {
    forall a :: a in before ==> a in after && after[a].owner == before[a].owner
  }

  lemma StepOwners(policies: Policies, t: Tables, a: Action)
    requires TablesInv(policies, t)
    ensures OwnersPersist(t.accounts, Step(policies, t, a).accounts)
  {
    if !a.OpenAccount? && !a.SetActive? {
      FZ.AccountsStay(policies, t, a);
    }
  }

  lemma IntentsOwned(policies: Policies, t: Tables, a: Action, id: Uuid)
    requires TablesInv(policies, t) && AllOwned(t) && id in Step(policies, t, a).transfers
    ensures SourceOwned(t.accounts, Step(policies, t, a).transfers[id].transfer)
  {
    if Offer(a).None? {
      OtherStepsKeepIntents(policies, t, a);
    } else {
      OfferInsertsOrNothing(policies, t, a);
      if Step(policies, t, a) != t {
        AuthorizedIffEligible(t, Offer(a).value);
      }
    }
  }

  lemma StepOwned(policies: Policies, t: Tables, a: Action)
    requires TablesInv(policies, t) && AllOwned(t)
    ensures AllOwned(Step(policies, t, a))
  {
    var after := Step(policies, t, a);
    StepOwners(policies, t, a);
    forall id | id in after.transfers ensures SourceOwned(after.accounts, after.transfers[id].transfer) {
      IntentsOwned(policies, t, a, id);
    }
  }

  /** In every run the source account of every stored transfer belongs to its requester. */
  lemma {:induction false} RunOwned(policies: Policies, actions: seq<Action>)
    ensures AllOwned(Run(policies, actions))
  {
    if actions != [] {
      RunOwned(policies, actions[..|actions| - 1]);
      RunKeeps(policies, actions[..|actions| - 1]);
      StepOwned(policies, Run(policies, actions[..|actions| - 1]), actions[|actions| - 1]);
    }
  }

  // ---- Acceptance, exactly ----

  /** Nobody has used the requester's key, and nothing is stored under the identifier. */
  ghost predicate Unused(t: Tables, tr: L.Transfer) {
    && tr.id !in t.transfers
    && forall id :: id in t.transfers ==>
         t.transfers[id].transfer.requester != tr.requester || t.transfers[id].transfer.key != tr.key
  }

  lemma UnusedHasNoHolder(t: Tables, tr: L.Transfer)
    requires Unused(t, tr)
    ensures HolderOf(t, tr.requester, tr.key).None?
  {
  }

  lemma NewIdHasNoEvents(policies: Policies, t: Tables, d: Draft)
    requires TablesInv(policies, t) && d.aggregateId !in t.transfers
    ensures !EventKeyUsed(t.events, d)
  {
    forall i | 0 <= i < |t.events| ensures t.events[i].draft.aggregateId != d.aggregateId {
      EventHasRow(policies, t, t.events[i]);
    }
  }

  /** The row and the event of a transfer accepted for assessment. */
  ghost predicate AcceptedAs(t: Tables, after: Tables, l: L.Lifecycle, newId: Uuid) {
    var tr := l.transfer;
    after == t.(
      transfers := t.transfers[tr.id := l],
      events := t.events + [Envelope(newId, Draft(
        RequestedType, 1, TransferAggregate, tr.id, 1, tr.id, None, tr.requestedAt,
        RequestedPayload(tr.id, tr.requester, tr.source, tr.destination, tr.amount.currency, tr.amount.minor,
                         tr.requestedAt, l.policy)))])
  }

  /** A pending transfer under an unused key and identifier is accepted iff it is eligible, and refused with the first
      failed check otherwise. */
  lemma PendingAcceptedIff(policies: Policies, actions: seq<Action>, l: L.Lifecycle, newId: Uuid)
    requires L.Valid(l) && l.status == L.PendingRisk && Unused(Run(policies, actions), l.transfer)
    requires !EventIdUsed(Run(policies, actions).events, newId)
    ensures
      var t := Run(policies, actions);
      var r := PendingCreated(t, l, newId);
      if Eligible(t, l.transfer) then r.Ok? && r.value.stored == l && AcceptedAs(t, r.value.tables, l, newId)
      else AuthorizationFault(t, l.transfer).Some? && r == Err(AuthorizationFault(t, l.transfer).value)
  {
    var t := Run(policies, actions);
    RunKeeps(policies, actions);
    UnusedHasNoHolder(t, l.transfer);
    AuthorizedIffEligible(t, l.transfer);
    NewIdHasNoEvents(policies, t, Requested(l).value);
  }

  /** The row, the entry and the event of a transfer accepted and posted at once. */
  ghost predicate PostedAs(t: Tables, after: Tables, tr: L.Transfer, newId: Uuid)
    requires tr.amount.minor != MIN_INT64
  {
    && Ok(after.ledger) == LS.Posted(t.ledger, L.EntryOf(tr, tr.requestedAt))
    && after == t.(
         ledger := after.ledger,
         transfers := t.transfers[tr.id := L.Lifecycle(tr, L.Completed, 1, "", Some(tr.id), None)],
         events := t.events + [Envelope(newId, Draft(
           CompletedType, 1, TransferAggregate, tr.id, 1, tr.id, None, tr.requestedAt,
           CompletedPayload(tr.id, tr.requester, tr.source, tr.destination, tr.amount.currency, tr.amount.minor,
                            tr.requestedAt)))])
  }

  lemma EligibleIsRouted(t: Tables, tr: L.Transfer)
    requires Eligible(t, tr)
    ensures Routed(t.ledger.rows, tr)
  {
  }

  lemma CreatedFrom(t: Tables, tr: L.Transfer, newId: Uuid)
    requires L.ValidTransfer(tr) && HolderOf(t, tr.requester, tr.key).None? && tr.id !in t.transfers
    requires AuthorizationFault(t, tr).None? && !EventIdUsed(t.events, newId)
    requires forall d: Draft :: d.aggregateId == tr.id ==> !EventKeyUsed(t.events, d)
    ensures
      var r, posted := Created(t, tr, newId), LS.Posted(t.ledger, L.EntryOf(tr, tr.requestedAt));
      if posted.Ok? then r.Ok? && r.value.stored == SyncLifecycle(tr) && PostedAs(t, r.value.tables, tr, newId)
      else r == Err(LedgerFault(posted.error))
  {
  }

  /** A synchronous transfer under an unused key and identifier is accepted iff it is eligible and funded. An eligible
      one that is not is refused for insufficient funds or for overflow, as the accounts' rows say; any other is refused
      with the first failed check. */
  lemma CreateAcceptedIff(policies: Policies, actions: seq<Action>, tr: L.Transfer, newId: Uuid)
    requires L.ValidTransfer(tr) && Unused(Run(policies, actions), tr)
    requires !EventIdUsed(Run(policies, actions).events, newId) &&
      LS.Find(Run(policies, actions).ledger.journal, tr.id).None?
    ensures
      var t := Run(policies, actions);
      var r := Created(t, tr, newId);
      if !Eligible(t, tr) then AuthorizationFault(t, tr).Some? && r == Err(AuthorizationFault(t, tr).value)
      else
        && Routed(t.ledger.rows, tr)
        && (Funded(t.ledger.rows, tr) ==> r.Ok? && PostedAs(t, r.value.tables, tr, newId))
        && (FailsForFunds(t.ledger.rows, tr) ==> r == Err(LedgerFault(LS.InsufficientFunds)))
        && (!Funded(t.ledger.rows, tr) && !FailsForFunds(t.ledger.rows, tr) ==>
          r == Err(LedgerFault(LS.AmountOverflow)))
  {
    var t := Run(policies, actions);
    RunKeeps(policies, actions);
    UnusedHasNoHolder(t, tr);
    AuthorizedIffEligible(t, tr);
    if Eligible(t, tr) {
      EligibleIsRouted(t, tr);
      forall d: Draft | d.aggregateId == tr.id ensures !EventKeyUsed(t.events, d) {
        NewIdHasNoEvents(policies, t, d);
      }
      CreatedFrom(t, tr, newId);
      TransferPosts(t.ledger, tr, tr.requestedAt);
    }
  }

  /** A transfer requested by anybody but the owner of its source is never accepted, by either path. */
  lemma StrangersAreRefused(policies: Policies, actions: seq<Action>, l: L.Lifecycle, newId: Uuid)
    requires Unused(Run(policies, actions), l.transfer) && L.ValidTransfer(l.transfer)
    requires !OwnedBy(Run(policies, actions), l.transfer.source, l.transfer.requester)
    ensures PendingCreated(Run(policies, actions), l, newId).Err?
    ensures Created(Run(policies, actions), l.transfer, newId) == Err(SourceNotOwned)
  {
    var t := Run(policies, actions);
    UnusedHasNoHolder(t, l.transfer);
    RefusalsInOrder(t, l.transfer);
  }
}
