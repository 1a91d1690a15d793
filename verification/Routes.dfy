/** The accounts of every stored transfer, and exactly when its entry can be posted. */
module Routes {
  import opened Prelude
  import opened Events
  import opened Tables
  import opened Protocol
  import opened ProtocolSteps
  import opened ProtocolTheory
  import opened Acceptance
  import M = Money
  import J = Journal
  import L = Lifecycle
  import LS = LedgerSpec
  import LT = LedgerTheory

  // ---- The entry of a transfer ----

  lemma TransferEntry(tr: L.Transfer, at: Time)
    requires L.ValidTransfer(tr) && at != 0
    ensures
      var e := L.EntryOf(tr, at);
      && J.ValidEntry(e) && LS.OneCurrencyPerAccount(e.postings) &&
        LS.Accounts(e.postings) == {tr.source, tr.destination}
      && J.AccountSum(e.postings, tr.source) == Effect(tr, tr.source)
      && J.AccountSum(e.postings, tr.destination) == Effect(tr, tr.destination)
      && LS.CurrencyOf(e.postings, tr.source) == LS.CurrencyOf(e.postings, tr.destination) == tr.amount.currency
  {
    var e := L.EntryOf(tr, at);
    L.TwoPostingsBalance(tr.source, tr.destination, tr.amount);
    EntryEffect(tr, at, tr.source);
    EntryEffect(tr, at, tr.destination);
    assert e.postings[0].account == tr.source && e.postings[1].account == tr.destination;
    assert LS.Accounts(e.postings) == {tr.source, tr.destination};
    OnlyCurrency(e.postings, tr.source, tr.amount.currency);
    OnlyCurrency(e.postings, tr.destination, tr.amount.currency);
  }

  lemma OnlyCurrency(ps: seq<J.Posting>, a: Uuid, c: M.Currency)
    requires a in LS.Accounts(ps) && forall i :: 0 <= i < |ps| ==> ps[i].amount.currency == c
    ensures LS.CurrencyOf(ps, a) == c
  {
    LS.CurrencyWitness(ps, a);
  }

  lemma TransferPrepares(tr: L.Transfer, at: Time)
    requires L.ValidTransfer(tr) && at != 0
    ensures LS.PrepareFault(L.EntryOf(tr, at)).None?
  {
    TransferEntry(tr, at);
  }

  // ---- Routed and funded ----

  /** Both accounts exist, belong to customers and hold the transfer's currency. */
  ghost predicate Routed(rows: map<Uuid, LS.Row>, tr: L.Transfer) {
    && tr.source in rows && rows[tr.source].kind == LS.Customer && rows[tr.source].currency == tr.amount.currency
    && tr.destination in rows && rows[tr.destination].kind == LS.Customer &&
      rows[tr.destination].currency == tr.amount.currency
  }

  /** The source holds less than the amount. */
  ghost predicate Short(rows: map<Uuid, LS.Row>, tr: L.Transfer)
    requires tr.source in rows
  {
    rows[tr.source].balance < tr.amount.minor
  }

  /** The destination's balance and version stay within 64 bits. */
  ghost predicate HasRoom(rows: map<Uuid, LS.Row>, tr: L.Transfer)
    requires tr.destination in rows
  {
    rows[tr.destination].balance + tr.amount.minor <= MAX_INT64 && rows[tr.destination].version < MAX_INT64
  }

  /** The source can pay, and neither balance nor version would leave 64 bits. */
  ghost predicate Funded(rows: map<Uuid, LS.Row>, tr: L.Transfer)
    requires Routed(rows, tr)
  {
    !Short(rows, tr) && rows[tr.source].version < MAX_INT64 && HasRoom(rows, tr)
  }

  /** Short of funds, and the shortage is what the locks meet first: the destination has room or is locked later. */
  ghost predicate FailsForFunds(rows: map<Uuid, LS.Row>, tr: L.Transfer)
    requires Routed(rows, tr)
  {
    Short(rows, tr) && (HasRoom(rows, tr) || tr.source < tr.destination)
  }

  lemma SourceFault(row: LS.Row, tr: L.Transfer)
    requires L.ValidTransfer(tr) && row.kind == LS.Customer && row.currency == tr.amount.currency && row.balance >= 0
    ensures LS.RowFault(row, tr.amount.currency, Effect(tr, tr.source)) ==
      if row.balance < tr.amount.minor then Some(LS.InsufficientFunds)
      else if row.version == MAX_INT64 then Some(LS.AmountOverflow)
      else None
  {
  }

  lemma DestinationFault(row: LS.Row, tr: L.Transfer)
    requires L.ValidTransfer(tr) && row.kind == LS.Customer && row.currency == tr.amount.currency && row.balance >= 0
    ensures LS.RowFault(row, tr.amount.currency, Effect(tr, tr.destination)) ==
      if row.balance + tr.amount.minor <= MAX_INT64 && row.version < MAX_INT64 then None else Some(LS.AmountOverflow)
  {
  }

  /** The fault, if any, of one account of a transfer's entry. */
  ghost function FaultOf(rows: map<Uuid, LS.Row>, ps: seq<J.Posting>, a: Uuid): Option<LS.LedgerError>
    requires a in rows && a in LS.Accounts(ps)
  {
    LS.RowFault(rows[a], LS.CurrencyOf(ps, a), J.AccountSum(ps, a))
  }

  lemma TransferFaults(l: LS.Ledger, tr: L.Transfer, at: Time)
    requires LT.LedgerInv(l) && L.ValidTransfer(tr) && at != 0 && Routed(l.rows, tr)
    ensures
      var ps := L.EntryOf(tr, at).postings;
      && LS.Accounts(ps) == {tr.source, tr.destination}
      && FaultOf(l.rows, ps, tr.source) ==
           (if Short(l.rows, tr) then Some(LS.InsufficientFunds)
            else if l.rows[tr.source].version == MAX_INT64 then Some(LS.AmountOverflow) else None)
      && FaultOf(l.rows, ps, tr.destination) == (if HasRoom(l.rows, tr) then None else Some(LS.AmountOverflow))
  {
    TransferEntry(tr, at);
    assert LT.SnapshotAgrees(l.journal, tr.source, l.rows[tr.source]);
    assert LT.SnapshotAgrees(l.journal, tr.destination, l.rows[tr.destination]);
    SourceFault(l.rows[tr.source], tr);
    DestinationFault(l.rows[tr.destination], tr);
  }

  lemma OutcomeFromFaults(l: LS.Ledger, e: J.Entry, source: Uuid, destination: Uuid)
    requires LS.PrepareFault(e).None? && LS.ReversalFault(l.journal, e).None? && LS.Find(l.journal, e.id).None?
    requires LS.Accounts(e.postings) == {source, destination} && source in l.rows && destination in l.rows
    ensures
      var r, s, d := LS.Posted(l, e), FaultOf(l.rows, e.postings, source), FaultOf(l.rows, e.postings, destination);
      && (r.Ok? <==> s.None? && d.None?)
      && (r.Err? ==>
        Some(r.error) == if s.Some? && (d.None? || source < destination) then s else if d.Some? then d else s)
  {
    LT.PostedOutcome(l, e);
    var r := LS.Posted(l, e);
    assert LT.Takes(l.rows, e.postings, source) <==> FaultOf(l.rows, e.postings, source).None?;
    assert LT.Takes(l.rows, e.postings, destination) <==> FaultOf(l.rows, e.postings, destination).None?;
    if r.Err? {
      var a :| LT.FirstRefuser(l.rows, e.postings, a) && Some(r.error) == FaultOf(l.rows, e.postings, a);
      assert a == source || a == destination;
    }
  }

  /** A routed transfer under a new identifier: posted iff funded, refused for insufficient funds iff that is what the
      locks meet first, and for overflow otherwise. */
  lemma TransferPosts(l: LS.Ledger, tr: L.Transfer, at: Time)
    requires LT.LedgerInv(l) && L.ValidTransfer(tr) && at != 0 && Routed(l.rows, tr) && LS.Find(l.journal, tr.id).None?
    ensures
      var r := LS.Posted(l, L.EntryOf(tr, at));
      && (r.Ok? <==> Funded(l.rows, tr))
      && (r == Err(LS.InsufficientFunds) <==> FailsForFunds(l.rows, tr))
      && (r.Err? ==> r.error == LS.InsufficientFunds || r.error == LS.AmountOverflow)
  {
    TransferFaults(l, tr, at);
    TransferPrepares(tr, at);
    OutcomeFromFaults(l, L.EntryOf(tr, at), tr.source, tr.destination);
  }

  // ---- Accounts never change their kind or currency ----

  ghost predicate RowsPersist(before: map<Uuid, LS.Row>, after: map<Uuid, LS.Row>) {
    forall a :: a in before ==> a in after && after[a].kind == before[a].kind && after[a].currency == before[a].currency
  }

  lemma PostingPersists(l: LS.Ledger, e: J.Entry)
    ensures RowsPersist(l.rows, PostedOrSame(l, e).rows)
  {
    if LS.Posted(l, e).Ok? {
      LT.PostedParts(l, e);
    }
  }

  lemma StepPersists(policies: Policies, t: Tables, a: Action)
    ensures RowsPersist(t.ledger.rows, Step(policies, t, a).ledger.rows)
  {
    if Step(policies, t, a).ledger != t.ledger {
      match a
      case Settle(e, now, newId) =>
        SettleMovesLedger(t, e, now, newId);
        PostingPersists(t.ledger, L.EntryOf(t.transfers[e.Transfer()].transfer, now));
      case Transact(tr, newId) =>
        TransactMovesLedger(t, tr, newId);
        PostingPersists(t.ledger, L.EntryOf(tr, tr.requestedAt));
      case PostDirect(entry) => PostingPersists(t.ledger, entry);
      case OpenAccount(_, _, _, _) =>
      case Accept(_, _) =>
      case AssessRisk(_, _, _, _) =>
      case DecideReview(_, _, _, _, _) =>
      case SetActive(_, _) =>
    }
  }

  // ---- Every stored transfer is routed ----

  ghost predicate AllRouted(t: Tables) {
    forall id :: id in t.transfers ==> Routed(t.ledger.rows, t.transfers[id].transfer)
  }

  lemma RoutesPersist(before: map<Uuid, LS.Row>, after: map<Uuid, LS.Row>, tr: L.Transfer)
    requires Routed(before, tr) && RowsPersist(before, after)
    ensures Routed(after, tr)
  {
  }

  lemma AuthorizedIsRouted(t: Tables, tr: L.Transfer)
    requires AuthorizationFault(t, tr).None?
    ensures Routed(t.ledger.rows, tr)
  {
  }

  lemma IntentsRouted(policies: Policies, t: Tables, a: Action, id: Uuid)
    requires TablesInv(policies, t) && AllRouted(t) && id in Step(policies, t, a).transfers
    ensures Routed(t.ledger.rows, Step(policies, t, a).transfers[id].transfer)
  {
    if Offer(a).None? {
      OtherStepsKeepIntents(policies, t, a);
    } else {
      OfferInsertsOrNothing(policies, t, a);
      if Step(policies, t, a) != t {
        AuthorizedIsRouted(t, Offer(a).value);
      }
    }
  }

  lemma StepRouted(policies: Policies, t: Tables, a: Action)
    requires TablesInv(policies, t) && AllRouted(t)
    ensures AllRouted(Step(policies, t, a))
  {
    var after := Step(policies, t, a);
    StepPersists(policies, t, a);
    forall id | id in after.transfers ensures Routed(after.ledger.rows, after.transfers[id].transfer) {
      IntentsRouted(policies, t, a, id);
      RoutesPersist(t.ledger.rows, after.ledger.rows, after.transfers[id].transfer);
    }
  }

  /** In every run the accounts of every stored transfer are customer accounts of its currency. */
  lemma {:induction false} RunRouted(policies: Policies, actions: seq<Action>)
    ensures AllRouted(Run(policies, actions))
  {
    if actions != [] {
      RunRouted(policies, actions[..|actions| - 1]);
      RunKeeps(policies, actions[..|actions| - 1]);
      StepRouted(policies, Run(policies, actions[..|actions| - 1]), actions[|actions| - 1]);
    }
  }

  // ---- An approved transfer ----

  lemma {:induction false} NoneFound(journal: seq<J.Entry>, id: Uuid)
    requires EntriesFor(journal, id) == []
    ensures LS.Find(journal, id).None?
  {
    if journal != [] {
      NoneFound(journal[..|journal| - 1], id);
    }
  }

  /** In a reachable state an approved transfer posts iff it is funded, and is short of funds or of 64-bit room exactly
      as its accounts' rows say. */
  lemma ApprovedPosts(policies: Policies, t: Tables, id: Uuid, now: Time)
    requires TablesInv(policies, t) && AllRouted(t) && now != 0
    requires id in t.transfers && t.transfers[id].status == L.Approved
    ensures
      var tr := t.transfers[id].transfer;
      && L.Valid(t.transfers[id]) && Routed(t.ledger.rows, tr)
      && var r := LS.Posted(t.ledger, L.EntryOf(tr, now));
         && (r.Ok? <==> Funded(t.ledger.rows, tr))
         && (r == Err(LS.InsufficientFunds) <==> FailsForFunds(t.ledger.rows, tr))
         && (r.Err? ==> r.error == LS.InsufficientFunds || r.error == LS.AmountOverflow)
  {
    assert SliceOk(policies, SliceOf(t, id), id, t.inbox);
    ApprovedHistory(policies, SliceOf(t, id), id, t.inbox);
    NoneFound(t.ledger.journal, id);
    TransferPosts(t.ledger, t.transfers[id].transfer, now);
  }
}
