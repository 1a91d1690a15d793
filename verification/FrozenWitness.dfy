/** A run in which an account is frozen after acceptance and its money moves all the same. */
module FrozenWitness {
  import opened Prelude
  import opened Events
  import opened Tables
  import opened Protocol
  import opened ProtocolSteps
  import opened ProtocolTheory
  import opened Acceptance
  import opened Routes
  import opened Conflicts
  import opened Frozen
  import W = Witnesses
  import M = Money
  import J = Journal
  import L = Lifecycle
  import P = Policy
  import LS = LedgerSpec
  import LT = LedgerTheory

  const USD := W.USD

  /** A policy that approves small dollar amounts. */
  function DollarPolicies(): Policies {
    map["v" := P.Policy("v", map[USD := P.Threshold(USD, 1000, 1000, 0)])]
  }

  /** One more step of a run that is known to have reached a state. */
  lemma Then(p: Policies, actions: seq<Action>, t: Tables, a: Action, next: Tables)
    requires Run(p, actions) == t && Step(p, t, a) == next
    ensures Run(p, actions + [a]) == next
  {
    RunSnoc(p, actions, a);
  }

  // ---- Two wallets, one of them funded ----

  function Wallet(balance: Int64, version: Int64): LS.Row {
    LS.Row(USD, LS.Customer, balance, version)
  }

  function Ledger(journal: seq<J.Entry>, one: LS.Row, two: LS.Row, system: LS.Row): LS.Ledger {
    LS.Ledger(journal, map[1 := one, 2 := two, 9 := system])
  }

  function Accounts(active: bool): map<Uuid, Account> {
    map[1 := Account(10, active), 2 := Account(11, true), 9 := Account(12, true)]
  }

  function Opened(): Tables {
    Empty().(ledger := Ledger([], Wallet(0, 0), Wallet(0, 0), LS.Row(USD, LS.System, 0, 0)), accounts := Accounts(true))
  }

  lemma OpensThree(p: Policies)
    ensures
      var one := Step(p, Empty(), OpenAccount(1, 10, USD, LS.Customer));
      var two := Step(p, one, OpenAccount(2, 11, USD, LS.Customer));
      Step(p, two, OpenAccount(9, 12, USD, LS.System)) == Opened()
  {
  }

  function Deposit(): L.Transfer {
    L.Transfer(50, "d", 12, 9, 1, M.Money(100, USD), 6)
  }

  function DepositEntry(): J.Entry {
    L.EntryOf(Deposit(), 6)
  }

  function Funded(): Tables {
    Opened().(ledger := Ledger([DepositEntry()], Wallet(100, 1), Wallet(0, 0), LS.Row(USD, LS.System, -100, 1)))
  }

  lemma DepositParts()
    ensures Pays100(DepositEntry())
  {
    W.TextIsValid();
    assert L.ValidTransfer(Deposit());
    TransferEntry(Deposit(), 6);
    TransferPrepares(Deposit(), 6);
  }

  /** A standard entry of 100 from account 9 to account 1, on empty rows. */
  ghost predicate Pays100(e: J.Entry) {
    && e.kind == J.Standard && LS.PrepareFault(e).None? && LS.Accounts(e.postings) == {9, 1}
    && J.AccountSum(e.postings, 9) == -100 && J.AccountSum(e.postings, 1) == 100
    && LS.CurrencyOf(e.postings, 9) == USD && LS.CurrencyOf(e.postings, 1) == USD
  }

  lemma DepositTaken(l: LS.Ledger, e: J.Entry)
    requires Pays100(e) && l == Ledger([], Wallet(0, 0), Wallet(0, 0), LS.Row(USD, LS.System, 0, 0))
    ensures LS.Posted(l, e).Ok?
  {
    assert LT.Takes(l.rows, e.postings, 9) by {
      LT.FaultMeans(l.rows[9], USD, -100);
    }
    assert LT.Takes(l.rows, e.postings, 1) by {
      LT.FaultMeans(l.rows[1], USD, 100);
    }
    LT.PostedOutcome(l, e);
  }

  lemma DepositMoves(l: LS.Ledger, e: J.Entry)
    requires Pays100(e) && l == Ledger([], Wallet(0, 0), Wallet(0, 0), LS.Row(USD, LS.System, 0, 0))
    requires LS.Writable(l.rows, e.postings)
    ensures LT.After(l, e) == Ledger([e], Wallet(100, 1), Wallet(0, 0), LS.Row(USD, LS.System, -100, 1))
  {
    var after, expected := LT.After(l, e), Ledger([e], Wallet(100, 1), Wallet(0, 0), LS.Row(USD, LS.System, -100, 1));
    assert after.rows.Keys == l.rows.Keys && after.journal == expected.journal;
    assert after.rows[1] == expected.rows[1] && after.rows[2] == expected.rows[2] && after.rows[9] == expected.rows[9];
  }

  lemma DepositPosts(l: LS.Ledger, e: J.Entry)
    requires Pays100(e) && l == Ledger([], Wallet(0, 0), Wallet(0, 0), LS.Row(USD, LS.System, 0, 0))
    ensures LS.Posted(l, e) == Ok(Ledger([e], Wallet(100, 1), Wallet(0, 0), LS.Row(USD, LS.System, -100, 1)))
  {
    DepositTaken(l, e);
    LT.PostedParts(l, e);
    DepositMoves(l, e);
  }

  lemma DirectStep(p: Policies, t: Tables, e: J.Entry, ledger: LS.Ledger)
    requires e.id !in t.transfers && LS.Posted(t.ledger, e) == Ok(ledger)
    ensures Step(p, t, PostDirect(e)) == t.(ledger := ledger)
  {
  }

  lemma Funds(p: Policies, t: Tables, e: J.Entry)
    requires t == Opened() && e == DepositEntry()
    ensures Step(p, t, PostDirect(e)) == Funded()
  {
    DepositParts();
    DepositPosts(t.ledger, e);
    DirectStep(p, t, e, Funded().ledger);
  }

  // ---- Accepted and approved ----

  function Pending(): Tables {
    Funded().(transfers := map[3 := W.Row(L.PendingRisk, 1)], events := [W.RequestEvent()])
  }

  lemma Accepts(p: Policies)
    ensures Step(p, Funded(), Accept(W.Row(L.PendingRisk, 1), 100)) == Pending()
  {
    W.TextIsValid();
    var t, l := Funded(), W.Row(L.PendingRisk, 1);
    assert HolderOf(t, 10, "k").None?;
    assert L.Valid(l) && AuthorizationFault(t, l.transfer).None?;
    assert t.ledger.journal[0].id == 50 && LS.Find(t.ledger.journal, 3).None?;
    assert Requested(l) == Ok(W.RequestEvent().draft) && CanAppend(t.events, W.RequestEvent().draft, 100);
    assert t.transfers == map[] && t.events == [];
    assert PendingCreated(t, l, 100).Ok?;
  }

  function ApprovalEvent(): Envelope {
    Envelope(101,
      Draft(RiskAssessedType, 1, TransferAggregate, 3, 2, 3, Some(100), 8, RiskPayload(3, "v", 0, ApproveWord, [])))
  }

  function Approved(): Tables {
    WithAssessment(Pending(), W.Row(L.Approved, 2),
      Assessment(3, 2, 100, P.Input(M.Money(5, USD), 0, false), P.Evaluation("v", 0, P.Approve, []), 8),
      W.RequestEvent(), ApprovalEvent())
  }

  lemma SmallAmountsPass()
    ensures P.Evaluate(DollarPolicies()["v"], Captured(W.Row(L.PendingRisk, 1), Some(0))) ==
      Ok(P.Evaluation("v", 0, P.Approve, []))
  {
    W.TextIsValid();
    assert USD in DollarPolicies()["v"].thresholds;
    assert P.ValidPolicy(DollarPolicies()["v"]);
  }

  lemma AssessedForApproval()
    ensures Assess(DollarPolicies(), Pending(), W.Row(L.PendingRisk, 1), W.RequestEvent(), Some(0), 8, 101) ==
      Ok(Approved())
  {
    W.TextIsValid();
    SmallAmountsPass();
    assert Transition(W.Row(L.PendingRisk, 1), P.Approve) == Ok(W.Row(L.Approved, 2));
  }

  lemma Approves()
    ensures Step(DollarPolicies(), Pending(), AssessRisk(W.RequestEvent(), Some(0), 8, 101)) == Approved()
  {
    AssessedForApproval();
    W.RequestParses();
    assert Load(Pending(), 3) == Ok(W.Row(L.PendingRisk, 1));
    assert RiskHandled(DollarPolicies(), Pending(), W.RequestEvent(), Some(0), 8, 101) == Ok(Approved());
  }

  // ---- Frozen, then settled ----

  function FrozenState(): Tables {
    Approved().(accounts := Accounts(false))
  }

  lemma Freezes(p: Policies)
    ensures Step(p, Approved(), SetActive(1, false)) == FrozenState()
  {
  }

  lemma ReachesFrozen(p: Policies) returns (actions: seq<Action>)
    requires p == DollarPolicies()
    ensures Run(p, actions) == FrozenState()
  {
    actions := Opening(p);
    Funds(p, Opened(), DepositEntry());
    Then(p, actions, Opened(), PostDirect(DepositEntry()), Funded());
    actions := actions + [PostDirect(DepositEntry())];
    Accepts(p);
    Then(p, actions, Funded(), Accept(W.Row(L.PendingRisk, 1), 100), Pending());
    actions := actions + [Accept(W.Row(L.PendingRisk, 1), 100)];
    Approves();
    Then(p, actions, Pending(), AssessRisk(W.RequestEvent(), Some(0), 8, 101), Approved());
    actions := actions + [AssessRisk(W.RequestEvent(), Some(0), 8, 101)];
    Freezes(p);
    Then(p, actions, Approved(), SetActive(1, false), FrozenState());
    actions := actions + [SetActive(1, false)];
  }

  lemma Opening(p: Policies) returns (actions: seq<Action>)
    ensures Run(p, actions) == Opened()
  {
    var a, b, c := OpenAccount(1, 10, USD, LS.Customer), OpenAccount(2, 11, USD, LS.Customer),
      OpenAccount(9, 12, USD, LS.System);
    OpensThree(p);
    var one := Step(p, Empty(), a);
    var two := Step(p, one, b);
    Then(p, [], Empty(), a, one);
    Then(p, [] + [a], one, b, two);
    Then(p, [] + [a] + [b], two, c, Opened());
    actions := [] + [a] + [b] + [c];
  }

  /** The source is frozen after acceptance and before posting; the transfer completes and the frozen account pays. */
  lemma FrozenAccountPays() returns (actions: seq<Action>)
    ensures
      var before := Run(DollarPolicies(), actions);
      var after := Run(DollarPolicies(), actions + [Settle(ApprovalEvent(), 9, 102)]);
      && Inactive(before, 1) && Inactive(after, 1)
      && 3 in before.transfers && before.transfers[3] == W.Row(L.Approved, 2)
      && before.ledger.rows[1].balance == 100 && after.ledger.rows[1].balance == 95
      && 3 in after.transfers && after.transfers[3].status == L.Completed
  {
    var p := DollarPolicies();
    actions := ReachesFrozen(p);
    Pays(p, actions, Settle(ApprovalEvent(), 9, 102));
  }

  lemma Pays(p: Policies, actions: seq<Action>, action: Action)
    requires Run(p, actions) == FrozenState() && action == Settle(ApprovalEvent(), 9, 102)
    ensures
      var before, after := Run(p, actions), Run(p, actions + [action]);
      && Inactive(before, 1) && Inactive(after, 1)
      && 3 in before.transfers && before.transfers[3] == W.Row(L.Approved, 2)
      && before.ledger.rows[1].balance == 100 && after.ledger.rows[1].balance == 95
      && 3 in after.transfers && after.transfers[3].status == L.Completed
  {
    var before, after := Run(p, actions), Run(p, actions + [action]);
    RunKeeps(p, actions);
    RunKeeps(p, actions + [action]);
    RunRouted(p, actions);
    RunSnoc(p, actions, action);
    FrozenFacts();
    StillInactive(p, before, action, 1);
    SettlesFrozen(p, before, action);
    Paid(p, before, after);
  }

  lemma FrozenFacts()
    ensures
      var t := FrozenState();
      && Inactive(t, 1) && Awaiting(t, ApprovalEvent()) && !EventIdUsed(t.events, 102)
      && 3 in t.transfers && t.transfers[3] == W.Row(L.Approved, 2)
      && t.ledger.rows[1] == Wallet(100, 1) && t.ledger.rows[2] == Wallet(0, 0)
  {
    assert FrozenState().events == [W.RequestEvent(), ApprovalEvent()];
    assert FrozenState().events[1] == ApprovalEvent();
  }

  lemma SettlesFrozen(p: Policies, before: Tables, action: Action)
    requires TablesInv(p, before) && AllRouted(before) && before == FrozenState() &&
      action == Settle(ApprovalEvent(), 9, 102)
    ensures
      var after := Step(p, before, action);
      && L.ValidTransfer(W.Intent(3)) && LS.Posted(before.ledger, L.EntryOf(W.Intent(3), 9)).Ok?
      && after.ledger == LS.Posted(before.ledger, L.EntryOf(W.Intent(3), 9)).value
      && 3 in after.transfers
  {
    FrozenFacts();
    AwaitingOutcome(p, before, ApprovalEvent(), 9, 102);
    ApprovedPosts(p, before, 3, 9);
    OtherStepsKeepIntents(p, before, action);
  }

  lemma Paid(policies: Policies, before: Tables, after: Tables)
    requires TablesInv(policies, after) && 3 in after.transfers && 1 in before.ledger.rows &&
      before.ledger.rows[1].balance == 100
    requires L.ValidTransfer(W.Intent(3)) && LS.Posted(before.ledger, L.EntryOf(W.Intent(3), 9)).Ok?
    requires after.ledger == LS.Posted(before.ledger, L.EntryOf(W.Intent(3), 9)).value
    ensures 1 in after.ledger.rows && after.ledger.rows[1].balance == 95 && after.transfers[3].status == L.Completed
  {
    var e := L.EntryOf(W.Intent(3), 9);
    LT.PostedParts(before.ledger, e);
    TransferEntry(W.Intent(3), 9);
    EntryAppended(before.ledger.journal, e, 3);
    assert SliceOk(policies, SliceOf(after, 3), 3, after.inbox);
    MoneyShape(policies, SliceOf(after, 3), 3, after.inbox);
  }
}
