/** Concrete runs that show where the code stops short of what one might expect. */
module Witnesses {
  import opened Prelude
  import opened Events
  import opened Tables
  import opened Protocol
  import opened Acceptance
  import opened Conflicts
  import M = Money
  import L = Lifecycle
  import P = Policy
  import LS = LedgerSpec

  const USD := "USD"
  const EUR := "EUR"

  /** A policy that knows no dollars, so that every dollar transfer needs review. */
  function EuroPolicies(): Policies {
    map["v" := P.Policy("v", map[EUR := P.Threshold(EUR, 1, 1, 0)])]
  }

  function Intent(id: Uuid): L.Transfer {
    L.Transfer(id, "k", 10, 1, 2, M.Money(5, USD), 7)
  }

  function Row(status: L.Status, version: int): L.Lifecycle {
    L.Lifecycle(Intent(3), status, version, "v", None, None)
  }

  function RequestEvent(): Envelope {
    Envelope(100,
      Draft(RequestedType, 1, TransferAggregate, 3, 1, 3, None, 7, RequestedPayload(3, 10, 1, 2, USD, 5, 7, "v")))
  }

  function AssessedEvent(): Envelope {
    Envelope(101, Draft(RiskAssessedType, 1, TransferAggregate, 3, 2, 3, Some(100), 8,
                        RiskPayload(3, "v", 500, ReviewWord, [P.Signal(P.CurrencyPolicyMissing, 500)])))
  }

  function Opening(): seq<Action> {
    [OpenAccount(1, 10, USD, LS.Customer), OpenAccount(2, 11, USD, LS.Customer)]
  }

  function TwoAccounts(): Tables {
    Tables(LS.Ledger([], map[1 := LS.Row(USD, LS.Customer, 0, 0), 2 := LS.Row(USD, LS.Customer, 0, 0)]),
           map[1 := Account(10, true), 2 := Account(11, true)], map[], [], {}, [], map[], [])
  }

  lemma TextIsValid()
    ensures M.ValidCurrency(USD) && M.ValidCurrency(EUR) && L.Visible("k") && L.ValidPolicyVersion("v")
    ensures ValidSubject("a") && Trim("a") == "a"
  {
  }

  lemma Opened()
    ensures Run(EuroPolicies(), Opening()) == TwoAccounts()
  {
    var first := Opening()[0];
    assert Opening()[..1] == [first] && [first][..0] == [];
    assert Run(EuroPolicies(), []) == Empty();
    assert Run(EuroPolicies(), [first]) == Step(EuroPolicies(), Empty(), first);
  }

  function Pending(): Tables {
    TwoAccounts().(transfers := map[3 := Row(L.PendingRisk, 1)], events := [RequestEvent()])
  }

  function Accepting(): seq<Action> {
    Opening() + [Accept(Row(L.PendingRisk, 1), 100)]
  }

  lemma AcceptedPending()
    ensures Run(EuroPolicies(), Accepting()) == Pending()
  {
    Opened();
    TextIsValid();
    RunSnoc(EuroPolicies(), Opening(), Accept(Row(L.PendingRisk, 1), 100));
    var t, l := TwoAccounts(), Row(L.PendingRisk, 1);
    assert HolderOf(t, 10, "k").None?;
    assert L.Valid(l) && AuthorizationFault(t, l.transfer).None?;
    assert PendingCreated(t, l, 100).Ok?;
  }

  /** A key shared between the two creation paths: a synchronous creation answers with a transfer that is still
      pending and for which nothing has been posted. */
  lemma SharedKeyAnswersWithoutMoney()
    ensures
      var t := Run(EuroPolicies(), Accepting());
      var r := Created(t, Intent(4), 101);
      && r == Ok(Accepted(t, Row(L.PendingRisk, 1)))
      && EntriesFor(t.ledger.journal, 3) == []
  {
    AcceptedPending();
    TextIsValid();
    var t := Pending();
    assert HoldsKey(t.transfers[3], 10, "k");
    assert HolderOf(t, 10, "k").Some?;
    assert t.transfers.Keys == {3};
  }

  function UnderReview(): Tables {
    WithAssessment(Pending(), Row(L.ReviewRequired, 2),
      Assessment(3, 2, 100, P.Input(M.Money(5, USD), 0, false),
        P.Evaluation("v", 500, P.Review, [P.Signal(P.CurrencyPolicyMissing, 500)]), 8),
      RequestEvent(), AssessedEvent())
  }

  function Assessing(): seq<Action> {
    Accepting() + [AssessRisk(RequestEvent(), Some(0), 8, 101)]
  }

  lemma EuroPolicyReviewsDollars()
    ensures P.Evaluate(EuroPolicies()["v"], Captured(Row(L.PendingRisk, 1), Some(0))) ==
      Ok(P.Evaluation("v", 500, P.Review, [P.Signal(P.CurrencyPolicyMissing, 500)]))
  {
    TextIsValid();
    assert EUR in EuroPolicies()["v"].thresholds;
    assert P.ValidPolicy(EuroPolicies()["v"]);
  }

  lemma AssessedForReview()
    ensures Assess(EuroPolicies(), Pending(), Row(L.PendingRisk, 1), RequestEvent(), Some(0), 8, 101) ==
      Ok(UnderReview())
  {
    TextIsValid();
    EuroPolicyReviewsDollars();
    assert Transition(Row(L.PendingRisk, 1), P.Review) == Ok(Row(L.ReviewRequired, 2));
  }

  lemma RequestParses()
    ensures ParseRequested(RequestEvent()).Ok? && ParseRequested(RequestEvent()).value.policy == "v"
    ensures ParseRequested(RequestEvent()).value.transfer.id == 3
    ensures SameRequest(Row(L.PendingRisk, 1), ParseRequested(RequestEvent()).value)
    ensures Load(Pending(), 3) == Ok(Row(L.PendingRisk, 1))
  {
    TextIsValid();
    RequestedRoundTrip(Row(L.PendingRisk, 1), 100);
  }

  lemma NeedsReview()
    ensures Run(EuroPolicies(), Assessing()) == UnderReview()
  {
    AcceptedPending();
    RunSnoc(EuroPolicies(), Accepting(), AssessRisk(RequestEvent(), Some(0), 8, 101));
    AssessedForReview();
    RequestParses();
    assert RiskHandled(EuroPolicies(), Pending(), RequestEvent(), Some(0), 8, 101) == Ok(UnderReview());
  }

  function Deciding(): seq<Action> {
    Assessing() + [DecideReview(Principal("a", true), 3, true, 9, 102)]
  }

  function DecidedEvent(): Envelope {
    Envelope(102, Draft(ReviewDecidedType, 1, TransferAggregate, 3, 3, 3, None, 9, ReviewPayload(3, ApprovedWord, "a")))
  }

  lemma AnalystDecides()
    ensures
      ReviewDecidedBy(UnderReview(), Principal("a", true), 3, true, 9, 102) ==
        Ok(WithDecision(UnderReview(), Row(L.Approved, 3), true, "a", 9, DecidedEvent()))
  {
    TextIsValid();
    var t, l := UnderReview(), Row(L.ReviewRequired, 2);
    assert t.transfers[3] == l && L.Valid(l) && t.cases[3] == ReviewCase(2, Open);
    assert L.Approve(l) == Ok(Row(L.Approved, 3));
    assert t.events == [RequestEvent(), AssessedEvent()] && t.audits == [];
  }

  lemma DecidedBeforeDelivery()
    ensures Overtaken(WithDecision(UnderReview(), Row(L.Approved, 3), true, "a", 9, DecidedEvent()), AssessedEvent())
  {
  }

  /** The conflict happens: an analyst decides before the request for review is delivered, and no delivery of it
      succeeds. */
  lemma OvertakingIsReachable(now: Time, newId: Uuid)
    ensures AssessedEvent() in Run(EuroPolicies(), Deciding()).events
    ensures Overtaken(Run(EuroPolicies(), Deciding()), AssessedEvent())
    ensures TransactionHandled(Run(EuroPolicies(), Deciding()), AssessedEvent(), now, newId) == Err(StateConflict)
  {
    NeedsReview();
    AnalystDecides();
    DecidedBeforeDelivery();
    RunSnoc(EuroPolicies(), Assessing(), DecideReview(Principal("a", true), 3, true, 9, 102));
    var decided := WithDecision(UnderReview(), Row(L.Approved, 3), true, "a", 9, DecidedEvent());
    assert decided.events[1] == AssessedEvent();
    ConflictIffOvertaken(EuroPolicies(), Deciding(), AssessedEvent(), now, newId);
  }

  /** A padded subject passes the handler's check, which trims, and is refused by the case's columns, on a transfer
      that a plain subject could decide. */
  lemma PaddedSubjectIsRefused()
    ensures ValidSubject(Trim(" a")) && !ValidSubject(" a")
    ensures
      var t := Run(EuroPolicies(), Assessing());
      && ReviewDecidedBy(t, Principal(" a", true), 3, true, 9, 102) == Err(ConstraintViolation)
      && ReviewDecidedBy(t, Principal("a", true), 3, true, 9, 102).Ok?
  {
    TextIsValid();
    NeedsReview();
    AnalystDecides();
    assert TrimLeft(" a") == "a" by {
      assert " a"[1..] == "a";
    }
    assert " a"[0] == ' ';
    PaddedDecision();
  }

  lemma PaddedDecision()
    requires ValidSubject(Trim(" a")) && !ValidSubject(" a")
    ensures ReviewDecidedBy(UnderReview(), Principal(" a", true), 3, true, 9, 102) == Err(ConstraintViolation)
  {
    TextIsValid();
    var t, l := UnderReview(), Row(L.ReviewRequired, 2);
    assert t.transfers[3] == l && L.Valid(l) && t.cases[3] == ReviewCase(2, Open);
    assert L.Approve(l) == Ok(Row(L.Approved, 3));
  }
}
