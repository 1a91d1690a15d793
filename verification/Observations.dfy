/** What an assessment captures of its observation, and what the observation decides. */
module Observations {
  import opened Prelude
  import opened Events
  import opened Tables
  import opened Protocol
  import opened ProtocolSteps
  import opened ProtocolTheory
  import opened Acceptance
  import opened Conflicts
  import AU = Authority
  import M = Money
  import L = Lifecycle
  import P = Policy

  // ---- One assessment ----

  /** A live count is stored as observed; a lost one is stored as degraded, with no count. */
  ghost predicate Captures(input: P.Input, tr: L.Transfer, velocity: Option<nat>) {
    && input.amount == tr.amount
    && (match velocity
        case Some(n) => input.velocityCount == n && !input.velocityDegraded
        case None => input.velocityCount == 0 && input.velocityDegraded)
  }

  /** What the observation decides under a threshold: the amount alone declines; a live count below its limit and a
      small amount approve; everything else, a lost observation included, goes to review. */
  function Verdict(p: P.Policy, amount: M.Money, velocity: Option<nat>): L.Status {
    if amount.currency !in p.thresholds then L.ReviewRequired
    else
      var t := p.thresholds[amount.currency];
      if t.declineMinor <= amount.minor then L.Declined
      else if velocity.None? || (0 < t.velocityCount <= velocity.value) ||
        t.reviewMinor <= amount.minor then L.ReviewRequired
      else L.Approved
  }

  /** The stored assessment is of this event and this observation, as the policy evaluates it. */
  ghost predicate Stores(p: P.Policy, a: Assessment, tr: L.Transfer, e: Envelope, velocity: Option<nat>, now: Time) {
    && a.transfer == e.Transfer() && a.version == 2 && a.causation == e.id && a.at == now
    && Captures(a.input, tr, velocity) && P.Evaluate(p, a.input) == Ok(a.evaluation)
  }

  /** One more assessment, of this event and this observation, and the row at the status it decides. */
  ghost predicate AssessedAs(policies: Policies, t: Tables, after: Tables, e: Envelope, velocity: Option<nat>,
                             now: Time) {
    var id := e.Transfer();
    && id in t.transfers && t.transfers[id].policy in policies
    && var l := t.transfers[id];
       && |after.assessments| == |t.assessments| + 1 && after.assessments[..|t.assessments|] == t.assessments
       && Stores(policies[l.policy], after.assessments[|t.assessments|], l.transfer, e, velocity, now)
       && after.transfers == t.transfers[id :=
            L.Lifecycle(l.transfer, Verdict(policies[l.policy], l.transfer.amount, velocity), 2, l.policy, None, None)]
  }

  lemma VerdictIsDecision(policies: Policies, l: L.Lifecycle, velocity: Option<nat>)
    requires l.policy in policies && P.Evaluate(policies[l.policy], Captured(l, velocity)).Ok?
    ensures Captures(Captured(l, velocity), l.transfer, velocity)
    ensures StatusFor(P.Evaluate(policies[l.policy], Captured(l, velocity)).value.decision) ==
      Verdict(policies[l.policy], l.transfer.amount, velocity)
  {
    P.DecisionsExactly(policies[l.policy], Captured(l, velocity));
    var p := policies[l.policy];
    if l.transfer.amount.currency in p.thresholds {
      assert P.ValidThreshold(p.thresholds[l.transfer.amount.currency]);
    }
  }

  lemma AssessmentIs(policies: Policies, t: Tables, l: L.Lifecycle, e: Envelope, velocity: Option<nat>, now: Time,
                     newId: Uuid)
    requires e.Transfer() in t.transfers && t.transfers[e.Transfer()] == l && l.transfer.id == e.Transfer()
    requires l.policy in policies && l == At(l, L.PendingRisk, 1) && Assess(policies, t, l, e, velocity, now, newId).Ok?
    ensures AssessedAs(policies, t, Assess(policies, t, l, e, velocity, now, newId).value, e, velocity, now)
  {
    VerdictIsDecision(policies, l, velocity);
  }

  /** In every reachable state a delivery to the risk worker leaves the assessments and transfers alone, or stores
      exactly its own observation and moves the transfer where that observation decides. */
  lemma ObservationDecides(policies: Policies, actions: seq<Action>, e: Envelope, velocity: Option<nat>, now: Time,
                           newId: Uuid)
    ensures
      var t := Run(policies, actions);
      var after := Step(policies, t, AssessRisk(e, velocity, now, newId));
      after == t || AssessedAs(policies, t, after, e, velocity, now)
  {
    var t := Run(policies, actions);
    RunKeeps(policies, actions);
    if e in t.events && RiskHandled(policies, t, e, velocity, now, newId).Ok? && (RiskConsumer, e.id) !in t.inbox {
      EventHasRow(policies, t, e);
      var l := t.transfers[e.Transfer()];
      PendingSlice(policies, t, l, e);
      AssessmentIs(policies, t, l, e, velocity, now, newId);
    }
  }

  /** A count at or above its limit sends any amount below the decline threshold to review. */
  lemma FastSendersAreReviewed(policies: Policies, actions: seq<Action>, e: Envelope, n: nat, now: Time, newId: Uuid)
    requires
      var t := Run(policies, actions);
      && Step(policies, t, AssessRisk(e, Some(n), now, newId)) != t
      && e.Transfer() in t.transfers && t.transfers[e.Transfer()].policy in policies
      && var l := t.transfers[e.Transfer()];
         && l.transfer.amount.currency in policies[l.policy].thresholds
         && var limit := policies[l.policy].thresholds[l.transfer.amount.currency];
            0 < limit.velocityCount <= n && l.transfer.amount.minor < limit.declineMinor
    ensures
      var after := Step(policies, Run(policies, actions), AssessRisk(e, Some(n), now, newId));
      e.Transfer() in after.transfers && after.transfers[e.Transfer()].status == L.ReviewRequired
  {
    ObservationDecides(policies, actions, e, Some(n), now, newId);
  }

  // ---- What is on record was observed ----

  /** The action observed this and stored it as the assessment. */
  ghost predicate ObservedIn(actions: seq<Action>, i: nat, a: Assessment, velocity: Option<nat>) {
    && i < |actions| && actions[i].AssessRisk?
    && actions[i].event.id == a.causation && actions[i].event.Transfer() == a.transfer
    && actions[i].velocity == velocity && actions[i].now == a.at
    && a.input.velocityDegraded == velocity.None? && (velocity.Some? ==> a.input.velocityCount == velocity.value)
  }

  /** A step that is not an assessment stores none. */
  lemma OnlyAssessmentsAssess(policies: Policies, t: Tables, a: Action)
    requires !a.AssessRisk?
    ensures Step(policies, t, a).assessments == t.assessments
  {
    match a
    case Settle(e, now, newId) => SettleAssessesNothing(t, e, now, newId);
    case Transact(tr, newId) => CreateAssessesNothing(t, tr, newId);
    case Accept(_, _) =>
    case DecideReview(_, _, _, _, _) =>
    case PostDirect(_) =>
    case OpenAccount(_, _, _, _) =>
    case SetActive(_, _) =>
  }

  lemma SettleAssessesNothing(t: Tables, e: Envelope, now: Time, newId: Uuid)
    ensures OrElse(TransactionHandled(t, e, now, newId), t).assessments == t.assessments
  {
    DeliveryCases(t, e, now, newId);
    var r := TransactionHandled(t, e, now, newId);
    if r.Ok? && (TransactionConsumer, e.id) !in t.inbox && t.transfers[e.Transfer()].status == L.Approved {
      PostConcludes(Consumed(t, e), t.transfers[e.Transfer()], e.id, now, newId);
    }
  }

  lemma CreateAssessesNothing(t: Tables, tr: L.Transfer, newId: Uuid)
    ensures AcceptedOrElse(Created(t, tr, newId), t).assessments == t.assessments
  {
  }

  /** Every stored assessment of a run records what an action of the run observed. */
  lemma {:induction false} AssessmentWasObserved(policies: Policies, actions: seq<Action>, k: nat)
    returns (i: nat, velocity: Option<nat>)
    requires k < |Run(policies, actions).assessments|
    ensures ObservedIn(actions, i, Run(policies, actions).assessments[k], velocity)
  {
    var init, last := actions[..|actions| - 1], actions[|actions| - 1];
    assert actions == init + [last];
    var t := Run(policies, init);
    if k < |t.assessments| {
      i, velocity := AssessmentWasObserved(policies, init, k);
      AssessmentsStay(policies, init, last);
    } else {
      if !last.AssessRisk? {
        OnlyAssessmentsAssess(policies, t, last);
      }
      i, velocity := |init|, last.velocity;
      ObservationDecides(policies, init, last.event, last.velocity, last.now, last.newId);
    }
  }

  lemma AssessmentsStay(policies: Policies, init: seq<Action>, last: Action)
    ensures
      var t, after := Run(policies, init), Run(policies, init + [last]);
      |t.assessments| <= |after.assessments| && after.assessments[..|t.assessments|] == t.assessments
  {
    RunSnoc(policies, init, last);
    var t := Run(policies, init);
    if last.AssessRisk? {
      ObservationDecides(policies, init, last.event, last.velocity, last.now, last.newId);
    } else {
      OnlyAssessmentsAssess(policies, t, last);
    }
    assert t.assessments[..|t.assessments|] == t.assessments;
  }

  lemma {:induction false} AssessmentStored(rows: seq<Assessment>, id: Uuid, k: nat) returns (i: nat)
    requires k < |AssessmentsFor(rows, id)|
    ensures i < |rows| && rows[i] == AssessmentsFor(rows, id)[k]
  {
    var init := rows[..|rows| - 1];
    if k < |AssessmentsFor(init, id)| {
      i := AssessmentStored(init, id, k);
    } else {
      i := |init|;
    }
  }

  /** A transfer completed on its assessment alone was really observed: some delivery of the run saw a live count, below
      the limit of the transfer's own policy if that has one, and the amount is below both thresholds. */
  lemma ClearedWasObserved(policies: Policies, actions: seq<Action>, id: Uuid) returns (i: nat, n: nat)
    requires id in Run(policies, actions).transfers && id !in Run(policies, actions).cases
    requires Run(policies, actions).transfers[id].status == L.Completed &&
      Run(policies, actions).transfers[id].policy != ""
    ensures
      var l := Run(policies, actions).transfers[id];
      && i < |actions| && actions[i].AssessRisk? && actions[i].event.Transfer() == id && actions[i].velocity == Some(n)
      && l.policy in policies && l.transfer.amount.currency in policies[l.policy].thresholds
      && var limit := policies[l.policy].thresholds[l.transfer.amount.currency];
         && l.transfer.amount.minor < limit.reviewMinor
         && (limit.velocityCount > 0 ==> n < limit.velocityCount)
  {
    AU.AuthorisedPosting(policies, actions, id);
    RunKeeps(policies, actions);
    var t := Run(policies, actions);
    assert SliceOk(policies, SliceOf(t, id), id, t.inbox);
    var a := AssessmentsFor(t.assessments, id)[0];
    AssessmentForTransfer(t.assessments, id, 0);
    var k := AssessmentStored(t.assessments, id, 0);
    var velocity;
    i, velocity := AssessmentWasObserved(policies, actions, k);
    n := velocity.value;
  }

  lemma {:induction false} AssessmentForTransfer(rows: seq<Assessment>, id: Uuid, k: nat)
    requires k < |AssessmentsFor(rows, id)|
    ensures AssessmentsFor(rows, id)[k].transfer == id
  {
    var init := rows[..|rows| - 1];
    if k < |AssessmentsFor(init, id)| {
      AssessmentForTransfer(init, id, k);
    }
  }
}
