/** What an analyst's decision records, and that what is on record is what an analyst decided. */
module Decisions {
  import opened Prelude
  import opened Events
  import opened Tables
  import opened Protocol
  import opened ProtocolSteps
  import opened ProtocolTheory
  import opened Acceptance
  import AU = Authority
  import C = Conflicts
  import FZ = Frozen
  import L = Lifecycle

  // ---- One decision ----

  /** The caller's own decision on the row, the case, one audit record and one event, and nothing else anywhere. */
  ghost predicate Recorded(t: Tables, after: Tables, subject: string, id: Uuid, approved: bool, now: Time,
                           newId: Uuid) {
    && id in t.transfers && id in t.cases
    && var l := t.transfers[id];
       after == t.(
         transfers := t.transfers[id := L.Lifecycle(
           l.transfer, if approved then L.Approved else L.Declined, 3, l.policy, None, None)],
         cases := t.cases[id := ReviewCase(t.cases[id].assessmentVersion, Decided(approved, subject, now))],
         audits := t.audits + [Audit(id, 3, approved, subject, now)],
         events := t.events + [Envelope(newId, Draft(
           ReviewDecidedType, 1, TransferAggregate, id, 3, id, None, now,
           ReviewPayload(id, if approved then ApprovedWord else DeclinedWord, subject)))])
  }

  lemma DecisionRecords(t: Tables, who: Principal, id: Uuid, approved: bool, now: Time, newId: Uuid)
    requires id in t.transfers && t.transfers[id] == At(t.transfers[id], L.ReviewRequired, 2)
    ensures
      var r := ReviewDecidedBy(t, who, id, approved, now, newId);
      r.Ok? ==> Recorded(t, r.value, who.subject, id, approved, now, newId)
  {
  }

  /** In every reachable state a decision either changes nothing or records exactly what the caller decided: approved
      only if the caller approved, declined only if the caller declined, under the caller's name and time. */
  lemma DecisionIsRecorded(policies: Policies, actions: seq<Action>, who: Principal, id: Uuid, approved: bool,
                           now: Time, newId: Uuid)
    ensures
      var t := Run(policies, actions);
      var after := Step(policies, t, DecideReview(who, id, approved, now, newId));
      after == t || (who.analyst && Recorded(t, after, who.subject, id, approved, now, newId))
  {
    var t := Run(policies, actions);
    RunKeeps(policies, actions);
    if ReviewDecidedBy(t, who, id, approved, now, newId).Ok? {
      AU.UnderReviewIsOpen(policies, t, id);
      DecisionRecords(t, who, id, approved, now, newId);
    }
  }

  // ---- What is on record was decided ----

  /** The action decided the transfer this way, and changed the tables by doing so. */
  ghost predicate DecidedIn(policies: Policies, actions: seq<Action>, i: nat, id: Uuid, approved: bool, actor: string,
                            at: Time) {
    && i < |actions| && actions[i].DecideReview?
    && actions[i].who == Principal(actor, true) && actions[i].id == id
    && actions[i].approved == approved && actions[i].now == at
    && Run(policies, actions[..i + 1]) != Run(policies, actions[..i])
  }

  lemma DecidedInStays(policies: Policies, actions: seq<Action>, a: Action, i: nat, id: Uuid, approved: bool,
                       actor: string, at: Time)
    requires DecidedIn(policies, actions, i, id, approved, actor, at)
    ensures DecidedIn(policies, actions + [a], i, id, approved, actor, at)
  {
    assert (actions + [a])[..i] == actions[..i] && (actions + [a])[..i + 1] == actions[..i + 1];
  }

  /** A step that is not a decision leaves decided cases as they were, and decides none. */
  lemma OnlyDecisionsDecide(policies: Policies, t: Tables, a: Action, id: Uuid)
    requires TablesInv(policies, t) && !a.DecideReview?
    requires id in Step(policies, t, a).cases && Step(policies, t, a).cases[id].status.Decided?
    ensures id in t.cases && t.cases[id] == Step(policies, t, a).cases[id]
  {
    if Admissible(t, a) {
      match a
      case AssessRisk(e, velocity, now, newId) => AssessmentOpens(policies, t, e, velocity, now, newId, id);
      case Settle(e, now, newId) => C.SettlementFrame(t, e, now, newId);
      case Transact(tr, newId) => C.CreatedFrame(t, tr, newId);
      case Accept(l, newId) =>
      case PostDirect(_) =>
      case OpenAccount(_, _, _, _) =>
      case SetActive(_, _) =>
    }
  }

  lemma AssessmentOpens(policies: Policies, t: Tables, e: Envelope, velocity: Option<nat>, now: Time, newId: Uuid,
                        id: Uuid)
    ensures
      var r := RiskHandled(policies, t, e, velocity, now, newId);
      r.Ok? && id in r.value.cases && r.value.cases[id].status.Decided? ==>
        id in t.cases && t.cases[id] == r.value.cases[id]
  {
  }

  /** Every decided case of a run was decided, with exactly its outcome, actor and time, by an action of the run. */
  lemma {:induction false} CaseWasDecided(policies: Policies, actions: seq<Action>, id: Uuid) returns (i: nat)
    requires id in Run(policies, actions).cases && Run(policies, actions).cases[id].status.Decided?
    ensures
      var s := Run(policies, actions).cases[id].status;
      DecidedIn(policies, actions, i, id, s.approved, s.actor, s.at)
  {
    var init, last := actions[..|actions| - 1], actions[|actions| - 1];
    assert actions == init + [last];
    var t, after := Run(policies, init), Run(policies, actions);
    RunKeeps(policies, init);
    if id in t.cases && t.cases[id] == after.cases[id] {
      i := CaseWasDecided(policies, init, id);
      var s := after.cases[id].status;
      DecidedInStays(policies, init, last, i, id, s.approved, s.actor, s.at);
    } else {
      if !last.DecideReview? {
        OnlyDecisionsDecide(policies, t, last, id);
      }
      i := |init|;
      LastDecided(policies, init, last, id);
    }
  }

  lemma LastDecided(policies: Policies, init: seq<Action>, last: Action, id: Uuid)
    requires
      var t, after := Run(policies, init), Run(policies, init + [last]);
      && last.DecideReview? && id in after.cases && after.cases[id].status.Decided?
      && !(id in t.cases && t.cases[id] == after.cases[id])
    ensures
      var s := Run(policies, init + [last]).cases[id].status;
      DecidedIn(policies, init + [last], |init|, id, s.approved, s.actor, s.at)
  {
    RunSnoc(policies, init, last);
    DecisionIsRecorded(policies, init, last.who, last.id, last.approved, last.now, last.newId);
    assert (init + [last])[..|init|] == init && (init + [last])[..|init| + 1] == init + [last];
  }

  /** A transfer completed after review was approved by an analyst in the run: the decision that moved the tables said
      approved, by the very actor and at the very time the case and the audit record name. */
  lemma CompletedAfterReviewWasApproved(policies: Policies, actions: seq<Action>, id: Uuid) returns (i: nat)
    requires id in Run(policies, actions).transfers && Run(policies, actions).transfers[id].status == L.Completed
    requires id in Run(policies, actions).cases
    ensures Run(policies, actions).cases[id].status.Decided?
    ensures
      var s := Run(policies, actions).cases[id].status;
      s.approved && DecidedIn(policies, actions, i, id, true, s.actor, s.at)
  {
    RunKeeps(policies, actions);
    var t := Run(policies, actions);
    assert SliceOk(policies, SliceOf(t, id), id, t.inbox);
    CompletedHasPolicy(policies, SliceOf(t, id), id, t.inbox);
    AU.CompletedWasDecided(policies, SliceOf(t, id), id, t.inbox);
    i := CaseWasDecided(policies, actions, id);
  }

  lemma CompletedHasPolicy(policies: Policies, s: Slice, id: Uuid, inbox: set<(Consumer, Uuid)>)
    requires SliceOk(policies, s, id, inbox) && s.row.Some? && s.review.Some?
    ensures s.row.value.policy != ""
  {
  }

  /** A recorded decline is the end: in every continuation the transfer stays declined and nothing is posted for it. */
  lemma DeclinedNeverCompletes(policies: Policies, actions: seq<Action>, more: seq<Action>, who: Principal, id: Uuid,
                               now: Time, newId: Uuid)
    requires
      var t := Run(policies, actions);
      Step(policies, t, DecideReview(who, id, false, now, newId)) != t
    ensures
      var later := Run(policies, actions + [DecideReview(who, id, false, now, newId)] + more);
      && id in later.transfers && later.transfers[id].status == L.Declined
      && EntriesFor(later.ledger.journal, id) == []
  {
    var decide := DecideReview(who, id, false, now, newId);
    DecisionIsRecorded(policies, actions, who, id, false, now, newId);
    RunSnoc(policies, actions, decide);
    ConcludedForever(policies, actions + [decide], more, id);
    RunKeeps(policies, actions + [decide] + more);
    var later := Run(policies, actions + [decide] + more);
    assert SliceOk(policies, SliceOf(later, id), id, later.inbox);
    MoneyShape(policies, SliceOf(later, id), id, later.inbox);
  }

  /** A concluded transfer keeps its row in every continuation of the run. */
  lemma {:induction false} ConcludedForever(policies: Policies, actions: seq<Action>, more: seq<Action>, id: Uuid)
    requires id in Run(policies, actions).transfers && !FZ.InFlight(Run(policies, actions).transfers[id].status)
    ensures
      var before, after := Run(policies, actions), Run(policies, actions + more);
      id in after.transfers && after.transfers[id] == before.transfers[id]
    decreases |more|
  {
    if more == [] {
      assert actions + more == actions;
    } else {
      var init, last := more[..|more| - 1], more[|more| - 1];
      assert actions + more == actions + init + [last];
      ConcludedForever(policies, actions, init, id);
      ConcludedOnce(policies, actions + init, last, id);
    }
  }

  lemma ConcludedOnce(policies: Policies, actions: seq<Action>, a: Action, id: Uuid)
    requires id in Run(policies, actions).transfers && !FZ.InFlight(Run(policies, actions).transfers[id].status)
    ensures
      var before, after := Run(policies, actions), Run(policies, actions + [a]);
      id in after.transfers && after.transfers[id] == before.transfers[id]
  {
    RunSnoc(policies, actions, a);
    RunKeeps(policies, actions);
    FZ.ConcludedIsFinal(policies, Run(policies, actions), a, id);
  }
}
