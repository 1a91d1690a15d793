/** Who allowed a posted transfer: a reproducible evaluation, or one analyst on record. */
module Authority {
  import opened Prelude
  import opened Events
  import opened Tables
  import opened Protocol
  import opened ProtocolSteps
  import C = Conflicts
  import L = Lifecycle
  import P = Policy

  /** The stored assessment alone justifies the posting. */
  ghost predicate ClearedByPolicy(policies: Policies, t: Tables, l: L.Lifecycle, a: Assessment) {
    && a.evaluation.decision == P.Approve
    && l.policy in policies && P.Cleared(policies[l.policy], a.input)
    && l.transfer.id !in t.cases && AuditsFor(t.audits, l.transfer.id) == []
  }

  /** Exactly one audit record, the case and the published decision name the same analyst and the same approval. */
  ghost predicate ClearedByAnalyst(t: Tables, l: L.Lifecycle, a: Assessment) {
    var id := l.transfer.id;
    var history := EventsFor(t.events, id);
    && a.evaluation.decision == P.Review
    && id in t.cases && t.cases[id].status.Decided? && t.cases[id].status.approved
    && ValidSubject(t.cases[id].status.actor)
    && AuditsFor(t.audits, id) == [Audit(id, 3, true, t.cases[id].status.actor, t.cases[id].status.at)]
    && |history| == 4
    && history[2].draft.payload == ReviewPayload(id, ApprovedWord, t.cases[id].status.actor)
    && ParseReviewDecided(history[2]) == Ok(ReviewDecision(id, true))
  }

  lemma CompletedWasDecided(policies: Policies, s: Slice, id: Uuid, inbox: set<(Consumer, Uuid)>)
    requires SliceOk(policies, s, id, inbox) && s.row.Some? && s.row.value.status == L.Completed &&
      s.row.value.policy != ""
    ensures |s.assessed| == 1 && |s.history| >= 2
    ensures
      var l, a := s.row.value, s.assessed[0];
      && Reproducible(policies, a, l, s.history[0].id)
      && (|| (a.evaluation.decision == P.Approve && s.review.None? && s.audits == [])
          || (&& a.evaluation.decision == P.Review && s.review.Some?
              && s.review.value.status.Decided? && s.review.value.status.approved
              && DecidedShape(s, l, s.review.value, inbox) && |s.history| == 4))
  {
  }

  /** Authorised posting: every asynchronously completed transfer has one stored assessment of its own amount that
      re-evaluates, under its own policy version, to an approval of an input below every threshold with a live
      velocity count, or to a review that exactly one analyst approved. */
  lemma AuthorisedPosting(policies: Policies, actions: seq<Action>, id: Uuid)
    requires id in Run(policies, actions).transfers
    requires Run(policies, actions).transfers[id].status == L.Completed &&
      Run(policies, actions).transfers[id].policy != ""
    ensures
      var t := Run(policies, actions);
      var l := t.transfers[id];
      && |AssessmentsFor(t.assessments, id)| == 1
      && var a := AssessmentsFor(t.assessments, id)[0];
         && l.policy in policies && a.input.amount == l.transfer.amount
         && P.Evaluate(policies[l.policy], a.input) == Ok(a.evaluation)
         && (ClearedByPolicy(policies, t, l, a) || ClearedByAnalyst(t, l, a))
  {
    RunKeeps(policies, actions);
    var t := Run(policies, actions);
    var l, s := t.transfers[id], SliceOf(t, id);
    CompletedWasDecided(policies, s, id, t.inbox);
    var a := s.assessed[0];
    P.DecisionsExactly(policies[l.policy], a.input);
    if a.evaluation.decision == P.Review {
      var c := s.review.value.status;
      ReviewDecidedRoundTrip(At(l, L.Approved, 3), c.actor, c.at, s.history[2].id);
    }
  }

  // ---- Who can decide ----

  lemma VisibleIsTrimmed(s: string)
    requires ValidSubject(s)
    ensures Trim(s) == s
  {
    assert '!' <= s[0] <= '~' && '!' <= s[|s| - 1] <= '~';
  }

  lemma {:induction false} AuditInHistory(rows: seq<Audit>, i: nat)
    requires i < |rows|
    ensures rows[i] in AuditsFor(rows, rows[i].transfer)
  {
    if i < |rows| - 1 {
      AuditInHistory(rows[..|rows| - 1], i);
    }
  }

  /** A transfer under review has an open case, is at version 2, and no decision on record. */
  lemma UnderReviewIsOpen(policies: Policies, t: Tables, id: Uuid)
    requires TablesInv(policies, t) && id in t.transfers && t.transfers[id].status == L.ReviewRequired
    ensures
      var l := t.transfers[id];
      && L.Valid(l) && l.transfer.id == id && l == At(l, L.ReviewRequired, 2)
      && id in t.cases && t.cases[id].status == Open && !Audited(t.audits, id, 3)
  {
    assert SliceOk(policies, SliceOf(t, id), id, t.inbox);
    forall i | 0 <= i < |t.audits| ensures t.audits[i].transfer != id {
      AuditInHistory(t.audits, i);
    }
  }

  lemma OpenCaseIsDecided(t: Tables, l: L.Lifecycle, who: Principal, id: Uuid, approved: bool, now: Time, newId: Uuid)
    requires who.analyst && ValidSubject(who.subject) && now != 0 && !EventIdUsed(t.events, newId)
    requires id in t.transfers && t.transfers[id] == l && L.Valid(l) && l.transfer.id == id &&
      l == At(l, L.ReviewRequired, 2)
    requires id in t.cases && t.cases[id].status == Open && !Audited(t.audits, id, 3)
    requires forall d: Draft :: d.aggregateId == id && d.aggregateVersion == 3 ==> !EventKeyUsed(t.events, d)
    ensures ReviewDecidedBy(t, who, id, approved, now, newId).Ok?
  {
    VisibleIsTrimmed(who.subject);
    var next := At(l, if approved then L.Approved else L.Declined, 3);
    assert (if approved then L.Approve(l) else L.Decline(l)) == Ok(next);
  }

  /** In every reachable state an analyst's decision is recorded exactly when the subject is visible throughout, the
      transfer is under review, the clock is set and the event identifier is new. A subject with surrounding blanks
      passes the handler's own check, which trims, and is never recorded. */
  lemma DecidesExactly(policies: Policies, actions: seq<Action>, who: Principal, id: Uuid, approved: bool, now: Time,
                       newId: Uuid)
    ensures
      var t := Run(policies, actions);
      ReviewDecidedBy(t, who, id, approved, now, newId).Ok? <==>
        && who.analyst && ValidSubject(who.subject)
        && id in t.transfers && t.transfers[id].status == L.ReviewRequired
        && now != 0 && !EventIdUsed(t.events, newId)
  {
    RunKeeps(policies, actions);
    var t := Run(policies, actions);
    if who.analyst && ValidSubject(who.subject) && id in t.transfers && t.transfers[id].status == L.ReviewRequired
       && now != 0 && !EventIdUsed(t.events, newId) {
      UnderReviewIsOpen(policies, t, id);
      forall d: Draft | d.aggregateId == id && d.aggregateVersion == 3 ensures !EventKeyUsed(t.events, d) {
        C.NextKeyIsFree(policies, t, id, d);
      }
      OpenCaseIsDecided(t, t.transfers[id], who, id, approved, now, newId);
    }
  }
}
