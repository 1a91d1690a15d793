/** Deterministic risk policies and their evaluation. */
module Policy {
  import opened Prelude
  import M = Money
  import L = Lifecycle

  const MAX_SCORE := 1000
  const REVIEW_SCORE := 600
  const MISSING_POLICY_SCORE := 500
  const VELOCITY_SCORE := 700

  datatype Decision = Approve | Review | Decline

  datatype SignalCode =
    | AmountReviewThreshold
    | AmountDeclineThreshold
    | CurrencyPolicyMissing
    | VelocityUnavailable
    | VelocityReviewThreshold

  datatype Signal = Signal(code: SignalCode, contribution: int)

  datatype Threshold = Threshold(currency: M.Currency, reviewMinor: Int64, declineMinor: Int64, velocityCount: int)

  datatype Policy = Policy(version: string, thresholds: map<M.Currency, Threshold>)

  datatype Input = Input(amount: M.Money, velocityCount: int, velocityDegraded: bool)

  datatype Evaluation = Evaluation(policyVersion: string, score: int, decision: Decision, signals: seq<Signal>)

  datatype PolicyError = InvalidPolicy | InvalidInput

  predicate ValidThreshold(t: Threshold) {
    M.ValidCurrency(t.currency) && t.reviewMinor > 0 && t.declineMinor >= t.reviewMinor && t.velocityCount >= 0
  }

  predicate ValidPolicy(p: Policy) {
    && L.ValidPolicyVersion(p.version)
    && p.thresholds != map[]
    && forall c :: c in p.thresholds ==> p.thresholds[c].currency == c && ValidThreshold(p.thresholds[c])
  }

  predicate DistinctCurrencies(ts: seq<Threshold>) {
    forall i, j :: 0 <= i < j < |ts| ==> ts[i].currency != ts[j].currency
  }

  /** Builds the threshold map entry by entry; exactly the nonempty, valid, duplicate-free lists are accepted. */
  method NewPolicy(version: string, ts: seq<Threshold>) returns (r: Result<Policy, PolicyError>)
    ensures r.Ok? <==>
      L.ValidPolicyVersion(version) && ts != [] && DistinctCurrencies(ts) && forall i :: 0 <= i < |ts| ==>
        ValidThreshold(ts[i])
    ensures r.Ok? ==> ValidPolicy(r.value) && r.value.version == version
    ensures r.Ok? ==> forall c :: c in r.value.thresholds <==> exists i :: 0 <= i < |ts| && ts[i].currency == c
    ensures r.Ok? ==> forall i :: 0 <= i < |ts| ==> r.value.thresholds[ts[i].currency] == ts[i]
  {
    if !L.ValidPolicyVersion(version) || |ts| == 0 {
      return Err(InvalidPolicy);
    }
    var thresholds: map<M.Currency, Threshold> := map[];
    for i := 0 to |ts|
      invariant forall k :: 0 <= k < i ==> ValidThreshold(ts[k])
      invariant forall k :: 0 <= k < i ==> ts[k].currency in thresholds && thresholds[ts[k].currency] == ts[k]
      invariant forall c :: c in thresholds ==> exists k :: 0 <= k < i && ts[k].currency == c
      invariant DistinctCurrencies(ts[..i])
    {
      if !ValidThreshold(ts[i]) {
        return Err(InvalidPolicy);
      }
      if ts[i].currency in thresholds {
        return Err(InvalidPolicy);
      }
      thresholds := thresholds[ts[i].currency := ts[i]];
    }
    assert ts[..|ts|] == ts;
    assert ts[0].currency in thresholds;
    return Ok(Policy(version, thresholds));
  }

  function One(p: Policy, score: int, decision: Decision, code: SignalCode): Evaluation {
    Evaluation(p.version, score, decision, [Signal(code, score)])
  }

  function Evaluate(p: Policy, input: Input): Result<Evaluation, PolicyError> {
    if !ValidPolicy(p) then Err(InvalidPolicy)
    else if !M.ValidCurrency(input.amount.currency) || input.amount.minor <= 0 ||
      input.velocityCount < 0 then Err(InvalidInput)
    else if input.amount.currency !in p.thresholds then
      if input.velocityDegraded then Ok(One(p, VELOCITY_SCORE, Review, VelocityUnavailable))
      else Ok(One(p, MISSING_POLICY_SCORE, Review, CurrencyPolicyMissing))
    else
      var t := p.thresholds[input.amount.currency];
      if input.amount.minor >= t.declineMinor then Ok(One(p, MAX_SCORE, Decline, AmountDeclineThreshold))
      else if input.velocityDegraded then Ok(One(p, VELOCITY_SCORE, Review, VelocityUnavailable))
      else if t.velocityCount > 0 && input.velocityCount >= t.velocityCount then
        Ok(One(p, VELOCITY_SCORE, Review, VelocityReviewThreshold))
      else if input.amount.minor >= t.reviewMinor then Ok(One(p, REVIEW_SCORE, Review, AmountReviewThreshold))
      else Ok(Evaluation(p.version, 0, Approve, []))
  }

  /** What an approval certifies about the captured input. */
  predicate Cleared(p: Policy, input: Input) {
    && input.amount.currency in p.thresholds
    && !input.velocityDegraded
    && input.amount.minor < p.thresholds[input.amount.currency].reviewMinor
    && (p.thresholds[input.amount.currency].velocityCount > 0 ==>
          input.velocityCount < p.thresholds[input.amount.currency].velocityCount)
  }

  /** Approval, decline and review are exactly these conditions, for every valid policy and input. */
  lemma DecisionsExactly(p: Policy, input: Input)
    requires Evaluate(p, input).Ok?
    ensures Evaluate(p, input).value.decision == Approve <==> Cleared(p, input)
    ensures Evaluate(p, input).value.decision == Decline <==>
      input.amount.currency in p.thresholds && input.amount.minor >= p.thresholds[input.amount.currency].declineMinor
    ensures Evaluate(p, input).value.score == 0 <==> Evaluate(p, input).value.decision == Approve
    ensures 0 <= Evaluate(p, input).value.score <= MAX_SCORE
  {
    if input.amount.currency in p.thresholds {
      assert ValidThreshold(p.thresholds[input.amount.currency]);
    }
  }

  /** Every score is explained: nothing for an approval, and otherwise one signal that carries the whole score and names
      the reason. The amount's decline threshold comes first, then a lost observation, the count, the amount's review
      threshold, and a currency the policy does not know. */
  lemma ScoreIsExplained(p: Policy, input: Input)
    requires Evaluate(p, input).Ok?
    ensures
      var e := Evaluate(p, input).value;
      var known := input.amount.currency in p.thresholds;
      && e.policyVersion == p.version
      && (e.decision == Approve <==> e.signals == []) && (e.decision == Approve ==> e.score == 0)
      && (e.decision != Approve ==> e.signals == [Signal(e.signals[0].code, e.score)])
      && (e.score == 1000 <==> known && input.amount.minor >= p.thresholds[input.amount.currency].declineMinor)
      && (e.score == 1000 ==> e.signals[0].code == AmountDeclineThreshold)
      && (e.score != 1000 && input.velocityDegraded ==> e.score == 700 && e.signals[0].code == VelocityUnavailable)
      && (e.score == 500 <==> !known && !input.velocityDegraded)
      && (e.score == 500 ==> e.signals[0].code == CurrencyPolicyMissing)
    ensures
      var e := Evaluate(p, input).value;
      e.score != 1000 && !input.velocityDegraded && input.amount.currency in p.thresholds ==>
        var t := p.thresholds[input.amount.currency];
        var fast := 0 < t.velocityCount <= input.velocityCount;
        && (fast ==> e.score == 700 && e.signals[0].code == VelocityReviewThreshold)
        && (!fast && t.reviewMinor <= input.amount.minor ==>
          e.score == 600 && e.signals[0].code == AmountReviewThreshold)
  {
    if input.amount.currency in p.thresholds {
      assert ValidThreshold(p.thresholds[input.amount.currency]);
    }
  }

  function Severity(d: Decision): int {
    match d
    case Approve => 0
    case Review => 1
    case Decline => 2
  }

  /** The engine fails safe: a larger amount, a higher count or a lost observation never lowers the score
      or softens the decision. */
  lemma EvaluationMonotone(p: Policy, input: Input, worse: Input)
    requires Evaluate(p, input).Ok? && Evaluate(p, worse).Ok?
    requires worse.amount.currency == input.amount.currency && worse.amount.minor >= input.amount.minor
    requires worse.velocityDegraded || (!input.velocityDegraded && worse.velocityCount >= input.velocityCount)
    ensures Evaluate(p, worse).value.score >= Evaluate(p, input).value.score
    ensures Severity(Evaluate(p, worse).value.decision) >= Severity(Evaluate(p, input).value.decision)
  {
    if input.amount.currency in p.thresholds {
      assert ValidThreshold(p.thresholds[input.amount.currency]);
    }
  }
}
