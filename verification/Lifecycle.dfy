/** Transfer intents and the lifecycle state machine. */
module Lifecycle {
  import opened Prelude
  import M = Money
  import J = Journal

  const MAX_CODE_BYTES := 64
  const MAX_KEY_BYTES := 128
  const INSUFFICIENT_FUNDS := "insufficient_funds"

  datatype Transfer = Transfer(
    id: Uuid,
    key: string,
    requester: Uuid,
    source: Uuid,
    destination: Uuid,
    amount: M.Money,
    requestedAt: Time)

  datatype Status = PendingRisk | Approved | ReviewRequired | Declined | Completed | Failed

  /** A policy of "" is the absent policy of a transfer that was posted synchronously. */
  datatype Lifecycle = Lifecycle(
    transfer: Transfer,
    status: Status,
    version: int,
    policy: string,
    journalId: Option<Uuid>,
    failure: Option<string>)

  datatype LifecycleError = InvalidLifecycle | InvalidTransition

  predicate Visible(s: string) {
    forall i :: 0 <= i < |s| ==> '!' <= s[i] <= '~'
  }

  predicate ValidPolicyVersion(s: string) {
    0 < |s| <= MAX_CODE_BYTES && Visible(s)
  }

  predicate ValidCode(s: string) {
    0 < |s| <= MAX_CODE_BYTES && forall i :: 0 <= i < |s| ==>
      'a' <= s[i] <= 'z' || '0' <= s[i] <= '9' || s[i] == '_' || s[i] == '-'
  }

  predicate ValidTransfer(t: Transfer) {
    && 0 < |t.key| <= MAX_KEY_BYTES && Visible(t.key)
    && t.source != t.destination
    && M.ValidCurrency(t.amount.currency) && t.amount.minor > 0
    && t.requestedAt != 0
  }

  predicate Valid(l: Lifecycle) {
    && ValidTransfer(l.transfer)
    && l.version > 0
    && (match l.status
        case PendingRisk => l.version == 1 && l.journalId.None? && l.failure.None?
        case Approved | ReviewRequired | Declined => l.version >= 2 && l.journalId.None? && l.failure.None?
        case Completed =>
          && l.journalId == Some(l.transfer.id) && l.failure.None?
          && (l.policy != "" ==> ValidPolicyVersion(l.policy))
          && (l.version != 1 ==> ValidPolicyVersion(l.policy))
        case Failed =>
          l.version >= 2 && l.journalId.None? && l.failure.Some? && ValidCode(l.failure.value))
    && (l.status != Completed ==> ValidPolicyVersion(l.policy))
  }

  function Checked(l: Lifecycle): Result<Lifecycle, LifecycleError> {
    if Valid(l) then Ok(l) else Err(InvalidLifecycle)
  }

  function NewPending(t: Transfer, policy: string): Result<Lifecycle, LifecycleError> {
    Checked(Lifecycle(t, PendingRisk, 1, policy, None, None))
  }

  function Moved(l: Lifecycle, status: Status, journalId: Option<Uuid>,
                 failure: Option<string>): Result<Lifecycle, LifecycleError> {
    Checked(Lifecycle(l.transfer, status, l.version + 1, l.policy, journalId, failure))
  }

  function Approve(l: Lifecycle): Result<Lifecycle, LifecycleError> {
    if l.status != PendingRisk && l.status != ReviewRequired then Err(InvalidTransition)
    else Moved(l, Approved, None, None)
  }

  function RequireReview(l: Lifecycle): Result<Lifecycle, LifecycleError> {
    if l.status != PendingRisk then Err(InvalidTransition) else Moved(l, ReviewRequired, None, None)
  }

  function Decline(l: Lifecycle): Result<Lifecycle, LifecycleError> {
    if l.status != PendingRisk && l.status != ReviewRequired then Err(InvalidTransition)
    else Moved(l, Declined, None, None)
  }

  function Complete(l: Lifecycle): Result<Lifecycle, LifecycleError> {
    if l.status != Approved then Err(InvalidTransition) else Moved(l, Completed, Some(l.transfer.id), None)
  }

  function Fail(l: Lifecycle, reason: string): Result<Lifecycle, LifecycleError> {
    if l.status != Approved then Err(InvalidTransition)
    else if !ValidCode(reason) then Err(InvalidLifecycle)
    else Moved(l, Failed, None, Some(reason))
  }

  // ---- Runs of the state machine ----

  datatype Operation = DoApprove | DoReview | DoDecline | DoComplete | DoFail(reason: string)

  function Apply(l: Lifecycle, op: Operation): Result<Lifecycle, LifecycleError> {
    match op
    case DoApprove => Approve(l)
    case DoReview => RequireReview(l)
    case DoDecline => Decline(l)
    case DoComplete => Complete(l)
    case DoFail(reason) => Fail(l, reason)
  }

  /** Applies a list of operations, all of which must succeed. */
  function ApplyAll(l: Lifecycle, ops: seq<Operation>): Result<Lifecycle, LifecycleError> {
    if ops == [] then Ok(l)
    else match ApplyAll(l, ops[..|ops| - 1])
      case Err(e) => Err(e)
      case Ok(before) => Apply(before, ops[|ops| - 1])
  }

  /** How far a status is from a terminal one, at most. */
  function Remaining(s: Status): nat {
    match s
    case PendingRisk => 3
    case ReviewRequired => 2
    case Approved => 1
    case Declined | Completed | Failed => 0
  }

  /** A transition exists only between valid lifecycles of the same intent and policy, adds one to the version,
      and moves strictly closer to the end. */
  lemma ApplyAdvances(l: Lifecycle, op: Operation)
    requires Valid(l) && Apply(l, op).Ok?
    ensures
      var next := Apply(l, op).value;
      && Valid(next) && next.transfer == l.transfer && next.policy == l.policy
      && next.version == l.version + 1
      && Remaining(next.status) < Remaining(l.status)
  {
  }

  /** Every accepted transfer makes at most three transitions, its version counts them, and its intent, policy
      and validity survive them all. */
  lemma {:induction false} AtMostThreeTransitions(l: Lifecycle, ops: seq<Operation>)
    requires Valid(l) && l.status == PendingRisk && ApplyAll(l, ops).Ok?
    ensures
      var last := ApplyAll(l, ops).value;
      && Valid(last) && last.transfer == l.transfer && last.policy == l.policy
      && last.version == 1 + |ops|
      && |ops| + Remaining(last.status) <= 3
  {
    if ops != [] {
      AtMostThreeTransitions(l, ops[..|ops| - 1]);
      ApplyAdvances(ApplyAll(l, ops[..|ops| - 1]).value, ops[|ops| - 1]);
    }
  }

  // ---- The ledger effect of a transfer ----

  /** Source minus amount, destination plus amount, under the transfer's own identifier. */
  function EntryOf(t: Transfer, recordedAt: Time): J.Entry
    requires t.amount.minor != MIN_INT64
  {
    J.Entry(t.id, J.Standard, None,
            [J.Posting(t.source, M.Money(-t.amount.minor, t.amount.currency)), J.Posting(t.destination, t.amount)],
            recordedAt)
  }

  /** Whether the two postings of an amount pass the checked constructors. */
  predicate Postable(amount: M.Money) {
    M.ValidCurrency(amount.currency) && amount.minor != 0 && amount.minor != MIN_INT64
  }

  /** Negates, builds both postings and the entry, each through its checked constructor. */
  method BuildEntry(t: Transfer, recordedAt: Time) returns (r: Result<J.Entry, J.EntryError>)
    ensures r.Ok? <==> Postable(t.amount) && recordedAt != 0
    ensures r.Ok? ==> r.value == EntryOf(t, recordedAt) && J.ValidEntry(r.value)
  {
    var debit := M.Negate(t.amount);
    if debit.Err? {
      return Err(J.Overflow);
    }
    var source, destination := J.Posting(t.source, debit.value), J.Posting(t.destination, t.amount);
    if !J.ValidPosting(source) || !J.ValidPosting(destination) {
      return Err(J.InvalidEntry);
    }
    var entry := J.Entry(t.id, J.Standard, None, [source, destination], recordedAt);
    TwoPostingsBalance(t.source, t.destination, t.amount);
    var fault := J.Validate(entry);
    return if fault.Some? then Err(fault.value) else Ok(entry);
  }

  /** The entry of a transfer posted at once: exactly the valid transfers have one, of their own request time. */
  method JournalEntry(t: Transfer) returns (r: Result<J.Entry, J.EntryError>)
    ensures r.Ok? <==> ValidTransfer(t)
    ensures r.Ok? ==> r.value == EntryOf(t, t.requestedAt) && J.ValidEntry(r.value)
  {
    if !ValidTransfer(t) {
      return Err(J.InvalidEntry);
    }
    r := BuildEntry(t, t.requestedAt);
  }

  /** The entry of an approved lifecycle, recorded when it is posted. */
  method ApprovedEntry(l: Lifecycle, recordedAt: Time) returns (r: Result<J.Entry, J.EntryError>)
    ensures r.Ok? <==> l.status == Approved && Postable(l.transfer.amount) && recordedAt != 0
    ensures r.Ok? ==> r.value == EntryOf(l.transfer, recordedAt) && J.ValidEntry(r.value)
  {
    if l.status != Approved {
      return Err(J.InvalidEntry);
    }
    r := BuildEntry(l.transfer, recordedAt);
  }

  lemma TwoPostingsBalance(source: Uuid, destination: Uuid, amount: M.Money)
    requires Postable(amount)
    ensures
      var ps := [J.Posting(source, M.Money(-amount.minor, amount.currency)), J.Posting(destination, amount)];
      J.WellFormed(ps) && J.Balanced(ps)
  {
    var first := J.Posting(source, M.Money(-amount.minor, amount.currency));
    var second := J.Posting(destination, amount);
    var ps := [first, second];
    assert J.ValidPosting(first) && J.ValidPosting(second);
    forall c: M.Currency ensures J.CurrencySum(ps, c) == 0 {
      assert ps[..1] == [first] && [first][..0] == [];
      assert J.CurrencySum([first], c) == if amount.currency == c then -amount.minor else 0;
    }
  }
}
