/** Leases on outbox rows: timed claims, fencing tokens, publication and retry, over a broker that may
    acknowledge, reject, or take a message and still report an error. */
module Outbox {
  import opened Prelude
  import B = Backoff

  const MICROS: int := 1_000_000
  const DAY: Time := 86_400 * MICROS
  const LONGEST_LEASE: Time := 900 * MICROS

  datatype Claim = Claim(token: Uuid, until: Time)

  /** The delivery columns of one outbox row; a row is known by its sequence number. */
  datatype Lease = Lease(availableAt: Time, attempts: nat, claim: Option<Claim>, publishedAt: Option<Time>)

  datatype OutboxError = InvalidArgument | ClaimLost

  function Micros(duration: int): Time {
    duration / B.SECOND * MICROS
  }

  function NewLease(now: Time): Lease {
    Lease(now, 0, None, None)
  }

  // ---- The three statements ----

  predicate Claimable(l: Lease, now: Time) {
    l.publishedAt.None? && l.availableAt <= now && (l.claim.None? || l.claim.value.until <= now)
  }

  predicate Holds(l: Lease, token: Uuid) {
    l.publishedAt.None? && l.claim.Some? && l.claim.value.token == token
  }

  function Claimed(l: Lease, token: Uuid, until: Time): Lease {
    l.(claim := Some(Claim(token, until)))
  }

  function Published(l: Lease, now: Time): Lease {
    l.(publishedAt := Some(now), claim := None)
  }

  /** The failure count saturates at the largest 32-bit integer. */
  function Failed(l: Lease, now: Time, retryAfter: int): Lease {
    l.(availableAt := now + Micros(retryAfter),
       attempts := if l.attempts + 1 < B.MAX_INT32 then l.attempts + 1 else B.MAX_INT32,
       claim := None)
  }

  // ---- Which rows a claim takes ----

  function Candidates(ls: seq<Lease>, now: Time, locked: set<nat>): set<nat> {
    set r | 0 <= r < |ls| && Claimable(ls[r], now) && r !in locked
  }

  /** ORDER BY available_at, sequence. */
  predicate Before(ls: seq<Lease>, r: nat, s: nat)
    requires r < |ls| && s < |ls|
  {
    ls[r].availableAt < ls[s].availableAt || (ls[r].availableAt == ls[s].availableAt && r <= s)
  }

  predicate IsEarliest(ls: seq<Lease>, rows: set<nat>, r: nat)
    requires forall s :: s in rows ==> s < |ls|
  {
    r in rows && forall s :: s in rows ==> Before(ls, r, s)
  }

  lemma EarliestOfTwo(ls: seq<Lease>, rows: set<nat>, y: nat, m: nat)
    requires (forall s :: s in rows ==> s < |ls|) && y in rows && IsEarliest(ls, rows - {y}, m)
    ensures IsEarliest(ls, rows, if Before(ls, y, m) then y else m)
  {
    forall s | s in rows ensures Before(ls, if Before(ls, y, m) then y else m, s) {
      assert s == y || s in rows - {y};
    }
  }

  lemma {:induction false} EarliestExists(ls: seq<Lease>, rows: set<nat>)
    requires rows != {} && forall r :: r in rows ==> r < |ls|
    ensures exists r :: IsEarliest(ls, rows, r)
  {
    var y :| y in rows;
    if rows == {y} {
      assert IsEarliest(ls, rows, y);
    } else {
      EarliestExists(ls, rows - {y});
      var m :| IsEarliest(ls, rows - {y}, m);
      EarliestOfTwo(ls, rows, y, m);
    }
  }

  function Earliest(ls: seq<Lease>, rows: set<nat>): (r: nat)
    requires rows != {} && forall s :: s in rows ==> s < |ls|
    ensures r in rows && forall s :: s in rows ==> Before(ls, r, s)
  {
    EarliestExists(ls, rows);
    var r :| r in rows && forall s :: s in rows ==> Before(ls, r, s);
    r
  }

  /** LIMIT n: the first n rows in that order. */
  function Take(ls: seq<Lease>, rows: set<nat>, n: nat): (taken: set<nat>)
    requires forall s :: s in rows ==> s < |ls|
    ensures taken <= rows
    decreases n
  {
    if n == 0 || rows == {} then {}
    else
      var r := Earliest(ls, rows);
      {r} + Take(ls, rows - {r}, n - 1)
  }

  lemma {:induction false} TakeIsEarliest(ls: seq<Lease>, rows: set<nat>, n: nat, r: nat, s: nat)
    requires forall x :: x in rows ==> x < |ls|
    requires r in Take(ls, rows, n) && s in rows && s !in Take(ls, rows, n)
    ensures Before(ls, r, s)
    decreases n
  {
    var first := Earliest(ls, rows);
    if r != first {
      TakeIsEarliest(ls, rows - {first}, n - 1, r, s);
    }
  }

  lemma {:induction false} TakeCount(ls: seq<Lease>, rows: set<nat>, n: nat)
    requires forall x :: x in rows ==> x < |ls|
    ensures |Take(ls, rows, n)| == if n < |rows| then n else |rows|
    decreases n
  {
    if n > 0 && rows != {} {
      var first := Earliest(ls, rows);
      TakeCount(ls, rows - {first}, n - 1);
    }
  }

  /** A claim is as large as its limit allows, and no row it leaves behind was due before one it takes. */
  lemma BatchIsEarliest(ls: seq<Lease>, now: Time, locked: set<nat>, limit: nat, r: nat, s: nat)
    requires r in Batch(ls, now, locked, limit) && s in Candidates(ls, now, locked) &&
      s !in Batch(ls, now, locked, limit)
    ensures |Batch(ls, now, locked, limit)| == limit && Before(ls, r, s)
  {
    var candidates: set<nat> := Candidates(ls, now, locked);
    TakeIsEarliest(ls, candidates, limit, r, s);
    TakeCount(ls, candidates, limit);
    if |candidates| <= limit {
      TakesAll(ls, candidates, limit);
    }
  }

  lemma {:induction false} TakesAll(ls: seq<Lease>, rows: set<nat>, n: nat)
    requires (forall x :: x in rows ==> x < |ls|) && |rows| <= n
    ensures Take(ls, rows, n) == rows
    decreases n
  {
    if rows != {} {
      var first := Earliest(ls, rows);
      TakesAll(ls, rows - {first}, n - 1);
    }
  }

  function Batch(ls: seq<Lease>, now: Time, locked: set<nat>, limit: nat): set<nat> {
    Take(ls, Candidates(ls, now, locked), limit)
  }

  function ClaimRows(ls: seq<Lease>, rows: seq<nat>, token: Uuid, until: Time): (after: seq<Lease>)
    ensures |after| == |ls|
    ensures forall r :: 0 <= r < |ls| ==> after[r] == if r in rows then Claimed(ls[r], token, until) else ls[r]
  {
    seq(|ls|, r requires 0 <= r < |ls| => if r in rows then Claimed(ls[r], token, until) else ls[r])
  }

  /** The candidate query: picks the earliest remaining row until the limit or the rows run out. */
  method SelectBatch(ls: seq<Lease>, now: Time, locked: set<nat>, limit: nat) returns (chosen: set<nat>)
    ensures chosen == Batch(ls, now, locked, limit)
  {
    var remaining: set<nat> := Candidates(ls, now, locked);
    var budget := limit;
    chosen := {};
    while budget > 0 && remaining != {}
      invariant forall r :: r in remaining ==> r < |ls|
      invariant Batch(ls, now, locked, limit) == chosen + Take(ls, remaining, budget)
      decreases budget
    {
      var row := Earliest(ls, remaining);
      chosen := chosen + {row};
      remaining := remaining - {row};
      budget := budget - 1;
    }
  }

  /** Rows a claim may take now, by sequence. */
  predicate Due(ls: seq<Lease>, now: Time, rows: seq<nat>) {
    Ascending(rows) && forall k :: 0 <= k < |rows| ==> rows[k] < |ls| && Claimable(ls[rows[k]], now)
  }

  /** What the claim statement picks: due, unlocked rows, as many as the limit allows, none of them later than one
      left behind. */
  ghost predicate EarliestDue(ls: seq<Lease>, now: Time, locked: set<nat>, limit: nat, rows: seq<nat>) {
    && Due(ls, now, rows) && |rows| <= limit
    && (forall k :: 0 <= k < |rows| ==> rows[k] !in locked)
    && forall s :: s in Candidates(ls, now, locked) && s !in rows ==>
         |rows| == limit && forall k :: 0 <= k < |rows| ==> Before(ls, rows[k], s)
  }

  lemma BatchIsDue(ls: seq<Lease>, now: Time, locked: set<nat>, limit: nat)
    ensures
      var rows := Sorted(Batch(ls, now, locked, limit));
      Due(ls, now, rows) && |rows| <= limit && forall k :: 0 <= k < |rows| ==> rows[k] !in locked
  {
    var rows := Sorted(Batch(ls, now, locked, limit));
    TakeCount(ls, Candidates(ls, now, locked), limit);
    forall k | 0 <= k < |rows| ensures rows[k] < |ls| && Claimable(ls[rows[k]], now) && rows[k] !in locked {
      assert rows[k] in Candidates(ls, now, locked);
    }
  }

  lemma BatchIsEarliestDue(ls: seq<Lease>, now: Time, locked: set<nat>, limit: nat)
    requires limit > 0
    ensures EarliestDue(ls, now, locked, limit, Sorted(Batch(ls, now, locked, limit)))
  {
    var batch := Batch(ls, now, locked, limit);
    var rows := Sorted(batch);
    BatchIsDue(ls, now, locked, limit);
    forall s | s in Candidates(ls, now, locked) && s !in rows
      ensures |rows| == limit && forall k :: 0 <= k < |rows| ==> Before(ls, rows[k], s)
    {
      BatchNotEmpty(ls, now, locked, limit, s);
      forall k | 0 <= k < |rows| ensures |rows| == limit && Before(ls, rows[k], s) {
        BatchIsEarliest(ls, now, locked, limit, rows[k], s);
      }
    }
  }

  lemma BatchNotEmpty(ls: seq<Lease>, now: Time, locked: set<nat>, limit: nat, s: nat)
    requires limit > 0 && s in Candidates(ls, now, locked)
    ensures |Batch(ls, now, locked, limit)| > 0
  {
    TakeCount(ls, Candidates(ls, now, locked), limit);
  }

  class Repository {
    var leases: seq<Lease>

    constructor (leases: seq<Lease>)
      ensures this.leases == leases
    {
      this.leases := leases;
    }

    /** Leases the earliest available unlocked rows up to the limit and returns them by sequence. */
    method Claim(limit: int, lease: int, token: Uuid, now: Time, locked: set<nat>)
      returns (r: Result<seq<nat>, OutboxError>)
      modifies this
      ensures r.Ok? <==> 0 < limit <= B.MAX_BATCH && B.AcceptedLease(lease)
      ensures r.Err? ==> leases == old(leases)
      ensures r.Ok? ==> EarliestDue(old(leases), now, locked, limit, r.value)
      ensures r.Ok? ==> leases == ClaimRows(old(leases), r.value, token, now + Micros(lease))
    {
      if limit <= 0 || limit > B.MAX_BATCH || !B.AcceptedLease(lease) {
        return Err(InvalidArgument);
      }
      var chosen := SelectBatch(leases, now, locked, limit);
      var rows := Sorted(chosen);
      BatchIsEarliestDue(leases, now, locked, limit);
      leases := ClaimRows(leases, rows, token, now + Micros(lease));
      return Ok(rows);
    }

    method MarkPublished(row: nat, token: Uuid, now: Time) returns (error: Option<OutboxError>)
      modifies this
      ensures error.None? <==> row < |old(leases)| && Holds(old(leases)[row], token)
      ensures leases == if error.None? then old(leases)[row := Published(old(leases)[row], now)] else old(leases)
    {
      if row >= |leases| || leases[row].claim.None? || leases[row].claim.value.token != token ||
        leases[row].publishedAt.Some? {
        return Some(ClaimLost);
      }
      leases := leases[row := Published(leases[row], now)];
      return None;
    }

    method MarkFailed(row: nat, token: Uuid, retryAfter: int, now: Time) returns (error: Option<OutboxError>)
      modifies this
      ensures error.None? <==> B.AcceptedDelay(retryAfter) && row < |old(leases)| && Holds(old(leases)[row], token)
      ensures leases ==
        if error.None? then old(leases)[row := Failed(old(leases)[row], now, retryAfter)] else old(leases)
    {
      if !B.AcceptedDelay(retryAfter) {
        return Some(InvalidArgument);
      }
      if row >= |leases| || leases[row].claim.None? || leases[row].claim.value.token != token ||
        leases[row].publishedAt.Some? {
        return Some(ClaimLost);
      }
      leases := leases[row := Failed(leases[row], now, retryAfter)];
      return None;
    }
  }

  // ---- Publishers, clock and broker as one step system ----

  /** One claimed event as the publisher read it. */
  datatype Job<E> = Job(row: nat, event: E, attempts: nat, token: Uuid)

  datatype Phase = Sending | Acknowledged | Rejected

  datatype Publisher<E> = Publisher(jobs: seq<Job<E>>, next: nat, phase: Phase)

  /** History of one lease: when it was granted, how long it runs, and when its holder gave it back. */
  datatype Grant = Grant(row: nat, token: Uuid, start: Time, until: Time, released: Option<Time>)

  datatype Delivery<E> = Delivery(
    clock: Time,
    leases: seq<Lease>,
    publishers: map<nat, Publisher<E>>,
    broker: seq<E>,
    tokens: set<Uuid>,
    grants: seq<Grant>)

  datatype Ack = Taken | TakenButError | Refused

  datatype Action =
    | Tick(elapsed: nat)
    | ClaimBatch(pid: nat, token: Uuid, rows: seq<nat>)
    | Send(pid: nat, ack: Ack)
    | Mark(pid: nat)
    | Crash(pid: nat)

  function NewGrants(rows: seq<nat>, token: Uuid, start: Time, until: Time): (gs: seq<Grant>)
    ensures |gs| == |rows| && forall i :: 0 <= i < |rows| ==> gs[i] == Grant(rows[i], token, start, until, None)
  {
    seq(|rows|, i requires 0 <= i < |rows| => Grant(rows[i], token, start, until, None))
  }

  function Release(gs: seq<Grant>, row: nat, token: Uuid, now: Time): (after: seq<Grant>)
    ensures |after| == |gs|
    ensures forall i :: 0 <= i < |gs| ==>
      after[i] == if gs[i].row == row && gs[i].token == token &&
        gs[i].released.None? then gs[i].(released := Some(now)) else gs[i]
  {
    seq(|gs|, i requires 0 <= i < |gs| =>
      if gs[i].row == row && gs[i].token == token && gs[i].released.None? then gs[i].(released := Some(now)) else gs[i])
  }

  function Hired<E>(events: seq<E>, d: Delivery<E>, pid: nat, token: Uuid, until: Time, rows: seq<nat>): Delivery<E>
    requires forall k :: 0 <= k < |rows| ==> rows[k] < |d.leases| && rows[k] < |events|
  {
    var jobs := seq(|rows|, i requires 0 <= i < |rows| =>
      Job(rows[i], events[rows[i]], d.leases[rows[i]].attempts, token));
    d.(leases := ClaimRows(d.leases, rows, token, until),
       publishers := d.publishers[pid := Publisher(jobs, 0, Sending)],
       tokens := d.tokens + {token},
       grants := d.grants + NewGrants(rows, token, d.clock, until))
  }

  /** A claim of any due rows with a fresh token by an idle publisher. */
  function ClaimStep<E>(events: seq<E>, c: B.Config, d: Delivery<E>, pid: nat, token: Uuid,
                        rows: seq<nat>): Delivery<E> {
    if pid in d.publishers || token in d.tokens || |events| != |d.leases| || |rows| > c.batchSize ||
      !Due(d.leases, d.clock, rows) then d
    else Hired(events, d, pid, token, d.clock + Micros(c.claimLease), rows)
  }

  function SendStep<E>(d: Delivery<E>, pid: nat, ack: Ack): Delivery<E> {
    if pid !in d.publishers then d
    else
      var p := d.publishers[pid];
      if p.phase != Sending || p.next >= |p.jobs| then d
      else
        d.(broker := if ack.Refused? then d.broker else d.broker + [p.jobs[p.next].event],
           publishers := d.publishers[pid := p.(phase := if ack.Taken? then Acknowledged else Rejected)])
  }

  /** Records the outcome of the last send; a lost claim ends the publisher. */
  function MarkStep<E>(c: B.Config, d: Delivery<E>, pid: nat): Delivery<E> {
    if pid !in d.publishers then d
    else
      var p := d.publishers[pid];
      if p.phase == Sending || p.next >= |p.jobs| then d
      else
        var job := p.jobs[p.next];
        if job.row >= |d.leases| || !Holds(d.leases[job.row], job.token) then d.(publishers := d.publishers - {pid})
        else
          var lease := d.leases[job.row];
          d.(leases := d.leases[job.row :=
               if p.phase ==
                 Acknowledged then Published(lease, d.clock) else Failed(lease, d.clock, B.Capped(c, job.attempts))],
             publishers := d.publishers[pid := Publisher(p.jobs, p.next + 1, Sending)],
             grants := Release(d.grants, job.row, job.token, d.clock))
  }

  function Step<E>(events: seq<E>, c: B.Config, d: Delivery<E>, a: Action): Delivery<E> {
    match a
    case Tick(elapsed) => d.(clock := d.clock + elapsed)
    case ClaimBatch(pid, token, rows) => ClaimStep(events, c, d, pid, token, rows)
    case Send(pid, ack) => SendStep(d, pid, ack)
    case Mark(pid) => MarkStep(c, d, pid)
    case Crash(pid) => d.(publishers := d.publishers - {pid})
  }

  /** A committed transaction appended one event; its row is available at once. */
  function Enqueued<E>(d: Delivery<E>): Delivery<E> {
    d.(leases := d.leases + [NewLease(d.clock)])
  }

  function Start<E>(): Delivery<E> {
    Delivery(1, [], map[], [], {}, [])
  }
}
