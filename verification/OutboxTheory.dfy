/** Fencing, no loss and no phantom, over every interleaving of publishers, clock and broker. */
module OutboxTheory {
  import opened Prelude
  import opened Outbox
  import B = Backoff

  // ---- The invariant ----

  ghost predicate LeaseOk<E>(events: seq<E>, d: Delivery<E>, row: nat)
    requires row < |events| && row < |d.leases|
  {
    var l := d.leases[row];
    && l.availableAt <= d.clock + DAY
    && l.attempts <= B.MAX_INT32
    && (l.claim.Some? ==> l.claim.value.until <= d.clock + LONGEST_LEASE)
    && (l.publishedAt.Some? ==> l.claim.None? && events[row] in d.broker)
  }

  ghost predicate JobOk<E>(events: seq<E>, d: Delivery<E>, j: Job<E>) {
    && j.row < |events| && j.event == events[j.row] && j.token in d.tokens && j.attempts <= B.MAX_INT32
    && j.row < |d.leases| && (Holds(d.leases[j.row], j.token) ==> d.leases[j.row].attempts == j.attempts)
  }

  ghost predicate PublisherOk<E>(events: seq<E>, d: Delivery<E>, p: Publisher<E>) {
    && p.next <= |p.jobs|
    && (forall i :: 0 <= i < |p.jobs| ==> JobOk(events, d, p.jobs[i]))
    && (p.phase == Acknowledged ==> p.next < |p.jobs| && p.jobs[p.next].event in d.broker)
  }

  ghost predicate GrantOk<E>(d: Delivery<E>, g: Grant) {
    && g.row < |d.leases| && g.token in d.tokens && g.start <= d.clock
    && (g.released.Some? ==> g.released.value <= d.clock)
  }

  /** The earlier lease was given back, or had run out, before the later one began. */
  ghost predicate Separated(earlier: Grant, later: Grant) {
    || (earlier.released.Some? && earlier.released.value <= later.start)
    || earlier.until <= later.start
  }

  ghost predicate Over(g: Grant, now: Time) {
    g.released.Some? || g.until <= now
  }

  /** The grant behind a row's current claim, and nothing granted on the row after it. */
  ghost predicate HeldBy<E>(d: Delivery<E>, row: nat, c: Claim, g: int) {
    && 0 <= g < |d.grants| && d.grants[g].row == row && d.grants[g].token == c.token
    && d.grants[g].until == c.until && d.grants[g].released.None?
    && (forall h :: g < h < |d.grants| ==> d.grants[h].row != row)
  }

  ghost predicate HolderOk<E>(d: Delivery<E>, row: nat)
    requires row < |d.leases|
  {
    match d.leases[row].claim
    case None => forall g :: 0 <= g < |d.grants| && d.grants[g].row == row ==> Over(d.grants[g], d.clock)
    case Some(c) => exists g :: HeldBy(d, row, c, g)
  }

  ghost predicate GrantsOrdered(gs: seq<Grant>) {
    forall i, j :: 0 <= i < j < |gs| && gs[i].row == gs[j].row ==> gs[i].token != gs[j].token && Separated(gs[i], gs[j])
  }

  ghost predicate DeliveryInv<E(!new)>(events: seq<E>, d: Delivery<E>) {
    && |d.leases| == |events|
    && (forall row :: 0 <= row < |events| ==> LeaseOk(events, d, row) && HolderOk(d, row))
    && (forall k :: 0 <= k < |d.broker| ==> d.broker[k] in events)
    && (forall pid :: pid in d.publishers ==> PublisherOk(events, d, d.publishers[pid]))
    && (forall g :: 0 <= g < |d.grants| ==> GrantOk(d, d.grants[g]))
    && GrantsOrdered(d.grants)
  }

  // ---- Steps that touch no lease ----

  lemma TickKeeps<E(!new)>(events: seq<E>, d: Delivery<E>, elapsed: nat)
    requires DeliveryInv(events, d)
    ensures DeliveryInv(events, d.(clock := d.clock + elapsed))
  {
    var after := d.(clock := d.clock + elapsed);
    forall row | 0 <= row < |events| ensures LeaseOk(events, after, row) && HolderOk(after, row) {
      assert LeaseOk(events, d, row) && HolderOk(d, row);
      if d.leases[row].claim.Some? {
        var g :| HeldBy(d, row, d.leases[row].claim.value, g);
        assert HeldBy(after, row, d.leases[row].claim.value, g);
      }
    }
    forall pid | pid in after.publishers ensures PublisherOk(events, after, after.publishers[pid]) {
      PublisherStays(events, d, after, d.publishers[pid]);
    }
  }

  /** Leases, grants and clock unchanged: only publishers and broker may differ. */
  ghost predicate SameLeases<E>(d: Delivery<E>, after: Delivery<E>) {
    after.leases == d.leases && after.grants == d.grants && after.clock == d.clock && after.tokens == d.tokens
  }

  lemma SameLeasesKeep<E(!new)>(events: seq<E>, d: Delivery<E>, after: Delivery<E>)
    requires DeliveryInv(events, d) && SameLeases(d, after)
    requires forall e :: e in d.broker ==> e in after.broker
    ensures forall row :: 0 <= row < |events| ==> LeaseOk(events, after, row) && HolderOk(after, row)
    ensures forall g :: 0 <= g < |after.grants| ==> GrantOk(after, after.grants[g])
  {
    forall row | 0 <= row < |events| ensures LeaseOk(events, after, row) && HolderOk(after, row) {
      assert LeaseOk(events, d, row) && HolderOk(d, row);
      if d.leases[row].claim.Some? {
        var g :| HeldBy(d, row, d.leases[row].claim.value, g);
        assert HeldBy(after, row, d.leases[row].claim.value, g);
      }
    }
    forall g | 0 <= g < |after.grants| ensures GrantOk(after, after.grants[g]) {
      assert GrantOk(d, d.grants[g]);
    }
  }

  /** No token known before gains a row, and rows still held keep their failure count. */
  ghost predicate NoNewHolds<E>(d: Delivery<E>, after: Delivery<E>) {
    && |d.leases| <= |after.leases|
    && forall row, token :: 0 <= row < |d.leases| && token in d.tokens && Holds(after.leases[row], token) ==>
         Holds(d.leases[row], token) && after.leases[row].attempts == d.leases[row].attempts
  }

  lemma PublisherStays<E>(events: seq<E>, d: Delivery<E>, after: Delivery<E>, p: Publisher<E>)
    requires PublisherOk(events, d, p) && d.tokens <= after.tokens && NoNewHolds(d, after)
    requires forall e :: e in d.broker ==> e in after.broker
    ensures PublisherOk(events, after, p)
  {
    forall i | 0 <= i < |p.jobs| ensures JobOk(events, after, p.jobs[i]) {
      assert JobOk(events, d, p.jobs[i]);
    }
  }

  lemma CrashKeeps<E(!new)>(events: seq<E>, d: Delivery<E>, pid: nat)
    requires DeliveryInv(events, d)
    ensures DeliveryInv(events, d.(publishers := d.publishers - {pid}))
  {
    var after := d.(publishers := d.publishers - {pid});
    SameLeasesKeep(events, d, after);
    forall p | p in after.publishers ensures PublisherOk(events, after, after.publishers[p]) {
      PublisherStays(events, d, after, d.publishers[p]);
    }
  }

  lemma SendKeeps<E(!new)>(events: seq<E>, d: Delivery<E>, pid: nat, ack: Ack)
    requires DeliveryInv(events, d)
    ensures DeliveryInv(events, SendStep(d, pid, ack))
  {
    var after := SendStep(d, pid, ack);
    if after != d {
      var p := d.publishers[pid];
      assert PublisherOk(events, d, p);
      assert JobOk(events, d, p.jobs[p.next]);
      SameLeasesKeep(events, d, after);
      forall q | q in after.publishers ensures PublisherOk(events, after, after.publishers[q]) {
        PublisherStays(events, d, after, d.publishers[q]);
      }
    }
  }

  // ---- Claims ----

  /** What a claim does: rows it names were claimable, get the token, and leave one grant each. */
  ghost predicate ClaimEffect<E>(d: Delivery<E>, after: Delivery<E>, rows: seq<nat>, token: Uuid, until: Time) {
    && Ascending(rows)
    && (forall k :: 0 <= k < |rows| ==> rows[k] < |d.leases| && Claimable(d.leases[rows[k]], d.clock))
    && |after.leases| == |d.leases|
    && (forall r :: 0 <= r < |d.leases| ==>
         after.leases[r] == if r in rows then Claimed(d.leases[r], token, until) else d.leases[r])
    && after.grants == d.grants + NewGrants(rows, token, d.clock, until)
    && after.tokens == d.tokens + {token} && after.clock == d.clock && after.broker == d.broker
  }

  lemma ClaimedRow<E(!new)>(events: seq<E>, d: Delivery<E>, after: Delivery<E>, rows: seq<nat>, token: Uuid,
                            until: Time, k: nat)
    requires DeliveryInv(events, d) && ClaimEffect(d, after, rows, token, until) && k < |rows|
    requires until <= d.clock + LONGEST_LEASE
    ensures LeaseOk(events, after, rows[k]) && HolderOk(after, rows[k])
  {
    var n, row := |d.grants|, rows[k];
    assert row in rows && LeaseOk(events, d, row);
    assert after.grants[n + k] == Grant(row, token, d.clock, until, None);
    forall h | n + k < h < |after.grants| ensures after.grants[h].row != row {
      assert after.grants[h].row == rows[h - n];
    }
    assert HeldBy(after, row, after.leases[row].claim.value, n + k);
  }

  lemma UnclaimedRow<E(!new)>(events: seq<E>, d: Delivery<E>, after: Delivery<E>, rows: seq<nat>, token: Uuid,
                              until: Time, row: nat)
    requires DeliveryInv(events, d) && ClaimEffect(d, after, rows, token, until) && row < |events| && row !in rows
    ensures LeaseOk(events, after, row) && HolderOk(after, row)
  {
    assert LeaseOk(events, d, row) && HolderOk(d, row);
    var n := |d.grants|;
    forall h | n <= h < |after.grants| ensures after.grants[h].row != row {
      assert after.grants[h].row == rows[h - n] && rows[h - n] in rows;
    }
    if d.leases[row].claim.Some? {
      var g :| HeldBy(d, row, d.leases[row].claim.value, g);
      assert HeldBy(after, row, d.leases[row].claim.value, g);
    }
  }

  /** Everything granted earlier on a claimable row is over when the claim is made. */
  lemma ClaimableIsOver<E(!new)>(events: seq<E>, d: Delivery<E>, row: nat, i: nat)
    requires DeliveryInv(events, d) && row < |events| && Claimable(d.leases[row], d.clock)
    requires i < |d.grants| && d.grants[i].row == row
    ensures d.grants[i].released.Some? ==> d.grants[i].released.value <= d.clock
    ensures Over(d.grants[i], d.clock)
  {
    assert HolderOk(d, row) && GrantOk(d, d.grants[i]);
    if d.leases[row].claim.Some? {
      var g :| HeldBy(d, row, d.leases[row].claim.value, g);
      if i != g {
        assert i < g && Separated(d.grants[i], d.grants[g]) && GrantOk(d, d.grants[g]);
      }
    }
  }

  lemma ClaimedGrantsOrdered<E(!new)>(events: seq<E>, d: Delivery<E>, rows: seq<nat>, token: Uuid, until: Time)
    requires DeliveryInv(events, d) && token !in d.tokens && Ascending(rows)
    requires forall k :: 0 <= k < |rows| ==> rows[k] < |events| && Claimable(d.leases[rows[k]], d.clock)
    ensures GrantsOrdered(d.grants + NewGrants(rows, token, d.clock, until))
  {
    var n := |d.grants|;
    var gs := d.grants + NewGrants(rows, token, d.clock, until);
    assert forall i, j :: n <= i < j < |gs| ==> gs[i].row < gs[j].row;
    forall i, j | 0 <= i < j < |gs| && gs[i].row == gs[j].row
      ensures gs[i].token != gs[j].token && Separated(gs[i], gs[j])
    {
      if j >= n {
        assert gs[j] == Grant(rows[j - n], token, d.clock, until, None);
        assert gs[i] == d.grants[i] && GrantOk(d, d.grants[i]);
        ClaimableIsOver(events, d, rows[j - n], i);
      }
    }
  }

  lemma ClaimedGrantsOk<E(!new)>(events: seq<E>, d: Delivery<E>, after: Delivery<E>, rows: seq<nat>, token: Uuid,
                                 until: Time)
    requires DeliveryInv(events, d) && ClaimEffect(d, after, rows, token, until)
    ensures forall g :: 0 <= g < |after.grants| ==> GrantOk(after, after.grants[g])
  {
    forall g | 0 <= g < |after.grants| ensures GrantOk(after, after.grants[g]) {
      if g < |d.grants| {
        assert GrantOk(d, d.grants[g]);
      } else {
        assert after.grants[g] == Grant(rows[g - |d.grants|], token, d.clock, until, None);
      }
    }
  }

  lemma ClaimKeeps<E(!new)>(events: seq<E>, c: B.Config, d: Delivery<E>, pid: nat, token: Uuid, rows: seq<nat>)
    requires B.ValidConfig(c) && DeliveryInv(events, d)
    ensures DeliveryInv(events, ClaimStep(events, c, d, pid, token, rows))
  {
    if pid !in d.publishers && token !in d.tokens && |rows| <= c.batchSize && Due(d.leases, d.clock, rows) {
      HiredKeeps(events, d, pid, token, d.clock + Micros(c.claimLease), rows);
    }
  }

  lemma HiredKeeps<E(!new)>(events: seq<E>, d: Delivery<E>, pid: nat, token: Uuid, until: Time, rows: seq<nat>)
    requires DeliveryInv(events, d) && token !in d.tokens && until <= d.clock + LONGEST_LEASE
    requires Ascending(rows) && forall k :: 0 <= k < |rows| ==>
      rows[k] < |events| && Claimable(d.leases[rows[k]], d.clock)
    ensures DeliveryInv(events, Hired(events, d, pid, token, until, rows))
  {
    var after := Hired(events, d, pid, token, until, rows);
    assert ClaimEffect(d, after, rows, token, until);
    HiredPublishers(events, d, pid, token, until, rows);
    EffectKeeps(events, d, after, rows, token, until);
  }

  lemma EffectKeeps<E(!new)>(events: seq<E>, d: Delivery<E>, after: Delivery<E>, rows: seq<nat>, token: Uuid,
                             until: Time)
    requires DeliveryInv(events, d) && ClaimEffect(d, after, rows, token, until) && token !in d.tokens
    requires until <= d.clock + LONGEST_LEASE
    requires forall q :: q in after.publishers ==> PublisherOk(events, after, after.publishers[q])
    ensures DeliveryInv(events, after)
  {
    forall row | 0 <= row < |events| ensures LeaseOk(events, after, row) && HolderOk(after, row) {
      if row in rows {
        var k :| 0 <= k < |rows| && rows[k] == row;
        ClaimedRow(events, d, after, rows, token, until, k);
      } else {
        UnclaimedRow(events, d, after, rows, token, until, row);
      }
    }
    ClaimedGrantsOrdered(events, d, rows, token, until);
    ClaimedGrantsOk(events, d, after, rows, token, until);
  }

  lemma HiredPublishers<E(!new)>(events: seq<E>, d: Delivery<E>, pid: nat, token: Uuid, until: Time, rows: seq<nat>)
    requires DeliveryInv(events, d) && token !in d.tokens
    requires forall k :: 0 <= k < |rows| ==> rows[k] < |events|
    ensures
      var after := Hired(events, d, pid, token, until, rows);
      forall q :: q in after.publishers ==> PublisherOk(events, after, after.publishers[q])
  {
    var after := Hired(events, d, pid, token, until, rows);
    forall q | q in after.publishers ensures PublisherOk(events, after, after.publishers[q]) {
      if q != pid {
        PublisherStays(events, d, after, d.publishers[q]);
      } else {
        forall i | 0 <= i < |rows| ensures JobOk(events, after, after.publishers[q].jobs[i]) {
          assert LeaseOk(events, d, rows[i]);
        }
      }
    }
  }

  // ---- Marks ----

  lemma MarkedRow<E(!new)>(events: seq<E>, d: Delivery<E>, row: nat, token: Uuid, lease: Lease, other: nat,
                           after: Delivery<E>)
    requires DeliveryInv(events, d) && row < |events| && other < |events| && Holds(d.leases[row], token)
    requires lease.claim.None?
    requires after.leases == d.leases[row := lease] && after.clock == d.clock
    requires after.grants == Release(d.grants, row, token, d.clock)
    ensures HolderOk(after, other)
  {
    assert HolderOk(d, other) && HolderOk(d, row);
    var g :| HeldBy(d, row, d.leases[row].claim.value, g);
    if other == row {
      forall i | 0 <= i < |after.grants| && after.grants[i].row == row ensures Over(after.grants[i], after.clock) {
        if i != g {
          assert i < g && Separated(d.grants[i], d.grants[g]) && GrantOk(d, d.grants[g]);
        }
      }
    } else if d.leases[other].claim.Some? {
      var h :| HeldBy(d, other, d.leases[other].claim.value, h);
      assert HeldBy(after, other, d.leases[other].claim.value, h);
    } else {
      forall i | 0 <= i < |after.grants| && after.grants[i].row == other ensures Over(after.grants[i], after.clock) {
        assert after.grants[i] == d.grants[i];
      }
    }
  }

  lemma ReleaseOrdered<E(!new)>(events: seq<E>, d: Delivery<E>, row: nat, token: Uuid)
    requires DeliveryInv(events, d) && row < |events| && Holds(d.leases[row], token)
    ensures GrantsOrdered(Release(d.grants, row, token, d.clock))
  {
    assert HolderOk(d, row);
    var g :| HeldBy(d, row, d.leases[row].claim.value, g);
    var after := Release(d.grants, row, token, d.clock);
    forall i, j | 0 <= i < j < |after| && after[i].row == after[j].row
      ensures after[i].token != after[j].token && Separated(after[i], after[j])
    {
      assert d.grants[i].token != d.grants[j].token && Separated(d.grants[i], d.grants[j]);
    }
  }

  lemma MarkedLease(c: B.Config, l: Lease, now: Time, attempts: nat)
    requires B.ValidConfig(c) && l.attempts <= B.MAX_INT32
    ensures Failed(l, now, B.Capped(c, attempts)).availableAt <= now + DAY
    ensures Failed(l, now, B.Capped(c, attempts)).attempts <= B.MAX_INT32
  {
    B.DelayClosedForm(c, attempts, attempts);
  }

  lemma MarkKeeps<E(!new)>(events: seq<E>, c: B.Config, d: Delivery<E>, pid: nat)
    requires B.ValidConfig(c) && DeliveryInv(events, d)
    ensures DeliveryInv(events, MarkStep(c, d, pid))
  {
    if pid !in d.publishers || d.publishers[pid].phase == Sending ||
      d.publishers[pid].next >= |d.publishers[pid].jobs| {
      return;
    }
    var p := d.publishers[pid];
    assert PublisherOk(events, d, p);
    var job := p.jobs[p.next];
    assert JobOk(events, d, job);
    if !Holds(d.leases[job.row], job.token) {
      CrashKeeps(events, d, pid);
      return;
    }
    HeldMarkKeeps(events, c, d, pid);
  }

  lemma HeldMarkKeeps<E(!new)>(events: seq<E>, c: B.Config, d: Delivery<E>, pid: nat)
    requires B.ValidConfig(c) && DeliveryInv(events, d)
    requires pid in d.publishers && d.publishers[pid].phase != Sending &&
      d.publishers[pid].next < |d.publishers[pid].jobs|
    requires
      var job := d.publishers[pid].jobs[d.publishers[pid].next];
      job.row < |events| && Holds(d.leases[job.row], job.token)
    ensures DeliveryInv(events, MarkStep(c, d, pid))
  {
    var p := d.publishers[pid];
    var job := p.jobs[p.next];
    var after := MarkStep(c, d, pid);
    assert PublisherOk(events, d, p) && JobOk(events, d, job);
    assert LeaseOk(events, d, job.row);
    MarkedLease(c, d.leases[job.row], d.clock, job.attempts);
    forall row | 0 <= row < |events| ensures LeaseOk(events, after, row) && HolderOk(after, row) {
      assert LeaseOk(events, d, row);
      MarkedRow(events, d, job.row, job.token, after.leases[job.row], row, after);
    }
    ReleaseOrdered(events, d, job.row, job.token);
    forall g | 0 <= g < |after.grants| ensures GrantOk(after, after.grants[g]) {
      assert GrantOk(d, d.grants[g]);
    }
    forall q | q in after.publishers ensures PublisherOk(events, after, after.publishers[q]) {
      PublisherStays(events, d, after, d.publishers[q]);
    }
  }

  // ---- All steps ----

  /** Every step of every publisher, the clock and the broker keeps the invariant. */
  lemma StepKeeps<E(!new)>(events: seq<E>, c: B.Config, d: Delivery<E>, a: Action)
    requires B.ValidConfig(c) && DeliveryInv(events, d)
    ensures DeliveryInv(events, Step(events, c, d, a))
  {
    match a
    case Tick(elapsed) => TickKeeps(events, d, elapsed);
    case ClaimBatch(pid, token, rows) => ClaimKeeps(events, c, d, pid, token, rows);
    case Send(pid, ack) => SendKeeps(events, d, pid, ack);
    case Mark(pid) => MarkKeeps(events, c, d, pid);
    case Crash(pid) => CrashKeeps(events, d, pid);
  }

  lemma EnqueueKeeps<E(!new)>(events: seq<E>, d: Delivery<E>, e: E)
    requires DeliveryInv(events, d)
    ensures DeliveryInv(events + [e], Enqueued(d))
  {
    var after, all := Enqueued(d), events + [e];
    forall row | 0 <= row < |all| ensures LeaseOk(all, after, row) && HolderOk(after, row) {
      if row < |events| {
        assert LeaseOk(events, d, row) && HolderOk(d, row);
        if d.leases[row].claim.Some? {
          var g :| HeldBy(d, row, d.leases[row].claim.value, g);
          assert HeldBy(after, row, d.leases[row].claim.value, g);
        }
      } else {
        assert forall g :: 0 <= g < |d.grants| ==> GrantOk(d, d.grants[g]);
      }
    }
    forall pid | pid in after.publishers ensures PublisherOk(all, after, after.publishers[pid]) {
      var p := d.publishers[pid];
      assert PublisherOk(events, d, p);
      forall i | 0 <= i < |p.jobs| ensures JobOk(all, after, p.jobs[i]) {
        assert JobOk(events, d, p.jobs[i]);
      }
    }
    forall g | 0 <= g < |after.grants| ensures GrantOk(after, after.grants[g]) {
      assert GrantOk(d, d.grants[g]);
    }
  }

  // ---- What the statements mean, in times and counts ----

  /** Nanoseconds of a span of whole microseconds. */
  function Nanos(span: Time): int {
    span * 1000
  }

  lemma WholeSeconds(duration: int)
    requires duration % B.SECOND == 0
    ensures Nanos(Micros(duration)) == duration
  {
  }

  /** Retry schedule: recording a rejection gives the row back, counts one more failure, up to 2^31 - 1, and makes it
      due
      again exactly min(base * 2^n, max) later, where n is the number of failures before. */
  lemma FailureWaits<E(!new)>(events: seq<E>, c: B.Config, d: Delivery<E>, pid: nat)
    requires B.ValidConfig(c) && DeliveryInv(events, d) && pid in d.publishers
    requires d.publishers[pid].phase == Rejected && d.publishers[pid].next < |d.publishers[pid].jobs|
    requires
      var job := d.publishers[pid].jobs[d.publishers[pid].next];
      job.row < |d.leases| && Holds(d.leases[job.row], job.token)
    ensures
      var row := d.publishers[pid].jobs[d.publishers[pid].next].row;
      var before, after := d.leases[row], Step(events, c, d, Mark(pid)).leases[row];
      var exact: int := c.baseRetryDelay * B.Pow2(before.attempts);
      && after.claim.None? && after.publishedAt.None?
      && after.attempts == (if before.attempts < 0x7fff_ffff then before.attempts + 1 else 0x7fff_ffff)
      && Nanos(after.availableAt - d.clock) == if exact < c.maxRetryDelay then exact else c.maxRetryDelay
  {
    var p := d.publishers[pid];
    var job := p.jobs[p.next];
    assert PublisherOk(events, d, p) && JobOk(events, d, job) && LeaseOk(events, d, job.row);
    B.DelayClosedForm(c, job.attempts, job.attempts);
    WholeSeconds(B.Capped(c, job.attempts));
  }

  /** Recording an acknowledgement publishes the row now, gives it back and changes nothing else of it. */
  lemma PublicationRecords<E(!new)>(events: seq<E>, c: B.Config, d: Delivery<E>, pid: nat)
    requires DeliveryInv(events, d) && pid in d.publishers
    requires d.publishers[pid].phase == Acknowledged && d.publishers[pid].next < |d.publishers[pid].jobs|
    requires
      var job := d.publishers[pid].jobs[d.publishers[pid].next];
      job.row < |d.leases| && Holds(d.leases[job.row], job.token)
    ensures
      var row := d.publishers[pid].jobs[d.publishers[pid].next].row;
      var before := d.leases[row];
      && row < |events| && events[row] in d.broker
      && Step(events, c, d, Mark(pid)).leases ==
           d.leases[row := Lease(before.availableAt, before.attempts, None, Some(d.clock))]
  {
    var p := d.publishers[pid];
    assert PublisherOk(events, d, p) && JobOk(events, d, p.jobs[p.next]);
  }

  /** A lease runs its full configured length from the claim, and a claim takes only rows that are unpublished, due and
      not under a running lease. */
  lemma ClaimTakesOnlyDue<E>(events: seq<E>, c: B.Config, d: Delivery<E>, pid: nat, token: Uuid, rows: seq<nat>,
                             row: nat)
    requires B.ValidConfig(c) && row < |d.leases|
    ensures
      var before, after := d.leases[row], Step(events, c, d, ClaimBatch(pid, token, rows)).leases;
      && row < |after|
      && (after[row] == before
          || (&& before.publishedAt.None? && before.availableAt <= d.clock
              && (before.claim.None? || before.claim.value.until <= d.clock)
              && after[row].claim.Some? && after[row].claim.value.token == token
              && Nanos(after[row].claim.value.until - d.clock) == c.claimLease
              && after[row].availableAt == before.availableAt && after[row].attempts == before.attempts
              && after[row].publishedAt.None?))
  {
    WholeSeconds(c.claimLease);
  }

  /** The claim statement leaves no due row behind while it has room, and takes the longest due first, by sequence among
      equals. */
  lemma ClaimIsEarliest(ls: seq<Lease>, now: Time, locked: set<nat>, limit: nat, rows: seq<nat>, s: nat)
    requires EarliestDue(ls, now, locked, limit, rows) && s < |ls| && s !in locked && s !in rows
    requires ls[s].publishedAt.None? && ls[s].availableAt <= now
    requires ls[s].claim.None? || ls[s].claim.value.until <= now
    ensures |rows| == limit
    ensures forall k :: 0 <= k < |rows| ==>
      rows[k] < |ls| && (ls[rows[k]].availableAt < ls[s].availableAt
                         || (ls[rows[k]].availableAt == ls[s].availableAt && rows[k] < s))
  {
    assert s in Candidates(ls, now, locked);
    forall k | 0 <= k < |rows| ensures Before(ls, rows[k], s) && rows[k] != s {
      assert rows[k] in rows;
    }
  }

  // ---- What the invariant means ----

  /** Fencing: two leases on one event never overlap unless the earlier one was given back, and the earlier
      token can then no longer publish, fail or otherwise change the row, at any time. */
  lemma SupersededTokenIsInert<E(!new)>(events: seq<E>, d: Delivery<E>, i: nat, j: nat)
    requires DeliveryInv(events, d) && i < j < |d.grants| && d.grants[i].row == d.grants[j].row
    ensures Separated(d.grants[i], d.grants[j])
    ensures d.grants[i].row < |d.leases| && !Holds(d.leases[d.grants[i].row], d.grants[i].token)
  {
    var row := d.grants[i].row;
    assert GrantOk(d, d.grants[i]) && HolderOk(d, row);
    if d.leases[row].claim.Some? {
      var g :| HeldBy(d, row, d.leases[row].claim.value, g);
      assert j <= g;
      assert d.grants[i].token != d.grants[g].token;
    }
  }

  /** Publication is final: no step changes the delivery columns of a published row. */
  lemma PublishedIsAbsorbing<E(!new)>(events: seq<E>, c: B.Config, d: Delivery<E>, a: Action, row: nat)
    requires DeliveryInv(events, d) && row < |events| && d.leases[row].publishedAt.Some?
    ensures row < |Step(events, c, d, a).leases| && Step(events, c, d, a).leases[row] == d.leases[row]
  {
    assert LeaseOk(events, d, row);
  }

  /** No loss and no phantom: a published row was taken by the broker, and the broker holds only committed events. */
  lemma NoLossNoPhantom<E(!new)>(events: seq<E>, d: Delivery<E>, row: nat, k: nat)
    requires DeliveryInv(events, d) && row < |events| && k < |d.broker|
    ensures d.leases[row].publishedAt.Some? ==> events[row] in d.broker
    ensures d.broker[k] in events
  {
    assert LeaseOk(events, d, row);
  }

  /** An unpublished row left alone can be claimed again within a day, whatever crashed while holding it. */
  lemma ClaimableWithinADay<E(!new)>(events: seq<E>, d: Delivery<E>, row: nat, later: Time)
    requires DeliveryInv(events, d) && row < |events| && d.leases[row].publishedAt.None?
    requires later >= d.clock + DAY
    ensures Claimable(d.leases[row], later)
  {
    assert LeaseOk(events, d, row);
  }
}
