/** The publisher's batch loop as it runs, while clocks advance and other publishers work on the same rows. */
module PublishLoop {
  import opened Prelude
  import opened Outbox
  import OT = OutboxTheory
  import B = Backoff

  datatype BatchResult = BatchResult(claimed: nat, published: nat, failed: nat)

  /** What happens around one send: steps of others before it, the broker's answer, and steps of others before
      the outcome is recorded. */
  datatype Turn = Turn(before: seq<Action>, ack: Ack, between: seq<Action>)

  predicate ByOthers(a: Action, pid: nat) {
    match a
    case Tick(_) => true
    case ClaimBatch(other, _, _) => other != pid
    case Send(other, _) => other != pid
    case Mark(other) => other != pid
    case Crash(other) => other != pid
  }

  predicate TurnsByOthers(turns: seq<Turn>, pid: nat) {
    forall i :: 0 <= i < |turns| ==> AllByOthers(turns[i].before, pid) && AllByOthers(turns[i].between, pid)
  }

  predicate AllByOthers(actions: seq<Action>, pid: nat) {
    forall i :: 0 <= i < |actions| ==> ByOthers(actions[i], pid)
  }

  // ---- Recorded runs of the step system ----

  /** A run of the step system: the actions, and every state from before the first to after the last. */
  datatype History<E> = History(states: seq<Delivery<E>>, actions: seq<Action>)

  ghost predicate IsRun<E>(events: seq<E>, c: B.Config, h: History<E>) {
    && |h.states| == |h.actions| + 1
    && forall k :: 0 <= k < |h.actions| ==> h.states[k + 1] == Step(events, c, h.states[k], h.actions[k])
  }

  ghost predicate Spans<E>(events: seq<E>, c: B.Config, h: History<E>, first: Delivery<E>, last: Delivery<E>) {
    IsRun(events, c, h) && h.states[0] == first && h.states[|h.actions|] == last
  }

  function Joined<E>(h: History<E>, more: History<E>): History<E>
    requires |more.states| > 0
  {
    History(h.states + more.states[1..], h.actions + more.actions)
  }

  lemma JoinSpans<E>(events: seq<E>, c: B.Config, h: History<E>, more: History<E>, first: Delivery<E>,
                     mid: Delivery<E>, last: Delivery<E>)
    requires Spans(events, c, h, first, mid) && Spans(events, c, more, mid, last)
    ensures Spans(events, c, Joined(h, more), first, last)
  {
    var all, n := Joined(h, more), |h.actions|;
    forall k | 0 <= k < |all.actions| ensures all.states[k + 1] == Step(events, c, all.states[k], all.actions[k]) {
      if k < n {
        assert all.states[k] == h.states[k] && all.states[k + 1] == h.states[k + 1] && all.actions[k] == h.actions[k];
      } else {
        assert all.states[k] == more.states[k - n] && all.states[k + 1] == more.states[k - n + 1];
        assert all.actions[k] == more.actions[k - n];
      }
    }
  }

  lemma OneStep<E>(events: seq<E>, c: B.Config, d: Delivery<E>, a: Action, after: Delivery<E>)
    requires after == Step(events, c, d, a)
    ensures Spans(events, c, History([d, after], [a]), d, after)
  {
  }

  lemma OtherStepKeepsPublisher<E>(events: seq<E>, c: B.Config, d: Delivery<E>, a: Action, pid: nat)
    requires ByOthers(a, pid) && pid in d.publishers
    ensures
      var after := Step(events, c, d, a);
      pid in after.publishers && after.publishers[pid] == d.publishers[pid]
  {
  }

  // ---- What became of a job ----

  /** Recording an outcome: refused because the claim was lost, or the row is published or rescheduled under the
      job's own token, and no other row changes. */
  ghost predicate Recorded<E>(c: B.Config, before: Delivery<E>, after: Delivery<E>, job: Job<E>, ack: Ack, lost: bool) {
    && job.row < |before.leases|
    && var lease := before.leases[job.row];
       if lost then !Holds(lease, job.token) && after.leases == before.leases
       else
         && Holds(lease, job.token)
         && after.leases == before.leases[job.row :=
              if ack.Taken? then Published(lease, before.clock)
                else Failed(lease, before.clock, B.Capped(c, job.attempts))]
  }

  /** The outcome was recorded by step k of the run. */
  ghost predicate RecordedAt<E>(c: B.Config, h: History<E>, job: Job<E>, ack: Ack, lost: bool, k: nat) {
    k + 1 < |h.states| && Recorded(c, h.states[k], h.states[k + 1], job, ack, lost)
  }

  lemma RecordedStays<E>(c: B.Config, h: History<E>, more: History<E>, job: Job<E>, ack: Ack, lost: bool, k: nat)
    requires RecordedAt(c, h, job, ack, lost, k) && |more.states| > 0
    ensures RecordedAt(c, Joined(h, more), job, ack, lost, k)
  {
    var all := Joined(h, more);
    assert all.states[k] == h.states[k] && all.states[k + 1] == h.states[k + 1];
  }

  lemma RecordedLater<E>(c: B.Config, h: History<E>, more: History<E>, job: Job<E>, ack: Ack, lost: bool, k: nat)
    requires RecordedAt(c, more, job, ack, lost, k) && |h.states| == |h.actions| + 1
    requires h.states[|h.actions|] == more.states[0]
    ensures RecordedAt(c, Joined(h, more), job, ack, lost, |h.actions| + k)
  {
    var all, n := Joined(h, more), |h.actions|;
    assert all.states[n + k] == more.states[k] && all.states[n + k + 1] == more.states[k + 1];
  }

  function TakenIn(turns: seq<Turn>): nat {
    if turns == [] then 0 else TakenIn(turns[..|turns| - 1]) + if turns[|turns| - 1].ack.Taken? then 1 else 0
  }

  /** The jobs of a batch: each row once, under the batch's token, with its event as committed. */
  ghost predicate Batched<E>(events: seq<E>, jobs: seq<Job<E>>, token: Uuid) {
    && (forall i :: 0 <= i < |jobs| ==>
      jobs[i].token == token && jobs[i].row < |events| && jobs[i].event == events[jobs[i].row])
    && (forall i, j :: 0 <= i < j < |jobs| ==> jobs[i].row < jobs[j].row)
  }

  /** Every job so far was recorded at its mark, as its acknowledgement demands. */
  ghost predicate AllRecorded<E>(c: B.Config, h: History<E>, jobs: seq<Job<E>>, turns: seq<Turn>, marks: seq<nat>) {
    |marks| <= |jobs| && |marks| <= |turns| &&
    forall i :: 0 <= i < |marks| ==> RecordedAt(c, h, jobs[i], turns[i].ack, false, marks[i])
  }

  lemma AllRecordedStays<E>(c: B.Config, h: History<E>, more: History<E>, jobs: seq<Job<E>>, turns: seq<Turn>,
                            marks: seq<nat>)
    requires AllRecorded(c, h, jobs, turns, marks) && |more.states| > 0
    ensures AllRecorded(c, Joined(h, more), jobs, turns, marks)
  {
    forall i | 0 <= i < |marks| ensures RecordedAt(c, Joined(h, more), jobs[i], turns[i].ack, false, marks[i]) {
      RecordedStays(c, h, more, jobs[i], turns[i].ack, false, marks[i]);
    }
  }

  lemma AllRecordedSnoc<E>(c: B.Config, h: History<E>, jobs: seq<Job<E>>, turns: seq<Turn>, marks: seq<nat>, mark: nat)
    requires AllRecorded(c, h, jobs, turns, marks) && |marks| < |jobs| && |marks| < |turns|
    requires RecordedAt(c, h, jobs[|marks|], turns[|marks|].ack, false, mark)
    ensures AllRecorded(c, h, jobs, turns, marks + [mark])
  {
  }

  /** The next job's claim was found lost. */
  ghost predicate LostNext<E>(c: B.Config, h: History<E>, jobs: seq<Job<E>>, turns: seq<Turn>, n: nat) {
    n < |jobs| && n < |turns| && exists k :: RecordedAt(c, h, jobs[n], turns[n].ack, true, k)
  }

  function Shifted(marks: seq<nat>, offset: nat): (after: seq<nat>)
    ensures |after| == |marks| && forall i :: 0 <= i < |marks| ==> after[i] == marks[i] + offset
  {
    seq(|marks|, i requires 0 <= i < |marks| => marks[i] + offset)
  }

  /** Outcomes recorded in a later part of a run are recorded in the whole, further on. */
  lemma LaterRecorded<E>(c: B.Config, h: History<E>, more: History<E>, jobs: seq<Job<E>>, turns: seq<Turn>,
                         marks: seq<nat>)
    requires AllRecorded(c, more, jobs, turns, marks) && |h.states| == |h.actions| + 1
    requires |more.states| > 0 && h.states[|h.actions|] == more.states[0]
    ensures AllRecorded(c, Joined(h, more), jobs, turns, Shifted(marks, |h.actions|))
    ensures LostNext(c, more, jobs, turns, |marks|) ==> LostNext(c, Joined(h, more), jobs, turns, |marks|)
  {
    var after := Shifted(marks, |h.actions|);
    forall i | 0 <= i < |marks| ensures RecordedAt(c, Joined(h, more), jobs[i], turns[i].ack, false, after[i]) {
      RecordedLater(c, h, more, jobs[i], turns[i].ack, false, marks[i]);
    }
    var n := |marks|;
    if LostNext(c, more, jobs, turns, n) {
      var k :| RecordedAt(c, more, jobs[n], turns[n].ack, true, k);
      RecordedLater(c, h, more, jobs[n], turns[n].ack, true, k);
    }
  }

  /** One more turn: its steps continue the run, and its outcome is recorded at its last step. */
  lemma TurnJoins<E>(events: seq<E>, c: B.Config, h: History<E>, more: History<E>, first: Delivery<E>,
                     mid: Delivery<E>, last: Delivery<E>,
                     jobs: seq<Job<E>>, turns: seq<Turn>, marks: seq<nat>, mark: nat, lost: bool)
    requires Spans(events, c, h, first, mid) && Spans(events, c, more, mid, last)
    requires AllRecorded(c, h, jobs, turns, marks) && |marks| < |jobs| && |marks| < |turns|
    requires RecordedAt(c, more, jobs[|marks|], turns[|marks|].ack, lost, mark)
    ensures Spans(events, c, Joined(h, more), first, last)
    ensures
      if lost then AllRecorded(c, Joined(h, more), jobs, turns, marks) &&
        LostNext(c, Joined(h, more), jobs, turns, |marks|)
      else AllRecorded(c, Joined(h, more), jobs, turns, marks + [|h.actions| + mark])
  {
    JoinSpans(events, c, h, more, first, mid, last);
    AllRecordedStays(c, h, more, jobs, turns, marks);
    RecordedLater(c, h, more, jobs[|marks|], turns[|marks|].ack, lost, mark);
    if !lost {
      AllRecordedSnoc(c, Joined(h, more), jobs, turns, marks, |h.actions| + mark);
    }
  }

  lemma TakenSnoc(turns: seq<Turn>, n: nat)
    requires n < |turns|
    ensures TakenIn(turns[..n + 1]) == TakenIn(turns[..n]) + if turns[n].ack.Taken? then 1 else 0
  {
    assert turns[..n + 1][..n] == turns[..n];
  }

  /** The claim statement over the rows as they are: it picks due rows, and leases exactly those. */
  method ClaimRowsNow(config: B.Config, before: seq<Lease>, now: Time, token: Uuid, locked: set<nat>)
    returns (rows: seq<nat>, leases: seq<Lease>)
    requires B.ValidConfig(config)
    ensures Due(before, now, rows) && |rows| <= config.batchSize
    ensures leases == ClaimRows(before, rows, token, now + Micros(config.claimLease))
  {
    var repository := new Repository(before);
    var claimed := repository.Claim(config.batchSize, config.claimLease, token, now, locked);
    assert claimed.Ok?;
    rows := claimed.value;
    leases := repository.leases;
  }

  /** The shared state as the publisher's statements and everybody else's change it. */
  class BatchPublisher<E(!new)> {
    const config: B.Config
    const events: seq<E>
    const pid: nat
    var shared: Delivery<E>

    constructor (config: B.Config, events: seq<E>, pid: nat, shared: Delivery<E>)
      ensures this.config == config && this.events == events && this.pid == pid && this.shared == shared
    {
      this.config, this.events, this.pid, this.shared := config, events, pid, shared;
    }

    ghost predicate Valid()
      reads this
    {
      B.ValidConfig(config) && OT.DeliveryInv(events, shared)
    }

    /** At job `i` of its batch, about to send. */
    ghost predicate Working(jobs: seq<Job<E>>, i: nat)
      reads this
    {
      Valid() && pid in shared.publishers && shared.publishers[pid] == Publisher(jobs, i, Sending)
    }

    /** Performs one step of the system. */
    method Perform(a: Action) returns (ghost h: History<E>)
      requires Valid()
      modifies this
      ensures Valid() && shared == Step(events, config, old(shared), a)
      ensures h.actions == [a] && h.states == [old(shared), shared] && Spans(events, config, h, old(shared), shared)
    {
      OT.StepKeeps(events, config, shared, a);
      ghost var before := shared;
      shared := Step(events, config, shared, a);
      OneStep(events, config, before, a, shared);
      h := History([before, shared], [a]);
    }

    /** Everybody else's steps, one after the other. */
    method Interfere(actions: seq<Action>) returns (ghost h: History<E>)
      requires Valid() && AllByOthers(actions, pid) && pid in shared.publishers
      modifies this
      ensures Valid() && Spans(events, config, h, old(shared), shared)
      ensures pid in shared.publishers && shared.publishers[pid] == old(shared).publishers[pid]
    {
      h := History([shared], []);
      for i := 0 to |actions|
        invariant Valid() && Spans(events, config, h, old(shared), shared)
        invariant pid in shared.publishers && shared.publishers[pid] == old(shared).publishers[pid]
      {
        OtherStepKeepsPublisher(events, config, shared, actions[i], pid);
        ghost var mid := shared;
        var step := Perform(actions[i]);
        JoinSpans(events, config, h, step, old(shared), mid, shared);
        h := Joined(h, step);
      }
    }

    /** Claims a batch as a claim step may; the jobs are the leased rows. */
    method ClaimJobs(token: Uuid, locked: set<nat>) returns (jobs: seq<Job<E>>, ghost h: History<E>)
      requires Valid() && pid !in shared.publishers && token !in shared.tokens
      modifies this
      ensures Working(jobs, 0) && Spans(events, config, h, old(shared), shared)
      ensures |jobs| <= config.batchSize && Batched(events, jobs, token)
    {
      var rows, leases := ClaimRowsNow(config, shared.leases, shared.clock, token, locked);
      h := Perform(ClaimBatch(pid, token, rows));
      assert leases == shared.leases;
      jobs := shared.publishers[pid].jobs;
    }

    /** Hands one event to the broker. */
    method Publish(jobs: seq<Job<E>>, i: nat, ack: Ack) returns (ghost h: History<E>)
      requires Working(jobs, i) && i < |jobs|
      modifies this
      ensures Valid() && Spans(events, config, h, old(shared), shared)
      ensures pid in shared.publishers
      ensures shared.publishers[pid] == Publisher(jobs, i, if ack.Taken? then Acknowledged else Rejected)
    {
      h := Perform(Send(pid, ack));
    }

    /** Records the outcome through the repository; the row changes exactly as the mark step says, and the call is
        refused exactly when the claim was lost. */
    method Record(jobs: seq<Job<E>>, i: nat, ack: Ack) returns (lost: bool, ghost h: History<E>)
      requires Valid() && i < |jobs| && pid in shared.publishers
      requires shared.publishers[pid] == Publisher(jobs, i, if ack.Taken? then Acknowledged else Rejected)
      modifies this
      ensures Valid() && h.actions == [Mark(pid)] && Spans(events, config, h, old(shared), shared)
      ensures RecordedAt(config, h, jobs[i], ack, lost, 0)
      ensures if lost then pid !in shared.publishers else Working(jobs, i + 1)
    {
      var repository := new Repository(shared.leases);
      var job := jobs[i];
      assert OT.PublisherOk(events, shared, shared.publishers[pid]) && OT.JobOk(events, shared, job);
      var error: Option<OutboxError>;
      if ack.Taken? {
        error := repository.MarkPublished(job.row, job.token, shared.clock);
      } else {
        var retryAfter := B.RetryDelay(config, job.attempts);
        B.DelayClosedForm(config, job.attempts, job.attempts);
        error := repository.MarkFailed(job.row, job.token, retryAfter, shared.clock);
      }
      lost := error.Some?;
      h := Perform(Mark(pid));
      assert repository.leases == shared.leases;
    }

    /** One event of the batch, with everything that happens around it; its last step records the outcome. */
    method PublishOne(jobs: seq<Job<E>>, i: nat, turn: Turn) returns (lost: bool, ghost h: History<E>, ghost mark: nat)
      requires Working(jobs, i) && i < |jobs| && AllByOthers(turn.before, pid) && AllByOthers(turn.between, pid)
      modifies this
      ensures Valid() && Spans(events, config, h, old(shared), shared)
      ensures RecordedAt(config, h, jobs[i], turn.ack, lost, mark)
      ensures if lost then pid !in shared.publishers else Working(jobs, i + 1)
    {
      ghost var first := shared;
      h := Interfere(turn.before);
      ghost var mid := shared;
      var more := Publish(jobs, i, turn.ack);
      JoinSpans(events, config, h, more, first, mid, shared);
      h, mid := Joined(h, more), shared;
      more := Interfere(turn.between);
      JoinSpans(events, config, h, more, first, mid, shared);
      h, mid := Joined(h, more), shared;
      lost, more := Record(jobs, i, turn.ack);
      JoinSpans(events, config, h, more, first, mid, shared);
      RecordedLater(config, h, more, jobs[i], turn.ack, lost, 0);
      mark := |h.actions|;
      h := Joined(h, more);
    }

    /** One more event of the batch, appended to the run so far. */
    method PublishNext(jobs: seq<Job<E>>, i: nat, turns: seq<Turn>, ghost h: History<E>, ghost first: Delivery<E>,
                       ghost marks: seq<nat>)
      returns (lost: bool, ghost longer: History<E>, ghost further: seq<nat>)
      requires Working(jobs, i) && i < |jobs| && i < |turns| && TurnsByOthers(turns, pid)
      requires Spans(events, config, h, first, shared) && AllRecorded(config, h, jobs, turns, marks) && |marks| == i
      modifies this
      ensures Valid() && Spans(events, config, longer, first, shared) &&
        AllRecorded(config, longer, jobs, turns, further)
      ensures |further| == if lost then i else i + 1
      ensures if lost then pid !in shared.publishers &&
        LostNext(config, longer, jobs, turns, i) else Working(jobs, i + 1)
    {
      ghost var mid := shared;
      ghost var more, mark;
      lost, more, mark := PublishOne(jobs, i, turns[i]);
      TurnJoins(events, config, h, more, first, mid, shared, jobs, turns, marks, mark, lost);
      longer, further := Joined(h, more), if lost then marks else marks + [|h.actions| + mark];
    }

    /** The loop over the claimed events, up to the first lost claim. */
    method PublishJobs(jobs: seq<Job<E>>, turns: seq<Turn>)
      returns (published: nat, failed: nat, completed: bool, ghost h: History<E>, ghost marks: seq<nat>)
      requires Working(jobs, 0) && |jobs| <= |turns|
      requires TurnsByOthers(turns, pid)
      modifies this
      ensures Valid() && Spans(events, config, h, old(shared), shared)
      ensures AllRecorded(config, h, jobs, turns, marks) && |marks| == published + failed &&
        published == TakenIn(turns[..|marks|])
      ensures if completed then |marks| == |jobs| && Working(jobs, |jobs|)
              else pid !in shared.publishers && LostNext(config, h, jobs, turns, |marks|)
    {
      ghost var first := shared;
      published, failed, completed, h, marks := 0, 0, true, History([shared], []), [];
      for i := 0 to |jobs|
        invariant Working(jobs, i) && Spans(events, config, h, first, shared)
        invariant published + failed == i == |marks| && published == TakenIn(turns[..i])
        invariant AllRecorded(config, h, jobs, turns, marks)
      {
        var lost;
        lost, h, marks := PublishNext(jobs, i, turns, h, first, marks);
        if lost {
          completed := false;
          return;
        }
        TakenSnoc(turns, i);
        if turns[i].ack.Taken? {
          published := published + 1;
        } else {
          failed := failed + 1;
        }
      }
    }

    /** One batch. Its statements and everybody else's together are a run of the step system, so every guarantee
        about runs holds of it. Each claimed event was published or rescheduled under the batch's token, at a known
        step, as its acknowledgement demands, up to the first lost claim, which ends the batch. */
    method PublishBatch(token: Uuid, locked: set<nat>, turns: seq<Turn>)
      returns (result: BatchResult, completed: bool, ghost h: History<E>, ghost jobs: seq<Job<E>>,
        ghost marks: seq<nat>)
      requires Valid() && pid !in shared.publishers && token !in shared.tokens
      requires |turns| == config.batchSize
      requires TurnsByOthers(turns, pid)
      modifies this
      ensures Valid() && Spans(events, config, h, old(shared), shared) && pid !in shared.publishers
      ensures Batched(events, jobs, token) && result.claimed == |jobs|
      ensures AllRecorded(config, h, jobs, turns, marks) && |marks| == result.published + result.failed
      ensures result.published == TakenIn(turns[..|marks|])
      ensures if completed then |marks| == |jobs| else LostNext(config, h, jobs, turns, |marks|)
    {
      ghost var first := shared;
      var batch;
      batch, h := ClaimJobs(token, locked);
      ghost var mid := shared;
      var published, failed, done, more, recorded := PublishJobs(batch, turns);
      jobs := batch;
      JoinSpans(events, config, h, more, first, mid, shared);
      LaterRecorded(config, h, more, batch, turns, recorded);
      marks, h := Shifted(recorded, |h.actions|), Joined(h, more);
      result, completed := BatchResult(|batch|, published, failed), done;
      if completed {
        more := Retire(h, first, batch, turns, marks);
        h := Joined(h, more);
      }
    }

    /** The publisher is idle again; nothing recorded is touched. */
    method Retire(ghost h: History<E>, ghost first: Delivery<E>, ghost jobs: seq<Job<E>>, ghost turns: seq<Turn>,
                  ghost marks: seq<nat>)
      returns (ghost more: History<E>)
      requires Valid() && Spans(events, config, h, first, shared) && AllRecorded(config, h, jobs, turns, marks)
      modifies this
      ensures Valid() && pid !in shared.publishers && |more.states| > 0
      ensures Spans(events, config, Joined(h, more), first, shared) &&
        AllRecorded(config, Joined(h, more), jobs, turns, marks)
    {
      ghost var mid := shared;
      more := Perform(Crash(pid));
      JoinSpans(events, config, h, more, first, mid, shared);
      AllRecordedStays(config, h, more, jobs, turns, marks);
    }
  }
}
