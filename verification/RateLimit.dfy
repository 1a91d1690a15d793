/** Per-principal token buckets kept in a bounded map with idle and capacity eviction. */
module RateLimit {
  import opened Prelude

  const MAX_RATE := 600
  const MAX_TRACKED := 10_000
  const MINUTE: int := 60_000_000_000
  const IDLE_TTL: int := 15 * MINUTE

  /** An exact token bucket: one token is MINUTE units and `rate` units flow in per nanosecond,
      so that `rate` tokens arrive per minute. */
  datatype Bucket = Bucket(level: int, last: int)

  datatype Rate = Rate(perMinute: int, burst: int)

  datatype Entry = Entry(bucket: Bucket, lastSeen: int)

  predicate ValidRate(r: Rate) {
    1 <= r.perMinute <= MAX_RATE && r.burst == if r.perMinute == 1 then 1 else 2
  }

  function NewRate(perMinute: int): (r: Option<Rate>)
    ensures r.Some? <==> 1 <= perMinute <= MAX_RATE
    ensures r.Some? ==> ValidRate(r.value) && r.value.perMinute == perMinute
  {
    if perMinute < 1 || perMinute > MAX_RATE then None
    else Some(Rate(perMinute, if perMinute == 1 then 1 else 2))
  }

  function Cap(r: Rate): int {
    r.burst * MINUTE
  }

  /** Units in the bucket at `now`; a clock that stepped back refills nothing. */
  function LevelAt(r: Rate, b: Bucket, now: int): int {
    var elapsed := if now < b.last then 0 else now - b.last;
    var level := b.level + elapsed * r.perMinute;
    if level > Cap(r) then Cap(r) else level
  }

  predicate Admits(r: Rate, b: Bucket, now: int) {
    LevelAt(r, b, now) >= MINUTE
  }

  /** A granted request takes one token; a refused one leaves the bucket as it was. */
  function Spent(r: Rate, b: Bucket, now: int): Bucket {
    if Admits(r, b, now) then Bucket(LevelAt(r, b, now) - MINUTE, now) else b
  }

  function FullBucket(r: Rate, now: int): Bucket {
    Bucket(Cap(r), now)
  }

  // ---- The bounded limiter and the unbounded reference ----

  datatype Limiter = Limiter(entries: map<string, Entry>, nextGC: int)

  predicate Idle(e: Entry, now: int) {
    now - e.lastSeen >= IDLE_TTL
  }

  function RemoveIdle(entries: map<string, Entry>, now: int): map<string, Entry> {
    map s | s in entries && !Idle(entries[s], now) :: entries[s]
  }

  function Collected(l: Limiter, now: int): Limiter {
    if now < l.nextGC then l else Limiter(RemoveIdle(l.entries, now), now + IDLE_TTL)
  }

  function BucketOf(r: Rate, entries: map<string, Entry>, subject: string, now: int): Bucket {
    if subject in entries then entries[subject].bucket else FullBucket(r, now)
  }

  function Touched(r: Rate, l: Limiter, subject: string, now: int): Limiter {
    l.(entries := l.entries[subject := Entry(Spent(r, BucketOf(r, l.entries, subject, now), now), now)])
  }

  /** Whether a request for an unknown subject finds the map full. */
  predicate MustEvict(l: Limiter, subject: string, now: int) {
    subject !in Collected(l, now).entries && |Collected(l, now).entries| == MAX_TRACKED
  }

  /** The specification: one bucket per subject, never forgotten. */
  type Reference = map<string, Bucket>

  function RefBucket(r: Rate, m: Reference, subject: string, now: int): Bucket {
    if subject in m then m[subject] else FullBucket(r, now)
  }

  function RefAfter(r: Rate, m: Reference, subject: string, now: int): Reference {
    m[subject := Spent(r, RefBucket(r, m, subject, now), now)]
  }

  // ---- The class ----

  class PrincipalRateLimiter {
    const rate: Rate
    var state: Limiter

    ghost predicate Valid()
      reads this
    {
      ValidRate(rate) && "" !in state.entries && |state.entries| <= MAX_TRACKED
    }

    constructor (rate: Rate)
      requires ValidRate(rate)
      ensures Valid() && this.rate == rate && state == Limiter(map[], 0)
    {
      this.rate := rate;
      state := Limiter(map[], 0);
    }

    /** Sweeps idle entries when a collection is due. */
    method Collect(now: int)
      requires Valid()
      modifies this
      ensures Valid() && state == Collected(old(state), now)
      ensures state.nextGC == if now < old(state).nextGC then old(state).nextGC else now + 900_000_000_000
    {
      if !(now < state.nextGC) {
        var kept := SweepIdle(state.entries, now);
        state := Limiter(kept, now + IDLE_TTL);
      }
    }

    /** Drops a least recently seen subject if the map is full. */
    method MakeRoom(subject: string)
      requires Valid()
      modifies this
      ensures Valid() && (subject in state.entries || |state.entries| < MAX_TRACKED)
      ensures subject in old(state).entries || |old(state).entries| < MAX_TRACKED ==> state == old(state)
      ensures subject !in old(state).entries && |old(state).entries| == MAX_TRACKED ==> Evicted(old(state), state)
      ensures subject !in old(state).entries ==> subject !in state.entries
    {
      if subject !in state.entries && |state.entries| == MAX_TRACKED {
        var victim := FindOldest(state.entries);
        ghost var full := state.entries;
        state := state.(entries := state.entries - {victim});
        assert full.Keys == state.entries.Keys + {victim};
      }
    }

    /** Answers one request. The map stays bounded; unless it is full, the new state is the plain bucket update;
        if it is full, a least recently seen subject makes room first. */
    method Allow(subject: string, now: int) returns (allowed: bool)
      requires Valid()
      modifies this
      ensures Valid()
      ensures subject == "" ==> !allowed && state == old(state)
      ensures subject != "" ==>
        allowed == Admits(rate, BucketOf(rate, Collected(old(state), now).entries, subject, now), now)
      ensures subject != "" && !MustEvict(old(state), subject, now) ==>
        state == Touched(rate, Collected(old(state), now), subject, now)
      ensures subject != "" && MustEvict(old(state), subject, now) ==>
        exists room :: Evicted(Collected(old(state), now), room) && state == Touched(rate, room, subject, now)
    {
      if subject == "" {
        return false;
      }
      Collect(now);
      MakeRoom(subject);
      var bucket := if subject in state.entries then state.entries[subject].bucket else FullBucket(rate, now);
      allowed := Admits(rate, bucket, now);
      ghost var before := state.entries;
      state := state.(entries := state.entries[subject := Entry(Spent(rate, bucket, now), now)]);
      assert state.entries.Keys == before.Keys + {subject};
    }

    /** A stream of requests: while the map has room, the answers are those of the bucket updates alone. */
    method Serve(qs: seq<Request>) returns (answers: seq<bool>)
      requires Valid()
      modifies this
      ensures Valid()
      ensures Roomy(rate, old(state), qs) ==> answers == Answers(rate, old(state), qs)
    {
      answers := [];
      ghost var roomy := Roomy(rate, state, qs);
      for i := 0 to |qs|
        invariant Valid()
        invariant roomy ==> Roomy(rate, state, qs[i..])
        invariant roomy ==> Answers(rate, old(state), qs) == answers + Answers(rate, state, qs[i..])
      {
        assert qs[i..][0] == qs[i] && qs[i..][1..] == qs[i + 1..];
        var allowed := Allow(qs[i].subject, qs[i].at);
        answers := answers + [allowed];
      }
      assert qs[|qs|..] == [];
    }

    /** From start-up, requests in clock order that never find the map full get the answers of a limiter that
        never forgets a subject. */
    method ServeFromStart(qs: seq<Request>, ghost start: int) returns (answers: seq<bool>)
      requires Valid() && state == Limiter(map[], 0) && InOrder(qs, start) && Roomy(rate, state, qs)
      modifies this
      ensures Valid() && answers == RefAnswers(rate, map[], qs)
    {
      GarbageCollectionInvisible(rate, qs, start);
      answers := Serve(qs);
    }
  }

  /** A limiter exists for exactly the supported rates, and starts empty. */
  method NewLimiter(perMinute: int) returns (r: Option<PrincipalRateLimiter>)
    ensures r.Some? <==> 1 <= perMinute <= MAX_RATE
    ensures r.Some? ==> fresh(r.value) && r.value.Valid() && r.value.state == Limiter(map[], 0)
    ensures r.Some? ==> r.value.rate.perMinute == perMinute
  {
    var rate := NewRate(perMinute);
    if rate.None? {
      return None;
    }
    var limiter := new PrincipalRateLimiter(rate.value);
    return Some(limiter);
  }

  /** The second state is the first without one of its least recently seen subjects. */
  ghost predicate Evicted(l: Limiter, room: Limiter) {
    exists victim :: Oldest(l.entries, victim) && room == l.(entries := l.entries - {victim})
  }

  predicate Oldest(entries: map<string, Entry>, victim: string) {
    victim in entries && forall s :: s in entries ==> entries[victim].lastSeen <= entries[s].lastSeen
  }

  /** Deletes idle entries while ranging over the map in any order. */
  method SweepIdle(entries: map<string, Entry>, now: int) returns (kept: map<string, Entry>)
    ensures kept == RemoveIdle(entries, now)
    ensures forall s :: s in kept <==> s in entries && now - entries[s].lastSeen < 900_000_000_000
    ensures |kept| <= |entries|
  {
    kept := entries;
    var todo := entries.Keys;
    while todo != {}
      invariant todo <= kept.Keys <= entries.Keys && |kept| <= |entries|
      invariant forall s :: s in kept ==> kept[s] == entries[s]
      invariant forall s :: s in entries && s !in todo ==> (s in kept <==> !Idle(entries[s], now))
    {
      var s :| s in todo;
      if Idle(entries[s], now) {
        assert kept.Keys == (kept - {s}).Keys + {s};
        kept := kept - {s};
      }
      todo := todo - {s};
    }
  }

  /** Ranges over the map with the empty string standing for "none yet"; sound because "" is never a key. */
  method FindOldest(entries: map<string, Entry>) returns (oldest: string)
    requires entries != map[] && "" !in entries
    ensures Oldest(entries, oldest)
  {
    oldest := "";
    var oldestSeen := 0;
    var todo := entries.Keys;
    while todo != {}
      invariant todo <= entries.Keys
      invariant oldest == "" <==> todo == entries.Keys
      invariant oldest != "" ==> oldest in entries && oldestSeen == entries[oldest].lastSeen
      invariant forall s :: s in entries && s !in todo ==> oldestSeen <= entries[s].lastSeen
    {
      var s :| s in todo;
      if oldest == "" || entries[s].lastSeen < oldestSeen {
        oldest := s;
        oldestSeen := entries[s].lastSeen;
      }
      todo := todo - {s};
    }
    assert entries.Keys != {};
  }

  // ---- Garbage collection is invisible ----

  lemma IdleRefills(r: Rate, b: Bucket, now: int)
    requires ValidRate(r) && b.level >= 0 && now - b.last >= IDLE_TTL
    ensures LevelAt(r, b, now) == Cap(r)
  {
    var elapsed := now - b.last;
    assert elapsed * r.perMinute >= elapsed * 1;
  }

  lemma FullStaysFull(r: Rate, b: Bucket, now: int, later: int)
    requires ValidRate(r) && b.last <= now <= later && LevelAt(r, b, now) == Cap(r)
    ensures LevelAt(r, b, later) == Cap(r)
  {
    assert (later - b.last) * r.perMinute >= (now - b.last) * r.perMinute;
  }

  predicate Sound(r: Rate, b: Bucket, now: int) {
    0 <= b.level <= Cap(r) && b.last <= now
  }

  /** Tracked subjects agree with the reference; forgotten ones have a bucket that is full again. */
  ghost predicate Simulates(r: Rate, entries: map<string, Entry>, m: Reference, now: int) {
    && (forall s :: s in m ==> Sound(r, m[s], now))
    && (forall s :: s in entries ==> s in m && entries[s].bucket == m[s] && m[s].last <= entries[s].lastSeen <= now)
    && (forall s :: s in m && s !in entries ==> LevelAt(r, m[s], now) == Cap(r))
  }

  lemma SimulatesLater(r: Rate, entries: map<string, Entry>, m: Reference, now: int, later: int)
    requires ValidRate(r) && now <= later && Simulates(r, entries, m, now)
    ensures Simulates(r, entries, m, later)
  {
    forall s | s in m && s !in entries ensures LevelAt(r, m[s], later) == Cap(r) {
      FullStaysFull(r, m[s], now, later);
    }
  }

  lemma CollectionSimulates(r: Rate, entries: map<string, Entry>, m: Reference, now: int)
    requires ValidRate(r) && Simulates(r, entries, m, now)
    ensures Simulates(r, RemoveIdle(entries, now), m, now)
  {
    var kept := RemoveIdle(entries, now);
    forall s | s in m && s !in kept ensures LevelAt(r, m[s], now) == Cap(r) {
      if s in entries {
        IdleRefills(r, m[s], now);
      }
    }
  }

  lemma TouchSimulates(r: Rate, l: Limiter, m: Reference, subject: string, now: int)
    requires ValidRate(r) && Simulates(r, l.entries, m, now)
    ensures Admits(r, BucketOf(r, l.entries, subject, now), now) == Admits(r, RefBucket(r, m, subject, now), now)
    ensures Simulates(r, Touched(r, l, subject, now).entries, RefAfter(r, m, subject, now), now)
  {
    var b := BucketOf(r, l.entries, subject, now);
    var q := RefBucket(r, m, subject, now);
    assert LevelAt(r, b, now) == LevelAt(r, q, now);
    LevelSound(r, q, now);
    if subject !in l.entries {
      assert LevelAt(r, q, now) == Cap(r) >= MINUTE;
    }
    assert Spent(r, b, now) == Spent(r, q, now);
  }

  lemma LevelSound(r: Rate, b: Bucket, now: int)
    requires ValidRate(r) && Sound(r, b, now)
    ensures 0 <= LevelAt(r, b, now) <= Cap(r) && Sound(r, Spent(r, b, now), now)
  {
    assert (now - b.last) * r.perMinute >= 0;
  }

  datatype Request = Request(subject: string, at: int)

  predicate InOrder(qs: seq<Request>, from: int) {
    qs == [] || (from <= qs[0].at && InOrder(qs[1..], qs[0].at))
  }

  /** No request along the stream finds the map full. */
  predicate Roomy(r: Rate, l: Limiter, qs: seq<Request>)
    decreases |qs|
  {
    if qs == [] then true
    else if qs[0].subject == "" then Roomy(r, l, qs[1..])
    else
      && !MustEvict(l, qs[0].subject, qs[0].at)
      && Roomy(r, Touched(r, Collected(l, qs[0].at), qs[0].subject, qs[0].at), qs[1..])
  }

  /** Answers of the limiter with idle eviction, as long as no request finds the map full. */
  function Answers(r: Rate, l: Limiter, qs: seq<Request>): seq<bool>
    decreases |qs|
  {
    if qs == [] then []
    else if qs[0].subject == "" then [false] + Answers(r, l, qs[1..])
    else
      var c := Collected(l, qs[0].at);
      [Admits(r, BucketOf(r, c.entries, qs[0].subject, qs[0].at), qs[0].at)]
      + Answers(r, Touched(r, c, qs[0].subject, qs[0].at), qs[1..])
  }

  function RefAnswers(r: Rate, m: Reference, qs: seq<Request>): seq<bool>
    decreases |qs|
  {
    if qs == [] then []
    else if qs[0].subject == "" then [false] + RefAnswers(r, m, qs[1..])
    else
      [Admits(r, RefBucket(r, m, qs[0].subject, qs[0].at), qs[0].at)]
      + RefAnswers(r, RefAfter(r, m, qs[0].subject, qs[0].at), qs[1..])
  }

  lemma {:induction false} SameAnswers(r: Rate, l: Limiter, m: Reference, qs: seq<Request>, now: int)
    requires ValidRate(r) && Simulates(r, l.entries, m, now) && InOrder(qs, now)
    ensures Answers(r, l, qs) == RefAnswers(r, m, qs)
    decreases |qs|
  {
    if qs != [] {
      var q := qs[0];
      SimulatesLater(r, l.entries, m, now, q.at);
      if q.subject == "" {
        SameAnswers(r, l, m, qs[1..], q.at);
      } else {
        CollectionSimulates(r, l.entries, m, q.at);
        var c := Collected(l, q.at);
        TouchSimulates(r, c, m, q.subject, q.at);
        SameAnswers(r, Touched(r, c, q.subject, q.at), RefAfter(r, m, q.subject, q.at), qs[1..], q.at);
      }
    }
  }

  /** Garbage collection is invisible: from start-up, any requests in clock order get the answers
      of a limiter that never forgets a subject. */
  lemma GarbageCollectionInvisible(r: Rate, qs: seq<Request>, start: int)
    requires ValidRate(r) && InOrder(qs, start)
    ensures Answers(r, Limiter(map[], 0), qs) == RefAnswers(r, map[], qs)
  {
    SameAnswers(r, Limiter(map[], 0), map[], qs, start);
  }
}
