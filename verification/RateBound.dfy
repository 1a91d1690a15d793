/** The limiter limits: how many requests of a subject are granted in any stretch of time, and which must be. */
module RateBound {
  import opened Prelude
  import opened RateLimit

  // ---- Levels over time ----

  lemma Distributes(a: int, b: int, c: int, k: int)
    ensures (c - a) * k == (b - a) * k + (c - b) * k
  {
  }

  lemma LevelGrows(r: Rate, b: Bucket, x: int, y: int)
    requires ValidRate(r) && b.last <= x <= y
    ensures LevelAt(r, b, y) <= LevelAt(r, b, x) + (y - x) * r.perMinute
  {
    Distributes(b.last, x, y, r.perMinute);
    assert (y - x) * r.perMinute >= 0;
  }

  /** A request never raises the level, and a granted one costs a whole token. */
  lemma SpendingCosts(r: Rate, b: Bucket, at: int, later: int)
    requires ValidRate(r) && Sound(r, b, at) && at <= later
    ensures Sound(r, Spent(r, b, at), at) && LevelAt(r, Spent(r, b, at), later) <= LevelAt(r, b, later)
    ensures Admits(r, b, at) ==> LevelAt(r, Spent(r, b, at), at) == LevelAt(r, b, at) - MINUTE
  {
    LevelSound(r, b, at);
    Distributes(b.last, at, later, r.perMinute);
    assert (later - at) * r.perMinute >= 0;
  }

  // ---- At most the rate ----

  /** Granted requests of one subject at times from `s` to `e`. */
  function Grants(qs: seq<Request>, answers: seq<bool>, subject: string, s: int, e: int): nat
    requires |answers| == |qs|
  {
    if qs == [] then 0
    else
      (if qs[0].subject == subject && s <= qs[0].at <= e && answers[0] then 1 else 0)
      + Grants(qs[1..], answers[1..], subject, s, e)
  }

  /** The reference after one request. */
  function Next(r: Rate, m: Reference, q: Request): Reference {
    if q.subject == "" then m else RefAfter(r, m, q.subject, q.at)
  }

  predicate Grant(r: Rate, m: Reference, q: Request) {
    q.subject != "" && Admits(r, RefBucket(r, m, q.subject, q.at), q.at)
  }

  lemma AnswersUnfold(r: Rate, m: Reference, qs: seq<Request>)
    requires qs != []
    ensures RefAnswers(r, m, qs) == [Grant(r, m, qs[0])] + RefAnswers(r, Next(r, m, qs[0]), qs[1..])
  {
  }

  lemma {:induction false} OneAnswerEach(r: Rate, m: Reference, qs: seq<Request>)
    ensures |RefAnswers(r, m, qs)| == |qs|
    decreases |qs|
  {
    if qs != [] {
      AnswersUnfold(r, m, qs);
      OneAnswerEach(r, Next(r, m, qs[0]), qs[1..]);
    }
  }

  ghost predicate AllSound(r: Rate, m: Reference, now: int) {
    forall x :: x in m ==> Sound(r, m[x], now)
  }

  function Level(r: Rate, m: Reference, subject: string, now: int): int {
    if subject in m then LevelAt(r, m[subject], now) else Cap(r)
  }

  function Latest(a: int, b: int): int {
    if a < b then b else a
  }

  /** What the bucket can still pay for up to `e`: its level when the stretch begins, and the inflow until it ends. */
  function Allowance(r: Rate, m: Reference, subject: string, now: int, s: int, e: int): int {
    if now > e then 0
    else Level(r, m, subject, Latest(now, s)) + (e - Latest(now, s)) * r.perMinute
  }

  lemma LevelBounded(r: Rate, m: Reference, subject: string, now: int)
    requires ValidRate(r) && AllSound(r, m, now)
    ensures 0 <= Level(r, m, subject, now) <= Cap(r)
  {
    if subject in m {
      LevelSound(r, m[subject], now);
    }
  }

  lemma LevelSteps(r: Rate, m: Reference, subject: string, x: int, y: int)
    requires ValidRate(r) && AllSound(r, m, x) && x <= y
    ensures Level(r, m, subject, y) <= Level(r, m, subject, x) + (y - x) * r.perMinute
  {
    if subject in m {
      LevelGrows(r, m[subject], x, y);
    } else {
      assert (y - x) * r.perMinute >= 0;
    }
  }

  lemma AllowanceNonNegative(r: Rate, m: Reference, subject: string, now: int, s: int, e: int)
    requires ValidRate(r) && AllSound(r, m, now) && s <= e
    ensures Allowance(r, m, subject, now, s, e) >= 0
  {
    var x := Latest(now, s);
    LevelBounded(r, m, subject, x);
    if now <= e {
      assert (e - x) * r.perMinute >= 0;
    }
  }

  /** Waiting never adds to the allowance. */
  lemma AllowanceShrinks(r: Rate, m: Reference, subject: string, now: int, later: int, s: int, e: int)
    requires ValidRate(r) && AllSound(r, m, now) && now <= later && s <= e
    ensures Allowance(r, m, subject, later, s, e) <= Allowance(r, m, subject, now, s, e)
  {
    var x, y := Latest(now, s), Latest(later, s);
    if later <= e {
      LevelSteps(r, m, subject, x, y);
      Distributes(x, y, e, r.perMinute);
    } else {
      AllowanceNonNegative(r, m, subject, now, s, e);
    }
  }

  lemma BucketIsLevel(r: Rate, m: Reference, subject: string, now: int)
    requires ValidRate(r) && AllSound(r, m, now)
    ensures Sound(r, RefBucket(r, m, subject, now), now)
    ensures forall later :: now <= later ==>
      LevelAt(r, RefBucket(r, m, subject, now), later) == Level(r, m, subject, later)
  {
    if subject !in m {
      forall later | now <= later ensures LevelAt(r, FullBucket(r, now), later) == Cap(r) {
        assert (later - now) * r.perMinute >= 0;
      }
    }
  }

  /** A request of the subject itself: it costs a token if it is granted within the stretch, and nothing is gained. */
  lemma OwnRequest(r: Rate, m: Reference, subject: string, now: int, s: int, e: int)
    requires ValidRate(r) && AllSound(r, m, now) && s <= e
    ensures AllSound(r, RefAfter(r, m, subject, now), now)
    ensures
      var granted := Admits(r, RefBucket(r, m, subject, now), now);
      Allowance(r, RefAfter(r, m, subject, now), subject, now, s, e) + (if granted && s <= now <= e then MINUTE else 0)
        <= Allowance(r, m, subject, now, s, e)
  {
    var x := Latest(now, s);
    BucketIsLevel(r, m, subject, now);
    SpendingCosts(r, RefBucket(r, m, subject, now), now, x);
  }

  lemma OthersRequest(r: Rate, m: Reference, other: string, subject: string, now: int, s: int, e: int)
    requires ValidRate(r) && AllSound(r, m, now) && other != subject
    ensures AllSound(r, RefAfter(r, m, other, now), now)
    ensures Allowance(r, RefAfter(r, m, other, now), subject, now, s, e) == Allowance(r, m, subject, now, s, e)
  {
    BucketIsLevel(r, m, other, now);
    SpendingCosts(r, RefBucket(r, m, other, now), now, now);
  }

  /** One request of anybody, some time later: a grant to the subject within the stretch costs a token. */
  lemma RequestPays(r: Rate, m: Reference, q: Request, subject: string, now: int, s: int, e: int)
    requires ValidRate(r) && AllSound(r, m, now) && now <= q.at && s <= e && subject != ""
    ensures AllSound(r, Next(r, m, q), q.at)
    ensures
      var cost := if q.subject == subject && s <= q.at <= e && Grant(r, m, q) then MINUTE else 0;
      Allowance(r, Next(r, m, q), subject, q.at, s, e) + cost <= Allowance(r, m, subject, now, s, e)
  {
    assert AllSound(r, m, q.at);
    AllowanceShrinks(r, m, subject, now, q.at, s, e);
    if q.subject == subject {
      OwnRequest(r, m, subject, q.at, s, e);
    } else if q.subject != "" {
      OthersRequest(r, m, q.subject, subject, q.at, s, e);
    }
  }

  /** Every grant is paid for: the tokens granted in a stretch never exceed the allowance at its beginning. */
  lemma {:induction false} GrantsArePaid(r: Rate, m: Reference, qs: seq<Request>, subject: string, now: int, s: int,
                                         e: int)
    requires ValidRate(r) && AllSound(r, m, now) && InOrder(qs, now) && s <= e && subject != ""
    ensures |RefAnswers(r, m, qs)| == |qs|
    ensures Grants(qs, RefAnswers(r, m, qs), subject, s, e) * MINUTE <= Allowance(r, m, subject, now, s, e)
    decreases |qs|
  {
    OneAnswerEach(r, m, qs);
    AllowanceNonNegative(r, m, subject, now, s, e);
    if qs != [] {
      var q, rest := qs[0], qs[1..];
      var next := Next(r, m, q);
      RequestPays(r, m, q, subject, now, s, e);
      GrantsArePaid(r, next, rest, subject, q.at, s, e);
      AnswersUnfold(r, m, qs);
      assert RefAnswers(r, m, qs)[1..] == RefAnswers(r, next, rest);
    }
  }

  lemma WholeTokens(grants: nat, burst: int, inflow: int)
    requires grants * MINUTE <= burst * MINUTE + inflow && inflow >= 0
    ensures grants <= burst + inflow / MINUTE
  {
  }

  /** At most the rate: from start-up, in any stretch of `d` nanoseconds, a subject gets at most its burst and what
      flows
      in meanwhile, whatever else is asked. */
  lemma AtMostTheRate(r: Rate, qs: seq<Request>, start: int, subject: string, s: int, d: nat)
    requires ValidRate(r) && InOrder(qs, start)
    ensures |RefAnswers(r, map[], qs)| == |qs|
    ensures Grants(qs, RefAnswers(r, map[], qs), subject, s, s + d) <= r.burst + d * r.perMinute / MINUTE
  {
    OneAnswerEach(r, map[], qs);
    assert d * r.perMinute >= 0;
    if subject == "" {
      NobodyIsRefused(r, map[], qs, s, s + d);
    } else {
      GrantsArePaid(r, map[], qs, subject, start, s, s + d);
      FullAllowance(r, subject, start, s, d);
      WholeTokens(Grants(qs, RefAnswers(r, map[], qs), subject, s, s + d), r.burst, d * r.perMinute);
    }
  }

  lemma FullAllowance(r: Rate, subject: string, start: int, s: int, d: nat)
    requires ValidRate(r)
    ensures Allowance(r, map[], subject, start, s, s + d) <= r.burst * MINUTE + d * r.perMinute
  {
    var x := Latest(start, s);
    assert d * r.perMinute >= 0;
    Distributes(s, x, s + d, r.perMinute);
    assert (x - s) * r.perMinute >= 0;
  }

  lemma {:induction false} NobodyIsRefused(r: Rate, m: Reference, qs: seq<Request>, s: int, e: int)
    ensures |RefAnswers(r, m, qs)| == |qs| && Grants(qs, RefAnswers(r, m, qs), "", s, e) == 0
    decreases |qs|
  {
    if qs != [] {
      NobodyIsRefused(r, Next(r, m, qs[0]), qs[1..], s, e);
      AnswersUnfold(r, m, qs);
      assert RefAnswers(r, m, qs)[1..] == RefAnswers(r, Next(r, m, qs[0]), qs[1..]);
    }
  }

  // ---- At least the rate ----

  /** The first request of a subject is granted. */
  lemma {:induction false} FirstIsGranted(r: Rate, m: Reference, qs: seq<Request>, i: nat)
    requires ValidRate(r) && i < |qs| && qs[i].subject != "" && qs[i].subject !in m
    requires forall j :: 0 <= j < i ==> qs[j].subject != qs[i].subject
    ensures |RefAnswers(r, m, qs)| == |qs| && RefAnswers(r, m, qs)[i]
    decreases |qs|
  {
    OneAnswerEach(r, m, qs);
    AnswersUnfold(r, m, qs);
    if i == 0 {
      assert Cap(r) >= MINUTE;
    } else {
      FirstIsGranted(r, Next(r, m, qs[0]), qs[1..], i - 1);
    }
  }

  /** None of the subject's requests from `lo` to before `hi` was granted. */
  ghost predicate Refused(qs: seq<Request>, answers: seq<bool>, lo: nat, hi: nat, subject: string) {
    |answers| == |qs| && hi <= |qs| && forall k :: lo <= k < hi && qs[k].subject == subject ==> !answers[k]
  }

  lemma RefusedTail(qs: seq<Request>, answers: seq<bool>, lo: nat, hi: nat, subject: string)
    requires Refused(qs, answers, lo + 1, hi + 1, subject) && qs != []
    ensures Refused(qs[1..], answers[1..], lo, hi, subject)
  {
    forall k | lo <= k < hi && qs[1..][k].subject == subject ensures !answers[1..][k] {
      assert qs[k + 1] == qs[1..][k] && answers[k + 1] == answers[1..][k];
    }
  }

  lemma AnswersTail(r: Rate, m: Reference, qs: seq<Request>)
    requires qs != []
    ensures |RefAnswers(r, m, qs)| == |qs| && RefAnswers(r, m, qs)[0] == Grant(r, m, qs[0])
    ensures RefAnswers(r, m, qs)[1..] == RefAnswers(r, Next(r, m, qs[0]), qs[1..])
  {
    AnswersUnfold(r, m, qs);
    OneAnswerEach(r, m, qs);
  }

  lemma NextSound(r: Rate, m: Reference, q: Request, now: int)
    requires ValidRate(r) && AllSound(r, m, now) && now <= q.at
    ensures AllSound(r, Next(r, m, q), q.at)
    ensures Grant(r, m, q) ==> Next(r, m, q)[q.subject].last == q.at
  {
    assert AllSound(r, m, q.at);
    if q.subject != "" {
      BucketIsLevel(r, m, q.subject, q.at);
      SpendingCosts(r, RefBucket(r, m, q.subject, q.at), q.at, q.at);
    }
  }

  lemma RefusedChangesNothing(r: Rate, m: Reference, q: Request, subject: string)
    requires subject in m && (q.subject == subject ==> !Grant(r, m, q))
    ensures subject in Next(r, m, q) && Next(r, m, q)[subject] == m[subject]
  {
  }

  lemma WaitedLongEnough(r: Rate, m: Reference, q: Request, paid: int)
    requires ValidRate(r) && q.subject != "" && q.subject in m && 0 <= m[q.subject].level && m[q.subject].last == paid
    requires paid <= q.at && (q.at - paid) * r.perMinute >= MINUTE
    ensures Grant(r, m, q)
  {
  }

  /** A bucket last paid at `paid` grants a request a whole token later, however many were refused in between. */
  lemma {:induction false} GrantedAfterRefusals(r: Rate, m: Reference, qs: seq<Request>, i: nat, paid: int)
    requires ValidRate(r) && i < |qs| && qs[i].subject != ""
    requires qs[i].subject in m && 0 <= m[qs[i].subject].level && m[qs[i].subject].last == paid
    requires Refused(qs, RefAnswers(r, m, qs), 0, i, qs[i].subject)
    requires paid <= qs[i].at && (qs[i].at - paid) * r.perMinute >= MINUTE
    ensures RefAnswers(r, m, qs)[i]
    decreases |qs|
  {
    AnswersTail(r, m, qs);
    if i == 0 {
      WaitedLongEnough(r, m, qs[0], paid);
    } else {
      RefusedTail(qs, RefAnswers(r, m, qs), 0, i - 1, qs[i].subject);
      RefusedChangesNothing(r, m, qs[0], qs[i].subject);
      GrantedAfterRefusals(r, Next(r, m, qs[0]), qs[1..], i - 1, paid);
      assert RefAnswers(r, m, qs)[i] == RefAnswers(r, m, qs)[1..][i - 1];
    }
  }

  /** At least the rate: a request at least one token's time after its subject's last grant is granted. */
  lemma {:induction false} SpacedIsGranted(r: Rate, m: Reference, qs: seq<Request>, now: int, j: nat, i: nat)
    requires ValidRate(r) && AllSound(r, m, now) && InOrder(qs, now) && j < i < |qs|
    requires qs[i].subject == qs[j].subject && qs[i].subject != ""
    requires Refused(qs, RefAnswers(r, m, qs), j + 1, i, qs[i].subject) && RefAnswers(r, m, qs)[j]
    requires qs[j].at <= qs[i].at && (qs[i].at - qs[j].at) * r.perMinute >= MINUTE
    ensures RefAnswers(r, m, qs)[i]
    decreases |qs|
  {
    var next, rest := Next(r, m, qs[0]), qs[1..];
    AnswersTail(r, m, qs);
    NextSound(r, m, qs[0], now);
    RefusedTail(qs, RefAnswers(r, m, qs), j, i - 1, qs[i].subject);
    assert rest[i - 1] == qs[i];
    if j == 0 {
      GrantedAfterRefusals(r, next, rest, i - 1, qs[0].at);
    } else {
      assert rest[j - 1] == qs[j] && RefAnswers(r, next, rest)[j - 1] == RefAnswers(r, m, qs)[j];
      SpacedIsGranted(r, next, rest, qs[0].at, j - 1, i - 1);
    }
    assert RefAnswers(r, m, qs)[i] == RefAnswers(r, m, qs)[1..][i - 1];
  }

  // ---- The running limiter ----

  /** All three, of a stream of answers. */
  ghost predicate Limits(r: Rate, qs: seq<Request>, answers: seq<bool>) {
    && |answers| == |qs|
    && (forall subject, s, e :: s <= e ==>
          Grants(qs, answers, subject, s, e) <= r.burst + (e - s) * r.perMinute / MINUTE)
    && (forall i :: 0 <= i < |qs| && IsFirst(qs, i) ==> answers[i])
    && (forall j, i :: 0 <= j < i < |qs| && answers[j] && IsSpaced(r, qs, answers, j, i) ==> answers[i])
  }

  ghost predicate IsFirst(qs: seq<Request>, i: nat)
    requires i < |qs|
  {
    qs[i].subject != "" && forall j :: 0 <= j < i ==> qs[j].subject != qs[i].subject
  }

  /** Request i is the subject's next possible grant after j, a whole token's time later. */
  ghost predicate IsSpaced(r: Rate, qs: seq<Request>, answers: seq<bool>, j: nat, i: nat)
    requires j < i < |qs|
  {
    && qs[i].subject == qs[j].subject && qs[i].subject != "" && Refused(qs, answers, j + 1, i, qs[i].subject)
    && (qs[i].at - qs[j].at) * r.perMinute >= MINUTE
  }

  lemma ReferenceLimits(r: Rate, qs: seq<Request>, start: int)
    requires ValidRate(r) && InOrder(qs, start)
    ensures Limits(r, qs, RefAnswers(r, map[], qs))
  {
    var answers := RefAnswers(r, map[], qs);
    OneAnswerEach(r, map[], qs);
    forall subject, s, e | s <= e
      ensures Grants(qs, answers, subject, s, e) <= r.burst + (e - s) * r.perMinute / MINUTE
    {
      AtMostTheRate(r, qs, start, subject, s, e - s);
    }
    forall i | 0 <= i < |qs| && IsFirst(qs, i) ensures answers[i] {
      FirstIsGranted(r, map[], qs, i);
    }
    forall j, i | 0 <= j < i < |qs| && answers[j] && IsSpaced(r, qs, answers, j, i) ensures answers[i] {
      Ordered(qs, start, j, i);
      SpacedIsGranted(r, map[], qs, start, j, i);
    }
  }

  lemma {:induction false} Ordered(qs: seq<Request>, from: int, j: nat, i: nat)
    requires InOrder(qs, from) && j < i < |qs|
    ensures qs[j].at <= qs[i].at
    decreases |qs|
  {
    if j > 0 {
      Ordered(qs[1..], qs[0].at, j - 1, i - 1);
    } else {
      NotBefore(qs[1..], qs[0].at, i - 1);
    }
  }

  lemma {:induction false} NotBefore(qs: seq<Request>, from: int, i: nat)
    requires InOrder(qs, from) && i < |qs|
    ensures from <= qs[i].at
    decreases |qs|
  {
    if i > 0 {
      NotBefore(qs[1..], qs[0].at, i - 1);
    }
  }

  /** A new limiter really limits, as long as its map has room: at most the rate, at least the rate, and nobody is
      refused on their first request. */
  method ServeWithinRate(perMinute: int, qs: seq<Request>, ghost start: int) returns (answers: Option<seq<bool>>)
    requires InOrder(qs, start)
    ensures answers.Some? <==> 1 <= perMinute <= 600
    ensures
      var rate := Rate(perMinute, if perMinute == 1 then 1 else 2);
      answers.Some? && Roomy(rate, Limiter(map[], 0), qs) ==> Limits(rate, qs, answers.value)
  {
    var limiter := NewLimiter(perMinute);
    if limiter.None? {
      return None;
    }
    ghost var roomy := Roomy(limiter.value.rate, Limiter(map[], 0), qs);
    ReferenceLimits(limiter.value.rate, qs, start);
    GarbageCollectionInvisible(limiter.value.rate, qs, start);
    var served := limiter.value.Serve(qs);
    return Some(served);
  }

  // ---- A full map forgets ----

  /** Distinct subjects without end. */
  function Name(i: nat): string {
    seq(i, k requires 0 <= k < i => 'x')
  }

  /** The map after the first k subjects: the first was last seen at 2, the others at 3. */
  ghost predicate Crowd(l: Limiter, k: nat) {
    && l.nextGC == 1 + IDLE_TTL && |l.entries| == k >= 1
    && (forall s :: s in l.entries <==> 1 <= |s| <= k && s == Name(|s|))
    && (forall s :: s in l.entries ==> l.entries[s].lastSeen == if |s| == 1 then 2 else 3)
  }

  lemma CrowdGrows(r: Rate, l: Limiter, k: nat)
    requires Crowd(l, k)
    ensures !(Name(k + 1) in l.entries) && Collected(l, 3) == l && Crowd(Touched(r, l, Name(k + 1), 3), k + 1)
  {
    var after := Touched(r, l, Name(k + 1), 3);
    assert |Name(k + 1)| == k + 1;
    assert after.entries.Keys == l.entries.Keys + {Name(k + 1)};
  }

  /** Capacity eviction breaks the bound: with one request a minute allowed, a subject is granted, refused a nanosecond
      later, pushed out of the full map by strangers, and granted again. */
  method EvictionForgets() returns (granted: bool, refused: bool, again: bool)
    ensures granted && !refused && again
  {
    var rate := NewRate(1);
    var limiter := new PrincipalRateLimiter(rate.value);
    granted := limiter.Allow(Name(1), 1);
    assert Name(1) == "x" && limiter.state.entries.Keys == {Name(1)};
    refused := limiter.Allow(Name(1), 2);
    assert limiter.state.entries.Keys == {Name(1)};
    assert Crowd(limiter.state, 1);
    for k := 1 to MAX_TRACKED
      invariant limiter.Valid() && limiter.rate == rate.value && fresh(limiter) && Crowd(limiter.state, k)
    {
      CrowdGrows(limiter.rate, limiter.state, k);
      var _ := limiter.Allow(Name(k + 1), 3);
    }
    again := PushedOut(limiter);
  }

  method PushedOut(limiter: PrincipalRateLimiter) returns (again: bool)
    requires limiter.Valid() && Crowd(limiter.state, MAX_TRACKED)
    modifies limiter
    ensures again
  {
    ghost var full := limiter.state;
    assert |Name(MAX_TRACKED + 1)| == MAX_TRACKED + 1 && |Name(1)| == 1 && Name(1) in full.entries;
    var _ := limiter.Allow(Name(MAX_TRACKED + 1), 4);
    assert Name(1) !in limiter.state.entries;
    again := limiter.Allow(Name(1), 5);
  }
}
