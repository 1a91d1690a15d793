/** The sliding-window transfer count kept in a sorted set with key expiry. */
module Velocity {
  import opened Prelude

  const MILLI: int := 1_000_000

  /** Nanoseconds to whole milliseconds, rounding down. */
  function Millis(t: int): int {
    t / MILLI
  }

  /** Scores up to and including this one have aged out at time `at`. */
  function Cutoff(window: int, at: int): int {
    Millis(at - window)
  }

  /** One key: scores by member, and the server time after which the key expires. */
  datatype Window = Window(members: map<Uuid, int>, expireAt: int)

  /** When the server treats a key as gone: after its expiry time, or already at it. */
  datatype Expiry = AfterDeadline | AtDeadline

  predicate Expired(w: Window, rule: Expiry, now: int) {
    now > w.expireAt || (rule == AtDeadline && now == w.expireAt)
  }

  function Pruned(members: map<Uuid, int>, cutoff: int): map<Uuid, int> {
    map m | m in members && members[m] > cutoff :: members[m]
  }

  /** The script on one key: prune, add if absent, refresh the expiry. */
  function Observed(key: Option<Window>, rule: Expiry, window: int, transfer: Uuid, at: int): Window {
    var now := Millis(at);
    var stored := if key.None? || Expired(key.value, rule, now) then map[] else key.value.members;
    var kept := Pruned(stored, Cutoff(window, at));
    Window(if transfer in kept then kept else kept[transfer := now], now + window / MILLI)
  }

  datatype VelocityError = InvalidArgument

  class Observer {
    const window: int
    const rule: Expiry
    var keys: map<Uuid, Window>

    constructor (window: int, rule: Expiry)
      requires window >= MILLI
      ensures this.window == window && this.rule == rule && keys == map[]
    {
      this.window := window;
      this.rule := rule;
      keys := map[];
    }

    /** Runs the four commands against the account's key; the count is the cardinality they leave. */
    method Observe(account: Uuid, transfer: Uuid, at: int) returns (r: Result<nat, VelocityError>)
      requires window >= MILLI
      modifies this
      ensures at == 0 ==> r == Err(InvalidArgument) && keys == old(keys)
      ensures at != 0 ==>
        var key := if account in old(keys) then Some(old(keys)[account]) else None;
        var after := Observed(key, rule, window, transfer, at);
        keys == old(keys)[account := after] && r == Ok(|after.members|) && |after.members| >= 1
    {
      if at == 0 {
        return Err(InvalidArgument);
      }
      var now := Millis(at);
      var members := map[];
      if account in keys && !Expired(keys[account], rule, now) {
        members := keys[account].members;
      }
      members := Pruned(members, Cutoff(window, at));
      if transfer !in members {
        members := members[transfer := now];
      }
      keys := keys[account := Window(members, now + window / MILLI)];
      assert transfer in members.Keys;
      if |members| < 1 {
        return Err(InvalidArgument);
      }
      return Ok(|members|);
    }
  }

  // ---- The log-based specification ----

  datatype Observation = Observation(transfer: Uuid, at: int)

  predicate InOrder(log: seq<Observation>) {
    forall i, j :: 0 <= i < j < |log| ==> log[i].at <= log[j].at
  }

  /** Score under which a transfer counts: its first observation, or the first one after it had aged out. */
  function Anchor(window: int, log: seq<Observation>, x: Uuid): Option<int> {
    if log == [] then None
    else
      var o := log[|log| - 1];
      var before := Anchor(window, log[..|log| - 1], x);
      if o.transfer != x then before
      else if before.Some? && before.value > Cutoff(window, o.at) then before
      else Some(Millis(o.at))
  }

  predicate Live(window: int, log: seq<Observation>, x: Uuid, at: int) {
    Anchor(window, log, x).Some? && Anchor(window, log, x).value > Cutoff(window, at)
  }

  function Transfers(log: seq<Observation>): set<Uuid> {
    set i | 0 <= i < |log| :: log[i].transfer
  }

  /** The distinct transfers not yet aged out at `at`, with their scores. */
  function LiveAt(window: int, log: seq<Observation>, at: int): map<Uuid, int> {
    map x | x in Transfers(log) && Live(window, log, x, at) :: Anchor(window, log, x).value
  }

  function Replayed(rule: Expiry, window: int, log: seq<Observation>): Option<Window> {
    if log == [] then None
    else
      var o := log[|log| - 1];
      Some(Observed(Replayed(rule, window, log[..|log| - 1]), rule, window, o.transfer, o.at))
  }

  // ---- Refinement ----

  lemma CutoffBounds(window: int, at: int)
    requires window >= MILLI
    ensures Cutoff(window, at) < Millis(at)
    ensures Cutoff(window, at) >= Millis(at) - window / MILLI - 1
    ensures window % MILLI == 0 ==> Cutoff(window, at) == Millis(at) - window / MILLI
  {
  }

  lemma {:induction false} AnchorPast(window: int, log: seq<Observation>, x: Uuid)
    requires InOrder(log) && Anchor(window, log, x).Some?
    ensures |log| > 0 && Anchor(window, log, x).value <= Millis(log[|log| - 1].at)
  {
    var init := log[..|log| - 1];
    if Anchor(window, init, x).Some? {
      AnchorPast(window, init, x);
      assert init[|init| - 1] == log[|init| - 1];
    }
  }

  lemma {:induction false} AnchorSeen(window: int, log: seq<Observation>, x: Uuid)
    requires Anchor(window, log, x).Some?
    ensures x in Transfers(log)
  {
    var init := log[..|log| - 1];
    if log[|log| - 1].transfer != x {
      AnchorSeen(window, init, x);
      var i :| 0 <= i < |init| && init[i].transfer == x;
      assert log[i].transfer == x;
    }
  }

  /** A key the server may drop holds nothing that still counts. */
  lemma ExpiredHoldsNothing(rule: Expiry, window: int, log: seq<Observation>, key: Window, at: int)
    requires window >= MILLI && log != [] && InOrder(log)
    requires rule == AfterDeadline || window % MILLI == 0
    requires key.expireAt == Millis(log[|log| - 1].at) + window / MILLI
    requires Expired(key, rule, Millis(at))
    ensures LiveAt(window, log, at) == map[]
  {
    CutoffBounds(window, at);
    forall x | Anchor(window, log, x).Some? ensures !Live(window, log, x, at) {
      AnchorPast(window, log, x);
    }
  }

  lemma PruneAges(window: int, log: seq<Observation>, earlier: int, at: int)
    requires earlier <= at
    ensures Pruned(LiveAt(window, log, earlier), Cutoff(window, at)) == LiveAt(window, log, at)
  {
    assert Cutoff(window, earlier) <= Cutoff(window, at);
  }

  lemma ExtendLive(window: int, log: seq<Observation>, o: Observation)
    requires window >= MILLI
    ensures
      var kept := LiveAt(window, log, o.at);
      LiveAt(window, log + [o], o.at) == if o.transfer in kept then kept else kept[o.transfer := Millis(o.at)]
  {
    var all := log + [o];
    assert all[..|all| - 1] == log;
    CutoffBounds(window, o.at);
    forall x | x in Transfers(log) ensures x in Transfers(all) {
      var i :| 0 <= i < |log| && log[i].transfer == x;
      assert all[i].transfer == x;
    }
    assert all[|log|].transfer == o.transfer;
    forall x | Live(window, log, x, o.at) ensures x in Transfers(log) {
      AnchorSeen(window, log, x);
    }
  }

  lemma ObserveNext(rule: Expiry, window: int, log: seq<Observation>, key: Window, o: Observation)
    requires window >= MILLI && log != [] && InOrder(log) && log[|log| - 1].at <= o.at
    requires rule == AfterDeadline || window % MILLI == 0
    requires key == Window(LiveAt(window, log, log[|log| - 1].at), Millis(log[|log| - 1].at) + window / MILLI)
    ensures Observed(Some(key), rule, window, o.transfer, o.at) ==
      Window(LiveAt(window, log + [o], o.at), Millis(o.at) + window / MILLI)
  {
    var kept := LiveAt(window, log, o.at);
    if Expired(key, rule, Millis(o.at)) {
      ExpiredHoldsNothing(rule, window, log, key, o.at);
      assert Pruned(map[], Cutoff(window, o.at)) == kept;
    } else {
      PruneAges(window, log, log[|log| - 1].at, o.at);
    }
    ExtendLive(window, log, o);
  }

  lemma ObserveFirst(rule: Expiry, window: int, o: Observation)
    requires window >= MILLI
    ensures Observed(None, rule, window, o.transfer, o.at) ==
      Window(LiveAt(window, [o], o.at), Millis(o.at) + window / MILLI)
  {
    assert LiveAt(window, [], o.at) == map[];
    assert Pruned(map[], Cutoff(window, o.at)) == map[];
    assert [] + [o] == [o];
    ExtendLive(window, [], o);
  }

  lemma ReplayedSnoc(rule: Expiry, window: int, log: seq<Observation>, o: Observation)
    ensures Replayed(rule, window, log + [o]) ==
      Some(Observed(Replayed(rule, window, log), rule, window, o.transfer, o.at))
  {
    assert (log + [o])[..|log|] == log;
  }

  /** Window refinement: for observations in clock order the key holds exactly the live transfers of the log,
      and dropping expired keys never shows. Keys dropped at their deadline need a whole-millisecond window. */
  lemma {:induction false} WindowRefinesLog(rule: Expiry, window: int, log: seq<Observation>)
    requires window >= MILLI && log != [] && InOrder(log)
    requires rule == AfterDeadline || window % MILLI == 0
    ensures
      var at := log[|log| - 1].at;
      Replayed(rule, window, log) == Some(Window(LiveAt(window, log, at), Millis(at) + window / MILLI))
  {
    var init, o := log[..|log| - 1], log[|log| - 1];
    assert log == init + [o];
    ReplayedSnoc(rule, window, init, o);
    if init == [] {
      assert log == [o];
      ObserveFirst(rule, window, o);
    } else {
      WindowRefinesLog(rule, window, init);
      assert init[|init| - 1] == log[|init| - 1];
      ObserveNext(rule, window, init, Replayed(rule, window, init).value, o);
    }
  }

  /** Observing a live transfer again, at any later time at which it still counts, changes neither its score nor the
      count. */
  lemma ReobservationIsIdempotent(rule: Expiry, window: int, log: seq<Observation>, o: Observation)
    requires window >= MILLI && log != [] && InOrder(log) && log[|log| - 1].at <= o.at
    requires rule == AfterDeadline || window % MILLI == 0
    requires Live(window, log, o.transfer, o.at)
    ensures Replayed(rule, window, log + [o]).value.members == LiveAt(window, log, o.at)
  {
    assert InOrder(log + [o]);
    WindowRefinesLog(rule, window, log + [o]);
    ExtendLive(window, log, o);
    AnchorSeen(window, log, o.transfer);
  }

  /** The premise on the window is exact: for every window that is not whole milliseconds there are two
      observations, both of which the observer accepts, after which a server that drops keys at their deadline
      has lost a transfer that still counts. */
  lemma FractionalWindowLosesTransfer(window: int)
    requires window >= MILLI && window % MILLI != 0
    ensures
      var log := [Observation(1, MILLI), Observation(2, MILLI + window / MILLI * MILLI)];
      && InOrder(log) && log[0].at != 0 && log[1].at != 0
      && Live(window, log, 1, log[1].at)
      && Replayed(AtDeadline, window, log).value.members != LiveAt(window, log, log[1].at)
  {
    var first, second := Observation(1, MILLI), Observation(2, MILLI + window / MILLI * MILLI);
    var log := [first, second];
    assert log[..1] == [first] && [first][..0] == [];
    assert Millis(first.at) == 1 && Millis(second.at) == 1 + window / MILLI;
    assert Cutoff(window, second.at) < 1;
    assert Anchor(window, [first], 1) == Some(1);
    assert Anchor(window, log, 1) == Some(1);
    assert log[0].transfer in Transfers(log);
    assert 1 in LiveAt(window, log, second.at);
    var key := Replayed(AtDeadline, window, [first]).value;
    assert Expired(key, AtDeadline, Millis(second.at));
    assert 1 !in Replayed(AtDeadline, window, log).value.members;
  }
}
