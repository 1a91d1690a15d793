/** The whole system: tables, outbox publishers, a partitioned broker and both consumer groups, in one run. */
module World {
  import opened Prelude
  import opened Events
  import opened Tables
  import opened Protocol
  import opened ProtocolSteps
  import opened ConsumeLoop
  import T = Transactions
  import PT = ProtocolTheory
  import C = Conflicts
  import A = Acceptance
  import AU = Authority
  import L = Lifecycle
  import LT = LedgerTheory
  import B = Backoff
  import O = Outbox
  import OT = OutboxTheory

  // ---- State ----

  /** Offsets by partition, starting at 0; `sessions` holds each live worker's positions. */
  datatype Group = Group(committed: map<nat, nat>, quarantined: set<(nat, nat)>, sessions: map<nat, map<nat, nat>>)

  datatype World = World(tables: Tables, delivery: O.Delivery<Envelope>, risk: Group, posting: Group)

  /** Everything fixed for a run: the policy registry, the publishers' settings and the broker's partitioner. */
  datatype Setup = Setup(policies: Policies, config: B.Config, partition: Uuid -> nat)

  function GroupOf(w: World, c: Consumer): Group {
    match c
    case RiskConsumer => w.risk
    case TransactionConsumer => w.posting
  }

  function WithGroup(w: World, c: Consumer, g: Group): World {
    match c
    case RiskConsumer => w.(risk := g)
    case TransactionConsumer => w.(posting := g)
  }

  function Offset(m: map<nat, nat>, p: nat): nat {
    if p in m then m[p] else 0
  }

  /** The records of one partition: messages are keyed by transfer. */
  function PartitionLog(broker: seq<Envelope>, partition: Uuid -> nat, p: nat): seq<Envelope> {
    if broker == [] then []
    else
      var init, last := PartitionLog(broker[..|broker| - 1], partition, p), broker[|broker| - 1];
      if partition(last.Transfer()) == p then init + [last] else init
  }

  // ---- Steps ----

  datatype Event =
    | Transaction(action: Action)
    | Publish(publishing: O.Action)
    | Join(consumer: Consumer, worker: nat)
    | Consume(consumer: Consumer, worker: nat, part: nat, velocity: Option<nat>, now: Time, newId: Uuid)
    | CommitOffset(consumer: Consumer, worker: nat, part: nat)
    | Leave(consumer: Consumer, worker: nat)

  /** New outbox rows are visible to the publishers at once. */
  function Synced(d: O.Delivery<Envelope>, before: Tables, after: Tables): O.Delivery<Envelope> {
    if |after.events| == |before.events| then d else O.Enqueued(d)
  }

  function Moved(w: World, after: Tables): World {
    w.(tables := after, delivery := Synced(w.delivery, w.tables, after))
  }

  function Progressed(g: Group, worker: nat, p: nat): Group
    requires worker in g.sessions
  {
    var positions: map<nat, nat> := g.sessions[worker][p := Offset(g.sessions[worker], p) + 1];
    g.(sessions := g.sessions[worker := positions])
  }

  /** What a verdict on record k of a partition does to the system. */
  function Settled(w: World, c: Consumer, worker: nat, p: nat, k: nat, verdict: Verdict): World
    requires worker in GroupOf(w, c).sessions
  {
    var g := GroupOf(w, c);
    match verdict
    case Handled(after) => WithGroup(Moved(w, after), c, Progressed(g, worker, p))
    case Ignored => WithGroup(w, c, Progressed(g, worker, p))
    case Poison => WithGroup(w, c, Progressed(g, worker, p).(quarantined := g.quarantined + {(p, k)}))
    case Stop => WithGroup(w, c, g.(sessions := g.sessions - {worker}))
  }

  ghost function ConsumeStep(s: Setup, w: World, c: Consumer, worker: nat, p: nat, velocity: Option<nat>, now: Time,
                             newId: Uuid): World {
    var g := GroupOf(w, c);
    var log := PartitionLog(w.delivery.broker, s.partition, p);
    if worker !in g.sessions || Offset(g.sessions[worker], p) >= |log| then w
    else
      var k := Offset(g.sessions[worker], p);
      Settled(w, c, worker, p, k, Judged(c, s.policies, w.tables, Wire(log[k]), velocity, now, newId))
  }

  /** Deliveries reach the handlers only through the broker; everything else is as in the protocol. Workers come,
      crash and are fenced at any moment, and a stale one may still commit its old positions. */
  ghost function Step(s: Setup, w: World, e: Event): World {
    match e
    case Transaction(action) =>
      if action.AssessRisk? || action.Settle? then w else Moved(w, Protocol.Step(s.policies, w.tables, action))
    case Publish(action) => w.(delivery := O.Step(w.tables.events, s.config, w.delivery, action))
    case Join(c, worker) => WithGroup(w, c,
      GroupOf(w, c).(sessions := GroupOf(w, c).sessions[worker := GroupOf(w, c).committed]))
    case Consume(c, worker, p, velocity, now, newId) => ConsumeStep(s, w, c, worker, p, velocity, now, newId)
    case CommitOffset(c, worker, p) =>
      var g := GroupOf(w, c);
      if worker !in g.sessions then w
      else WithGroup(w, c, g.(committed := g.committed[p := Offset(g.sessions[worker], p)]))
    case Leave(c, worker) => WithGroup(w, c, GroupOf(w, c).(sessions := GroupOf(w, c).sessions - {worker}))
  }

  function Start(): World {
    World(Empty(), O.Start(), Group(map[], {}, map[]), Group(map[], {}, map[]))
  }

  ghost function Run(s: Setup, events: seq<Event>): World {
    if events == [] then Start() else Step(s, Run(s, events[..|events| - 1]), events[|events| - 1])
  }

  // ---- The invariant ----

  /** Everything below the given offsets is accounted for. */
  ghost predicate Covered(c: Consumer, inbox: set<(Consumer, Uuid)>, q: set<(nat, nat)>, broker: seq<Envelope>,
                          partition: Uuid -> nat, m: map<nat, nat>) {
    forall p :: p in m ==>
      && m[p] <= |PartitionLog(broker, partition, p)|
      && forall k :: 0 <= k < m[p] ==> Accounted(c, inbox, q, Wire(PartitionLog(broker, partition, p)[k]), p, k)
  }

  ghost predicate GroupOk(c: Consumer, inbox: set<(Consumer, Uuid)>, broker: seq<Envelope>, partition: Uuid -> nat,
                          g: Group) {
    && g.quarantined == {}
    && Covered(c, inbox, g.quarantined, broker, partition, g.committed)
    && forall worker :: worker in g.sessions ==> Covered(c, inbox, g.quarantined, broker, partition, g.sessions[worker])
  }

  ghost predicate GroupsOk(s: Setup, w: World) {
    && GroupOk(RiskConsumer, w.tables.inbox, w.delivery.broker, s.partition, w.risk)
    && GroupOk(TransactionConsumer, w.tables.inbox, w.delivery.broker, s.partition, w.posting)
  }

  ghost predicate WorldInv(s: Setup, w: World) {
    && TablesInv(s.policies, w.tables)
    && OT.DeliveryInv(w.tables.events, w.delivery)
    && GroupsOk(s, w)
  }

  // ---- Frames ----

  lemma LogAppended(broker: seq<Envelope>, e: Envelope, partition: Uuid -> nat, p: nat)
    ensures PartitionLog(broker + [e], partition, p) ==
      if partition(e.Transfer()) ==
        p then PartitionLog(broker, partition, p) + [e] else PartitionLog(broker, partition, p)
  {
    assert (broker + [e])[..|broker|] == broker;
  }

  lemma CoveredGrows(c: Consumer, inbox: set<(Consumer, Uuid)>, more: set<(Consumer, Uuid)>, q: set<(nat, nat)>,
                     broker: seq<Envelope>, longer: seq<Envelope>, partition: Uuid -> nat, m: map<nat, nat>)
    requires Covered(c, inbox, q, broker, partition, m) && inbox <= more && PT.Appended(broker, longer)
    ensures Covered(c, more, q, longer, partition, m)
  {
    if longer != broker {
      forall p | p in m
        ensures m[p] <= |PartitionLog(longer, partition, p)|
        ensures forall k :: 0 <= k < m[p] ==>
          PartitionLog(longer, partition, p)[k] == PartitionLog(broker, partition, p)[k]
      {
        LogAppended(broker, longer[|broker|], partition, p);
      }
    }
  }

  lemma GroupGrows(c: Consumer, inbox: set<(Consumer, Uuid)>, more: set<(Consumer, Uuid)>,
                   broker: seq<Envelope>, longer: seq<Envelope>, partition: Uuid -> nat, g: Group)
    requires GroupOk(c, inbox, broker, partition, g) && inbox <= more && PT.Appended(broker, longer)
    ensures GroupOk(c, more, longer, partition, g)
  {
    CoveredGrows(c, inbox, more, g.quarantined, broker, longer, partition, g.committed);
    forall worker | worker in g.sessions
      ensures Covered(c, more, g.quarantined, longer, partition, g.sessions[worker])
    {
      CoveredGrows(c, inbox, more, g.quarantined, broker, longer, partition, g.sessions[worker]);
    }
  }

  lemma MovedKeeps(s: Setup, w: World, after: Tables)
    requires WorldInv(s, w) && PT.Grows(w.tables, after) && TablesInv(s.policies, after)
    ensures WorldInv(s, Moved(w, after))
  {
    if |after.events| != |w.tables.events| {
      OT.EnqueueKeeps(w.tables.events, w.delivery, after.events[|w.tables.events|]);
    }
    GroupGrows(RiskConsumer, w.tables.inbox, after.inbox, w.delivery.broker, w.delivery.broker, s.partition, w.risk);
    GroupGrows(TransactionConsumer, w.tables.inbox, after.inbox, w.delivery.broker, w.delivery.broker, s.partition,
      w.posting);
  }

  lemma BrokerGrows(events: seq<Envelope>, config: B.Config, d: O.Delivery<Envelope>, a: O.Action)
    ensures PT.Appended(d.broker, O.Step(events, config, d, a).broker)
  {
  }

  lemma PublishKeeps(s: Setup, w: World, a: O.Action)
    requires B.ValidConfig(s.config) && WorldInv(s, w)
    ensures WorldInv(s, Step(s, w, Publish(a)))
  {
    var after := O.Step(w.tables.events, s.config, w.delivery, a);
    OT.StepKeeps(w.tables.events, s.config, w.delivery, a);
    BrokerGrows(w.tables.events, s.config, w.delivery, a);
    GroupGrows(RiskConsumer, w.tables.inbox, w.tables.inbox, w.delivery.broker, after.broker, s.partition, w.risk);
    GroupGrows(TransactionConsumer, w.tables.inbox, w.tables.inbox, w.delivery.broker, after.broker, s.partition,
      w.posting);
  }

  // ---- Committed events are never poison ----

  lemma PostAcceptsEnvelope(t: Tables, l: L.Lifecycle, cause: Uuid, now: Time, newId: Uuid)
    requires L.Valid(l) && l.status == L.Approved
    ensures PostedOrFailed(t, l, cause, now, newId) != Err(BadEnvelope)
  {
  }

  lemma DeliveryAcceptsEnvelope(t: Tables, e: Envelope, now: Time, newId: Uuid)
    requires e.draft.eventType == RiskAssessedType ==> ParseRiskAssessed(e).Ok?
    requires e.draft.eventType == ReviewDecidedType ==> ParseReviewDecided(e).Ok?
    requires e.draft.eventType == RiskAssessedType || e.draft.eventType == ReviewDecidedType
    ensures TransactionHandled(t, e, now, newId) != Err(BadEnvelope)
  {
    if e.Transfer() in t.transfers && L.Valid(t.transfers[e.Transfer()]) &&
      t.transfers[e.Transfer()].status == L.Approved {
      PostAcceptsEnvelope(Consumed(t, e), t.transfers[e.Transfer()], e.id, now, newId);
    }
  }

  lemma HandlerAcceptsEnvelope(c: Consumer, policies: Policies, t: Tables, e: Envelope, velocity: Option<nat>,
                               now: Time, newId: Uuid)
    requires Mine(c, e.draft.eventType) && C.Parses(e)
    ensures HandledBy(c, policies, t, e, velocity, now, newId) != Err(BadEnvelope)
  {
    if c == TransactionConsumer {
      DeliveryAcceptsEnvelope(t, e, now, newId);
    }
  }

  /** Outbox records are never set aside: a committed event is handled, skipped as foreign, or retried. */
  lemma CommittedIsNeverPoison(c: Consumer, policies: Policies, t: Tables, e: Envelope, velocity: Option<nat>,
                               now: Time, newId: Uuid)
    requires TablesInv(policies, t) && e in t.events
    ensures !Judged(c, policies, t, Wire(e), velocity, now, newId).Poison?
  {
    C.CoversEvent(policies, t, e);
    if Mine(c, e.draft.eventType) {
      HandlerAcceptsEnvelope(c, policies, t, e, velocity, now, newId);
    }
  }

  /** Consumed with the transaction's effects, or left for a retry. */
  function HandledOrStop(r: Outcome): Verdict {
    if r.Ok? then Handled(r.value) else Stop
  }

  /** The verdict on a committed event, by its type alone: the risk worker handles requests and the transaction worker
      assessments and review decisions, each exactly as its transaction says; every other event is skipped. */
  lemma WorkersHandleTheirEvents(policies: Policies, t: Tables, e: Envelope, velocity: Option<nat>, now: Time,
                                 newId: Uuid)
    requires TablesInv(policies, t) && e in t.events
    ensures
      var verdict := Judged(RiskConsumer, policies, t, Wire(e), velocity, now, newId);
      verdict == if e.draft.eventType ==
        RequestedType then HandledOrStop(RiskHandled(policies, t, e, velocity, now, newId))
                 else Ignored
    ensures
      var verdict := Judged(TransactionConsumer, policies, t, Wire(e), velocity, now, newId);
      verdict == if e.draft.eventType == RiskAssessedType || e.draft.eventType == ReviewDecidedType
                 then HandledOrStop(TransactionHandled(t, e, now, newId))
                 else Ignored
  {
    CommittedIsNeverPoison(RiskConsumer, policies, t, e, velocity, now, newId);
    CommittedIsNeverPoison(TransactionConsumer, policies, t, e, velocity, now, newId);
  }

  // ---- Consuming ----

  lemma {:induction false} LogIsCommitted(broker: seq<Envelope>, partition: Uuid -> nat, p: nat, k: nat)
    requires k < |PartitionLog(broker, partition, p)|
    ensures PartitionLog(broker, partition, p)[k] in broker
  {
    var init := broker[..|broker| - 1];
    if k < |PartitionLog(init, partition, p)| {
      LogIsCommitted(init, partition, p, k);
    }
  }

  lemma OneFurther(c: Consumer, inbox: set<(Consumer, Uuid)>, q: set<(nat, nat)>, broker: seq<Envelope>,
                   partition: Uuid -> nat,
                   m: map<nat, nat>, p: nat, next: nat)
    requires Covered(c, inbox, q, broker, partition, m) &&
      next == Offset(m, p) + 1 <= |PartitionLog(broker, partition, p)|
    requires Accounted(c, inbox, q, Wire(PartitionLog(broker, partition, p)[next - 1]), p, next - 1)
    ensures Covered(c, inbox, q, broker, partition, m[p := next])
  {
    var log := PartitionLog(broker, partition, p);
    forall k | 0 <= k < next ensures Accounted(c, inbox, q, Wire(log[k]), p, k) {
      if k < next - 1 {
        assert p in m && k < m[p];
      }
    }
  }

  lemma ProgressCovered(c: Consumer, inbox: set<(Consumer, Uuid)>, broker: seq<Envelope>, partition: Uuid -> nat,
                        g: Group, worker: nat, p: nat)
    requires GroupOk(c, inbox, broker, partition, g) && worker in g.sessions
    requires Offset(g.sessions[worker], p) < |PartitionLog(broker, partition, p)|
    requires Accounted(c, inbox, g.quarantined,
      Wire(PartitionLog(broker, partition, p)[Offset(g.sessions[worker], p)]), p, Offset(g.sessions[worker], p))
    ensures GroupOk(c, inbox, broker, partition, Progressed(g, worker, p))
  {
    var m := g.sessions[worker];
    OneFurther(c, inbox, g.quarantined, broker, partition, m, p, Offset(m, p) + 1);
  }

  lemma HandledTables(s: Setup, w: World, c: Consumer, e: Envelope, velocity: Option<nat>, now: Time, newId: Uuid)
    requires WorldInv(s, w) && e in w.tables.events && HandledBy(c, s.policies, w.tables, e, velocity, now, newId).Ok?
    ensures
      var after := HandledBy(c, s.policies, w.tables, e, velocity, now, newId).value;
      WorldInv(s, Moved(w, after)) && (c, e.id) in after.inbox
  {
    var action := match c case RiskConsumer => AssessRisk(e, velocity, now,
      newId) case TransactionConsumer => Settle(e, now, newId);
    var after := HandledBy(c, s.policies, w.tables, e, velocity, now, newId).value;
    assert Protocol.Step(s.policies, w.tables, action) == after;
    StepKeeps(s.policies, w.tables, action);
    PT.StepGrows(s.policies, w.tables, action);
    HandlerReserves(c, s.policies, w.tables, e, velocity, now, newId);
    MovedKeeps(s, w, after);
  }

  /** What is known of a verdict on a committed event. */
  ghost predicate Sound(s: Setup, w: World, c: Consumer, e: Envelope, verdict: Verdict) {
    match verdict
    case Handled(after) => WorldInv(s, Moved(w, after)) && (c, e.id) in after.inbox
    case Ignored => Foreign(c, Wire(e))
    case Poison => false
    case Stop => true
  }

  lemma VerdictIsSound(s: Setup, w: World, c: Consumer, e: Envelope, velocity: Option<nat>, now: Time, newId: Uuid)
    requires WorldInv(s, w) && e in w.tables.events
    ensures Sound(s, w, c, e, Judged(c, s.policies, w.tables, Wire(e), velocity, now, newId))
  {
    CommittedIsNeverPoison(c, s.policies, w.tables, e, velocity, now, newId);
    if Judged(c, s.policies, w.tables, Wire(e), velocity, now, newId).Handled? {
      HandledTables(s, w, c, e, velocity, now, newId);
    }
  }

  lemma SettledKeeps(s: Setup, w: World, c: Consumer, worker: nat, p: nat, k: nat, e: Envelope, verdict: Verdict)
    requires WorldInv(s, w) && worker in GroupOf(w, c).sessions && k == Offset(GroupOf(w, c).sessions[worker], p)
    requires
      var log := PartitionLog(w.delivery.broker, s.partition, p);
      k < |log| && e == log[k]
    requires Sound(s, w, c, e, verdict)
    ensures WorldInv(s, Settled(w, c, worker, p, k, verdict))
  {
    match verdict
    case Handled(after) => ProgressKeeps(s, Moved(w, after), c, worker, p);
    case Ignored => ProgressKeeps(s, w, c, worker, p);
    case Stop =>
  }

  lemma ConsumeKeepsWorld(s: Setup, w: World, c: Consumer, worker: nat, p: nat, velocity: Option<nat>, now: Time,
                          newId: Uuid)
    requires WorldInv(s, w)
    ensures WorldInv(s, ConsumeStep(s, w, c, worker, p, velocity, now, newId))
  {
    var g := GroupOf(w, c);
    var log := PartitionLog(w.delivery.broker, s.partition, p);
    if worker in g.sessions && Offset(g.sessions[worker], p) < |log| {
      var k := Offset(g.sessions[worker], p);
      LogIsCommitted(w.delivery.broker, s.partition, p, k);
      VerdictIsSound(s, w, c, log[k], velocity, now, newId);
      SettledKeeps(s, w, c, worker, p, k, log[k], Judged(c, s.policies, w.tables, Wire(log[k]), velocity, now, newId));
    }
  }

  lemma ProgressKeeps(s: Setup, w: World, c: Consumer, worker: nat, p: nat)
    requires WorldInv(s, w) && worker in GroupOf(w, c).sessions
    requires
      var log, k := PartitionLog(w.delivery.broker, s.partition, p), Offset(GroupOf(w, c).sessions[worker], p);
      k < |log| && Accounted(c, w.tables.inbox, GroupOf(w, c).quarantined, Wire(log[k]), p, k)
    ensures WorldInv(s, WithGroup(w, c, Progressed(GroupOf(w, c), worker, p)))
  {
    ProgressCovered(c, w.tables.inbox, w.delivery.broker, s.partition, GroupOf(w, c), worker, p);
  }

  // ---- Every run ----

  lemma WorldStepKeeps(s: Setup, w: World, e: Event)
    requires B.ValidConfig(s.config) && WorldInv(s, w)
    ensures WorldInv(s, Step(s, w, e))
  {
    match e
    case Transaction(action) =>
      if !action.AssessRisk? && !action.Settle? {
        StepKeeps(s.policies, w.tables, action);
        PT.StepGrows(s.policies, w.tables, action);
        MovedKeeps(s, w, Protocol.Step(s.policies, w.tables, action));
      }
    case Publish(action) => PublishKeeps(s, w, action);
    case Join(c, worker) =>
    case Consume(c, worker, p, velocity, now, newId) => ConsumeKeepsWorld(s, w, c, worker, p, velocity, now, newId);
    case CommitOffset(c, worker, p) => CommitKeeps(s, w, c, worker, p);
    case Leave(c, worker) =>
  }

  lemma CommitKeeps(s: Setup, w: World, c: Consumer, worker: nat, p: nat)
    requires WorldInv(s, w)
    ensures WorldInv(s, Step(s, w, CommitOffset(c, worker, p)))
  {
    var g := GroupOf(w, c);
    if worker in g.sessions {
      var committed := g.committed[p := Offset(g.sessions[worker], p)];
      assert Covered(c, w.tables.inbox, g.quarantined, w.delivery.broker, s.partition, g.sessions[worker]);
      assert Covered(c, w.tables.inbox, g.quarantined, w.delivery.broker, s.partition, committed);
    }
  }

  /** In every run of the whole system, under any interleaving, duplication, reordering across partitions, crash
      and retry, the tables, the outbox and the offsets keep their invariants, and nothing is ever quarantined. */
  lemma {:induction false} WorldRunKeeps(s: Setup, events: seq<Event>)
    requires B.ValidConfig(s.config)
    ensures WorldInv(s, Run(s, events))
  {
    if events == [] {
      StartOk(s);
    } else {
      WorldRunKeeps(s, events[..|events| - 1]);
      WorldStepKeeps(s, Run(s, events[..|events| - 1]), events[|events| - 1]);
    }
  }

  lemma StartOk(s: Setup)
    ensures WorldInv(s, Start())
  {
    RunKeeps(s.policies, []);
  }

  // ---- What it means ----

  /** Offset accounting end to end: a record below a committed offset is in its consumer's inbox or belongs to
      someone else; no record of the broker is quarantined, and each is a committed event. */
  lemma CommittedOffsetsAreAccounted(s: Setup, events: seq<Event>, c: Consumer, p: nat, k: nat)
    requires B.ValidConfig(s.config)
    requires k < Offset(GroupOf(Run(s, events), c).committed, p)
    ensures
      var w := Run(s, events);
      var log := PartitionLog(w.delivery.broker, s.partition, p);
      && k < |log| && log[k] in w.tables.events
      && GroupOf(w, c).quarantined == {}
      && (Mine(c, log[k].draft.eventType) ==> (c, log[k].id) in w.tables.inbox)
  {
    WorldRunKeeps(s, events);
    var w := Run(s, events);
    LogIsCommitted(w.delivery.broker, s.partition, p, k);
  }

  /** End to end, money moves exactly once: whatever the publishers, the broker and the workers do, a completed
      transfer has exactly one entry, any other none, and a published event is in the broker. */
  lemma EndToEnd(s: Setup, events: seq<Event>, id: Uuid, row: nat)
    requires B.ValidConfig(s.config)
    requires id in Run(s, events).tables.transfers && row < |Run(s, events).tables.events|
    ensures
      var w := Run(s, events);
      var l, entries := w.tables.transfers[id], EntriesFor(w.tables.ledger.journal, id);
      && L.ValidTransfer(l.transfer)
      && (l.status == L.Completed ==> exists at :: entries == [L.EntryOf(l.transfer, at)])
      && (l.status != L.Completed ==> entries == [])
      && LT.LedgerInv(w.tables.ledger)
      && |w.delivery.leases| == |w.tables.events|
      && (w.delivery.leases[row].publishedAt.Some? ==> w.tables.events[row] in w.delivery.broker)
  {
    WorldRunKeeps(s, events);
    var w := Run(s, events);
    assert SliceOk(s.policies, SliceOf(w.tables, id), id, w.tables.inbox);
    PT.MoneyShape(s.policies, SliceOf(w.tables, id), id, w.tables.inbox);
    assert OT.LeaseOk(w.tables.events, w.delivery, row);
  }

  /** The handlers' premise, that rows are filed under their own identifiers, holds in every reachable state. */
  lemma ReachableIsKeyed(s: Setup, events: seq<Event>)
    requires B.ValidConfig(s.config)
    ensures T.Keyed(Run(s, events).tables)
  {
    WorldRunKeeps(s, events);
    var t := Run(s, events).tables;
    forall id | id in t.transfers ensures t.transfers[id].transfer.id == id {
      assert SliceOk(s.policies, SliceOf(t, id), id, t.inbox);
    }
  }

  // ---- The whole system refines the protocol ----

  /** The database step, if any, that an event of the whole system performs. */
  ghost function ActionsOf(s: Setup, w: World, e: Event): seq<Action> {
    match e
    case Transaction(action) => if action.AssessRisk? || action.Settle? then [] else [action]
    case Consume(c, worker, p, velocity, now, newId) =>
      var g, log := GroupOf(w, c), PartitionLog(w.delivery.broker, s.partition, p);
      if worker !in g.sessions || Offset(g.sessions[worker], p) >= |log| then []
      else
        var record := log[Offset(g.sessions[worker], p)];
        if !Judged(c, s.policies, w.tables, Wire(record), velocity, now, newId).Handled? then []
        else [Delivering(c, record, velocity, now, newId)]
    case _ => []
  }

  function Delivering(c: Consumer, e: Envelope, velocity: Option<nat>, now: Time, newId: Uuid): Action {
    match c
    case RiskConsumer => AssessRisk(e, velocity, now, newId)
    case TransactionConsumer => Settle(e, now, newId)
  }

  /** The database steps of a whole run, in order. */
  ghost function Trace(s: Setup, events: seq<Event>): seq<Action> {
    if events == [] then []
    else
      var init, last := events[..|events| - 1], events[|events| - 1];
      Trace(s, init) + ActionsOf(s, Run(s, init), last)
  }

  lemma HandledIsStep(s: Setup, w: World, c: Consumer, e: Envelope, velocity: Option<nat>, now: Time, newId: Uuid)
    requires e in w.tables.events && Judged(c, s.policies, w.tables, Wire(e), velocity, now, newId).Handled?
    ensures Judged(c, s.policies, w.tables, Wire(e), velocity, now, newId).tables ==
      Protocol.Step(s.policies, w.tables, Delivering(c, e, velocity, now, newId))
  {
  }

  lemma SettledTables(w: World, c: Consumer, worker: nat, p: nat, k: nat, verdict: Verdict)
    requires worker in GroupOf(w, c).sessions
    ensures Settled(w, c, worker, p, k, verdict).tables == if verdict.Handled? then verdict.tables else w.tables
  {
  }

  lemma ConsumeRefines(s: Setup, w: World, e: Event)
    requires WorldInv(s, w) && e.Consume?
    ensures
      var actions := ActionsOf(s, w, e);
      Step(s, w, e).tables == if actions == [] then w.tables else Protocol.Step(s.policies, w.tables, actions[0])
  {
    var c, worker, p := e.consumer, e.worker, e.part;
    var g, log := GroupOf(w, c), PartitionLog(w.delivery.broker, s.partition, p);
    if worker in g.sessions && Offset(g.sessions[worker], p) < |log| {
      var k := Offset(g.sessions[worker], p);
      LogIsCommitted(w.delivery.broker, s.partition, p, k);
      var verdict := Judged(c, s.policies, w.tables, Wire(log[k]), e.velocity, e.now, e.newId);
      SettledTables(w, c, worker, p, k, verdict);
      if verdict.Handled? {
        HandledIsStep(s, w, c, log[k], e.velocity, e.now, e.newId);
      }
    }
  }

  lemma StepRefines(s: Setup, w: World, e: Event)
    requires WorldInv(s, w)
    ensures |ActionsOf(s, w, e)| <= 1
    ensures
      var actions := ActionsOf(s, w, e);
      Step(s, w, e).tables == if actions == [] then w.tables else Protocol.Step(s.policies, w.tables, actions[0])
  {
    if e.Consume? {
      ConsumeRefines(s, w, e);
    }
  }

  /** Every run of the whole system is, on the tables, a run of the protocol. */
  lemma {:induction false} WorldRefinesProtocol(s: Setup, events: seq<Event>)
    requires B.ValidConfig(s.config)
    ensures Run(s, events).tables == Protocol.Run(s.policies, Trace(s, events))
  {
    if events != [] {
      var init, last := events[..|events| - 1], events[|events| - 1];
      WorldRefinesProtocol(s, init);
      WorldRunKeeps(s, init);
      StepRefines(s, Run(s, init), last);
      TraceSnoc(s, Trace(s, init), ActionsOf(s, Run(s, init), last));
    }
  }

  lemma TraceSnoc(s: Setup, trace: seq<Action>, actions: seq<Action>)
    requires |actions| <= 1
    ensures Protocol.Run(s.policies, trace + actions) ==
      if actions == [] then Protocol.Run(s.policies, trace)
      else Protocol.Step(s.policies, Protocol.Run(s.policies, trace), actions[0])
  {
    if actions == [] {
      assert trace + actions == trace;
    } else {
      assert actions == [actions[0]];
      A.RunSnoc(s.policies, trace, actions[0]);
    }
  }

  lemma TraceStep(s: Setup, events: seq<Event>, e: Event)
    ensures Trace(s, events + [e]) == Trace(s, events) + ActionsOf(s, Run(s, events), e)
  {
    assert (events + [e])[..|events|] == events;
  }

  /** The database steps of a run continue in every continuation of it. */
  lemma {:induction false} TraceContinues(s: Setup, events: seq<Event>, more: seq<Event>) returns (further: seq<Action>)
    ensures Trace(s, events + more) == Trace(s, events) + further
    decreases |more|
  {
    if more == [] {
      assert events + more == events;
      further := [];
    } else {
      var init, last := more[..|more| - 1], more[|more| - 1];
      assert events + more == events + init + [last];
      var before := TraceContinues(s, events, init);
      TraceStep(s, events + init, last);
      further := before + ActionsOf(s, Run(s, events + init), last);
    }
  }

  // ---- The guarantees of the protocol, for the whole system ----

  /** The event log of every transfer is faithful, end to end. */
  lemma SystemEventLog(s: Setup, events: seq<Event>, id: Uuid)
    requires B.ValidConfig(s.config) && id in Run(s, events).tables.transfers
    ensures
      var t := Run(s, events).tables;
      var l, history := t.transfers[id], EventsFor(t.events, id);
      && |history| == l.version <= 4 && PT.Numbered(history)
      && (l.policy != "" ==> PT.Folded(history) == Some(PT.Anonymous(l)))
  {
    WorldRefinesProtocol(s, events);
    PT.FaithfulEventLog(s.policies, Trace(s, events), id);
  }

  /** Every asynchronously completed transfer was authorised, end to end. */
  lemma SystemAuthorised(s: Setup, events: seq<Event>, id: Uuid)
    requires B.ValidConfig(s.config) && id in Run(s, events).tables.transfers
    requires Run(s, events).tables.transfers[id].status == L.Completed &&
      Run(s, events).tables.transfers[id].policy != ""
    ensures
      var t := Run(s, events).tables;
      && |AssessmentsFor(t.assessments, id)| == 1
      && var l, a := t.transfers[id], AssessmentsFor(t.assessments, id)[0];
         AU.ClearedByPolicy(s.policies, t, l, a) || AU.ClearedByAnalyst(t, l, a)
  {
    WorldRefinesProtocol(s, events);
    AU.AuthorisedPosting(s.policies, Trace(s, events), id);
  }

  /** The only state conflict of the whole system is an overtaken request for review, and it is final. */
  lemma SystemConflicts(s: Setup, events: seq<Event>, more: seq<Event>, e: Envelope, now: Time, newId: Uuid)
    requires B.ValidConfig(s.config) && e in Run(s, events).tables.events
    ensures TransactionHandled(Run(s, events).tables, e, now, newId) == Err(StateConflict) <==>
      C.Overtaken(Run(s, events).tables, e)
    ensures C.Overtaken(Run(s, events).tables, e) ==>
      TransactionHandled(Run(s, events + more).tables, e, now, newId) == Err(StateConflict)
  {
    WorldRefinesProtocol(s, events);
    C.ConflictIffOvertaken(s.policies, Trace(s, events), e, now, newId);
    if C.Overtaken(Run(s, events).tables, e) {
      WorldRefinesProtocol(s, events + more);
      var further := TraceContinues(s, events, more);
      C.OvertakenForever(s.policies, Trace(s, events), further, e, now, newId);
    }
  }

  /** A key once committed names the same transfer in every continuation of the whole system. */
  lemma SystemFirstCommittedWins(s: Setup, events: seq<Event>, more: seq<Event>, key: A.Key, tr: L.Transfer)
    requires B.ValidConfig(s.config) && A.Names(Run(s, events).tables, key, tr)
    ensures A.Names(Run(s, events + more).tables, key, tr)
  {
    WorldRefinesProtocol(s, events);
    WorldRefinesProtocol(s, events + more);
    A.RunRefinesBook(s.policies, Trace(s, events));
    var further := TraceContinues(s, events, more);
    A.FirstCommittedWins(s.policies, Trace(s, events), further, key);
  }
}
