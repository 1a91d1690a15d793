/** Idempotent acceptance: every run refines a map from (requester, key) to the first committed transfer. */
module Acceptance {
  import opened Prelude
  import opened Events
  import opened Tables
  import opened Protocol
  import opened ProtocolSteps
  import opened ProtocolTheory
  import L = Lifecycle

  // ---- The abstract map ----

  type Key = (Uuid, string)

  function KeyOf(tr: L.Transfer): Key {
    (tr.requester, tr.key)
  }

  /** The transfer an action offers for acceptance. */
  function Offer(a: Action): Option<L.Transfer> {
    match a
    case Accept(pending, _) => Some(pending.transfer)
    case Transact(transfer, _) => Some(transfer)
    case _ => None
  }

  /** The action stores a new transfer. */
  ghost predicate Commits(policies: Policies, t: Tables, a: Action) {
    Step(policies, t, a).transfers.Keys != t.transfers.Keys
  }

  ghost function Filed(policies: Policies, book: map<Key, L.Transfer>, t: Tables, a: Action): map<Key, L.Transfer> {
    if Offer(a).Some? && Commits(policies, t, a) then book[KeyOf(Offer(a).value) := Offer(a).value] else book
  }

  /** The abstract map of a run: each committed offer is filed under its key, and nothing else ever happens to it. */
  ghost function Book(policies: Policies, actions: seq<Action>): map<Key, L.Transfer> {
    if actions == [] then map[]
    else
      var init, last := actions[..|actions| - 1], actions[|actions| - 1];
      Filed(policies, Book(policies, init), Run(policies, init), last)
  }

  /** In the tables, the key names the transfer. */
  ghost predicate Names(t: Tables, key: Key, tr: L.Transfer) {
    tr.id in t.transfers && t.transfers[tr.id].transfer == tr && KeyOf(tr) == key
  }

  // ---- What each step does to the intents ----

  /** Every row keeps its intent; nothing is added. */
  ghost predicate SameIntents(before: map<Uuid, L.Lifecycle>, after: map<Uuid, L.Lifecycle>) {
    after.Keys == before.Keys && forall id :: id in before ==> after[id].transfer == before[id].transfer
  }

  lemma SettleKeepsIntents(t: Tables, e: Envelope, now: Time, newId: Uuid)
    requires e.Transfer() in t.transfers && t.transfers[e.Transfer()].transfer.id == e.Transfer()
    ensures
      var r := TransactionHandled(t, e, now, newId);
      r.Ok? ==> SameIntents(t.transfers, r.value.transfers)
  {
    DeliveryCases(t, e, now, newId);
    var l := t.transfers[e.Transfer()];
    if TransactionHandled(t, e, now, newId).Ok? && (TransactionConsumer, e.id) !in t.inbox && l.status == L.Approved {
      PostConcludes(Consumed(t, e), l, e.id, now, newId);
    }
  }

  lemma AssessKeepsIntents(policies: Policies, t: Tables, l: L.Lifecycle, e: Envelope, velocity: Option<nat>,
                           now: Time, newId: Uuid)
    requires l.policy in policies && l.transfer.id in t.transfers && t.transfers[l.transfer.id] == l
    ensures
      var r := Assess(policies, t, l, e, velocity, now, newId);
      r.Ok? ==> SameIntents(t.transfers, r.value.transfers)
  {
  }

  lemma RiskKeepsIntents(policies: Policies, t: Tables, e: Envelope, velocity: Option<nat>, now: Time, newId: Uuid)
    requires e.Transfer() in t.transfers && t.transfers[e.Transfer()].transfer.id == e.Transfer()
    ensures
      var r := RiskHandled(policies, t, e, velocity, now, newId);
      r.Ok? ==> SameIntents(t.transfers, r.value.transfers)
  {
    var l := t.transfers[e.Transfer()];
    if l.policy in policies {
      AssessKeepsIntents(policies, t, l, e, velocity, now, newId);
    }
  }

  lemma DecideKeepsIntents(t: Tables, who: Principal, id: Uuid, approved: bool, now: Time, newId: Uuid)
    ensures
      var r := ReviewDecidedBy(t, who, id, approved, now, newId);
      r.Ok? ==> SameIntents(t.transfers, r.value.transfers)
  {
  }

  lemma EventHasRow(policies: Policies, t: Tables, e: Envelope)
    requires TablesInv(policies, t) && e in t.events
    ensures e.Transfer() in t.transfers && t.transfers[e.Transfer()].transfer.id == e.Transfer()
  {
    var id := e.Transfer();
    assert SliceOk(policies, SliceOf(t, id), id, t.inbox);
    CommittedIsInHistory(t.events, e);
  }

  /** A step that is not an acceptance keeps every intent. */
  lemma OtherStepsKeepIntents(policies: Policies, t: Tables, a: Action)
    requires TablesInv(policies, t) && Offer(a).None?
    ensures SameIntents(t.transfers, Step(policies, t, a).transfers)
  {
    if Admissible(t, a) {
      match a
      case AssessRisk(e, velocity, now, newId) =>
        EventHasRow(policies, t, e);
        RiskKeepsIntents(policies, t, e, velocity, now, newId);
      case Settle(e, now, newId) =>
        EventHasRow(policies, t, e);
        SettleKeepsIntents(t, e, now, newId);
      case DecideReview(who, id, approved, now, newId) => DecideKeepsIntents(t, who, id, approved, now, newId);
      case PostDirect(_) =>
      case OpenAccount(_, _, _, _) =>
      case SetActive(_, _) =>
    }
  }

  /** The row an acceptance inserts. */
  function NewRow(a: Action): (l: L.Lifecycle)
    requires Offer(a).Some?
    ensures l.transfer == Offer(a).value
  {
    match a
    case Accept(pending, _) => pending
    case Transact(transfer, _) => SyncLifecycle(transfer)
  }

  /** The offered transfer, new and authorized, was stored under a free key together with one event. */
  ghost predicate Inserted(t: Tables, after: Tables, l: L.Lifecycle) {
    var tr := l.transfer;
    && HolderOf(t, tr.requester, tr.key).None? && tr.id !in t.transfers && AuthorizationFault(t, tr).None?
    && after.transfers == t.transfers[tr.id := l] && |after.events| == |t.events| + 1
  }

  /** An acceptance changes nothing at all, or inserts the offered transfer. */
  lemma OfferInsertsOrNothing(policies: Policies, t: Tables, a: Action)
    requires Offer(a).Some?
    ensures Step(policies, t, a) == t || Inserted(t, Step(policies, t, a), NewRow(a))
  {
    match a
    case Accept(pending, newId) => PendingInserts(t, pending, newId);
    case Transact(tr, newId) => TransactInserts(t, tr, newId);
  }

  lemma PendingInserts(t: Tables, l: L.Lifecycle, newId: Uuid)
    ensures
      var r := PendingCreated(t, l, newId);
      r.Ok? ==> r.value.tables == t || Inserted(t, r.value.tables, l)
  {
  }

  lemma TransactInserts(t: Tables, tr: L.Transfer, newId: Uuid)
    ensures
      var r := Created(t, tr, newId);
      r.Ok? ==> r.value.tables == t || Inserted(t, r.value.tables, SyncLifecycle(tr))
  {
  }

  // ---- Refinement ----

  /** The tables and the abstract map agree on which key names which transfer. */
  ghost predicate Agrees(t: Tables, book: map<Key, L.Transfer>) {
    && (forall k :: k in book ==> Names(t, k, book[k]))
    && (forall id :: id in t.transfers ==>
          var tr := t.transfers[id].transfer;
          KeyOf(tr) in book && book[KeyOf(tr)] == tr)
  }

  lemma FreeKeyNamesNothing(t: Tables, key: Key)
    requires HolderOf(t, key.0, key.1).None?
    ensures forall tr :: !Names(t, key, tr)
  {
    forall tr: L.Transfer | tr.id in t.transfers && KeyOf(tr) == key ensures t.transfers[tr.id].transfer != tr {
      assert !HoldsKey(t.transfers[tr.id], key.0, key.1);
    }
  }

  lemma InsertNames(t: Tables, after: Tables, l: L.Lifecycle, book: map<Key, L.Transfer>)
    requires Agrees(t, book) && Inserted(t, after, l)
    ensures KeyOf(l.transfer) !in book && Agrees(after, book[KeyOf(l.transfer) := l.transfer])
  {
    FreeKeyNamesNothing(t, KeyOf(l.transfer));
  }

  lemma SameNames(t: Tables, after: Tables, book: map<Key, L.Transfer>)
    requires Agrees(t, book) && SameIntents(t.transfers, after.transfers)
    ensures Agrees(after, book)
  {
    forall k | k in book ensures Names(after, k, book[k]) {
      assert Names(t, k, book[k]);
    }
  }

  /** One step refines the map: a free key may take the offered transfer; nothing else ever changes. */
  lemma StepRefinesBook(policies: Policies, t: Tables, a: Action, book: map<Key, L.Transfer>)
    requires TablesInv(policies, t) && Agrees(t, book)
    ensures
      var after := Step(policies, t, a);
      if Commits(policies, t, a)
      then Offer(a).Some? && KeyOf(Offer(a).value) !in book &&
        Agrees(after, book[KeyOf(Offer(a).value) := Offer(a).value])
      else Agrees(after, book)
  {
    var after := Step(policies, t, a);
    if Offer(a).None? {
      OtherStepsKeepIntents(policies, t, a);
      SameNames(t, after, book);
    } else {
      OfferInsertsOrNothing(policies, t, a);
      if after != t {
        InsertNames(t, after, NewRow(a), book);
        assert Offer(a).value.id in after.transfers.Keys;
      }
    }
  }

  /** The tables of every run agree with its abstract map. */
  lemma {:induction false} RunRefinesBook(policies: Policies, actions: seq<Action>)
    ensures Agrees(Run(policies, actions), Book(policies, actions))
  {
    if actions != [] {
      var init, last := actions[..|actions| - 1], actions[|actions| - 1];
      RunRefinesBook(policies, init);
      RunKeeps(policies, init);
      StepRefinesBook(policies, Run(policies, init), last, Book(policies, init));
    }
  }

  lemma RunSnoc(policies: Policies, actions: seq<Action>, a: Action)
    ensures Run(policies, actions + [a]) == Step(policies, Run(policies, actions), a)
  {
    assert (actions + [a])[..|actions|] == actions;
  }

  lemma StepKeepsBook(policies: Policies, t: Tables, a: Action, book: map<Key, L.Transfer>, key: Key)
    requires TablesInv(policies, t) && Agrees(t, book) && key in book
    ensures key in Filed(policies, book, t, a) && Filed(policies, book, t, a)[key] == book[key]
  {
    StepRefinesBook(policies, t, a, book);
  }

  lemma BookSnoc(policies: Policies, actions: seq<Action>, a: Action, key: Key)
    requires key in Book(policies, actions)
    ensures key in Book(policies, actions + [a]) && Book(policies, actions + [a])[key] == Book(policies, actions)[key]
  {
    RunRefinesBook(policies, actions);
    RunKeeps(policies, actions);
    StepKeepsBook(policies, Run(policies, actions), a, Book(policies, actions), key);
    assert (actions + [a])[..|actions|] == actions;
  }

  lemma {:induction false} BookKeeps(policies: Policies, actions: seq<Action>, more: seq<Action>, key: Key)
    requires key in Book(policies, actions)
    ensures key in Book(policies, actions + more)
    ensures Book(policies, actions + more)[key] == Book(policies, actions)[key]
    decreases |more|
  {
    if more == [] {
      assert actions + more == actions;
    } else {
      var init, last := more[..|more| - 1], more[|more| - 1];
      assert actions + more == actions + init + [last];
      BookKeeps(policies, actions, init, key);
      BookSnoc(policies, actions + init, last, key);
    }
  }

  /** First come, first kept: a key that was ever committed names the same transfer in every continuation of the run. */
  lemma FirstCommittedWins(policies: Policies, actions: seq<Action>, more: seq<Action>, key: Key)
    requires key in Book(policies, actions)
    ensures Names(Run(policies, actions), key, Book(policies, actions)[key])
    ensures Names(Run(policies, actions + more), key, Book(policies, actions)[key])
  {
    BookKeeps(policies, actions, more, key);
    RunRefinesBook(policies, actions);
    RunRefinesBook(policies, actions + more);
  }

  // ---- Answers ----

  /** The same money from the same account to the same account; identifiers and times do not matter. */
  predicate SameMove(held: L.Transfer, asked: L.Transfer) {
    && held.source == asked.source && held.destination == asked.destination
    && held.amount.minor == asked.amount.minor && held.amount.currency == asked.amount.currency
  }

  /** A held key finds its stored, valid row. */
  lemma HolderIsStored(policies: Policies, actions: seq<Action>, key: Key)
    requires key in Book(policies, actions)
    ensures
      var t, held := Run(policies, actions), Book(policies, actions)[key];
      && Names(t, key, held) && HolderOf(t, key.0, key.1) == Some(held.id)
      && L.Valid(t.transfers[held.id]) && SliceOk(policies, SliceOf(t, held.id), held.id, t.inbox)
  {
    RunRefinesBook(policies, actions);
    RunKeeps(policies, actions);
    var t, held := Run(policies, actions), Book(policies, actions)[key];
    assert Names(t, key, held);
    assert HoldsKey(t.transfers[held.id], key.0, key.1);
    HolderIsUnique(t, held.id, key);
    assert SliceOk(policies, SliceOf(t, held.id), held.id, t.inbox);
  }

  lemma HolderIsUnique(t: Tables, id: Uuid, key: Key)
    requires UniqueKeys(t.transfers) && id in t.transfers && HoldsKey(t.transfers[id], key.0, key.1)
    ensures HolderOf(t, key.0, key.1) == Some(id)
  {
    var holder := HolderOf(t, key.0, key.1).value;
    assert holder == id;
  }

  /** A pending creation under a held key: equal intent answers with the stored row and changes nothing, different
      intent conflicts and changes nothing. */
  lemma PendingReplay(policies: Policies, actions: seq<Action>, l: L.Lifecycle, newId: Uuid)
    requires L.Valid(l) && l.status == L.PendingRisk && KeyOf(l.transfer) in Book(policies, actions)
    ensures
      var t, held := Run(policies, actions), Book(policies, actions)[KeyOf(l.transfer)];
      && held.id in t.transfers && t.transfers[held.id].transfer == held
      && PendingCreated(t, l, newId) ==
           if SameMove(held, l.transfer) then Ok(Accepted(t, t.transfers[held.id])) else Err(IdempotencyConflict)
  {
    HolderIsStored(policies, actions, KeyOf(l.transfer));
  }

  /** A synchronous creation under a held key answers the same way, whatever the stored status. When the key was
      taken by a synchronous creation too, the answer is a transfer whose money has moved exactly once. */
  lemma CreateReplay(policies: Policies, actions: seq<Action>, tr: L.Transfer, newId: Uuid)
    requires L.ValidTransfer(tr) && KeyOf(tr) in Book(policies, actions)
    ensures
      var t, held := Run(policies, actions), Book(policies, actions)[KeyOf(tr)];
      && held.id in t.transfers && L.ValidTransfer(held)
      && Created(t, tr, newId) ==
           (if SameMove(held, tr) then Ok(Accepted(t, t.transfers[held.id])) else Err(IdempotencyConflict))
      && (t.transfers[held.id].policy == "" ==>
        EntriesFor(t.ledger.journal, held.id) == [L.EntryOf(held, held.requestedAt)])
      && (EntriesFor(t.ledger.journal, held.id) != [] <==> t.transfers[held.id].status == L.Completed)
  {
    HolderIsStored(policies, actions, KeyOf(tr));
    var t, held := Run(policies, actions), Book(policies, actions)[KeyOf(tr)];
    MoneyShape(policies, SliceOf(t, held.id), held.id, t.inbox);
    ReplayAnswers(t, held.id, tr, newId);
  }

  lemma ReplayAnswers(t: Tables, id: Uuid, tr: L.Transfer, newId: Uuid)
    requires L.ValidTransfer(tr) && HolderOf(t, tr.requester, tr.key) == Some(id) &&
      L.ValidTransfer(t.transfers[id].transfer)
    ensures Created(t, tr, newId) ==
      if SameIntent(t.transfers[id].transfer, tr) then Ok(Accepted(t, t.transfers[id])) else Err(IdempotencyConflict)
  {
  }
}
