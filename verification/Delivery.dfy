/** Event delivery as a whole: committed outbox rows, any number of publishers, the stream, one
    consumer process, dead letters and their replay, in any interleaving. */
module Delivery {
  import opened Events
  import Consumer
  import DeadLetters
  import Outbox

  datatype Config = Config(publishAttempts: int, handleAttempts: int)

  /** One open publisher transaction: the rows it locked and what happened to the first of them. */
  datatype Batch = Batch(chosen: seq<string>, outcomes: seq<Outcome>)

  /** The last four fields only record history: every event whose row was once committed; appends
      whose mark was lost; failed publishes; and the deliveries of this consumer process. */
  datatype World = World(
    table: Outbox.Table,
    retired: Outbox.Table,
    locks: map<string, nat>,
    batches: map<nat, Batch>,
    stream: seq<Event>,
    desk: DeadLetters.Desk,
    consumer: Consumer.State,
    committed: map<string, Event>,
    waste: Tally,
    failures: Tally,
    deliveries: seq<Consumer.Delivery>)

  const START := World(map[], map[], map[], map[], [], DeadLetters.NO_DESK, Consumer.FRESH, map[], map[], map[], [])

  datatype Action =
    /** A task transaction commits a row. */
    | Enqueue(event: Event)
    /** A task and its rows are deleted. */
    | Remove(tenantId: string, taskId: string)
    | Begin(publisher: nat, limit: nat, chosen: seq<string>)
    /** The next row of the batch; `keeps` and `marks` are false when the dead-letter record, or the
        mark that it was notified, raises. */
    | Publish(publisher: nat, outcome: Outcome, keeps: bool, marks: bool, delivered: bool)
    | Commit(publisher: nat)
    | Abort(publisher: nat)
    /** Some stream entry reaches the handler, maybe not for the first time. */
    | Deliver(position: nat, succeeds: bool)
    | Replay(caller: DeadLetters.Caller, eventId: string, outcome: Outcome, commits: bool)
    | Restart

  predicate SentIn(b: Batch, id: string) {
    var p := Outbox.Position(b.chosen, id);
    p < |b.outcomes| && b.outcomes[p].Sent?
  }

  predicate FailedIn(b: Batch, id: string) {
    var p := Outbox.Position(b.chosen, id);
    p < |b.outcomes| && !b.outcomes[p].Sent?
  }

  lemma ExtendBatch(b: Batch, outcome: Outcome, id: string)
    requires |b.outcomes| < |b.chosen|
    requires forall i, j :: 0 <= i < j < |b.chosen| ==> b.chosen[i] != b.chosen[j]
    ensures var now := id == b.chosen[|b.outcomes|]; var next := b.(outcomes := b.outcomes + [outcome]);
            && (now ==> !SentIn(b, id) && !FailedIn(b, id))
            && SentIn(next, id) == (if now then outcome.Sent? else SentIn(b, id))
            && FailedIn(next, id) == (if now then !outcome.Sent? else FailedIn(b, id))
  {
    Outbox.PositionOf(b.chosen, |b.outcomes|);
    assert Outbox.Position(b.chosen, id) == |b.outcomes| <==> id == b.chosen[|b.outcomes|];
  }

  /** What a full batch writes to one row. */
  lemma BatchWrites(table: Outbox.Table, b: Batch, id: string)
    requires |b.outcomes| == |b.chosen| && id in table
    ensures var after := Outbox.AfterBatch(table, b.chosen, b.outcomes);
            && after[id].event == table[id].event
            && after[id].published == (table[id].published || SentIn(b, id))
            && after[id].attempts == table[id].attempts + (if FailedIn(b, id) then 1 else 0)
            && (id !in b.chosen ==> after[id] == table[id] && !SentIn(b, id) && !FailedIn(b, id))
  {
  }

  function Released(locks: map<string, nat>, publisher: nat): map<string, nat> {
    map id | id in locks && locks[id] != publisher :: locks[id]
  }

  function Locked(locks: map<string, nat>, publisher: nat, chosen: seq<string>): map<string, nat> {
    map id | id in locks.Keys + (set x | x in chosen) :: if id in chosen then publisher else locks[id]
  }

  /** Rolled back: what the batch appended stays in the stream without a mark. */
  function Dropped(w: World, publisher: nat): World
    requires publisher in w.batches
  {
    var b := w.batches[publisher];
    w.(waste := Bump(w.waste, set id | id in b.chosen && SentIn(b, id)),
       locks := Released(w.locks, publisher),
       batches := w.batches - {publisher})
  }

  function TaskRows(table: Outbox.Table, tenantId: string, taskId: string): set<string> {
    set id | id in table && table[id].event.tenantId == tenantId && table[id].event.aggregateType == "task"
             && table[id].event.aggregateId == taskId
  }

  /** Deleting a task takes its own rows out of the outbox, and no other. */
  lemma WhatIsRemoved(table: Outbox.Table, tenantId: string, taskId: string, id: string)
    ensures id in TaskRows(table, tenantId, taskId)
       <==> && id in table && table[id].event.tenantId == tenantId
            && table[id].event.aggregateType == "task" && table[id].event.aggregateId == taskId
  {
  }

  predicate HasNext(w: World, publisher: nat) {
    && publisher in w.batches
    && var b := w.batches[publisher];
       |b.outcomes| < |b.chosen| && b.chosen[|b.outcomes|] in w.table
  }

  function NextRow(w: World, publisher: nat): Outbox.Row
    requires HasNext(w, publisher)
  {
    w.table[w.batches[publisher].chosen[|w.batches[publisher].outcomes|]]
  }

  /** The bus call for the next row and, on failure, the dead-letter record. */
  function Published(cfg: Config, w: World, a: Action): World
    requires a.Publish? && HasNext(w, a.publisher)
  {
    var b, row := w.batches[a.publisher], NextRow(w, a.publisher);
    var id := b.chosen[|b.outcomes|];
    w.(batches := w.batches[a.publisher := b.(outcomes := b.outcomes + [a.outcome])],
       stream := w.stream + Appended(row.event, a.outcome),
       waste := Bump(w.waste, if a.outcome.Unconfirmed? then {id} else {}),
       failures := Bump(w.failures, if a.outcome.Sent? then {} else {id}),
       desk := if Outbox.IsDue(cfg.publishAttempts, row, a.outcome) && a.keeps
               then DeadLetters.DeskStep(DeadLetters.Database, w.desk, DeadLetters.Note(Outbox.FailureOf(row, a.outcome), a.marks, a.delivered))
               else w.desk)
  }

  /** The dead-letter store raises, and the batch is rolled back. */
  predicate Raises(cfg: Config, w: World, a: Action)
    requires a.Publish? && HasNext(w, a.publisher)
  {
    Outbox.IsDue(cfg.publishAttempts, NextRow(w, a.publisher), a.outcome) && !(a.keeps && a.marks)
  }

  /** What becomes of the world after the row was published. */
  function Settle(cfg: Config, w: World, a: Action, published: World): World
    requires a.Publish? && HasNext(w, a.publisher) && a.publisher in published.batches
  {
    if Raises(cfg, w, a) then Dropped(published, a.publisher) else published
  }

  /** `ON CONFLICT (dedupe_key) DO NOTHING`. */
  function Enqueued(w: World, e: Event): World {
    if e.eventId in w.table then w
    else w.(table := w.table[e.eventId := Outbox.Row(e, false, 0, Outbox.NO_ERROR)],
            committed := w.committed[e.eventId := e])
  }

  function Removed(w: World, ids: set<string>): World {
    w.(table := w.table - ids, retired := w.retired + (map id | id in ids && id in w.table :: w.table[id]))
  }

  function Begun(w: World, publisher: nat, chosen: seq<string>): World {
    w.(locks := Locked(w.locks, publisher, chosen), batches := w.batches[publisher := Batch(chosen, [])])
  }

  function Committed(w: World, publisher: nat): World
    requires publisher in w.batches
  {
    var b := w.batches[publisher];
    w.(table := Outbox.AfterBatch(w.table, b.chosen, b.outcomes),
       locks := Released(w.locks, publisher),
       batches := w.batches - {publisher})
  }

  predicate IsFull(w: World, publisher: nat) {
    publisher in w.batches && |w.batches[publisher].outcomes| == |w.batches[publisher].chosen|
  }

  function Handed(cfg: Config, w: World, e: Event, succeeds: bool): World {
    w.(consumer := Consumer.Handle(cfg.handleAttempts, w.consumer, e, succeeds).0,
       deliveries := w.deliveries + [Consumer.Delivery(e, succeeds)])
  }

  function Replayed(w: World, op: DeadLetters.DeskOp): World {
    w.(desk := DeadLetters.DeskStep(DeadLetters.Database, w.desk, op), stream := w.stream + DeadLetters.DeskAppends(w.desk, op))
  }

  /** A new consumer process remembers nothing. */
  function Restarted(w: World): World {
    w.(consumer := Consumer.FRESH, deliveries := [])
  }

  /** One step; an action that is not possible changes nothing. */
  ghost function Step(cfg: Config, w: World, a: Action): World {
    match a
    case Enqueue(e) =>
      if e.eventId == e.dedupeKey && e.eventId !in w.retired then Enqueued(w, e) else w
    case Remove(tenantId, taskId) =>
      var ids := TaskRows(w.table, tenantId, taskId);
      if ids !! w.locks.Keys then Removed(w, ids) else w
    case Begin(p, limit, chosen) =>
      if p !in w.batches && Outbox.IsBatch(w.table, w.locks.Keys, limit, chosen) then Begun(w, p, chosen) else w
    case Publish(p, _, _, _, _) =>
      if HasNext(w, p) then Settle(cfg, w, a, Published(cfg, w, a)) else w
    case Commit(p) =>
      if IsFull(w, p) then Committed(w, p) else w
    case Abort(p) =>
      if p in w.batches then Dropped(w, p) else w
    case Deliver(k, succeeds) =>
      if k < |w.stream| then Handed(cfg, w, w.stream[k], succeeds) else w
    case Replay(caller, id, outcome, commits) =>
      Replayed(w, DeadLetters.Again(caller, id, outcome, commits))
    case Restart => Restarted(w)
  }

  ghost function Run(cfg: Config, w: World, actions: seq<Action>): World
    decreases actions
  {
    if actions == [] then w else Run(cfg, Step(cfg, w, actions[0]), actions[1..])
  }

  // ---------------------------------------------------------------- rows, locks and batches

  ghost predicate RowsHold(w: World) {
    && (forall id :: id in w.table ==>
          && id !in w.retired && id in w.committed
          && w.table[id].event == w.committed[id])
    && (forall id :: id in w.retired ==> id in w.committed)
    && (forall id :: id in w.committed ==>
          && (id in w.table || id in w.retired)
          && w.committed[id].eventId == id == w.committed[id].dedupeKey)
  }

  ghost predicate BatchHolds(w: World, p: nat)
    requires p in w.batches
  {
    var b := w.batches[p];
    && |b.outcomes| <= |b.chosen|
    && (forall i, j :: 0 <= i < j < |b.chosen| ==> b.chosen[i] != b.chosen[j])
    && (forall i :: 0 <= i < |b.chosen| ==> b.chosen[i] in w.locks && w.locks[b.chosen[i]] == p)
  }

  ghost predicate LocksHold(w: World) {
    && (forall id :: id in w.locks ==>
          && id in w.table && !w.table[id].published
          && w.locks[id] in w.batches && id in w.batches[w.locks[id]].chosen)
    && (forall p :: p in w.batches ==> BatchHolds(w, p))
  }

  ghost predicate Structured(w: World) {
    RowsHold(w) && LocksHold(w)
  }

  /** A batch still holds when it keeps its rows and its locks. */
  lemma BatchStays(w: World, next: World, p: nat)
    requires p in w.batches && BatchHolds(w, p)
    requires p in next.batches && next.batches[p].chosen == w.batches[p].chosen
    requires |next.batches[p].outcomes| <= |next.batches[p].chosen|
    requires forall id :: id in w.locks && w.locks[id] == p ==> id in next.locks && next.locks[id] == p
    ensures BatchHolds(next, p)
  {
  }

  lemma EnqueuedRows(w: World, e: Event)
    requires RowsHold(w) && e.eventId == e.dedupeKey && e.eventId !in w.retired
    ensures RowsHold(Enqueued(w, e))
  {
  }

  lemma EnqueuedLocks(w: World, e: Event)
    requires LocksHold(w)
    ensures LocksHold(Enqueued(w, e))
  {
    var next := Enqueued(w, e);
    forall p | p in next.batches ensures BatchHolds(next, p) {
      BatchStays(w, next, p);
    }
  }

  lemma RemovedKeeps(w: World, ids: set<string>)
    requires Structured(w) && ids <= w.table.Keys && ids !! w.locks.Keys
    ensures Structured(Removed(w, ids))
  {
    var next := Removed(w, ids);
    forall p | p in next.batches ensures BatchHolds(next, p) {
      BatchStays(w, next, p);
    }
  }

  lemma BegunKeeps(w: World, p: nat, chosen: seq<string>)
    requires Structured(w) && p !in w.batches
    requires forall i, j :: 0 <= i < j < |chosen| ==> chosen[i] != chosen[j]
    requires forall i :: 0 <= i < |chosen| ==> Outbox.Takeable(w.table, w.locks.Keys, chosen[i])
    ensures Structured(Begun(w, p, chosen))
  {
    var next := Begun(w, p, chosen);
    forall q | q in next.batches ensures BatchHolds(next, q) {
      if q != p {
        BatchStays(w, next, q);
      }
    }
  }

  /** Releasing one publisher's locks leaves the other batches as they were. */
  lemma ReleaseKeeps(w: World, next: World, p: nat)
    requires LocksHold(w) && p in w.batches
    requires next.locks == Released(w.locks, p) && next.batches == w.batches - {p}
    requires forall id :: id in next.locks ==> id in next.table && !next.table[id].published
    ensures LocksHold(next)
  {
    forall q | q in next.batches ensures BatchHolds(next, q) {
      BatchStays(w, next, q);
    }
  }

  lemma PublishedKeeps(cfg: Config, w: World, a: Action)
    requires Structured(w) && a.Publish? && HasNext(w, a.publisher)
    ensures Structured(Published(cfg, w, a))
  {
    var next := Published(cfg, w, a);
    forall p | p in next.batches ensures BatchHolds(next, p) {
      BatchStays(w, next, p);
    }
  }

  lemma DroppedKeeps(w: World, p: nat)
    requires Structured(w) && p in w.batches
    ensures Structured(Dropped(w, p))
  {
    ReleaseKeeps(w, Dropped(w, p), p);
  }

  lemma CommittedKeeps(w: World, p: nat)
    requires Structured(w) && IsFull(w, p)
    ensures Structured(Committed(w, p))
  {
    var next := Committed(w, p);
    assert BatchHolds(w, p);
    forall id | id in w.table
      ensures next.table[id].event == w.table[id].event
      ensures id in next.locks ==> !next.table[id].published
    {
      BatchWrites(w.table, w.batches[p], id);
    }
    ReleaseKeeps(w, next, p);
  }

  lemma StructureIsOf(w: World, next: World)
    requires Structured(w)
    requires next.table == w.table && next.retired == w.retired && next.committed == w.committed
    requires next.locks == w.locks && next.batches == w.batches
    ensures Structured(next)
  {
    forall p | p in next.batches ensures BatchHolds(next, p) {
      BatchStays(w, next, p);
    }
  }

  lemma SettleKeeps(cfg: Config, w: World, a: Action, published: World)
    requires a.Publish? && HasNext(w, a.publisher) && a.publisher in published.batches && Structured(published)
    ensures Structured(Settle(cfg, w, a, published))
  {
    DroppedKeeps(published, a.publisher);
  }

  lemma PublishStepKeeps(cfg: Config, w: World, a: Action)
    requires Structured(w) && a.Publish?
    ensures Structured(Step(cfg, w, a))
  {
    if HasNext(w, a.publisher) {
      PublishedKeeps(cfg, w, a);
      SettleKeeps(cfg, w, a, Published(cfg, w, a));
    }
  }

  lemma BatchStepKeeps(cfg: Config, w: World, a: Action)
    requires Structured(w) && (a.Begin? || a.Commit? || a.Abort?)
    ensures Structured(Step(cfg, w, a))
  {
    var p := a.publisher;
    if a.Begin? {
      if p !in w.batches && Outbox.IsBatch(w.table, w.locks.Keys, a.limit, a.chosen) {
        Outbox.BatchIsDistinct(w.table, a.chosen);
        BegunKeeps(w, p, a.chosen);
      }
    } else if a.Commit? && IsFull(w, p) {
      CommittedKeeps(w, p);
    } else if a.Abort? && p in w.batches {
      DroppedKeeps(w, p);
    }
  }

  lemma RowStepKeeps(cfg: Config, w: World, a: Action)
    requires Structured(w) && (a.Enqueue? || a.Remove?)
    ensures Structured(Step(cfg, w, a))
  {
    if a.Enqueue? {
      if a.event.eventId == a.event.dedupeKey && a.event.eventId !in w.retired {
        EnqueuedRows(w, a.event);
        EnqueuedLocks(w, a.event);
      }
    } else {
      var ids := TaskRows(w.table, a.tenantId, a.taskId);
      if ids !! w.locks.Keys {
        RemovedKeeps(w, ids);
      }
    }
  }

  lemma OtherStepKeeps(cfg: Config, w: World, a: Action)
    requires Structured(w) && (a.Deliver? || a.Replay? || a.Restart?)
    ensures Structured(Step(cfg, w, a))
  {
    if a.Deliver? {
      if a.position < |w.stream| {
        StructureIsOf(w, Handed(cfg, w, w.stream[a.position], a.succeeds));
      }
    } else if a.Replay? {
      StructureIsOf(w, Replayed(w, DeadLetters.Again(a.caller, a.eventId, a.outcome, a.commits)));
    } else {
      StructureIsOf(w, Restarted(w));
    }
  }

  lemma StructureStays(cfg: Config, w: World, a: Action)
    requires Structured(w)
    ensures Structured(Step(cfg, w, a))
  {
    if a.Enqueue? || a.Remove? {
      RowStepKeeps(cfg, w, a);
    } else if a.Deliver? || a.Replay? || a.Restart? {
      OtherStepKeeps(cfg, w, a);
    } else if a.Publish? {
      PublishStepKeeps(cfg, w, a);
    } else {
      BatchStepKeeps(cfg, w, a);
    }
  }
}
