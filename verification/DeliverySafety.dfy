/** What holds in every run of the delivery system. */
module DeliverySafety {
  import opened Events
  import opened Delivery
  import Consumer
  import DeadLetters
  import Outbox

  function One(b: bool): nat {
    if b then 1 else 0
  }

  predicate IsPublished(w: World, id: string) {
    (id in w.table && w.table[id].published) || (id in w.retired && w.retired[id].published)
  }

  predicate InFlight(w: World, id: string) {
    id in w.locks && w.locks[id] in w.batches && SentIn(w.batches[w.locks[id]], id)
  }

  predicate FailingInFlight(w: World, id: string) {
    id in w.locks && w.locks[id] in w.batches && FailedIn(w.batches[w.locks[id]], id)
  }

  /** Every copy in the stream is accounted for: the marked row, the open batch about to mark it, an
      append whose mark was lost, or a replay. */
  predicate Balanced(w: World, id: string) {
    Times(w.stream, id) == One(IsPublished(w, id)) + One(InFlight(w, id)) + Get(w.waste, id) + Get(w.desk.replays, id)
  }

  /** A row's attempts were failed publishes, and so were the attempts of its dead-letter record,
      which is made only from `publishAttempts` on. */
  predicate Honest(cfg: Config, w: World, id: string) {
    && (id in w.table ==> w.table[id].attempts + One(FailingInFlight(w, id)) <= Get(w.failures, id))
    && (id in w.desk.items ==> cfg.publishAttempts <= w.desk.items[id].attempts <= Get(w.failures, id))
  }

  /** The event of a row that was committed. */
  predicate IsKnown(w: World, e: Event) {
    e.eventId in w.committed && w.committed[e.eventId] == e
  }

  ghost predicate AllKnown(w: World) {
    && (forall i :: 0 <= i < |w.stream| ==> IsKnown(w, w.stream[i]))
    && (forall i :: 0 <= i < |w.deliveries| ==> IsKnown(w, w.deliveries[i].event))
    && (forall id :: id in w.desk.items ==> IsKnown(w, w.desk.items[id].event))
  }

  ghost predicate Remembers(cfg: Config, w: World) {
    w.consumer == Consumer.Run(cfg.handleAttempts, Consumer.FRESH, w.deliveries)
  }

  // ---------------------------------------------------------------- the flight of one row

  lemma NextInFlight(cfg: Config, w: World, a: Action, id: string)
    requires Structured(w) && a.Publish? && HasNext(w, a.publisher)
    ensures var now := id == w.batches[a.publisher].chosen[|w.batches[a.publisher].outcomes|];
            var next := Published(cfg, w, a);
            && (now ==> !InFlight(w, id) && !FailingInFlight(w, id))
            && InFlight(next, id) == (if now then a.outcome.Sent? else InFlight(w, id))
            && FailingInFlight(next, id) == (if now then !a.outcome.Sent? else FailingInFlight(w, id))
  {
    assert BatchHolds(w, a.publisher);
    if id in w.locks && w.locks[id] == a.publisher {
      ExtendBatch(w.batches[a.publisher], a.outcome, id);
    } else {
      assert id != w.batches[a.publisher].chosen[|w.batches[a.publisher].outcomes|];
    }
  }

  /** When a batch ends, its rows are no longer in flight and the others are as before. */
  lemma EndOfFlight(w: World, next: World, p: nat, id: string)
    requires Structured(w) && p in w.batches
    requires next.locks == Released(w.locks, p) && next.batches == w.batches - {p}
    ensures var mine := id in w.locks && w.locks[id] == p;
            && (mine <==> id in w.batches[p].chosen)
            && (mine ==> InFlight(w, id) == SentIn(w.batches[p], id) && !InFlight(next, id))
            && (mine ==> FailingInFlight(w, id) == FailedIn(w.batches[p], id) && !FailingInFlight(next, id))
            && (!mine ==> InFlight(next, id) == InFlight(w, id) && FailingInFlight(next, id) == FailingInFlight(w, id))
  {
    assert BatchHolds(w, p);
  }

  lemma StartOfFlight(w: World, next: World, p: nat, chosen: seq<string>, id: string)
    requires LocksHold(w) && p !in w.batches
    requires next.locks == Locked(w.locks, p, chosen) && next.batches == w.batches[p := Batch(chosen, [])]
    requires id in chosen ==> id !in w.locks
    ensures InFlight(next, id) == InFlight(w, id) && FailingInFlight(next, id) == FailingInFlight(w, id)
  {
  }

  lemma NewFlight(cfg: Config, w: World, a: Action, id: string)
    requires Structured(w) && a.Begin?
    ensures var next := Step(cfg, w, a);
            InFlight(next, id) == InFlight(w, id) && FailingInFlight(next, id) == FailingInFlight(w, id)
  {
    if a.publisher !in w.batches && Outbox.IsBatch(w.table, w.locks.Keys, a.limit, a.chosen) {
      if i :| 0 <= i < |a.chosen| && a.chosen[i] == id {
        assert Outbox.Takeable(w.table, w.locks.Keys, a.chosen[i]);
      }
      StartOfFlight(w, Step(cfg, w, a), a.publisher, a.chosen, id);
    }
  }

  lemma DropBalanced(w: World, p: nat, id: string)
    requires Structured(w) && p in w.batches && Balanced(w, id)
    ensures Balanced(Dropped(w, p), id)
  {
    EndOfFlight(w, Dropped(w, p), p, id);
  }

  lemma PublishedBalanced(cfg: Config, w: World, a: Action, id: string)
    requires Structured(w) && a.Publish? && HasNext(w, a.publisher) && Balanced(w, id)
    ensures Balanced(Published(cfg, w, a), id)
  {
    var row := NextRow(w, a.publisher);
    NextInFlight(cfg, w, a, id);
    TimesOfOneMore(w.stream, row.event, id);
    assert w.stream + [] == w.stream;
    assert Published(cfg, w, a).desk.replays == w.desk.replays;
  }

  lemma CommitPublishes(w: World, p: nat, id: string)
    requires Structured(w) && IsFull(w, p)
    ensures var next := Committed(w, p); var mine := id in w.locks && w.locks[id] == p;
            && (mine ==> !IsPublished(w, id) && IsPublished(next, id) == SentIn(w.batches[p], id))
            && (!mine ==> IsPublished(next, id) == IsPublished(w, id))
  {
    assert BatchHolds(w, p);
    if id in w.table {
      BatchWrites(w.table, w.batches[p], id);
    }
  }

  lemma CommitBalanced(cfg: Config, w: World, a: Action, id: string)
    requires Structured(w) && a.Commit? && Balanced(w, id)
    ensures Balanced(Step(cfg, w, a), id)
  {
    var next, p := Step(cfg, w, a), a.publisher;
    if IsFull(w, p) {
      EndOfFlight(w, next, p, id);
      CommitPublishes(w, p, id);
    }
  }

  lemma ReplayBalanced(cfg: Config, w: World, a: Action, id: string)
    requires a.Replay? && Balanced(w, id)
    requires DeadLetters.DeskHoldsFor(w.desk, a.eventId)
    ensures Balanced(Step(cfg, w, a), id)
  {
    var op := DeadLetters.Again(a.caller, a.eventId, a.outcome, a.commits);
    DeadLetters.ReplaysAreCounted(DeadLetters.Database, w.desk, op, w.stream, id);
    var next := Step(cfg, w, a);
    assert IsPublished(next, id) == IsPublished(w, id) && InFlight(next, id) == InFlight(w, id);
  }

  lemma RemoveBalanced(cfg: Config, w: World, a: Action, id: string)
    requires Structured(w) && a.Remove? && Balanced(w, id)
    ensures Balanced(Step(cfg, w, a), id)
  {
  }

  lemma EnqueueBalanced(cfg: Config, w: World, a: Action, id: string)
    requires Structured(w) && a.Enqueue? && Balanced(w, id)
    ensures Balanced(Step(cfg, w, a), id)
  {
  }

  lemma PublishBalanced(cfg: Config, w: World, a: Action, id: string)
    requires Structured(w) && a.Publish? && HasNext(w, a.publisher) && Balanced(w, id)
    ensures Balanced(Settle(cfg, w, a, Published(cfg, w, a)), id)
  {
    PublishedKeeps(cfg, w, a);
    PublishedBalanced(cfg, w, a, id);
    SettleBalanced(cfg, w, a, Published(cfg, w, a), id);
  }

  lemma SettleBalanced(cfg: Config, w: World, a: Action, published: World, id: string)
    requires a.Publish? && HasNext(w, a.publisher) && a.publisher in published.batches
    requires Structured(published) && Balanced(published, id)
    ensures Balanced(Settle(cfg, w, a, published), id)
  {
    DropBalanced(published, a.publisher, id);
  }

  /** Conservation: every step keeps the balance of every event id. */
  lemma StepBalanced(cfg: Config, w: World, a: Action, id: string)
    requires Structured(w) && Balanced(w, id)
    requires a.Replay? ==> DeadLetters.DeskHoldsFor(w.desk, a.eventId)
    ensures Balanced(Step(cfg, w, a), id)
  {
    match a
    case Enqueue(_) => EnqueueBalanced(cfg, w, a, id);
    case Remove(_, _) => RemoveBalanced(cfg, w, a, id);
    case Begin(_, _, _) => NewFlight(cfg, w, a, id);
    case Publish(p, _, _, _, _) =>
      if HasNext(w, p) {
        PublishBalanced(cfg, w, a, id);
      }
    case Commit(_) => CommitBalanced(cfg, w, a, id);
    case Abort(p) =>
      if p in w.batches {
        DropBalanced(w, p, id);
      }
    case Deliver(_, _) =>
    case Replay(_, _, _, _) => ReplayBalanced(cfg, w, a, id);
    case Restart =>
  }

  // ---------------------------------------------------------------- attempts

  /** A record that carries between `least` and `most` attempts keeps every item within them. */
  lemma RecordWithin(desk: DeadLetters.Desk, note: DeadLetters.DeskOp, id: string, least: int, before: int, most: int)
    requires note.Note? && before <= most
    requires id in desk.items ==> least <= desk.items[id].attempts <= before
    requires note.failure.attempts >= 1 && (note.failure.event.eventId == id ==> least <= note.failure.attempts <= most)
    ensures var next := DeadLetters.DeskStep(DeadLetters.Database, desk, note).items;
            id in next ==> least <= next[id].attempts <= most
  {
    DeadLetters.StepAttempts(DeadLetters.Database, desk, note, id);
  }

  /** The dead-letter record of a failed publish carries the attempts it was made with. */
  lemma RecordHonest(cfg: Config, w: World, a: Action, id: string)
    requires Structured(w) && a.Publish? && HasNext(w, a.publisher) && Honest(cfg, w, id)
    ensures var next := Published(cfg, w, a);
            id in next.desk.items ==> cfg.publishAttempts <= next.desk.items[id].attempts <= Get(next.failures, id)
  {
    var row, next := NextRow(w, a.publisher), Published(cfg, w, a);
    if Outbox.IsDue(cfg.publishAttempts, row, a.outcome) && a.keeps {
      var note := DeadLetters.Note(Outbox.FailureOf(row, a.outcome), a.marks, a.delivered);
      NextInFlight(cfg, w, a, id);
      RecordWithin(w.desk, note, id, cfg.publishAttempts, Get(w.failures, id), Get(next.failures, id));
    } else {
      assert next.desk == w.desk;
    }
  }

  lemma PublishedHonest(cfg: Config, w: World, a: Action, id: string)
    requires Structured(w) && a.Publish? && HasNext(w, a.publisher) && Honest(cfg, w, id)
    ensures Honest(cfg, Published(cfg, w, a), id)
  {
    NextInFlight(cfg, w, a, id);
    RecordHonest(cfg, w, a, id);
  }

  lemma DropHonest(cfg: Config, w: World, p: nat, id: string)
    requires Structured(w) && p in w.batches && Honest(cfg, w, id)
    ensures Honest(cfg, Dropped(w, p), id)
  {
    EndOfFlight(w, Dropped(w, p), p, id);
  }

  lemma PublishHonest(cfg: Config, w: World, a: Action, id: string)
    requires Structured(w) && a.Publish? && HasNext(w, a.publisher) && Honest(cfg, w, id)
    ensures Honest(cfg, Settle(cfg, w, a, Published(cfg, w, a)), id)
  {
    PublishedKeeps(cfg, w, a);
    PublishedHonest(cfg, w, a, id);
    SettleHonest(cfg, w, a, Published(cfg, w, a), id);
  }

  lemma SettleHonest(cfg: Config, w: World, a: Action, published: World, id: string)
    requires a.Publish? && HasNext(w, a.publisher) && a.publisher in published.batches
    requires Structured(published) && Honest(cfg, published, id)
    ensures Honest(cfg, Settle(cfg, w, a, published), id)
  {
    DropHonest(cfg, published, a.publisher, id);
  }

  lemma CommitHonest(cfg: Config, w: World, a: Action, id: string)
    requires Structured(w) && a.Commit? && Honest(cfg, w, id)
    ensures Honest(cfg, Step(cfg, w, a), id)
  {
    var p := a.publisher;
    if IsFull(w, p) {
      EndOfFlight(w, Step(cfg, w, a), p, id);
      if id in w.table {
        BatchWrites(w.table, w.batches[p], id);
      }
    }
  }

  lemma RowsHonest(cfg: Config, w: World, a: Action, id: string)
    requires Structured(w) && (a.Enqueue? || a.Remove?) && Honest(cfg, w, id)
    ensures Honest(cfg, Step(cfg, w, a), id)
  {
  }

  lemma ReplayHonest(cfg: Config, w: World, a: Action, id: string)
    requires a.Replay? && Honest(cfg, w, id)
    ensures Honest(cfg, Step(cfg, w, a), id)
  {
    DeadLetters.StepAttempts(DeadLetters.Database, w.desk, DeadLetters.Again(a.caller, a.eventId, a.outcome, a.commits), id);
    assert FailingInFlight(Step(cfg, w, a), id) == FailingInFlight(w, id);
  }

  lemma AbortHonest(cfg: Config, w: World, a: Action, id: string)
    requires Structured(w) && a.Abort? && Honest(cfg, w, id)
    ensures Honest(cfg, Step(cfg, w, a), id)
  {
    if a.publisher in w.batches {
      DropHonest(cfg, w, a.publisher, id);
    }
  }

  lemma ConsumerHonest(cfg: Config, w: World, a: Action, id: string)
    requires (a.Deliver? || a.Restart?) && Honest(cfg, w, id)
    ensures Honest(cfg, Step(cfg, w, a), id)
  {
  }

  lemma StepHonest(cfg: Config, w: World, a: Action, id: string)
    requires Structured(w) && Honest(cfg, w, id)
    ensures Honest(cfg, Step(cfg, w, a), id)
  {
    match a
    case Enqueue(_) => RowsHonest(cfg, w, a, id);
    case Remove(_, _) => RowsHonest(cfg, w, a, id);
    case Begin(_, _, _) => NewFlight(cfg, w, a, id);
    case Publish(p, _, _, _, _) =>
      if HasNext(w, p) {
        PublishHonest(cfg, w, a, id);
      }
    case Commit(_) => CommitHonest(cfg, w, a, id);
    case Abort(_) => AbortHonest(cfg, w, a, id);
    case Deliver(_, _) => ConsumerHonest(cfg, w, a, id);
    case Replay(_, _, _, _) => ReplayHonest(cfg, w, a, id);
    case Restart => ConsumerHonest(cfg, w, a, id);
  }

  // ---------------------------------------------------------------- where events come from

  lemma KnownStays(cfg: Config, w: World, a: Action, e: Event)
    requires RowsHold(w) && IsKnown(w, e)
    ensures IsKnown(Step(cfg, w, a), e)
  {
  }

  /** What a step adds to the stream. */
  function Added(w: World, a: Action): seq<Event> {
    if a.Publish? && HasNext(w, a.publisher) then Appended(NextRow(w, a.publisher).event, a.outcome)
    else if a.Replay? then DeadLetters.ReplayAppends(w.desk.items, a.caller, a.eventId, a.outcome)
    else []
  }

  lemma StreamGrows(cfg: Config, w: World, a: Action)
    ensures Step(cfg, w, a).stream == w.stream + Added(w, a)
  {
    assert w.stream + [] == w.stream;
  }

  lemma AddedIsKnown(w: World, a: Action, i: nat)
    requires RowsHold(w) && AllKnown(w) && i < |Added(w, a)|
    ensures IsKnown(w, Added(w, a)[i])
  {
  }

  lemma StreamKnown(cfg: Config, w: World, a: Action, i: nat)
    requires RowsHold(w) && AllKnown(w) && i < |Step(cfg, w, a).stream|
    ensures IsKnown(Step(cfg, w, a), Step(cfg, w, a).stream[i])
  {
    var event := Step(cfg, w, a).stream[i];
    StreamGrows(cfg, w, a);
    if i >= |w.stream| {
      AddedIsKnown(w, a, i - |w.stream|);
    }
    KnownStays(cfg, w, a, event);
  }

  /** What a step asks of the dead-letter desk, if anything. */
  function DeskOpOf(cfg: Config, w: World, a: Action): seq<DeadLetters.DeskOp> {
    if a.Publish? && HasNext(w, a.publisher) && a.keeps
       && Outbox.IsDue(cfg.publishAttempts, NextRow(w, a.publisher), a.outcome) then
      [DeadLetters.Note(Outbox.FailureOf(NextRow(w, a.publisher), a.outcome), a.marks, a.delivered)]
    else if a.Replay? then [DeadLetters.Again(a.caller, a.eventId, a.outcome, a.commits)]
    else []
  }

  lemma DeskChanges(cfg: Config, w: World, a: Action)
    ensures var ops := DeskOpOf(cfg, w, a);
            Step(cfg, w, a).desk == if ops == [] then w.desk else DeadLetters.DeskStep(DeadLetters.Database, w.desk, ops[0])
  {
  }

  lemma ItemKnown(cfg: Config, w: World, a: Action, id: string)
    requires RowsHold(w) && AllKnown(w) && id in Step(cfg, w, a).desk.items
    ensures IsKnown(Step(cfg, w, a), Step(cfg, w, a).desk.items[id].event)
  {
    var event := Step(cfg, w, a).desk.items[id].event;
    var ops := DeskOpOf(cfg, w, a);
    DeskChanges(cfg, w, a);
    if ops != [] {
      DeadLetters.StepAttempts(DeadLetters.Database, w.desk, ops[0], id);
    }
    KnownStays(cfg, w, a, event);
  }

  lemma DeliveryKnown(cfg: Config, w: World, a: Action, i: nat)
    requires RowsHold(w) && AllKnown(w) && i < |Step(cfg, w, a).deliveries|
    ensures IsKnown(Step(cfg, w, a), Step(cfg, w, a).deliveries[i].event)
  {
    var event := Step(cfg, w, a).deliveries[i].event;
    DeliveryFrom(cfg, w, a, i);
    KnownStays(cfg, w, a, event);
  }

  lemma DeliveryFrom(cfg: Config, w: World, a: Action, i: nat)
    requires AllKnown(w) && i < |Step(cfg, w, a).deliveries|
    ensures IsKnown(w, Step(cfg, w, a).deliveries[i].event)
  {
  }

  lemma KnownKept(cfg: Config, w: World, a: Action)
    requires RowsHold(w) && AllKnown(w)
    ensures AllKnown(Step(cfg, w, a))
  {
    var next := Step(cfg, w, a);
    forall i | 0 <= i < |next.stream| ensures IsKnown(next, next.stream[i]) {
      StreamKnown(cfg, w, a, i);
    }
    forall i | 0 <= i < |next.deliveries| ensures IsKnown(next, next.deliveries[i].event) {
      DeliveryKnown(cfg, w, a, i);
    }
    forall id | id in next.desk.items ensures IsKnown(next, next.desk.items[id].event) {
      ItemKnown(cfg, w, a, id);
    }
  }

  // ---------------------------------------------------------------- every run

  lemma {:induction false} RunOneMore(maxAttempts: int, st: Consumer.State, deliveries: seq<Consumer.Delivery>, d: Consumer.Delivery)
    ensures Consumer.Run(maxAttempts, st, deliveries + [d])
         == Consumer.Handle(maxAttempts, Consumer.Run(maxAttempts, st, deliveries), d.event, d.succeeds).0
    decreases deliveries
  {
    if deliveries == [] {
      assert (deliveries + [d])[1..] == [];
    } else {
      var next := Consumer.Handle(maxAttempts, st, deliveries[0].event, deliveries[0].succeeds).0;
      RunOneMore(maxAttempts, next, deliveries[1..], d);
      assert (deliveries + [d])[1..] == deliveries[1..] + [d];
    }
  }

  lemma RemembersStays(cfg: Config, w: World, a: Action)
    requires Remembers(cfg, w)
    ensures Remembers(cfg, Step(cfg, w, a))
  {
    if a.Deliver? && a.position < |w.stream| {
      RunOneMore(cfg.handleAttempts, Consumer.FRESH, w.deliveries, Consumer.Delivery(w.stream[a.position], a.succeeds));
    }
  }

  lemma DeskStays(cfg: Config, w: World, a: Action, id: string)
    requires DeadLetters.DeskHoldsFor(w.desk, id)
    ensures DeadLetters.DeskHoldsFor(Step(cfg, w, a).desk, id)
  {
    var ops := DeskOpOf(cfg, w, a);
    DeskChanges(cfg, w, a);
    if ops != [] {
      DeadLetters.DeskStepKeeps(DeadLetters.Database, w.desk, ops[0], id);
    }
  }

  ghost predicate Sound(cfg: Config, w: World) {
    && Structured(w) && AllKnown(w) && Remembers(cfg, w)
    && forall id :: Balanced(w, id) && Honest(cfg, w, id) && DeadLetters.DeskHoldsFor(w.desk, id)
  }

  lemma SoundStays(cfg: Config, w: World, a: Action)
    requires Sound(cfg, w)
    ensures Sound(cfg, Step(cfg, w, a))
  {
    var next := Step(cfg, w, a);
    StructureStays(cfg, w, a);
    KnownKept(cfg, w, a);
    RemembersStays(cfg, w, a);
    forall id ensures Balanced(next, id) && Honest(cfg, next, id) && DeadLetters.DeskHoldsFor(next.desk, id) {
      assert Balanced(w, id);
      StepBalanced(cfg, w, a, id);
      StepHonest(cfg, w, a, id);
      DeskStays(cfg, w, a, id);
    }
  }

  lemma {:induction false} SoundRun(cfg: Config, w: World, actions: seq<Action>)
    requires Sound(cfg, w)
    ensures Sound(cfg, Run(cfg, w, actions))
    decreases actions
  {
    if actions != [] {
      SoundStays(cfg, w, actions[0]);
      SoundRun(cfg, Step(cfg, w, actions[0]), actions[1..]);
    }
  }

  lemma SoundStart(cfg: Config)
    ensures Sound(cfg, START)
  {
    assert forall id :: Balanced(START, id) && Honest(cfg, START, id) && DeadLetters.DeskHoldsFor(START.desk, id);
  }

  // ---------------------------------------------------------------- the results

  /** In any run, for any dedupe key, in one consumer process: the handler calls are the deliveries of
      the key up to its first success, at most `handleAttempts` (or one); the key is processed
      exactly when a call succeeded and given up exactly when they all failed, never both; and each
      delivered event is the one event once committed under that key. */
  lemma EndToEnd(cfg: Config, actions: seq<Action>, key: string)
    ensures var w := Run(cfg, START, actions);
            var limit := Consumer.CallLimit(cfg.handleAttempts);
            var calls := Consumer.CallsFor(cfg.handleAttempts, Consumer.FRESH, w.deliveries, key);
            && calls == Consumer.UntilSuccess(Consumer.OutcomesFor(w.deliveries, key), limit)
            && |calls| <= limit && (forall i :: 0 <= i < |calls| - 1 ==> !calls[i])
            && (key in w.consumer.processed <==> true in calls)
            && (key in w.consumer.deadLettered <==> |calls| == limit && true !in calls)
            && forall i :: 0 <= i < |w.deliveries| && w.deliveries[i].event.dedupeKey == key ==>
                 key in w.committed && w.deliveries[i].event == w.committed[key]
  {
    SoundStart(cfg);
    SoundRun(cfg, START, actions);
    var w := Run(cfg, START, actions);
    Consumer.ConsumerOutcome(cfg.handleAttempts, w.deliveries, key);
    assert forall i :: 0 <= i < |w.deliveries| ==> IsKnown(w, w.deliveries[i].event);
  }

  /** In any run, for any event id: its copies in the stream are exactly one for a marked row, one for
      a row an open batch has sent, one for each append whose mark was lost, and one for each replay;
      so a marked row is in the stream, and an event that was never committed is not. */
  lemma StreamAccounts(cfg: Config, actions: seq<Action>, id: string)
    ensures var w := Run(cfg, START, actions);
            && Times(w.stream, id)
               == One(IsPublished(w, id)) + One(InFlight(w, id)) + Get(w.waste, id) + Get(w.desk.replays, id)
            && !(IsPublished(w, id) && InFlight(w, id))
            && (Times(w.stream, id) > 0 ==> id in w.committed)
  {
    SoundStart(cfg);
    SoundRun(cfg, START, actions);
    var w := Run(cfg, START, actions);
    assert Balanced(w, id);
    if Times(w.stream, id) > 0 {
      var i := Occurrence(w.stream, id);
      assert IsKnown(w, w.stream[i]);
    }
  }

  lemma {:induction false} Occurrence(log: seq<Event>, id: string) returns (i: nat)
    requires Times(log, id) > 0
    ensures i < |log| && log[i].eventId == id
  {
    i := |log| - 1;
    if log[i].eventId != id {
      i := Occurrence(log[..i], id);
    }
  }

  /** In any run, for any event id: a dead letter stands for at least `publishAttempts` and at most as
      many attempts as publishes that failed; it has one audit entry once notified and none before;
      and of its replays that reached the stream all but the marked one were left unmarked. */
  lemma DeadLetterAccounts(cfg: Config, actions: seq<Action>, id: string)
    ensures var w := Run(cfg, START, actions); var items := w.desk.items;
            && (id in items ==> cfg.publishAttempts <= items[id].attempts <= Get(w.failures, id))
            && (id in items ==> id in w.committed && items[id].event == w.committed[id])
            && DeadLetters.Notices(w.desk.audits, id) == One(DeadLetters.IsNotified(items, id))
            && Get(w.desk.replays, id) == Get(w.desk.strays, id) + One(DeadLetters.IsReplayed(items, id))
  {
    SoundStart(cfg);
    SoundRun(cfg, START, actions);
    var w := Run(cfg, START, actions);
    assert Balanced(w, id) && Honest(cfg, w, id);
    assert id in w.desk.items ==> IsKnown(w, w.desk.items[id].event);
  }

  /** No rollback and no lost reply. */
  predicate IsClean(a: Action) {
    !a.Abort? && (a.Publish? ==> a.keeps && a.marks && !a.outcome.Unconfirmed?)
  }

  lemma CleanStep(cfg: Config, w: World, a: Action, id: string)
    requires IsClean(a)
    ensures Get(Step(cfg, w, a).waste, id) == Get(w.waste, id)
  {
  }

  lemma {:induction false} CleanWastesNothing(cfg: Config, w: World, actions: seq<Action>, id: string)
    requires forall i :: 0 <= i < |actions| ==> IsClean(actions[i])
    ensures Get(Run(cfg, w, actions).waste, id) == Get(w.waste, id)
    decreases actions
  {
    if actions != [] {
      CleanStep(cfg, w, actions[0], id);
      CleanWastesNothing(cfg, Step(cfg, w, actions[0]), actions[1..], id);
    }
  }

  /** Any number of publishers without rollbacks and lost replies append each row at most once; all
      further copies are replays. */
  lemma CleanPublishersAppendOnce(cfg: Config, actions: seq<Action>, id: string)
    requires forall i :: 0 <= i < |actions| ==> IsClean(actions[i])
    ensures var w := Run(cfg, START, actions);
            && Times(w.stream, id) <= 1 + Get(w.desk.replays, id)
            && (IsPublished(w, id) ==> Times(w.stream, id) == 1 + Get(w.desk.replays, id))
  {
    CleanWastesNothing(cfg, START, actions, id);
    StreamAccounts(cfg, actions, id);
  }

  lemma {:induction false} CommittedStays(cfg: Config, w: World, actions: seq<Action>, id: string)
    requires id in w.committed
    ensures id in Run(cfg, w, actions).committed
    decreases actions
  {
    if actions != [] {
      CommittedStep(cfg, w, actions[0], id);
      CommittedStays(cfg, Step(cfg, w, actions[0]), actions[1..], id);
    }
  }

  lemma CommittedStep(cfg: Config, w: World, a: Action, id: string)
    requires id in w.committed
    ensures id in Step(cfg, w, a).committed
  {
  }

  lemma {:induction false} RunAppend(cfg: Config, w: World, first: seq<Action>, second: seq<Action>)
    ensures Run(cfg, w, first + second) == Run(cfg, Run(cfg, w, first), second)
    decreases first
  {
    if first == [] {
      assert first + second == second;
    } else {
      assert (first + second)[1..] == first[1..] + second;
      RunAppend(cfg, Step(cfg, w, first[0]), first[1..], second);
    }
  }

  /** At least once: an event whose row was committed is, whatever happens then, in the stream, or
      still pending in the table, or deleted with its task. */
  lemma NothingIsLost(cfg: Config, before: seq<Action>, e: Event, after: seq<Action>)
    requires e.eventId == e.dedupeKey && e.eventId !in Run(cfg, START, before).retired
    ensures var w := Run(cfg, START, before + ([Enqueue(e)] + after)); var id := e.eventId;
            && id in w.committed
            && (|| Times(w.stream, id) > 0
                || (id in w.table && !w.table[id].published)
                || id in w.retired)
  {
    var mid := Run(cfg, START, before);
    var actions := before + ([Enqueue(e)] + after);
    SoundStart(cfg);
    SoundRun(cfg, START, before);
    SoundRun(cfg, START, actions);
    RunAppend(cfg, START, before, [Enqueue(e)] + after);
    assert ([Enqueue(e)] + after)[1..] == after;
    CommittedStays(cfg, Step(cfg, mid, Enqueue(e)), after, e.eventId);
    assert Balanced(Run(cfg, START, actions), e.eventId);
  }
}
