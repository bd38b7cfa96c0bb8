/** The dead-letter stores: the in-memory one, the database one, and the notifying wrapper. */
module DeadLetters {
  import opened Options
  import opened Events

  const MAX_ERROR := 500

  datatype Item = Item(event: Event, error: string, attempts: int, replayedBy: Option<string>, notified: bool)

  type Items = map<string, Item>

  /** The arguments of one `record` call. */
  datatype Failure = Failure(event: Event, error: string, attempts: int)

  function Cut(text: string): string {
    if |text| <= MAX_ERROR then text else text[..MAX_ERROR]
  }

  function Max(a: int, b: int): int {
    if a < b then b else a
  }

  function NewItem(f: Failure): Item {
    Item(f.event, Cut(f.error), Max(1, f.attempts), None, false)
  }

  datatype Backend = Memory | Database

  /** The in-memory store keeps the old text when the new one is empty; the upsert overwrites it. */
  function Record(backend: Backend, items: Items, f: Failure): Items {
    var id := f.event.eventId;
    if id !in items then items[id := NewItem(f)]
    else
      var item := items[id];
      match backend
      case Memory =>
        items[id := item.(attempts := Max(item.attempts, f.attempts),
                          error := if f.error != "" then Cut(f.error) else item.error)]
      case Database =>
        items[id := item.(attempts := Max(item.attempts, Max(1, f.attempts)), error := Cut(f.error))]
  }

  function Marked(items: Items, id: string): Items {
    if id in items then items[id := items[id].(notified := true)] else items
  }

  predicate CanMark(items: Items, id: string) {
    id in items && !items[id].notified
  }

  datatype Caller = Caller(role: string, tenantId: string, userId: string)

  datatype ReplayResult = Forbidden | NotFound | AlreadyReplayed | Replayed | Raised

  predicate IsAdmin(caller: Caller) {
    caller.role == "ceo" || caller.role == "super_admin"
  }

  /** Everything before the publish call of a replay; `Replayed` when the event goes to the bus. */
  function ReplayGate(items: Items, caller: Caller, id: string): ReplayResult {
    if !IsAdmin(caller) then Forbidden
    else if id !in items || items[id].event.tenantId != caller.tenantId then NotFound
    else if items[id].replayedBy.Some? then AlreadyReplayed
    else Replayed
  }

  /** `commits` says whether the store keeps the mark; for the in-memory store it always does. */
  function ReplayOutcome(items: Items, caller: Caller, id: string, outcome: Outcome, commits: bool): ReplayResult {
    var gate := ReplayGate(items, caller, id);
    if gate.Replayed? && !(outcome.Sent? && commits) then Raised else gate
  }

  function ReplayedItems(items: Items, caller: Caller, id: string, outcome: Outcome, commits: bool): Items {
    if ReplayOutcome(items, caller, id, outcome, commits).Replayed?
    then items[id := items[id].(replayedBy := Some(caller.userId))]
    else items
  }

  function ReplayAppends(items: Items, caller: Caller, id: string, outcome: Outcome): seq<Event> {
    if ReplayGate(items, caller, id).Replayed? then Appended(items[id].event, outcome) else []
  }

  class DeadLetterStore {
    const bus: EventBus
    var items: Items

    constructor (bus: EventBus)
      ensures items == map[] && this.bus == bus
    {
      this.bus := bus;
      items := map[];
    }

    method RecordFailure(f: Failure) returns (item: Item)
      modifies this
      ensures items == Record(Memory, old(items), f) && item == items[f.event.eventId]
    {
      var id := f.event.eventId;
      if id in items {
        item := items[id];
        item := item.(attempts := Max(item.attempts, f.attempts));
        if f.error != "" {
          item := item.(error := Cut(f.error));
        }
      } else {
        item := Item(f.event, Cut(f.error), Max(1, f.attempts), None, false);
      }
      items := items[id := item];
    }

    method MarkNotified(id: string) returns (marked: bool)
      modifies this
      ensures marked <==> CanMark(old(items), id)
      ensures items == Marked(old(items), id)
    {
      if id !in items || items[id].notified {
        assert Marked(items, id) == items;
        return false;
      }
      items := items[id := items[id].(notified := true)];
      marked := true;
    }

    method Replay(caller: Caller, id: string, outcome: Outcome) returns (result: ReplayResult)
      modifies this, bus
      ensures result == ReplayOutcome(old(items), caller, id, outcome, true)
      ensures items == ReplayedItems(old(items), caller, id, outcome, true)
      ensures bus.log == old(bus.log) + ReplayAppends(old(items), caller, id, outcome)
    {
      if !IsAdmin(caller) {
        return Forbidden;
      }
      if id !in items || items[id].event.tenantId != caller.tenantId {
        return NotFound;
      }
      if items[id].replayedBy.Some? {
        return AlreadyReplayed;
      }
      var ok := bus.Publish(items[id].event, outcome);
      if !ok {
        return Raised;
      }
      items := items[id := items[id].(replayedBy := Some(caller.userId))];
      result := Replayed;
    }
  }

  /** The database table; each method is one transaction. */
  class PostgresDeadLetterStore {
    const bus: EventBus
    var items: Items

    constructor (bus: EventBus)
      ensures items == map[] && this.bus == bus
    {
      this.bus := bus;
      items := map[];
    }

    method RecordFailure(f: Failure) returns (item: Item)
      modifies this
      ensures items == Record(Database, old(items), f) && item == items[f.event.eventId]
    {
      var id := f.event.eventId;
      var inserted := Item(f.event, Cut(f.error), Max(1, f.attempts), None, false);
      item := if id in items
              then items[id].(attempts := Max(items[id].attempts, inserted.attempts), error := inserted.error)
              else inserted;
      items := items[id := item];
    }

    method MarkNotified(id: string) returns (marked: bool)
      modifies this
      ensures marked <==> CanMark(old(items), id)
      ensures items == Marked(old(items), id)
    {
      marked := id in items && !items[id].notified;
      if marked {
        items := items[id := items[id].(notified := true)];
      } else {
        assert Marked(items, id) == items;
      }
    }

    /** `commits` is false when the transaction fails after the event was published. */
    method Replay(caller: Caller, id: string, outcome: Outcome, commits: bool) returns (result: ReplayResult)
      modifies this, bus
      ensures result == ReplayOutcome(old(items), caller, id, outcome, commits)
      ensures items == ReplayedItems(old(items), caller, id, outcome, commits)
      ensures bus.log == old(bus.log) + ReplayAppends(old(items), caller, id, outcome)
    {
      if !IsAdmin(caller) {
        return Forbidden;
      }
      if id !in items || items[id].event.tenantId != caller.tenantId {
        return NotFound;
      }
      if items[id].replayedBy.Some? {
        return AlreadyReplayed;
      }
      var ok := bus.Publish(items[id].event, outcome);
      if !ok || !commits {
        return Raised;
      }
      items := items[id := items[id].(replayedBy := Some(caller.userId))];
      result := Replayed;
    }
  }

  /** One audit entry of the notifying wrapper: which event, and whether the notifier succeeded. */
  datatype Audit = Audit(eventId: string, delivered: bool)

  class NotifyingDeadLetterStore {
    const inner: PostgresDeadLetterStore
    var notices: seq<string>
    var audits: seq<Audit>

    constructor (inner: PostgresDeadLetterStore)
      ensures this.inner == inner && notices == [] && audits == []
    {
      this.inner := inner;
      notices, audits := [], [];
    }

    method RecordFailure(f: Failure, delivered: bool) returns (item: Item)
      modifies this, inner
      ensures inner.items == Marked(Record(Database, old(inner.items), f), f.event.eventId)
      ensures inner.bus.log == old(inner.bus.log)
      ensures var first := CanMark(Record(Database, old(inner.items), f), f.event.eventId);
              && notices == old(notices) + (if first then [f.event.eventId] else [])
              && audits == old(audits) + (if first then [Audit(f.event.eventId, delivered)] else [])
    {
      item := inner.RecordFailure(f);
      var marked := inner.MarkNotified(f.event.eventId);
      if marked {
        notices := notices + [f.event.eventId];
        audits := audits + [Audit(f.event.eventId, delivered)];
      }
    }
  }

  // ---------------------------------------------------------------- what a history of records leaves

  function Recorded(backend: Backend, calls: seq<Failure>): Items {
    if calls == [] then map[]
    else Record(backend, Recorded(backend, calls[..|calls| - 1]), calls[|calls| - 1])
  }

  predicate Mentions(calls: seq<Failure>, id: string) {
    exists i :: 0 <= i < |calls| && calls[i].event.eventId == id
  }

  /** The error text of the last record for the id. */
  function LastText(calls: seq<Failure>, id: string): string {
    if calls == [] then ""
    else if calls[|calls| - 1].event.eventId == id then calls[|calls| - 1].error
    else LastText(calls[..|calls| - 1], id)
  }

  /** The last text for the id that was not empty. */
  function LastSaid(calls: seq<Failure>, id: string): string {
    if calls == [] then ""
    else if calls[|calls| - 1].event.eventId == id && calls[|calls| - 1].error != "" then calls[|calls| - 1].error
    else LastSaid(calls[..|calls| - 1], id)
  }

  /** The largest number of attempts recorded for the id, and at least one. */
  function Peak(calls: seq<Failure>, id: string): (peak: int)
    ensures peak >= 1
  {
    if calls == [] then 1
    else
      var before := Peak(calls[..|calls| - 1], id);
      if calls[|calls| - 1].event.eventId == id then Max(before, calls[|calls| - 1].attempts) else before
  }

  lemma MentionsInit(calls: seq<Failure>, id: string)
    requires calls != [] && calls[|calls| - 1].event.eventId != id
    ensures Mentions(calls, id) <==> Mentions(calls[..|calls| - 1], id)
  {
    var init := calls[..|calls| - 1];
    if i :| 0 <= i < |calls| && calls[i].event.eventId == id {
      assert init[i].event.eventId == id;
    }
  }

  /** After any records: exactly the recorded ids are there, each with its largest attempt number;
      the database holds the last text, the in-memory store the last text that was not empty. */
  lemma {:induction false} RecordHistory(backend: Backend, calls: seq<Failure>, id: string)
    ensures id in Recorded(backend, calls) <==> Mentions(calls, id)
    ensures Mentions(calls, id) ==>
      Recorded(backend, calls)[id] == Item(Recorded(backend, calls)[id].event,
                                           Cut(if backend == Memory then LastSaid(calls, id) else LastText(calls, id)),
                                           Peak(calls, id), None, false)
    ensures !Mentions(calls, id) ==> Peak(calls, id) == 1 && LastSaid(calls, id) == "" == LastText(calls, id)
  {
    if calls != [] {
      var init, last := calls[..|calls| - 1], calls[|calls| - 1];
      RecordHistory(backend, init, id);
      assert Recorded(backend, calls) == Record(backend, Recorded(backend, init), last);
      if last.event.eventId == id {
        assert Mentions(calls, id);
        assert Peak(calls, id) == Max(Peak(init, id), last.attempts);
      } else {
        assert Mentions(calls, id) <==> Mentions(init, id) by { MentionsInit(calls, id); }
      }
    }
  }

  lemma {:induction false} SameEvents(calls: seq<Failure>, id: string)
    requires Mentions(calls, id)
    ensures id in Recorded(Memory, calls) && id in Recorded(Database, calls)
    ensures Recorded(Memory, calls)[id].event == Recorded(Database, calls)[id].event
  {
    RecordHistory(Memory, calls, id);
    RecordHistory(Database, calls, id);
    var init := calls[..|calls| - 1];
    RecordHistory(Memory, init, id);
    RecordHistory(Database, init, id);
    if Mentions(init, id) {
      SameEvents(init, id);
    }
  }

  predicate EmptiedText(calls: seq<Failure>, id: string) {
    Mentions(calls, id) && LastText(calls, id) == "" && LastSaid(calls, id) != ""
  }

  lemma StoresAgreeAt(calls: seq<Failure>, id: string)
    ensures id in Recorded(Memory, calls) <==> id in Recorded(Database, calls)
    ensures id in Recorded(Memory, calls) ==>
      (Recorded(Memory, calls)[id] == Recorded(Database, calls)[id] <==> !EmptiedText(calls, id))
    ensures EmptiedText(calls, id) ==> id in Recorded(Memory, calls)
  {
    RecordHistory(Memory, calls, id);
    RecordHistory(Database, calls, id);
    LastTextIsSaidOrEmpty(calls, id);
    if Mentions(calls, id) {
      SameEvents(calls, id);
    }
  }

  /** The two stores hold the same items exactly when no id's last text is empty after one that
      was not. */
  lemma StoresAgree(calls: seq<Failure>)
    ensures Recorded(Memory, calls) == Recorded(Database, calls) <==> forall id :: !EmptiedText(calls, id)
  {
    var mem, db := Recorded(Memory, calls), Recorded(Database, calls);
    if mem == db {
      forall id ensures !EmptiedText(calls, id) {
        StoresAgreeAt(calls, id);
      }
    }
    if forall id :: !EmptiedText(calls, id) {
      forall id ensures id in mem <==> id in db
                ensures id in mem ==> mem[id] == db[id]
      {
        StoresAgreeAt(calls, id);
      }
      assert mem == db;
    }
  }

  lemma {:induction false} LastTextIsSaidOrEmpty(calls: seq<Failure>, id: string)
    ensures LastText(calls, id) == LastSaid(calls, id) || LastText(calls, id) == ""
  {
    if calls != [] {
      LastTextIsSaidOrEmpty(calls[..|calls| - 1], id);
    }
  }

  // ---------------------------------------------------------------- records, notices and replays together

  /** A store behind the notifying wrapper, with counters of what it did: replays that appended an
      event, and those among them that were not marked; and the audit log. */
  datatype Desk = Desk(items: Items, replays: Tally, strays: Tally, audits: seq<Audit>)

  const NO_DESK := Desk(map[], map[], map[], [])

  /** `marks` is false when `mark_notified` raises after the record was kept. */
  datatype DeskOp =
    | Note(failure: Failure, marks: bool, delivered: bool)
    | Again(caller: Caller, eventId: string, outcome: Outcome, commits: bool)

  /** The in-memory store keeps the mark of every confirmed replay. */
  predicate KeepsMark(backend: Backend, commits: bool) {
    commits || backend == Memory
  }

  function DeskStep(backend: Backend, desk: Desk, op: DeskOp): Desk {
    match op
    case Note(f, marks, delivered) =>
      var items := Record(backend, desk.items, f);
      if marks then
        desk.(items := Marked(items, f.event.eventId),
              audits := desk.audits + (if CanMark(items, f.event.eventId) then [Audit(f.event.eventId, delivered)] else []))
      else desk.(items := items)
    case Again(caller, id, outcome, commits) =>
      var reaches := ReplayGate(desk.items, caller, id).Replayed? && Appends(outcome);
      var keeps := KeepsMark(backend, commits);
      desk.(items := ReplayedItems(desk.items, caller, id, outcome, keeps),
            replays := Bump(desk.replays, if reaches then {id} else {}),
            strays := Bump(desk.strays, if reaches && !(outcome.Sent? && keeps) then {id} else {}))
  }

  function DeskAppends(desk: Desk, op: DeskOp): seq<Event> {
    match op
    case Note(_, _, _) => []
    case Again(caller, id, outcome, _) => ReplayAppends(desk.items, caller, id, outcome)
  }

  function Notices(audits: seq<Audit>, id: string): nat {
    if audits == [] then 0
    else Notices(audits[..|audits| - 1], id) + (if audits[|audits| - 1].eventId == id then 1 else 0)
  }

  predicate IsReplayed(items: Items, id: string) {
    id in items && items[id].replayedBy.Some?
  }

  predicate IsNotified(items: Items, id: string) {
    id in items && items[id].notified
  }

  /** One audit entry if the item is notified and none otherwise; every replay that appended is the
      one marked on the item or was left unmarked by an error. */
  predicate DeskHoldsFor(desk: Desk, id: string) {
    && (id in desk.items ==> desk.items[id].event.eventId == id)
    && Notices(desk.audits, id) == (if IsNotified(desk.items, id) then 1 else 0)
    && Get(desk.replays, id) == Get(desk.strays, id) + (if IsReplayed(desk.items, id) then 1 else 0)
  }

  lemma NoticesOfOneMore(audits: seq<Audit>, audit: Audit, id: string)
    ensures Notices(audits + [audit], id) == Notices(audits, id) + (if audit.eventId == id then 1 else 0)
  {
    assert (audits + [audit])[..|audits|] == audits;
  }

  /** The attempts of the item after a record for it. */
  function AttemptsAfter(backend: Backend, items: Items, f: Failure): int {
    var id := f.event.eventId;
    if id !in items then Max(1, f.attempts)
    else Max(items[id].attempts, if backend == Memory then f.attempts else Max(1, f.attempts))
  }

  lemma NoteOnItems(backend: Backend, items: Items, f: Failure, id: string)
    ensures var noted := Record(backend, items, f);
            && (id in noted <==> id in items || id == f.event.eventId)
            && (id in noted && id !in items ==> noted[id].event == f.event)
            && (id in items ==> noted[id].event == items[id].event)
            && (id in items && id != f.event.eventId ==> noted[id] == items[id])
            && (id == f.event.eventId ==> noted[id].attempts == AttemptsAfter(backend, items, f))
            && IsReplayed(noted, id) == IsReplayed(items, id)
            && IsNotified(noted, id) == IsNotified(items, id)
  {
  }

  lemma MarkOnItems(items: Items, marked: string, id: string)
    requires marked in items
    ensures var next := Marked(items, marked);
            && (id in next <==> id in items)
            && (id in items ==> next[id].event == items[id].event && next[id].attempts == items[id].attempts)
            && IsReplayed(next, id) == IsReplayed(items, id)
            && IsNotified(next, id) == (IsNotified(items, id) || id == marked)
  {
  }

  lemma NoteKeeps(backend: Backend, desk: Desk, op: DeskOp, id: string)
    requires op.Note? && DeskHoldsFor(desk, id)
    ensures DeskHoldsFor(DeskStep(backend, desk, op), id)
  {
    var f := op.failure;
    var noted := Record(backend, desk.items, f);
    NoteOnItems(backend, desk.items, f, id);
    NoteOnItems(backend, desk.items, f, f.event.eventId);
    MarkOnItems(noted, f.event.eventId, id);
    NoticesOfOneMore(desk.audits, Audit(f.event.eventId, op.delivered), id);
    assert desk.audits + [] == desk.audits;
  }

  lemma DeskStepKeeps(backend: Backend, desk: Desk, op: DeskOp, id: string)
    requires DeskHoldsFor(desk, id)
    ensures DeskHoldsFor(DeskStep(backend, desk, op), id)
  {
    if op.Note? {
      NoteKeeps(backend, desk, op, id);
    }
  }

  /** Every replay that reaches the bus is counted for its event. */
  lemma ReplaysAreCounted(backend: Backend, desk: Desk, op: DeskOp, log: seq<Event>, id: string)
    requires op.Again? && DeskHoldsFor(desk, op.eventId)
    ensures Times(log + DeskAppends(desk, op), id) - Times(log, id)
         == Get(DeskStep(backend, desk, op).replays, id) - Get(desk.replays, id)
  {
    if ReplayGate(desk.items, op.caller, op.eventId).Replayed? && Appends(op.outcome) {
      TimesOfOneMore(log, desk.items[op.eventId].event, id);
    } else {
      assert log + [] == log;
    }
  }

  /** A record raises the attempts of its own item only; a replay changes no attempts and no event. */
  lemma StepAttempts(backend: Backend, desk: Desk, op: DeskOp, id: string)
    ensures var next := DeskStep(backend, desk, op).items; var mine := op.Note? && id == op.failure.event.eventId;
            && (id in next <==> id in desk.items || mine)
            && (id in desk.items ==>
                  && next[id].event == desk.items[id].event
                  && (IsReplayed(desk.items, id) ==> IsReplayed(next, id))
                  && (!mine ==> next[id].attempts == desk.items[id].attempts))
            && (mine ==> next[id].attempts == AttemptsAfter(backend, desk.items, op.failure))
            && (id !in desk.items && mine ==> next[id].event == op.failure.event)
  {
    if op.Note? {
      NoteOnItems(backend, desk.items, op.failure, id);
      var noted := Record(backend, desk.items, op.failure);
      NoteOnItems(backend, desk.items, op.failure, op.failure.event.eventId);
      MarkOnItems(noted, op.failure.event.eventId, id);
    }
  }

  function DeskRun(backend: Backend, desk: Desk, ops: seq<DeskOp>): Desk
    decreases ops
  {
    if ops == [] then desk else DeskRun(backend, DeskStep(backend, desk, ops[0]), ops[1..])
  }

  /** A replay that anybody else asks for changes nothing and appends nothing. */
  lemma OthersReplayNothing(backend: Backend, desk: Desk, op: DeskOp)
    requires op.Again?
    requires || !(op.caller.role == "ceo" || op.caller.role == "super_admin")
             || op.eventId !in desk.items || desk.items[op.eventId].event.tenantId != op.caller.tenantId
    ensures DeskStep(backend, desk, op) == desk && DeskAppends(desk, op) == []
  {
  }

  /** An administrator's replay of a dead letter that is not marked yet goes to the bus, and marks it
      with the administrator's name if that is confirmed and the mark is kept. */
  lemma AdminReplays(backend: Backend, desk: Desk, op: DeskOp)
    requires op.Again? && op.eventId in desk.items
    requires op.caller.role == "ceo" || op.caller.role == "super_admin"
    requires desk.items[op.eventId].event.tenantId == op.caller.tenantId
    ensures var item := desk.items[op.eventId];
            && DeskAppends(desk, op) == (if item.replayedBy == None && !op.outcome.Refused? then [item.event] else [])
            && DeskStep(backend, desk, op).items
               == if item.replayedBy == None && op.outcome == Sent && (op.commits || backend == Memory)
                  then desk.items[op.eventId := item.(replayedBy := Some(op.caller.userId))] else desk.items
  {
  }

  lemma {:induction false} DeskRunNext(backend: Backend, desk: Desk, ops: seq<DeskOp>, op: DeskOp)
    ensures DeskRun(backend, desk, ops + [op]) == DeskStep(backend, DeskRun(backend, desk, ops), op)
    decreases ops
  {
    if ops == [] {
      assert [] + [op] == [op] && [op][1..] == [];
      assert DeskRun(backend, DeskStep(backend, desk, op), []) == DeskStep(backend, desk, op);
    } else {
      assert (ops + [op])[1..] == ops[1..] + [op];
      DeskRunNext(backend, DeskStep(backend, desk, ops[0]), ops[1..], op);
    }
  }

  /** Exactly the events that were recorded are there. */
  lemma {:induction false} RecordedIsThere(backend: Backend, ops: seq<DeskOp>, id: string)
    ensures id in DeskRun(backend, NO_DESK, ops).items
       <==> exists i :: 0 <= i < |ops| && ops[i].Note? && ops[i].failure.event.eventId == id
  {
    if ops != [] {
      var init, last := ops[..|ops| - 1], ops[|ops| - 1];
      assert init + [last] == ops;
      RecordedIsThere(backend, init, id);
      DeskRunNext(backend, NO_DESK, init, last);
      StepAttempts(backend, DeskRun(backend, NO_DESK, init), last, id);
      if i :| 0 <= i < |ops| && ops[i].Note? && ops[i].failure.event.eventId == id {
        assert i < |init| ==> init[i] == ops[i];
      }
    }
  }

  /** What a replay is answered after any records and replays, asked in this order: who asks, whether the
      event was recorded for their tenant, whether it was replayed before, and whether the publish and
      the mark succeed. */
  lemma AnswerIs(backend: Backend, ops: seq<DeskOp>, caller: Caller, id: string, outcome: Outcome, commits: bool)
    ensures var items := DeskRun(backend, NO_DESK, ops).items;
            var answer := ReplayOutcome(items, caller, id, outcome, commits);
            var isAdmin := caller.role == "ceo" || caller.role == "super_admin";
            && (id in items <==> exists i :: 0 <= i < |ops| && ops[i].Note? && ops[i].failure.event.eventId == id)
            && (answer == Forbidden <==> !isAdmin)
            && (answer == NotFound <==> isAdmin && !(id in items && items[id].event.tenantId == caller.tenantId))
            && (isAdmin && id in items && items[id].event.tenantId == caller.tenantId ==>
                  && (answer == AlreadyReplayed <==> items[id].replayedBy != None)
                  && (answer == Replayed <==> items[id].replayedBy == None && outcome == Sent && commits)
                  && (answer == Raised <==> items[id].replayedBy == None && !(outcome == Sent && commits)))
  {
    RecordedIsThere(backend, ops, id);
  }

  /** Over any records and replays: what was replayed was replayed by an administrator of its tenant. */
  lemma {:induction false} ReplayedByItsAdmin(backend: Backend, desk: Desk, ops: seq<DeskOp>, id: string) returns (i: nat)
    requires !IsReplayed(desk.items, id) && IsReplayed(DeskRun(backend, desk, ops).items, id)
    ensures i < |ops| && ops[i].Again? && ops[i].eventId == id
    ensures var item := DeskRun(backend, desk, ops).items[id]; var caller := ops[i].caller;
            && item.replayedBy == Some(caller.userId) && item.event.tenantId == caller.tenantId
            && (caller.role == "ceo" || caller.role == "super_admin")
    decreases ops
  {
    var next := DeskStep(backend, desk, ops[0]);
    if IsReplayed(next.items, id) {
      i := 0;
      ReplayStays(backend, next, ops[1..], id);
    } else {
      var j := ReplayedByItsAdmin(backend, next, ops[1..], id);
      i := j + 1;
    }
  }

  lemma {:induction false} ReplayStays(backend: Backend, desk: Desk, ops: seq<DeskOp>, id: string)
    requires IsReplayed(desk.items, id)
    ensures var end := DeskRun(backend, desk, ops).items;
            id in end && end[id].replayedBy == desk.items[id].replayedBy && end[id].event == desk.items[id].event
    decreases ops
  {
    if ops != [] {
      ReplayStays(backend, DeskStep(backend, desk, ops[0]), ops[1..], id);
    }
  }

  /** The replay's append, if any, is confirmed and its mark is kept. */
  predicate IsConfirmed(backend: Backend, op: DeskOp) {
    op.Again? ==> KeepsMark(backend, op.commits) && !op.outcome.Unconfirmed?
  }

  lemma ConfirmedStep(backend: Backend, desk: Desk, op: DeskOp, id: string)
    requires IsConfirmed(backend, op)
    ensures Get(DeskStep(backend, desk, op).strays, id) == Get(desk.strays, id)
  {
  }

  lemma {:induction false} ConfirmedLeavesNoStray(backend: Backend, desk: Desk, ops: seq<DeskOp>, id: string)
    requires DeskHoldsFor(desk, id) && forall i :: 0 <= i < |ops| ==> IsConfirmed(backend, ops[i])
    ensures DeskHoldsFor(DeskRun(backend, desk, ops), id) && Get(DeskRun(backend, desk, ops).strays, id) == Get(desk.strays, id)
    decreases ops
  {
    if ops != [] {
      assert IsConfirmed(backend, ops[0]);
      var next := DeskStep(backend, desk, ops[0]);
      DeskStepKeeps(backend, desk, ops[0], id);
      ConfirmedStep(backend, desk, ops[0], id);
      ConfirmedLeavesNoStray(backend, next, ops[1..], id);
    }
  }

  /** However often it is asked for, a dead letter is replayed into the stream at most once while
      publishes are confirmed and marks kept, and exactly once when it is marked. The in-memory store
      always keeps the mark. */
  lemma ReplayedAtMostOnce(backend: Backend, ops: seq<DeskOp>, id: string)
    requires forall i :: 0 <= i < |ops| ==> IsConfirmed(backend, ops[i])
    ensures Get(DeskRun(backend, NO_DESK, ops).replays, id) == if IsReplayed(DeskRun(backend, NO_DESK, ops).items, id) then 1 else 0
  {
    ConfirmedLeavesNoStray(backend, NO_DESK, ops, id);
  }
}
