/** The outbox table, which rows one publisher batch takes, and the batch itself. */
module Outbox {
  import opened Options
  import opened Events
  import DeadLetters

  datatype Row = Row(event: Event, published: bool, attempts: nat, lastError: Option<string>)

  const NO_ERROR: Option<string> := None

  type Table = map<string, Row>

  ghost predicate KeyedByEvent(table: Table) {
    forall id :: id in table ==> table[id].event.eventId == id
  }

  // ---------------------------------------------------------------- ORDER BY occurred_at, event_id

  predicate TextBefore(a: string, b: string) {
    b != [] && (a == [] || a[0] < b[0] || (a[0] == b[0] && TextBefore(a[1..], b[1..])))
  }

  predicate Before(a: Event, b: Event) {
    a.occurredAt < b.occurredAt || (a.occurredAt == b.occurredAt && TextBefore(a.eventId, b.eventId))
  }

  /** The texts agree up to `k`, and there the first one ends or has the smaller character. */
  predicate IsSmallerAt(a: string, b: string, k: nat) {
    k <= |a| && k < |b| && (forall i :: 0 <= i < k ==> a[i] == b[i]) && (k == |a| || a[k] < b[k])
  }

  lemma {:induction false} SmallerIsBefore(a: string, b: string, k: nat)
    requires IsSmallerAt(a, b, k)
    ensures TextBefore(a, b)
    decreases k
  {
    if k > 0 {
      SmallerIsBefore(a[1..], b[1..], k - 1);
    }
  }

  lemma {:induction false} BeforeIsSmaller(a: string, b: string) returns (k: nat)
    requires TextBefore(a, b)
    ensures IsSmallerAt(a, b, k)
  {
    if a == [] || a[0] < b[0] {
      k := 0;
    } else {
      var n := BeforeIsSmaller(a[1..], b[1..]);
      k := n + 1;
      forall i | 0 <= i < k ensures a[i] == b[i] {
        assert i > 0 ==> a[i] == a[1..][i - 1] && b[i] == b[1..][i - 1];
      }
    }
  }

  lemma TextBeforeIs(a: string, b: string)
    ensures TextBefore(a, b) <==> exists k: nat :: IsSmallerAt(a, b, k)
  {
    if TextBefore(a, b) {
      var k := BeforeIsSmaller(a, b);
    }
    if k: nat :| IsSmallerAt(a, b, k) {
      SmallerIsBefore(a, b, k);
    }
  }

  lemma {:induction false} TextOrder(a: string, b: string, c: string)
    ensures !TextBefore(a, a)
    ensures TextBefore(a, b) && TextBefore(b, c) ==> TextBefore(a, c)
    ensures a == b || TextBefore(a, b) || TextBefore(b, a)
  {
    if a != [] {
      TextOrder(a[1..], if b == [] then [] else b[1..], if c == [] then [] else c[1..]);
      if b != [] && a[0] == b[0] && a[1..] == b[1..] {
        assert a == [a[0]] + a[1..] == b;
      }
    }
  }

  /** Events with different ids are strictly ordered. */
  lemma EventOrder(a: Event, b: Event, c: Event)
    ensures !Before(a, a)
    ensures Before(a, b) && Before(b, c) ==> Before(a, c)
    ensures a.eventId == b.eventId || Before(a, b) || Before(b, a)
  {
    TextOrder(a.eventId, b.eventId, c.eventId);
  }

  // ---------------------------------------------------------------- the rows one batch takes

  predicate Takeable(table: Table, locked: set<string>, id: string) {
    id in table && !table[id].published && id !in locked
  }

  predicate Ordered(table: Table, chosen: seq<string>)
    requires forall i :: 0 <= i < |chosen| ==> chosen[i] in table
  {
    forall i, j :: 0 <= i < j < |chosen| ==> Before(table[chosen[i]].event, table[chosen[j]].event)
  }

  /** The query's answer: takeable rows in order, at most `limit`, and any other takeable row comes
      after all of them and is left out only because the limit is reached. */
  ghost predicate IsBatch(table: Table, locked: set<string>, limit: nat, chosen: seq<string>) {
    && |chosen| <= limit
    && (forall i :: 0 <= i < |chosen| ==> Takeable(table, locked, chosen[i]))
    && Ordered(table, chosen)
    && (forall id :: Takeable(table, locked, id) && id !in chosen ==>
          |chosen| == limit && forall i :: 0 <= i < |chosen| ==> Before(table[chosen[i]].event, table[id].event))
  }

  lemma OrderedIsDistinct(table: Table, chosen: seq<string>, i: nat, j: nat)
    requires forall k :: 0 <= k < |chosen| ==> chosen[k] in table
    requires Ordered(table, chosen) && i < |chosen| && j < |chosen| && chosen[i] == chosen[j]
    ensures i == j
  {
    EventOrder(table[chosen[i]].event, table[chosen[i]].event, table[chosen[i]].event);
  }

  /** If two answers agree up to `i`, the first answer's next row does not come before the second's. */
  lemma NextNotBefore(table: Table, locked: set<string>, limit: nat, a: seq<string>, b: seq<string>, i: nat)
    requires IsBatch(table, locked, limit, a) && IsBatch(table, locked, limit, b)
    requires i < |a| && i < |b| && a[..i] == b[..i]
    ensures !Before(table[a[i]].event, table[b[i]].event)
  {
    var x, y := table[a[i]].event, table[b[i]].event;
    EventOrder(y, x, y);
    forall j | 0 <= j < i ensures b[j] != a[i] {
      assert a[j] == a[..i][j] == b[..i][j] == b[j];
      EventOrder(table[a[j]].event, x, x);
    }
    if a[i] in b {
      var j :| 0 <= j < |b| && b[j] == a[i];
      assert j > i ==> Before(table[b[i]].event, table[b[j]].event);
    } else {
      assert Takeable(table, locked, a[i]);
    }
  }

  lemma {:induction false} AnswersAgree(table: Table, locked: set<string>, limit: nat, a: seq<string>, b: seq<string>, n: nat)
    requires KeyedByEvent(table)
    requires IsBatch(table, locked, limit, a) && IsBatch(table, locked, limit, b)
    requires n <= |a| && n <= |b|
    ensures a[..n] == b[..n]
    ensures n == |a| ==> a == b
    decreases n
  {
    if n > 0 {
      AnswersAgree(table, locked, limit, a, b, n - 1);
      NextNotBefore(table, locked, limit, a, b, n - 1);
      NextNotBefore(table, locked, limit, b, a, n - 1);
      EventOrder(table[a[n - 1]].event, table[b[n - 1]].event, table[a[n - 1]].event);
      assert a[..n] == a[..n - 1] + [a[n - 1]];
      assert b[..n] == b[..n - 1] + [b[n - 1]];
    }
    if n == |a| && n < |b| {
      assert b[n] in a;
      var j: nat :| j < |a| && a[j] == b[n];
      assert b[..n][j] == a[..n][j];
      OrderedIsDistinct(table, b, j, n);
      assert false;
    }
  }

  /** The query has one answer. */
  lemma BatchIsUnique(table: Table, locked: set<string>, limit: nat, a: seq<string>, b: seq<string>)
    requires KeyedByEvent(table)
    requires IsBatch(table, locked, limit, a) && IsBatch(table, locked, limit, b)
    ensures a == b
  {
    if |a| <= |b| {
      AnswersAgree(table, locked, limit, a, b, |a|);
    } else {
      AnswersAgree(table, locked, limit, b, a, |b|);
    }
  }

  /** Older events come first, and among equally old ones the smaller id. */
  lemma BeforeIs(a: Event, b: Event)
    ensures Before(a, b)
       <==> a.occurredAt < b.occurredAt
            || (a.occurredAt == b.occurredAt && exists k: nat :: IsSmallerAt(a.eventId, b.eventId, k))
  {
    TextBeforeIs(a.eventId, b.eventId);
  }

  /** A batch takes the oldest unpublished rows that nobody holds, oldest first; the id decides between
      equally old ones. */
  lemma BatchIsOldest(table: Table, locked: set<string>, limit: nat, chosen: seq<string>)
    requires KeyedByEvent(table) && IsBatch(table, locked, limit, chosen)
    ensures forall i :: 0 <= i < |chosen| ==> chosen[i] in table && !table[chosen[i]].published && chosen[i] !in locked
    ensures forall i, j :: 0 <= i < j < |chosen| ==>
              var a, b := table[chosen[i]].event, table[chosen[j]].event;
              a.occurredAt < b.occurredAt
              || (a.occurredAt == b.occurredAt && exists k: nat :: IsSmallerAt(chosen[i], chosen[j], k))
    ensures forall id :: id in table && !table[id].published && id !in locked && id !in chosen ==>
              && |chosen| == limit
              && forall i :: 0 <= i < |chosen| ==>
                   var a, b := table[chosen[i]].event, table[id].event;
                   a.occurredAt < b.occurredAt
                   || (a.occurredAt == b.occurredAt && exists k: nat :: IsSmallerAt(chosen[i], id, k))
  {
    forall i, j | 0 <= i < j < |chosen|
      ensures var a, b := table[chosen[i]].event, table[chosen[j]].event;
              a.occurredAt < b.occurredAt
              || (a.occurredAt == b.occurredAt && exists k: nat :: IsSmallerAt(chosen[i], chosen[j], k))
    {
      BeforeIs(table[chosen[i]].event, table[chosen[j]].event);
    }
    forall id, i | id in table && !table[id].published && id !in locked && id !in chosen && 0 <= i < |chosen|
      ensures var a, b := table[chosen[i]].event, table[id].event;
              a.occurredAt < b.occurredAt
              || (a.occurredAt == b.occurredAt && exists k: nat :: IsSmallerAt(chosen[i], id, k))
    {
      assert Takeable(table, locked, id);
      BeforeIs(table[chosen[i]].event, table[id].event);
    }
    forall id | id in table && !table[id].published && id !in locked && id !in chosen ensures |chosen| == limit {
      assert Takeable(table, locked, id);
    }
  }

  method First(table: Table, ids: set<string>) returns (first: string)
    requires KeyedByEvent(table)
    requires ids != {} && forall id :: id in ids ==> id in table
    ensures first in ids
    ensures forall id :: id in ids && id != first ==> Before(table[first].event, table[id].event)
  {
    first :| first in ids;
    var seen := {first};
    while seen != ids
      invariant first in seen && seen <= ids
      invariant forall id :: id in seen && id != first ==> Before(table[first].event, table[id].event)
      decreases |ids - seen|
    {
      var id :| id in ids - seen;
      assert ids - (seen + {id}) == (ids - seen) - {id};
      var previous := first;
      if Before(table[id].event, table[first].event) {
        first := id;
      }
      forall other | other in seen + {id} && other != first
        ensures Before(table[first].event, table[other].event)
      {
        EventOrder(table[id].event, table[previous].event, table[other].event);
      }
      seen := seen + {id};
    }
  }

  /** `SELECT ... WHERE published_at IS NULL ORDER BY ... FOR UPDATE SKIP LOCKED LIMIT ...` */
  method SelectPending(table: Table, locked: set<string>, limit: nat) returns (chosen: seq<string>)
    requires KeyedByEvent(table)
    ensures IsBatch(table, locked, limit, chosen)
  {
    chosen := [];
    var rest := set id | id in table && Takeable(table, locked, id);
    while rest != {} && |chosen| < limit
      invariant |chosen| <= limit
      invariant forall i :: 0 <= i < |chosen| ==> Takeable(table, locked, chosen[i])
      invariant Ordered(table, chosen)
      invariant forall id :: id in rest <==> Takeable(table, locked, id) && id !in chosen
      invariant forall i, id :: 0 <= i < |chosen| && id in rest ==> Before(table[chosen[i]].event, table[id].event)
      decreases |rest|
    {
      var next := First(table, rest);
      chosen, rest := chosen + [next], rest - {next};
    }
  }

  // ---------------------------------------------------------------- one batch

  /** What the transaction writes to a row after its publish. */
  function Settled(row: Row, outcome: Outcome): Row {
    match outcome
    case Sent => row.(published := true, lastError := None)
    case Refused(error) => row.(attempts := row.attempts + 1, lastError := Some(DeadLetters.Cut(error)))
    case Unconfirmed(error) => row.(attempts := row.attempts + 1, lastError := Some(DeadLetters.Cut(error)))
  }

  /** Where a row stands in the batch; the length of the batch when it is not in it. */
  function Position(chosen: seq<string>, id: string): (p: nat)
    ensures p <= |chosen|
    ensures p < |chosen| ==> chosen[p] == id
    ensures p == |chosen| ==> id !in chosen
  {
    if chosen == [] then 0
    else if chosen[0] == id then 0
    else 1 + Position(chosen[1..], id)
  }

  lemma PositionOf(chosen: seq<string>, i: nat)
    requires i < |chosen|
    requires forall j, k :: 0 <= j < k < |chosen| ==> chosen[j] != chosen[k]
    ensures Position(chosen, chosen[i]) == i
  {
  }

  /** The table after the first rows of a batch, as many as there are outcomes, were handled. */
  function AfterBatch(table: Table, chosen: seq<string>, outcomes: seq<Outcome>): (after: Table)
    ensures after.Keys == table.Keys
  {
    map id | id in table ::
      var p := Position(chosen, id);
      if p < |outcomes| && p < |chosen| then Settled(table[id], outcomes[p]) else table[id]
  }

  predicate InTable(table: Table, chosen: seq<string>) {
    forall i :: 0 <= i < |chosen| ==> chosen[i] in table
  }

  /** The events the batch appended to the bus, in order. */
  function AppendedBy(table: Table, chosen: seq<string>, outcomes: seq<Outcome>): seq<Event>
    requires InTable(table, chosen) && |outcomes| <= |chosen|
    decreases outcomes
  {
    if outcomes == [] then []
    else
      var last := |outcomes| - 1;
      AppendedBy(table, chosen, outcomes[..last]) + Appended(table[chosen[last]].event, outcomes[last])
  }

  predicate IsDue(maxAttempts: int, row: Row, outcome: Outcome) {
    !outcome.Sent? && row.attempts + 1 >= maxAttempts
  }

  function FailureOf(row: Row, outcome: Outcome): DeadLetters.Failure
    requires !outcome.Sent?
  {
    DeadLetters.Failure(row.event, outcome.error, row.attempts + 1)
  }

  /** The dead-letter records the batch made, in order. */
  function DueBy(maxAttempts: int, table: Table, chosen: seq<string>, outcomes: seq<Outcome>): seq<DeadLetters.Failure>
    requires InTable(table, chosen) && |outcomes| <= |chosen|
    decreases outcomes
  {
    if outcomes == [] then []
    else
      var last := |outcomes| - 1;
      DueBy(maxAttempts, table, chosen, outcomes[..last])
      + (if IsDue(maxAttempts, table[chosen[last]], outcomes[last])
         then [FailureOf(table[chosen[last]], outcomes[last])] else [])
  }

  function Sents(outcomes: seq<Outcome>): nat {
    if outcomes == [] then 0 else Sents(outcomes[..|outcomes| - 1]) + (if outcomes[|outcomes| - 1].Sent? then 1 else 0)
  }

  /** One record kept and marked as notified. */
  function Kept(items: DeadLetters.Items, failure: DeadLetters.Failure): DeadLetters.Items {
    DeadLetters.Marked(DeadLetters.Record(DeadLetters.Database, items, failure), failure.event.eventId)
  }

  /** What the dead-letter store does with a record: keep and mark it, raise, or raise after keeping it. */
  datatype Keeping = Keeps | Refuses | Unmarked

  /** What a record that raises leaves. */
  function LeftBy(keeping: Keeping, items: DeadLetters.Items, failure: DeadLetters.Failure): DeadLetters.Items {
    if keeping == Unmarked then DeadLetters.Record(DeadLetters.Database, items, failure) else items
  }

  function Noted(items: DeadLetters.Items, failures: seq<DeadLetters.Failure>): DeadLetters.Items {
    if failures == [] then items else Kept(Noted(items, failures[..|failures| - 1]), failures[|failures| - 1])
  }

  /** The running state of the loop over the chosen rows. */
  datatype Progress = Progress(work: Table, count: nat, appended: seq<Event>, items: DeadLetters.Items)

  function Advance(maxAttempts: int, at: Progress, row: Row, outcome: Outcome): Progress {
    Progress(at.work[row.event.eventId := Settled(row, outcome)],
             at.count + (if outcome.Sent? then 1 else 0),
             at.appended + Appended(row.event, outcome),
             if IsDue(maxAttempts, row, outcome) then Kept(at.items, FailureOf(row, outcome)) else at.items)
  }

  function ProgressAt(maxAttempts: int, table: Table, items: DeadLetters.Items, chosen: seq<string>,
                      outcomes: seq<Outcome>): Progress
    requires InTable(table, chosen) && |outcomes| <= |chosen|
    decreases outcomes
  {
    if outcomes == [] then Progress(table, 0, [], items)
    else
      var last := |outcomes| - 1;
      Advance(maxAttempts, ProgressAt(maxAttempts, table, items, chosen, outcomes[..last]), table[chosen[last]], outcomes[last])
  }

  class OutboxPublisher {
    const maxAttempts: int
    const bus: EventBus
    const deadLetters: DeadLetters.NotifyingDeadLetterStore
    var table: Table

    /** `null` stands for the error of a limit below one. */
    static method Create(maxAttempts: int, bus: EventBus, deadLetters: DeadLetters.NotifyingDeadLetterStore, table: Table)
      returns (publisher: OutboxPublisher?)
      ensures publisher == null <==> maxAttempts < 1
      ensures publisher != null ==> publisher.maxAttempts == maxAttempts && publisher.table == table
    {
      if maxAttempts < 1 {
        return null;
      }
      publisher := new OutboxPublisher(maxAttempts, bus, deadLetters, table);
    }

    constructor (maxAttempts: int, bus: EventBus, deadLetters: DeadLetters.NotifyingDeadLetterStore, table: Table)
      ensures this.maxAttempts == maxAttempts && this.bus == bus && this.deadLetters == deadLetters
      ensures this.table == table
    {
      this.maxAttempts, this.bus, this.deadLetters, this.table := maxAttempts, bus, deadLetters, table;
    }

    /** Publishes one row and says what to write to it. When the dead-letter store raises, the error is
        passed on. */
    method PublishRow(row: Row, answer: Outcome, keeping: Keeping, delivered: bool) returns (after: Row, raised: bool)
      modifies bus, deadLetters, deadLetters.inner
      ensures bus.log == old(bus.log) + Appended(row.event, answer)
      ensures after == Settled(row, answer)
      ensures raised <==> IsDue(maxAttempts, row, answer) && keeping != Keeps
      ensures deadLetters.inner.items
           == if !IsDue(maxAttempts, row, answer) then old(deadLetters.inner.items)
              else if keeping == Keeps then Kept(old(deadLetters.inner.items), FailureOf(row, answer))
              else LeftBy(keeping, old(deadLetters.inner.items), FailureOf(row, answer))
    {
      var ok := bus.Publish(row.event, answer);
      raised := false;
      if ok {
        after := row.(published := true, lastError := None);
      } else {
        var attempts := row.attempts + 1;
        after := row.(attempts := attempts, lastError := Some(DeadLetters.Cut(answer.error)));
        if attempts >= maxAttempts {
          var failure := DeadLetters.Failure(row.event, answer.error, attempts);
          raised := keeping != Keeps;
          if keeping == Keeps {
            var _ := deadLetters.RecordFailure(failure, delivered);
          } else if keeping == Unmarked {
            var _ := deadLetters.inner.RecordFailure(failure);
          }
        }
      }
    }

    /** Handles the chosen rows one after the other, up to the first error that is passed on;
        `handled` rows reached the bus. */
    method PublishRows(chosen: seq<string>, answers: seq<Outcome>, keeps: seq<Keeping>, delivered: bool)
      returns (raised: bool, work: Table, count: nat, handled: nat)
      requires KeyedByEvent(table) && InTable(table, chosen) && |chosen| <= |answers| == |keeps|
      modifies bus, deadLetters, deadLetters.inner
      ensures handled <= |chosen| && (raised <==> handled > 0 && IsStopped(chosen, answers, keeps, handled - 1))
      ensures !raised ==> handled == |chosen|
      ensures var at := ProgressAt(maxAttempts, table, old(deadLetters.inner.items), chosen, answers[..handled]);
              && bus.log == old(bus.log) + at.appended
              && (!raised ==> work == at.work && count == at.count && deadLetters.inner.items == at.items)
      ensures raised ==>
        deadLetters.inner.items
        == LeftBy(keeps[handled - 1],
                  ProgressAt(maxAttempts, table, old(deadLetters.inner.items), chosen, answers[..handled - 1]).items,
                  FailureOf(table[chosen[handled - 1]], answers[handled - 1]))
    {
      ghost var log, items := bus.log, deadLetters.inner.items;
      work, count, handled, raised := table, 0, 0, false;
      ghost var at := Progress(work, 0, [], items);
      while handled < |chosen|
        invariant handled <= |chosen|
        invariant handled > 0 ==> !IsStopped(chosen, answers, keeps, handled - 1)
        invariant at == ProgressAt(maxAttempts, table, items, chosen, answers[..handled])
        invariant work == at.work && count == at.count
        invariant bus.log == log + at.appended && deadLetters.inner.items == at.items
      {
        var id, answer := chosen[handled], answers[handled];
        assert answers[..handled + 1][..handled] == answers[..handled];
        var after;
        after, raised := PublishRow(table[id], answer, keeps[handled], delivered);
        at := Advance(maxAttempts, at, table[id], answer);
        handled := handled + 1;
        if raised {
          return;
        }
        work := work[id := after];
        count := count + (if answer.Sent? then 1 else 0);
      }
    }

    /** The dead-letter store did not keep the record made for the row at `k`. */
    predicate IsStopped(chosen: seq<string>, answers: seq<Outcome>, keeps: seq<Keeping>, k: nat)
      requires InTable(table, chosen) && k < |chosen| <= |answers| == |keeps|
      reads this
    {
      IsDue(maxAttempts, table[chosen[k]], answers[k]) && keeps[k] != Keeps
    }

    /** One call: `locked` are the rows other transactions hold, `answers` what the bus does with each
        publish in turn, `keeps` what the dead-letter store does with a record made for that row.
        The result is `None` when an error rolled the transaction back. */
    method PublishPending(locked: set<string>, limit: nat, answers: seq<Outcome>, keeps: seq<Keeping>, delivered: bool)
      returns (published: Option<nat>, chosen: seq<string>, handled: nat)
      requires KeyedByEvent(table) && |answers| == |keeps| == limit
      modifies this, bus, deadLetters, deadLetters.inner
      ensures IsBatch(old(table), locked, limit, chosen)
      ensures handled <= |chosen|
      ensures bus.log == old(bus.log) + AppendedBy(old(table), chosen, answers[..handled])
      ensures published.Some? ==>
        && handled == |chosen| && published.value == Sents(answers[..handled])
        && table == AfterBatch(old(table), chosen, answers[..handled])
        && deadLetters.inner.items
           == Noted(old(deadLetters.inner.items), DueBy(maxAttempts, old(table), chosen, answers[..handled]))
      ensures published.None? ==>
        && table == old(table) && handled > 0
        && IsDue(maxAttempts, old(table)[chosen[handled - 1]], answers[handled - 1]) && keeps[handled - 1] != Keeps
        && deadLetters.inner.items
           == LeftBy(keeps[handled - 1],
                     Noted(old(deadLetters.inner.items), DueBy(maxAttempts, old(table), chosen, answers[..handled - 1])),
                     FailureOf(old(table)[chosen[handled - 1]], answers[handled - 1]))
    {
      chosen := SelectPending(table, locked, limit);
      BatchIsDistinct(table, chosen);
      ghost var items := deadLetters.inner.items;
      var raised, work, count;
      raised, work, count, handled := PublishRows(chosen, answers, keeps, delivered);
      ProgressIs(maxAttempts, table, items, chosen, answers[..handled]);
      if raised {
        ProgressIs(maxAttempts, table, items, chosen, answers[..handled - 1]);
        return None, chosen, handled;
      }
      table := work;
      published := Some(count);
    }
  }

  lemma BatchIsDistinct(table: Table, chosen: seq<string>)
    requires InTable(table, chosen) && Ordered(table, chosen)
    ensures forall i, j :: 0 <= i < j < |chosen| ==> chosen[i] != chosen[j]
  {
    forall i, j | 0 <= i < j < |chosen| ensures chosen[i] != chosen[j] {
      if chosen[i] == chosen[j] {
        OrderedIsDistinct(table, chosen, i, j);
      }
    }
  }

  /** The loop leaves what the specification says, row by row and entry by entry. */
  lemma ProgressIs(maxAttempts: int, table: Table, items: DeadLetters.Items, chosen: seq<string>,
                   outcomes: seq<Outcome>)
    requires KeyedByEvent(table) && InTable(table, chosen) && |outcomes| <= |chosen|
    requires forall j, k :: 0 <= j < k < |chosen| ==> chosen[j] != chosen[k]
    ensures var at := ProgressAt(maxAttempts, table, items, chosen, outcomes);
            && at.work == AfterBatch(table, chosen, outcomes)
            && at.count == Sents(outcomes)
            && at.appended == AppendedBy(table, chosen, outcomes)
            && at.items == Noted(items, DueBy(maxAttempts, table, chosen, outcomes))
  {
    WorkIs(maxAttempts, table, items, chosen, outcomes);
    ReportIs(maxAttempts, table, items, chosen, outcomes);
  }

  lemma {:induction false} WorkIs(maxAttempts: int, table: Table, items: DeadLetters.Items, chosen: seq<string>,
                                  outcomes: seq<Outcome>)
    requires KeyedByEvent(table) && InTable(table, chosen) && |outcomes| <= |chosen|
    requires forall j, k :: 0 <= j < k < |chosen| ==> chosen[j] != chosen[k]
    ensures ProgressAt(maxAttempts, table, items, chosen, outcomes).work == AfterBatch(table, chosen, outcomes)
    decreases outcomes
  {
    if outcomes == [] {
      assert AfterBatch(table, chosen, []) == table;
    } else {
      var last := |outcomes| - 1;
      var before := ProgressAt(maxAttempts, table, items, chosen, outcomes[..last]);
      WorkIs(maxAttempts, table, items, chosen, outcomes[..last]);
      WorkNext(maxAttempts, table, chosen, outcomes, before);
    }
  }

  lemma WorkNext(maxAttempts: int, table: Table, chosen: seq<string>, outcomes: seq<Outcome>, before: Progress)
    requires KeyedByEvent(table) && InTable(table, chosen) && 0 < |outcomes| <= |chosen|
    requires forall j, k :: 0 <= j < k < |chosen| ==> chosen[j] != chosen[k]
    requires before.work == AfterBatch(table, chosen, outcomes[..|outcomes| - 1])
    ensures Advance(maxAttempts, before, table[chosen[|outcomes| - 1]], outcomes[|outcomes| - 1]).work
         == AfterBatch(table, chosen, outcomes)
  {
    var last := |outcomes| - 1;
    SettleNext(table, chosen, outcomes[..last], outcomes[last]);
    assert outcomes[..last] + [outcomes[last]] == outcomes;
  }

  lemma {:induction false} ReportIs(maxAttempts: int, table: Table, items: DeadLetters.Items, chosen: seq<string>,
                                    outcomes: seq<Outcome>)
    requires InTable(table, chosen) && |outcomes| <= |chosen|
    ensures var at := ProgressAt(maxAttempts, table, items, chosen, outcomes);
            && at.count == Sents(outcomes)
            && at.appended == AppendedBy(table, chosen, outcomes)
            && at.items == Noted(items, DueBy(maxAttempts, table, chosen, outcomes))
    decreases outcomes
  {
    if outcomes != [] {
      var last := |outcomes| - 1;
      var init, outcome, row := outcomes[..last], outcomes[last], table[chosen[last]];
      ReportIs(maxAttempts, table, items, chosen, init);
      NoteNext(items, DueBy(maxAttempts, table, chosen, init),
               if IsDue(maxAttempts, row, outcome) then [FailureOf(row, outcome)] else []);
    }
  }

  lemma NoteNext(items: DeadLetters.Items, due: seq<DeadLetters.Failure>, more: seq<DeadLetters.Failure>)
    requires |more| <= 1
    ensures Noted(items, due + more) == if more == [] then Noted(items, due) else Kept(Noted(items, due), more[0])
  {
    if more == [] {
      assert due + more == due;
    } else {
      assert (due + more)[..|due|] == due;
    }
  }

  lemma SettleNext(table: Table, chosen: seq<string>, outcomes: seq<Outcome>, outcome: Outcome)
    requires InTable(table, chosen) && |outcomes| < |chosen|
    requires forall j, k :: 0 <= j < k < |chosen| ==> chosen[j] != chosen[k]
    ensures var id := chosen[|outcomes|]; var work := AfterBatch(table, chosen, outcomes);
            && work[id] == table[id]
            && AfterBatch(table, chosen, outcomes + [outcome]) == work[id := Settled(table[id], outcome)]
  {
    var id := chosen[|outcomes|];
    PositionOf(chosen, |outcomes|);
    forall other | other in table && other != id
      ensures AfterBatch(table, chosen, outcomes + [outcome])[other] == AfterBatch(table, chosen, outcomes)[other]
    {
      assert Position(chosen, other) != |outcomes|;
    }
  }

  // ---------------------------------------------------------------- what a batch does

  lemma {:induction false} AppendedAreChosen(table: Table, chosen: seq<string>, outcomes: seq<Outcome>, i: nat) returns (j: nat)
    requires InTable(table, chosen) && |outcomes| <= |chosen|
    requires i < |AppendedBy(table, chosen, outcomes)|
    ensures j < |outcomes| && Appends(outcomes[j])
    ensures AppendedBy(table, chosen, outcomes)[i] == table[chosen[j]].event
    decreases outcomes
  {
    var last := |outcomes| - 1;
    var before := AppendedBy(table, chosen, outcomes[..last]);
    if i < |before| {
      j := AppendedAreChosen(table, chosen, outcomes[..last], i);
    } else {
      j := last;
    }
  }

  /** The events of a batch are appended in (occurred_at, event_id) order, each once. */
  lemma {:induction false} AppendedInOrder(table: Table, chosen: seq<string>, outcomes: seq<Outcome>, i: nat, j: nat)
    requires InTable(table, chosen) && Ordered(table, chosen) && |outcomes| <= |chosen|
    requires i < j < |AppendedBy(table, chosen, outcomes)|
    ensures Before(AppendedBy(table, chosen, outcomes)[i], AppendedBy(table, chosen, outcomes)[j])
    decreases outcomes
  {
    var last := |outcomes| - 1;
    var before := AppendedBy(table, chosen, outcomes[..last]);
    if j < |before| {
      AppendedInOrder(table, chosen, outcomes[..last], i, j);
    } else {
      var k := AppendedAreChosen(table, chosen, outcomes[..last], i);
    }
  }

  /** So the stream gets older events before newer ones. */
  lemma AppendedOldestFirst(table: Table, chosen: seq<string>, outcomes: seq<Outcome>, i: nat, j: nat)
    requires InTable(table, chosen) && Ordered(table, chosen) && |outcomes| <= |chosen|
    requires i < j < |AppendedBy(table, chosen, outcomes)|
    ensures var a, b := AppendedBy(table, chosen, outcomes)[i], AppendedBy(table, chosen, outcomes)[j];
            a.occurredAt < b.occurredAt
            || (a.occurredAt == b.occurredAt && exists k: nat :: IsSmallerAt(a.eventId, b.eventId, k))
  {
    AppendedInOrder(table, chosen, outcomes, i, j);
    BeforeIs(AppendedBy(table, chosen, outcomes)[i], AppendedBy(table, chosen, outcomes)[j]);
  }

  /** What a batch that commits leaves of each row it handled: a confirmed publish marks the row and
      clears its error; any other adds one attempt and keeps the first 500 characters of the error.
      All other rows are as they were. */
  lemma WhatIsWritten(table: Table, locked: set<string>, limit: nat, chosen: seq<string>, outcomes: seq<Outcome>, i: nat)
    requires IsBatch(table, locked, limit, chosen) && i < |outcomes| <= |chosen|
    ensures var row, after := table[chosen[i]], AfterBatch(table, chosen, outcomes)[chosen[i]];
            && after.event == row.event
            && (outcomes[i].Sent? ==> after.published && after.attempts == row.attempts && after.lastError == None)
            && (!outcomes[i].Sent? ==>
                  && !after.published && after.attempts == row.attempts + 1
                  && var error := outcomes[i].error;
                     after.lastError == Some(if |error| > 500 then error[..500] else error))
    ensures forall id :: id in table && id !in chosen[..|outcomes|] ==> AfterBatch(table, chosen, outcomes)[id] == table[id]
  {
    BatchIsDistinct(table, chosen);
    PositionOf(chosen, i);
    forall id | id in table && id !in chosen[..|outcomes|] ensures AfterBatch(table, chosen, outcomes)[id] == table[id] {
      PositionBehind(chosen, |outcomes|, id);
    }
  }

  lemma {:induction false} PositionBehind(chosen: seq<string>, n: nat, id: string)
    requires n <= |chosen| && id !in chosen[..n]
    ensures Position(chosen, id) >= n
  {
    if n > 0 {
      assert chosen[..n][0] == chosen[0] && chosen[1..][..n - 1] == chosen[..n][1..];
      PositionBehind(chosen[1..], n - 1, id);
    }
  }

  /** Dead letters are recorded for exactly the failed publishes that reach the limit of attempts, with
      the event, the error and the number of the attempt. */
  lemma {:induction false} WhatIsRecorded(maxAttempts: int, table: Table, chosen: seq<string>, outcomes: seq<Outcome>,
                                          f: DeadLetters.Failure)
    requires InTable(table, chosen) && |outcomes| <= |chosen|
    ensures f in DueBy(maxAttempts, table, chosen, outcomes)
       <==> exists i :: 0 <= i < |outcomes| && !outcomes[i].Sent? && table[chosen[i]].attempts + 1 >= maxAttempts
                        && f == DeadLetters.Failure(table[chosen[i]].event, outcomes[i].error, table[chosen[i]].attempts + 1)
    decreases outcomes
  {
    if outcomes != [] {
      var last := |outcomes| - 1;
      WhatIsRecorded(maxAttempts, table, chosen, outcomes[..last], f);
      if i :| 0 <= i < |outcomes| && !outcomes[i].Sent? && table[chosen[i]].attempts + 1 >= maxAttempts
              && f == DeadLetters.Failure(table[chosen[i]].event, outcomes[i].error, table[chosen[i]].attempts + 1) {
        assert i < last ==> outcomes[..last][i] == outcomes[i];
      }
    }
  }

  function NewlyPublished(before: Table, after: Table): set<string>
    requires before.Keys == after.Keys
  {
    set id | id in before && !before[id].published && after[id].published
  }

  /** The returned count is the number of rows the batch marked. */
  lemma CountIsMarked(table: Table, locked: set<string>, limit: nat, chosen: seq<string>, outcomes: seq<Outcome>)
    requires IsBatch(table, locked, limit, chosen) && |outcomes| <= |chosen|
    ensures |NewlyPublished(table, AfterBatch(table, chosen, outcomes))| == Sents(outcomes)
  {
    BatchIsDistinct(table, chosen);
    MarkedInBatch(table, chosen, outcomes);
  }

  lemma {:induction false} MarkedInBatch(table: Table, chosen: seq<string>, outcomes: seq<Outcome>)
    requires InTable(table, chosen) && |outcomes| <= |chosen|
    requires forall i, j :: 0 <= i < j < |chosen| ==> chosen[i] != chosen[j]
    requires forall i :: 0 <= i < |chosen| ==> !table[chosen[i]].published
    ensures |NewlyPublished(table, AfterBatch(table, chosen, outcomes))| == Sents(outcomes)
    decreases outcomes
  {
    if outcomes == [] {
      assert NewlyPublished(table, AfterBatch(table, chosen, [])) == {};
    } else {
      var last := |outcomes| - 1;
      var init, id := outcomes[..last], chosen[last];
      MarkedInBatch(table, chosen, init);
      var work := AfterBatch(table, chosen, init);
      SettleNext(table, chosen, init, outcomes[last]);
      assert init + [outcomes[last]] == outcomes;
      MarkOne(table, work, id, outcomes[last]);
    }
  }

  lemma MarkOne(table: Table, work: Table, id: string, outcome: Outcome)
    requires table.Keys == work.Keys && id in table && work[id] == table[id] && !table[id].published
    ensures |NewlyPublished(table, work[id := Settled(table[id], outcome)])|
         == |NewlyPublished(table, work)| + (if outcome.Sent? then 1 else 0)
  {
    var before := NewlyPublished(table, work);
    assert id !in before;
    var after := NewlyPublished(table, work[id := Settled(table[id], outcome)]);
    assert after == if outcome.Sent? then before + {id} else before;
  }
}
