/** The idempotent consumer: at-least-once deliveries in, bounded handler runs out. */
module Consumer {
  import opened Events

  datatype Verdict = Duplicate | DeadLetter | Retry | Processed

  datatype State = State(attempts: map<string, nat>, processed: set<string>, deadLettered: set<string>,
                         deadLetters: seq<Event>)

  const FRESH := State(map[], {}, {}, [])

  function Attempts(st: State, key: string): nat {
    if key in st.attempts then st.attempts[key] else 0
  }

  /** The handler is called for this event. */
  predicate Calls(st: State, e: Event) {
    e.dedupeKey !in st.processed && e.dedupeKey !in st.deadLettered
  }

  /** One delivery; `succeeds` is what the handler does if it is called. */
  function Handle(maxAttempts: int, st: State, e: Event, succeeds: bool): (State, Verdict) {
    var key := e.dedupeKey;
    if key in st.processed then (st, Duplicate)
    else if key in st.deadLettered then (st, DeadLetter)
    else if succeeds then (st.(processed := st.processed + {key}), Processed)
    else
      var attempts := Attempts(st, key) + 1;
      var counted := st.(attempts := st.attempts[key := attempts]);
      if attempts >= maxAttempts then
        (counted.(deadLettered := st.deadLettered + {key}, deadLetters := st.deadLetters + [e]), DeadLetter)
      else (counted, Retry)
  }

  class IdempotentEventConsumer {
    const maxAttempts: int
    var attempts: map<string, nat>
    var processed: set<string>
    var deadLettered: set<string>
    var deadLetters: seq<Event>

    constructor (maxAttempts: int)
      ensures View() == FRESH && this.maxAttempts == maxAttempts
    {
      this.maxAttempts := maxAttempts;
      attempts, processed, deadLettered, deadLetters := map[], {}, {}, [];
    }

    function View(): State
      reads this
    {
      State(attempts, processed, deadLettered, deadLetters)
    }

    method HandleEvent(e: Event, succeeds: bool) returns (verdict: Verdict, called: bool)
      modifies this
      ensures (View(), verdict) == Handle(maxAttempts, old(View()), e, succeeds)
      ensures called <==> Calls(old(View()), e)
    {
      if e.dedupeKey in processed {
        return Duplicate, false;
      }
      if e.dedupeKey in deadLettered {
        return DeadLetter, false;
      }
      called := true;
      if !succeeds {
        var count := (if e.dedupeKey in attempts then attempts[e.dedupeKey] else 0) + 1;
        attempts := attempts[e.dedupeKey := count];
        if count >= maxAttempts {
          deadLettered := deadLettered + {e.dedupeKey};
          deadLetters := deadLetters + [e];
          return DeadLetter, true;
        }
        return Retry, true;
      }
      processed := processed + {e.dedupeKey};
      verdict := Processed;
    }
  }

  // ---------------------------------------------------------------- any sequence of deliveries

  datatype Delivery = Delivery(event: Event, succeeds: bool)

  function Run(maxAttempts: int, st: State, deliveries: seq<Delivery>): State
    decreases deliveries
  {
    if deliveries == [] then st
    else Run(maxAttempts, Handle(maxAttempts, st, deliveries[0].event, deliveries[0].succeeds).0, deliveries[1..])
  }

  /** The outcomes of the handler calls made for one key. */
  function CallsFor(maxAttempts: int, st: State, deliveries: seq<Delivery>, key: string): seq<bool>
    decreases deliveries
  {
    if deliveries == [] then []
    else
      var d := deliveries[0];
      (if d.event.dedupeKey == key && Calls(st, d.event) then [d.succeeds] else [])
      + CallsFor(maxAttempts, Handle(maxAttempts, st, d.event, d.succeeds).0, deliveries[1..], key)
  }

  /** What the handler would do at each delivery of the key. */
  function OutcomesFor(deliveries: seq<Delivery>, key: string): seq<bool> {
    if deliveries == [] then []
    else (if deliveries[0].event.dedupeKey == key then [deliveries[0].succeeds] else []) + OutcomesFor(deliveries[1..], key)
  }

  /** Up to and including the first success, but at most `n`. */
  function UntilSuccess(outcomes: seq<bool>, n: nat): (cut: seq<bool>)
    ensures |cut| <= n && cut <= outcomes
    ensures forall i | 0 <= i < |cut| - 1 :: !cut[i]
  {
    if outcomes == [] || n == 0 then []
    else if outcomes[0] then [true]
    else [false] + UntilSuccess(outcomes[1..], n - 1)
  }

  /** A limit below one still allows one call. */
  function CallLimit(maxAttempts: int): nat {
    if maxAttempts < 1 then 1 else maxAttempts
  }

  /** Keys that are neither done nor given up have failed fewer times than the limit; a key was
      given up exactly when it has failed that often; and no key is both done and given up. */
  ghost predicate Consistent(maxAttempts: int, st: State) {
    forall key: string ::
      && Attempts(st, key) <= CallLimit(maxAttempts)
      && (key in st.deadLettered <==> Attempts(st, key) == CallLimit(maxAttempts))
      && !(key in st.processed && key in st.deadLettered)
  }

  lemma HandleKeepsConsistent(maxAttempts: int, st: State, e: Event, succeeds: bool)
    requires Consistent(maxAttempts, st)
    ensures Consistent(maxAttempts, Handle(maxAttempts, st, e, succeeds).0)
  {
    var next := Handle(maxAttempts, st, e, succeeds).0;
    assert Attempts(st, e.dedupeKey) <= CallLimit(maxAttempts);
    forall key: string
      ensures Attempts(next, key) <= CallLimit(maxAttempts)
      ensures key in next.deadLettered <==> Attempts(next, key) == CallLimit(maxAttempts)
      ensures !(key in next.processed && key in next.deadLettered)
    {
      assert Attempts(st, key) <= CallLimit(maxAttempts);
    }
  }

  /** What one delivery does to one key. */
  lemma HandleForKey(maxAttempts: int, st: State, e: Event, succeeds: bool, key: string)
    requires Consistent(maxAttempts, st)
    ensures var next := Handle(maxAttempts, st, e, succeeds).0;
            var done := key in st.processed || key in st.deadLettered;
            && Consistent(maxAttempts, next)
            && (e.dedupeKey != key || done ==>
                  (key in next.processed || key in next.deadLettered) == done && Attempts(next, key) == Attempts(st, key))
            && (e.dedupeKey == key && !done && succeeds ==> key in next.processed)
            && (e.dedupeKey == key && !done && !succeeds ==>
                  && Attempts(next, key) == Attempts(st, key) + 1
                  && key !in next.processed
                  && (key in next.deadLettered <==> Attempts(next, key) == CallLimit(maxAttempts)))
  {
    HandleKeepsConsistent(maxAttempts, st, e, succeeds);
    var next := Handle(maxAttempts, st, e, succeeds).0;
    assert Attempts(next, key) <= CallLimit(maxAttempts);
  }

  function Left(maxAttempts: int, st: State, key: string): int {
    if key in st.processed || key in st.deadLettered then 0 else CallLimit(maxAttempts) - Attempts(st, key)
  }

  /** For every key, the handler calls are the deliveries up to the first success, cut off at the
      attempt limit, whatever other keys are delivered in between. */
  lemma {:induction false} CallsAreUntilSuccess(maxAttempts: int, st: State, deliveries: seq<Delivery>, key: string)
    requires Consistent(maxAttempts, st)
    ensures Left(maxAttempts, st, key) >= 0
    ensures CallsFor(maxAttempts, st, deliveries, key)
         == UntilSuccess(OutcomesFor(deliveries, key), Left(maxAttempts, st, key))
    decreases deliveries
  {
    assert Attempts(st, key) <= CallLimit(maxAttempts);
    if deliveries != [] {
      var d := deliveries[0];
      var next := Handle(maxAttempts, st, d.event, d.succeeds).0;
      HandleForKey(maxAttempts, st, d.event, d.succeeds, key);
      CallsAreUntilSuccess(maxAttempts, next, deliveries[1..], key);
      CallNext(maxAttempts, st, d, next, OutcomesFor(deliveries[1..], key), key);
    }
  }

  lemma CallNext(maxAttempts: int, st: State, d: Delivery, next: State, later: seq<bool>, key: string)
    requires Consistent(maxAttempts, st) && next == Handle(maxAttempts, st, d.event, d.succeeds).0
    requires Left(maxAttempts, st, key) >= 0 && Left(maxAttempts, next, key) >= 0
    ensures UntilSuccess((if d.event.dedupeKey == key then [d.succeeds] else []) + later, Left(maxAttempts, st, key))
         == (if d.event.dedupeKey == key && Calls(st, d.event) then [d.succeeds] else [])
            + UntilSuccess(later, Left(maxAttempts, next, key))
  {
    HandleForKey(maxAttempts, st, d.event, d.succeeds, key);
    var left, rest := Left(maxAttempts, st, key), Left(maxAttempts, next, key);
    if d.event.dedupeKey != key {
      assert [] + later == later;
      assert left == rest;
    } else if !Calls(st, d.event) {
      assert left == rest == 0;
    } else if d.succeeds {
      assert ([true] + later)[0];
      assert rest == 0;
    } else {
      assert ([false] + later)[1..] == later;
      assert rest == left - 1 >= 0;
    }
  }

  lemma {:induction false} RunSettles(maxAttempts: int, st: State, deliveries: seq<Delivery>, key: string)
    requires Consistent(maxAttempts, st)
    ensures var calls := CallsFor(maxAttempts, st, deliveries, key); var end := Run(maxAttempts, st, deliveries);
            && Consistent(maxAttempts, end)
            && (key in end.processed <==> key in st.processed || true in calls)
            && (true in calls || Attempts(end, key) == Attempts(st, key) + |calls|)
    decreases deliveries
  {
    if deliveries != [] {
      var d := deliveries[0];
      var next := Handle(maxAttempts, st, d.event, d.succeeds).0;
      HandleKeepsConsistent(maxAttempts, st, d.event, d.succeeds);
      RunSettles(maxAttempts, next, deliveries[1..], key);
      var rest := CallsFor(maxAttempts, next, deliveries[1..], key);
      if d.event.dedupeKey == key && Calls(st, d.event) {
        assert CallsFor(maxAttempts, st, deliveries, key) == [d.succeeds] + rest;
      } else {
        assert CallsFor(maxAttempts, st, deliveries, key) == rest;
      }
    }
  }

  /** One consumer process, any deliveries: a key is processed exactly when one of its deliveries
      within the first attempts succeeds, and given up exactly when that many fail. */
  lemma ConsumerOutcome(maxAttempts: int, deliveries: seq<Delivery>, key: string)
    ensures var cut := UntilSuccess(OutcomesFor(deliveries, key), CallLimit(maxAttempts));
            var end := Run(maxAttempts, FRESH, deliveries);
            && CallsFor(maxAttempts, FRESH, deliveries, key) == cut
            && (key in end.processed <==> true in cut)
            && (key in end.deadLettered <==> |cut| == CallLimit(maxAttempts) && true !in cut)
  {
    assert Consistent(maxAttempts, FRESH);
    CallsAreUntilSuccess(maxAttempts, FRESH, deliveries, key);
    RunSettles(maxAttempts, FRESH, deliveries, key);
    var end := Run(maxAttempts, FRESH, deliveries);
    assert Attempts(end, key) <= CallLimit(maxAttempts);
  }

  /** What a delivery is answered, from the deliveries before it: a key that succeeded is a duplicate,
      one that was given up a dead letter; else the handler decides, and the failure that reaches the
      limit gives the key up. */
  lemma VerdictIs(maxAttempts: int, before: seq<Delivery>, d: Delivery)
    ensures var calls := UntilSuccess(OutcomesFor(before, d.event.dedupeKey), CallLimit(maxAttempts));
            var verdict := Handle(maxAttempts, Run(maxAttempts, FRESH, before), d.event, d.succeeds).1;
            verdict == if true in calls then Duplicate
                       else if |calls| == CallLimit(maxAttempts) then DeadLetter
                       else if d.succeeds then Processed
                       else if |calls| + 1 >= maxAttempts then DeadLetter
                       else Retry
  {
    var key := d.event.dedupeKey;
    ConsumerOutcome(maxAttempts, before, key);
    RunSettles(maxAttempts, FRESH, before, key);
  }

  function GivenUp(deadLetters: seq<Event>, key: string): nat {
    if deadLetters == [] then 0
    else GivenUp(deadLetters[..|deadLetters| - 1], key) + (if deadLetters[|deadLetters| - 1].dedupeKey == key then 1 else 0)
  }

  lemma {:induction false} RunLists(maxAttempts: int, st: State, deliveries: seq<Delivery>, key: string)
    requires GivenUp(st.deadLetters, key) == if key in st.deadLettered then 1 else 0
    ensures var end := Run(maxAttempts, st, deliveries);
            GivenUp(end.deadLetters, key) == if key in end.deadLettered then 1 else 0
    decreases deliveries
  {
    if deliveries != [] {
      var e := deliveries[0].event;
      assert (st.deadLetters + [e])[..|st.deadLetters|] == st.deadLetters;
      RunLists(maxAttempts, Handle(maxAttempts, st, e, deliveries[0].succeeds).0, deliveries[1..], key);
    }
  }

  /** The list of dead letters has one event for each key that was given up, and none for any other. */
  lemma GivenUpOnce(maxAttempts: int, deliveries: seq<Delivery>, key: string)
    ensures var end := Run(maxAttempts, FRESH, deliveries); var calls := UntilSuccess(OutcomesFor(deliveries, key), CallLimit(maxAttempts));
            GivenUp(end.deadLetters, key) == if |calls| == CallLimit(maxAttempts) && true !in calls then 1 else 0
  {
    RunLists(maxAttempts, FRESH, deliveries, key);
    ConsumerOutcome(maxAttempts, deliveries, key);
  }
}
