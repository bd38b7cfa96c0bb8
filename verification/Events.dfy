/** The event envelope and the bus it is published on. */
module Events {
  datatype Event = Event(eventId: string, tenantId: string, aggregateType: string, aggregateId: string,
                         version: int, sequence: int, dedupeKey: string, action: string,
                         occurredAt: int, payload: string)

  /** What happens to one publish: it succeeds; it raises before the event is appended; or it raises
      although the event was appended, the reply being lost. */
  datatype Outcome = Sent | Refused(error: string) | Unconfirmed(error: string)

  predicate Appends(outcome: Outcome) {
    !outcome.Refused?
  }

  function Appended(event: Event, outcome: Outcome): seq<Event> {
    if Appends(outcome) then [event] else []
  }

  class EventBus {
    var log: seq<Event>

    constructor ()
      ensures log == []
    {
      log := [];
    }

    method Publish(event: Event, outcome: Outcome) returns (ok: bool)
      modifies this
      ensures log == old(log) + Appended(event, outcome)
      ensures ok <==> outcome.Sent?
    {
      if Appends(outcome) {
        log := log + [event];
      }
      ok := outcome.Sent?;
    }
  }

  /** How often an event id occurs in a log. */
  function Times(log: seq<Event>, id: string): nat {
    if log == [] then 0
    else Times(log[..|log| - 1], id) + (if log[|log| - 1].eventId == id then 1 else 0)
  }

  lemma TimesOfOneMore(log: seq<Event>, event: Event, id: string)
    ensures Times(log + [event], id) == Times(log, id) + (if event.eventId == id then 1 else 0)
  {
    assert (log + [event])[..|log|] == log;
  }

  // ---------------------------------------------------------------- counters by key

  type Tally = map<string, nat>

  function Get(tally: Tally, id: string): nat {
    if id in tally then tally[id] else 0
  }

  /** One more for every id in the set. */
  function Bump(tally: Tally, ids: set<string>): (bumped: Tally)
    ensures forall id :: Get(bumped, id) == Get(tally, id) + (if id in ids then 1 else 0)
  {
    map id | id in tally.Keys + ids :: Get(tally, id) + (if id in ids then 1 else 0)
  }
}
