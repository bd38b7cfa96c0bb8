/** One publisher batch of the delivery system, undisturbed, does what the publisher's call does. */
module DeliveryBatch {
  import opened Events
  import opened Delivery
  import DeadLetters
  import Outbox

  /** The publish of one row, with what the dead-letter store does if it is asked. */
  function PublishOf(publisher: nat, outcome: Outcome, keeping: Outbox.Keeping): Action {
    Publish(publisher, outcome, keeping != Outbox.Refuses, keeping == Outbox.Keeps, true)
  }

  function Publishes(publisher: nat, outcomes: seq<Outcome>, keeps: seq<Outbox.Keeping>): seq<Action>
    requires |outcomes| <= |keeps|
  {
    if outcomes == [] then []
    else
      var last := |outcomes| - 1;
      Publishes(publisher, outcomes[..last], keeps) + [PublishOf(publisher, outcomes[last], keeps[last])]
  }

  lemma {:induction false} RunOneMore(cfg: Config, w: World, actions: seq<Action>, a: Action)
    ensures Run(cfg, w, actions + [a]) == Step(cfg, Run(cfg, w, actions), a)
    decreases actions
  {
    if actions == [] {
      assert (actions + [a])[1..] == [];
      assert Run(cfg, Step(cfg, w, a), []) == Step(cfg, w, a);
    } else {
      assert (actions + [a])[1..] == actions[1..] + [a];
      RunOneMore(cfg, Step(cfg, w, actions[0]), actions[1..], a);
    }
  }

  /** The batch has handled these rows and nothing else has changed. */
  ghost predicate HasHandled(cfg: Config, w: World, at: World, publisher: nat, chosen: seq<string>, outcomes: seq<Outcome>)
    requires Outbox.InTable(w.table, chosen) && |outcomes| <= |chosen|
  {
    && at.table == w.table
    && publisher in at.batches && at.batches[publisher] == Batch(chosen, outcomes)
    && at.stream == w.stream + Outbox.AppendedBy(w.table, chosen, outcomes)
    && at.desk.items == Outbox.Noted(w.desk.items, Outbox.DueBy(cfg.publishAttempts, w.table, chosen, outcomes))
  }

  /** What one publish of the batch adds when the dead-letter store does not raise. */
  lemma NextPublished(cfg: Config, at: World, publisher: nat, outcome: Outcome, keeping: Outbox.Keeping)
    requires HasNext(at, publisher)
    requires Outbox.IsDue(cfg.publishAttempts, NextRow(at, publisher), outcome) ==> keeping == Outbox.Keeps
    ensures var row := NextRow(at, publisher); var b := at.batches[publisher];
            var next := Step(cfg, at, PublishOf(publisher, outcome, keeping));
            && next.table == at.table
            && publisher in next.batches && next.batches[publisher] == Batch(b.chosen, b.outcomes + [outcome])
            && next.stream == at.stream + Appended(row.event, outcome)
            && next.desk.items == if Outbox.IsDue(cfg.publishAttempts, row, outcome)
                                  then Outbox.Kept(at.desk.items, Outbox.FailureOf(row, outcome)) else at.desk.items
  {
    var row, a := NextRow(at, publisher), PublishOf(publisher, outcome, keeping);
    assert Step(cfg, at, a) == Published(cfg, at, a);
    if Outbox.IsDue(cfg.publishAttempts, row, outcome) {
      KeptByDesk(at.desk, Outbox.FailureOf(row, outcome));
    }
  }

  /** And when it raises: the batch is dropped. */
  lemma NextRaises(cfg: Config, at: World, publisher: nat, outcome: Outcome, keeping: Outbox.Keeping)
    requires HasNext(at, publisher) && keeping != Outbox.Keeps
    requires Outbox.IsDue(cfg.publishAttempts, NextRow(at, publisher), outcome)
    ensures var row := NextRow(at, publisher);
            var next := Step(cfg, at, PublishOf(publisher, outcome, keeping));
            && next.table == at.table && publisher !in next.batches
            && next.stream == at.stream + Appended(row.event, outcome)
            && next.desk.items == Outbox.LeftBy(keeping, at.desk.items, Outbox.FailureOf(row, outcome))
  {
    var a := PublishOf(publisher, outcome, keeping);
    assert Step(cfg, at, a) == Dropped(Published(cfg, at, a), publisher);
  }

  lemma KeptByDesk(desk: DeadLetters.Desk, failure: DeadLetters.Failure)
    ensures DeadLetters.DeskStep(DeadLetters.Database, desk, DeadLetters.Note(failure, true, true)).items == Outbox.Kept(desk.items, failure)
  {
  }

  /** One more outcome in the reports of a batch. */
  lemma NextReported(maxAttempts: int, table: Outbox.Table, items: DeadLetters.Items, chosen: seq<string>,
                     outcomes: seq<Outcome>, outcome: Outcome)
    requires Outbox.InTable(table, chosen) && |outcomes| < |chosen|
    ensures var row := table[chosen[|outcomes|]]; var next := outcomes + [outcome];
            var noted := Outbox.Noted(items, Outbox.DueBy(maxAttempts, table, chosen, outcomes));
            && Outbox.AppendedBy(table, chosen, next) == Outbox.AppendedBy(table, chosen, outcomes) + Appended(row.event, outcome)
            && Outbox.Noted(items, Outbox.DueBy(maxAttempts, table, chosen, next))
               == if Outbox.IsDue(maxAttempts, row, outcome) then Outbox.Kept(noted, Outbox.FailureOf(row, outcome)) else noted
  {
    var row := table[chosen[|outcomes|]];
    var due := Outbox.DueBy(maxAttempts, table, chosen, outcomes);
    var more := if Outbox.IsDue(maxAttempts, row, outcome) then [Outbox.FailureOf(row, outcome)] else [];
    assert (outcomes + [outcome])[..|outcomes|] == outcomes;
    Outbox.NoteNext(items, due, more);
    assert Outbox.DueBy(maxAttempts, table, chosen, outcomes + [outcome]) == due + more;
  }

  /** The record for the row after these outcomes is not kept and marked. */
  predicate StopsAt(cfg: Config, table: Outbox.Table, chosen: seq<string>, outcomes: seq<Outcome>,
                    keeps: seq<Outbox.Keeping>, k: nat)
    requires Outbox.InTable(table, chosen) && k < |outcomes| <= |chosen| && |outcomes| <= |keeps|
  {
    Outbox.IsDue(cfg.publishAttempts, table[chosen[k]], outcomes[k]) && keeps[k] != Outbox.Keeps
  }

  lemma NextHandled(cfg: Config, w: World, at: World, publisher: nat, chosen: seq<string>, outcomes: seq<Outcome>,
                    outcome: Outcome, keeping: Outbox.Keeping)
    requires Outbox.InTable(w.table, chosen) && |outcomes| < |chosen|
    requires Outbox.IsDue(cfg.publishAttempts, w.table[chosen[|outcomes|]], outcome) ==> keeping == Outbox.Keeps
    requires HasHandled(cfg, w, at, publisher, chosen, outcomes)
    ensures HasHandled(cfg, w, Step(cfg, at, PublishOf(publisher, outcome, keeping)), publisher, chosen, outcomes + [outcome])
  {
    NextPublished(cfg, at, publisher, outcome, keeping);
    NextReported(cfg.publishAttempts, w.table, w.desk.items, chosen, outcomes, outcome);
    Longer(w.stream, Outbox.AppendedBy(w.table, chosen, outcomes), Appended(w.table[chosen[|outcomes|]].event, outcome));
  }

  lemma Longer(a: seq<Event>, b: seq<Event>, c: seq<Event>)
    ensures a + (b + c) == a + b + c
  {
  }

  lemma {:induction false} AllHandled(cfg: Config, w: World, publisher: nat, chosen: seq<string>, outcomes: seq<Outcome>,
                                      keeps: seq<Outbox.Keeping>)
    requires publisher in w.batches && w.batches[publisher] == Batch(chosen, [])
    requires Outbox.InTable(w.table, chosen) && |outcomes| <= |chosen| && |outcomes| <= |keeps|
    requires forall k :: 0 <= k < |outcomes| ==> !StopsAt(cfg, w.table, chosen, outcomes, keeps, k)
    ensures HasHandled(cfg, w, Run(cfg, w, Publishes(publisher, outcomes, keeps)), publisher, chosen, outcomes)
    decreases outcomes
  {
    if outcomes == [] {
      assert w.stream + [] == w.stream;
    } else {
      var last := |outcomes| - 1;
      var init, outcome := outcomes[..last], outcomes[last];
      assert !StopsAt(cfg, w.table, chosen, outcomes, keeps, last);
      forall k | 0 <= k < |init| ensures !StopsAt(cfg, w.table, chosen, init, keeps, k) {
        assert !StopsAt(cfg, w.table, chosen, outcomes, keeps, k);
      }
      AllHandled(cfg, w, publisher, chosen, init, keeps);
      NextHandled(cfg, w, Run(cfg, w, Publishes(publisher, init, keeps)), publisher, chosen, init, outcome, keeps[last]);
      RunOneMore(cfg, w, Publishes(publisher, init, keeps), PublishOf(publisher, outcome, keeps[last]));
      assert init + [outcome] == outcomes;
    }
  }

  lemma Begins(cfg: Config, w: World, publisher: nat, limit: nat, chosen: seq<string>)
    requires publisher !in w.batches && Outbox.IsBatch(w.table, w.locks.Keys, limit, chosen)
    ensures Step(cfg, w, Begin(publisher, limit, chosen)) == Begun(w, publisher, chosen)
    ensures Outbox.InTable(w.table, chosen)
  {
  }

  lemma Commits(cfg: Config, w: World, at: World, publisher: nat, chosen: seq<string>, outcomes: seq<Outcome>)
    requires Outbox.InTable(w.table, chosen) && |outcomes| == |chosen|
    requires HasHandled(cfg, w, at, publisher, chosen, outcomes)
    ensures var end := Step(cfg, at, Commit(publisher));
            && end.table == Outbox.AfterBatch(w.table, chosen, outcomes) && publisher !in end.batches
            && end.stream == at.stream && end.desk == at.desk
  {
    assert Step(cfg, at, Commit(publisher)) == Committed(at, publisher);
  }

  /** Taking a batch, publishing its rows and committing leaves the table, the stream and the dead
      letters that a call of `PublishPending` leaves when it returns a count. */
  lemma BatchIsPublishPending(cfg: Config, w: World, publisher: nat, limit: nat, chosen: seq<string>, outcomes: seq<Outcome>,
                              keeps: seq<Outbox.Keeping>)
    requires publisher !in w.batches && Outbox.IsBatch(w.table, w.locks.Keys, limit, chosen)
    requires |outcomes| == |chosen| <= |keeps|
    requires forall k :: 0 <= k < |outcomes| ==> !StopsAt(cfg, w.table, chosen, outcomes, keeps, k)
    ensures var begun := Step(cfg, w, Begin(publisher, limit, chosen));
            var end := Step(cfg, Run(cfg, begun, Publishes(publisher, outcomes, keeps)), Commit(publisher));
            && end.table == Outbox.AfterBatch(w.table, chosen, outcomes)
            && end.stream == w.stream + Outbox.AppendedBy(w.table, chosen, outcomes)
            && end.desk.items == Outbox.Noted(w.desk.items, Outbox.DueBy(cfg.publishAttempts, w.table, chosen, outcomes))
            && publisher !in end.batches
  {
    Begins(cfg, w, publisher, limit, chosen);
    var begun := Begun(w, publisher, chosen);
    AllHandled(cfg, begun, publisher, chosen, outcomes, keeps);
    Commits(cfg, begun, Run(cfg, begun, Publishes(publisher, outcomes, keeps)), publisher, chosen, outcomes);
  }

  /** And when the dead-letter store raises at the last of these rows, what the call leaves when its
      transaction is rolled back. */
  lemma RollbackIsPublishPending(cfg: Config, w: World, publisher: nat, limit: nat, chosen: seq<string>, outcomes: seq<Outcome>,
                                 keeps: seq<Outbox.Keeping>)
    requires publisher !in w.batches && Outbox.IsBatch(w.table, w.locks.Keys, limit, chosen)
    requires 0 < |outcomes| <= |chosen| && |outcomes| <= |keeps|
    requires StopsAt(cfg, w.table, chosen, outcomes, keeps, |outcomes| - 1)
    requires forall k :: 0 <= k < |outcomes| - 1 ==> !StopsAt(cfg, w.table, chosen, outcomes, keeps, k)
    ensures var begun := Step(cfg, w, Begin(publisher, limit, chosen)); var last := |outcomes| - 1;
            var end := Run(cfg, begun, Publishes(publisher, outcomes, keeps));
            && end.table == w.table
            && end.stream == w.stream + Outbox.AppendedBy(w.table, chosen, outcomes)
            && end.desk.items
               == Outbox.LeftBy(keeps[last],
                                Outbox.Noted(w.desk.items, Outbox.DueBy(cfg.publishAttempts, w.table, chosen, outcomes[..last])),
                                Outbox.FailureOf(w.table[chosen[last]], outcomes[last]))
            && publisher !in end.batches
  {
    var last := |outcomes| - 1;
    var init, begun := outcomes[..last], Begun(w, publisher, chosen);
    Begins(cfg, w, publisher, limit, chosen);
    forall k | 0 <= k < |init| ensures !StopsAt(cfg, w.table, chosen, init, keeps, k) {
      assert !StopsAt(cfg, w.table, chosen, outcomes, keeps, k);
    }
    AllHandled(cfg, begun, publisher, chosen, init, keeps);
    RunOneMore(cfg, begun, Publishes(publisher, init, keeps), PublishOf(publisher, outcomes[last], keeps[last]));
    NextRaises(cfg, Run(cfg, begun, Publishes(publisher, init, keeps)), publisher, outcomes[last], keeps[last]);
    Longer(w.stream, Outbox.AppendedBy(w.table, chosen, init), Appended(w.table[chosen[last]].event, outcomes[last]));
  }
}
