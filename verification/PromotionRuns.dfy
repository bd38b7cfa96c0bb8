/** Over whole runs: how many tasks one finished run can get, and when an answered claim names a task. */
module PromotionRuns {
  import opened Promotion
  import Tasks

  lemma {:induction false} RunOneMore(w: World, actions: seq<Action>, a: Action)
    ensures Run(w, actions + [a]) == Step(Run(w, actions), a)
    decreases actions
  {
    if actions == [] {
      assert (actions + [a])[1..] == [];
      assert Run(Step(w, a), []) == Step(w, a);
    } else {
      assert (actions + [a])[1..] == actions[1..] + [a];
      RunOneMore(Step(w, actions[0]), actions[1..], a);
    }
  }

  lemma RunLast(actions: seq<Action>)
    requires actions != []
    ensures Run(START, actions) == Step(Run(START, actions[..|actions| - 1]), actions[|actions| - 1])
    ensures Holds(Run(START, actions[..|actions| - 1]))
  {
    var last := |actions| - 1;
    assert actions[..last] + [actions[last]] == actions;
    RunOneMore(START, actions[..last], actions[last]);
    RunHolds(START, actions[..last]);
  }

  // ---------------------------------------------------------------- one task

  /** Creations store the task as their last step that can fail. */
  predicate IsAtomic(actions: seq<Action>) {
    forall i :: 0 <= i < |actions| ==> !(actions[i].Create? && actions[i].course.RaisedLate?)
  }

  predicate RaisesLate(actions: seq<Action>, id: nat) {
    exists i :: 0 <= i < |actions| && actions[i] == Create(id, RaisedLate)
  }

  lemma OthersLate(w: World, op: Tasks.Op, id: nat)
    requires IsOutside(w, op)
    ensures FailedLate(w.(tasks := Tasks.MemoryStep(w.tasks, op).0), id) ==> FailedLate(w, id)
  {
    if id in w.requests {
      OthersKeepTasks(w.tasks, op, w.requests[id].order.taskId);
    }
  }

  lemma TriedLate(w: World, tried: nat, course: Course, id: nat)
    requires Holds(w) && IsAt(w, tried, Holding) && !course.Gated?
    ensures FailedLate(Tried(w, tried, course), id) ==> FailedLate(w, id) || (id == tried && course.RaisedLate?)
  {
    if id in w.requests {
      assert RequestHolds(w, id);
      CreationCases(w, tried);
    }
  }

  /** When a request moves on, it and any other fails late only if it did before or its task is stored. */
  lemma MovedLate(w: World, moved: nat, phase: Phase, id: nat)
    requires moved in w.requests && (!Made(w, moved) || w.requests[moved].phase == Failing)
    ensures FailedLate(Moved(w, moved, phase), id) ==> FailedLate(w, id)
    ensures FailedLate(Claimed(w, moved), id) ==> FailedLate(w, id)
    ensures FailedLate(GivenBack(w, moved), id) ==> FailedLate(w, id)
  {
  }

  lemma CreateLate(w: World, a: Action, id: nat)
    requires Holds(w) && a.Create?
    ensures FailedLate(Step(w, a), id) ==> FailedLate(w, id) || a == Create(id, RaisedLate)
  {
    if IsAt(w, a.id, Holding) {
      assert RequestHolds(w, a.id);
      if a.course.Gated? {
        MovedLate(w, a.id, Failing, id);
      } else {
        TriedLate(w, a.id, a.course, id);
      }
    }
  }

  lemma RequestLate(w: World, a: Action, id: nat)
    requires Holds(w) && (a.Find? || a.Deny? || a.Claim? || a.Release?)
    ensures FailedLate(Step(w, a), id) ==> FailedLate(w, id)
  {
    if a.id in w.requests {
      assert RequestHolds(w, a.id);
      if !Made(w, a.id) || w.requests[a.id].phase == Failing {
        MovedLate(w, a.id, Step(w, a).requests[a.id].phase, id);
      } else {
        assert Step(w, a) == w;
      }
    }
  }

  /** Only an error past the stored task makes a request fail late. */
  lemma StepLate(w: World, a: Action, id: nat)
    requires Holds(w)
    ensures FailedLate(Step(w, a), id) ==> FailedLate(w, id) || a == Create(id, RaisedLate)
  {
    match a
    case Arrive(_, _) =>
    case Create(_, _) => CreateLate(w, a, id);
    case Other(op) =>
      if IsOutside(w, op) {
        OthersLate(w, op, id);
      }
    case _ => RequestLate(w, a, id);
  }

  lemma {:induction false} LateIsRaisedLate(actions: seq<Action>, id: nat)
    ensures FailedLate(Run(START, actions), id) ==> RaisesLate(actions, id)
    decreases actions
  {
    if actions != [] {
      var init, last := actions[..|actions| - 1], actions[|actions| - 1];
      RunLast(actions);
      LateIsRaisedLate(init, id);
      StepLate(Run(START, init), last, id);
      if RaisesLate(init, id) {
        var i :| 0 <= i < |init| && init[i] == Create(id, RaisedLate);
        assert actions[i] == Create(id, RaisedLate);
      }
    }
  }

  predicate HaveTwoTasks(w: World, a: nat, b: nat) {
    && a != b && a in w.requests && b in w.requests
    && KeyOf(w.requests[a].order) == KeyOf(w.requests[b].order)
    && Made(w, a) && Made(w, b)
  }

  /** Two requests for one run have both stored a task only if the creation of one of them raised
      after its task was stored. */
  lemma TwoTasksNeedALateError(actions: seq<Action>, a: nat, b: nat)
    requires HaveTwoTasks(Run(START, actions), a, b)
    ensures RaisesLate(actions, a) || RaisesLate(actions, b)
  {
    AtMostOneTask(actions, a, b);
    LateIsRaisedLate(actions, a);
    LateIsRaisedLate(actions, b);
  }

  /** With atomic creation at most one task is ever created for a run, whatever the interleaving. */
  lemma AtomicRunsMakeOneTask(actions: seq<Action>, a: nat, b: nat)
    requires IsAtomic(actions)
    ensures !HaveTwoTasks(Run(START, actions), a, b)
  {
    if HaveTwoTasks(Run(START, actions), a, b) {
      TwoTasksNeedALateError(actions, a, b);
    }
  }

  /** The creations of the run take only these courses. */
  predicate TakesOnly(actions: seq<Action>, courses: set<Course>) {
    forall i :: 0 <= i < |actions| && actions[i].Create? ==> actions[i].course in courses
  }

  ghost predicate OneTaskAlways(courses: set<Course>) {
    forall actions, a, b :: TakesOnly(actions, courses) ==> !HaveTwoTasks(Run(START, actions), a, b)
  }

  function OrderOf(userId: string, taskId: string): Order {
    Order(Tasks.Context("tenant", userId, "ceo"), "run", taskId, "title", "print", Tasks.Queued)
  }

  /** Two requests, one after the other, each with an error past the stored task. */
  function TwoLateErrors(first: Order, second: Order): seq<Action> {
    (PromoteSteps(0, first, RaisedLate) + [Release(0)]) + PromoteSteps(1, second, RaisedLate)
  }

  lemma TwoLateErrorsMakeTwoTasks(first: Order, second: Order)
    requires first.taskId != "" && second.taskId != "" && first.taskId != second.taskId
    requires KeyOf(first) == KeyOf(second) && first.context.userId != second.context.userId
    ensures HaveTwoTasks(Run(START, TwoLateErrors(first, second)), 0, 1)
  {
    var before, mid := PromoteSteps(0, first, RaisedLate) + [Release(0)], AfterLateError(first);
    LateErrorRuns(first);
    RunAppend(START, before, PromoteSteps(1, second, RaisedLate));
    CourseRuns(mid, 1, second, RaisedLate);
  }

  /** At most one task per run, in all runs, exactly when creation never raises past the stored task. */
  lemma OneTaskIffAtomic(courses: set<Course>)
    ensures OneTaskAlways(courses) <==> RaisedLate !in courses
  {
    if RaisedLate in courses {
      var first, second := OrderOf("a", "a"), OrderOf("b", "b");
      assert first.taskId[0] != second.taskId[0];
      TwoLateErrorsMakeTwoTasks(first, second);
      assert TakesOnly(TwoLateErrors(first, second), courses);
    } else {
      forall actions, a, b | TakesOnly(actions, courses) ensures !HaveTwoTasks(Run(START, actions), a, b) {
        AtomicRunsMakeOneTask(actions, a, b);
      }
    }
  }

  // ---------------------------------------------------------------- what an answered claim names

  /** The idempotency key of the request's task is not in use. */
  predicate KeyIsFree(w: World, id: nat)
    requires id in w.requests
  {
    Tasks.KeyOf(TaskOf(w.requests[id].order)) !in w.tasks.index
  }

  lemma TriedAnswers(w: World, tried: nat, course: Course, id: nat)
    requires Holds(w) && IsAt(w, tried, Holding)
    requires id in w.requests && IsPromoted(Tried(w, tried, course).requests[id].phase)
    ensures var next := Tried(w, tried, course);
            || next.requests[id] == w.requests[id]
            || (&& id == tried && course.Through? && next.requests[id].order == w.requests[id].order
                && (next.requests[id].phase.outcome.created <==> KeyIsFree(w, id)))
  {
    assert RequestHolds(w, tried);
  }

  /** An answer comes from the creation, which made the task exactly if its key was free, and stays. */
  lemma StepAnswers(w: World, a: Action, id: nat)
    requires Holds(w) && id in Step(w, a).requests && IsPromoted(Step(w, a).requests[id].phase)
    ensures id in w.requests
    ensures || Step(w, a).requests[id] == w.requests[id]
            || (&& a == Create(id, Through) && IsAt(w, id, Holding)
                && Step(w, a).requests[id].order == w.requests[id].order
                && (Step(w, a).requests[id].phase.outcome.created <==> KeyIsFree(w, id)))
  {
    if a.Create? && IsAt(w, a.id, Holding) && !a.course.Gated? {
      TriedAnswers(w, a.id, a.course, id);
    } else {
      OtherAnswers(w, a, id);
    }
  }

  lemma OtherAnswers(w: World, a: Action, id: nat)
    requires a.Create? ==> !IsAt(w, a.id, Holding) || a.course.Gated?
    requires id in Step(w, a).requests && IsPromoted(Step(w, a).requests[id].phase)
    ensures id in w.requests && Step(w, a).requests[id] == w.requests[id]
  {
  }

  /** The position of the creation that answered the request. */
  lemma {:induction false} AnsweredBy(actions: seq<Action>, id: nat) returns (i: nat)
    requires id in Run(START, actions).requests && IsPromoted(Run(START, actions).requests[id].phase)
    ensures i < |actions| && actions[i] == Create(id, Through)
    ensures var creating := Run(START, actions[..i]); var now := Run(START, actions);
            && IsAt(creating, id, Holding) && creating.requests[id].order == now.requests[id].order
            && (now.requests[id].phase.outcome.created <==> KeyIsFree(creating, id))
    decreases actions
  {
    var init, last := actions[..|actions| - 1], actions[|actions| - 1];
    RunLast(actions);
    var w := Run(START, init);
    StepAnswers(w, last, id);
    if Step(w, last).requests[id] == w.requests[id] {
      i := AnsweredBy(init, id);
      assert actions[..i] == init[..i];
    } else {
      i := |init|;
    }
  }

  /** In any run: the claim of an answered request names a live task exactly when the key
      `promote:<run>` of its user was free when it created. */
  lemma ClaimIsLiveIffKeyWasFree(actions: seq<Action>, id: nat) returns (i: nat)
    requires id in Run(START, actions).requests && IsPromoted(Run(START, actions).requests[id].phase)
    ensures i < |actions| && actions[i] == Create(id, Through)
    ensures var creating := Run(START, actions[..i]); var now := Run(START, actions); var key := KeyOf(now.requests[id].order);
            && IsAt(creating, id, Holding)
            && key in now.claims && key in now.owners && now.owners[key] == id
            && (now.claims[key].taskId in now.tasks.tasks <==> KeyIsFree(creating, id))
  {
    i := AnsweredBy(actions, id);
    RunHolds(START, actions);
    var now := Run(START, actions);
    assert RequestHolds(now, id);
    assert RowHolds(now, KeyOf(now.requests[id].order));
  }

  // ---------------------------------------------------------------- atomic runs

  const PROMOTE := "promote:"

  /** Tasks created elsewhere do not use the keys that promotions use. */
  predicate KeepsOff(actions: seq<Action>) {
    forall i :: 0 <= i < |actions| && actions[i].Other? && actions[i].op.Create? ==>
      !(PROMOTE <= actions[i].op.task.idempotencyKey)
  }

  predicate IsOurs(w: World, taskId: string, id: nat)
    requires taskId in w.tasks.tasks
  {
    id in w.requests && w.requests[id].order.taskId == taskId
    && Tasks.KeyOf(w.tasks.tasks[taskId]) == Tasks.KeyOf(TaskOf(w.requests[id].order))
  }

  /** Every task under a promotion's key was made by a request for that run and user. */
  ghost predicate KeysAreOurs(w: World) {
    forall taskId :: taskId in w.tasks.tasks && PROMOTE <= w.tasks.tasks[taskId].idempotencyKey ==>
      exists id :: IsOurs(w, taskId, id)
  }

  lemma OthersKeepKeys(m: Tasks.Memory, op: Tasks.Op, taskId: string)
    requires op.Create? ==> op.task.id != taskId
    requires taskId in Tasks.MemoryStep(m, op).0.tasks
    ensures taskId in m.tasks && Tasks.KeyOf(Tasks.MemoryStep(m, op).0.tasks[taskId]) == Tasks.KeyOf(m.tasks[taskId])
  {
  }

  lemma OthersKeepOurs(w: World, op: Tasks.Op)
    requires Holds(w) && KeysAreOurs(w) && IsOutside(w, op)
    requires op.Create? ==> !(PROMOTE <= op.task.idempotencyKey)
    ensures KeysAreOurs(w.(tasks := Tasks.MemoryStep(w.tasks, op).0))
  {
    var next := w.(tasks := Tasks.MemoryStep(w.tasks, op).0);
    forall taskId | taskId in next.tasks.tasks && PROMOTE <= next.tasks.tasks[taskId].idempotencyKey
      ensures exists id :: IsOurs(next, taskId, id)
    {
      if !(op.Create? && op.task.id == taskId) {
        OthersKeepKeys(w.tasks, op, taskId);
        var id :| IsOurs(w, taskId, id);
        assert IsOurs(next, taskId, id);
      }
    }
  }

  lemma TriedKeepsOurs(w: World, id: nat, course: Course)
    requires Holds(w) && KeysAreOurs(w) && IsAt(w, id, Holding)
    ensures KeysAreOurs(Tried(w, id, course))
  {
    var next, task := Tried(w, id, course), TaskOf(w.requests[id].order);
    CreationCases(w, id);
    forall taskId | taskId in next.tasks.tasks && PROMOTE <= next.tasks.tasks[taskId].idempotencyKey
      ensures exists other :: IsOurs(next, taskId, other)
    {
      if taskId == task.id && taskId !in w.tasks.tasks {
        assert IsOurs(next, taskId, id);
      } else {
        var other :| IsOurs(w, taskId, other);
        assert IsOurs(next, taskId, other);
      }
    }
  }

  /** Steps that only move requests leave the tasks alone. */
  lemma MovesKeepOurs(w: World, next: World)
    requires KeysAreOurs(w) && next.tasks == w.tasks
    requires forall id :: id in w.requests ==> id in next.requests && next.requests[id].order == w.requests[id].order
    ensures KeysAreOurs(next)
  {
    forall taskId | taskId in next.tasks.tasks && PROMOTE <= next.tasks.tasks[taskId].idempotencyKey
      ensures exists id :: IsOurs(next, taskId, id)
    {
      var id :| IsOurs(w, taskId, id);
      assert IsOurs(next, taskId, id);
    }
  }

  lemma OrdersStay(w: World, a: Action, id: nat)
    requires id in w.requests
    ensures id in Step(w, a).requests && Step(w, a).requests[id].order == w.requests[id].order
  {
  }

  lemma TasksStay(w: World, a: Action)
    requires !a.Other? && !(a.Create? && IsAt(w, a.id, Holding) && !a.course.Gated?)
    ensures Step(w, a).tasks == w.tasks
  {
  }

  lemma StepKeepsOurs(w: World, a: Action)
    requires Holds(w) && KeysAreOurs(w)
    requires a.Other? && a.op.Create? ==> !(PROMOTE <= a.op.task.idempotencyKey)
    ensures KeysAreOurs(Step(w, a))
  {
    if a.Other? {
      if IsOutside(w, a.op) {
        OthersKeepOurs(w, a.op);
      }
    } else if a.Create? && IsAt(w, a.id, Holding) && !a.course.Gated? {
      TriedKeepsOurs(w, a.id, a.course);
    } else {
      var next := Step(w, a);
      TasksStay(w, a);
      forall id | id in w.requests ensures id in next.requests && next.requests[id].order == w.requests[id].order {
        OrdersStay(w, a, id);
      }
      MovesKeepOurs(w, next);
    }
  }

  lemma {:induction false} RunKeepsOurs(actions: seq<Action>)
    requires KeepsOff(actions)
    ensures KeysAreOurs(Run(START, actions))
    decreases actions
  {
    if actions != [] {
      var init := actions[..|actions| - 1];
      RunLast(actions);
      RunKeepsOurs(init);
      StepKeepsOurs(Run(START, init), actions[|actions| - 1]);
    }
  }

  /** The holder of a claim finds its key free: whoever used it would have the claim. */
  lemma HolderFindsKeyFree(w: World, id: nat)
    requires Holds(w) && KeysAreOurs(w) && IsAt(w, id, Holding)
    requires forall other :: !FailedLate(w, other)
    ensures KeyIsFree(w, id)
  {
    var order := w.requests[id].order;
    var key := Tasks.KeyOf(TaskOf(order));
    assert RequestHolds(w, id);
    if key in w.tasks.index {
      var taskId := w.tasks.index[key];
      assert Tasks.KeyOf(w.tasks.tasks[taskId]) == key;
      var other :| IsOurs(w, taskId, other);
      assert RequestHolds(w, other) && !FailedLate(w, other);
      SameRun(order.runId, w.requests[other].order.runId);
    }
  }

  lemma SameRun(a: string, b: string)
    ensures PROMOTE + a == PROMOTE + b ==> a == b
  {
    assert (PROMOTE + a)[|PROMOTE|..] == a && (PROMOTE + b)[|PROMOTE|..] == b;
  }

  /** In atomic runs in which no other task is created under a promotion's key, every answered claim
      names the live task its request made. */
  lemma AtomicClaimsAreLive(actions: seq<Action>, id: nat)
    requires IsAtomic(actions) && KeepsOff(actions)
    requires id in Run(START, actions).requests && IsPromoted(Run(START, actions).requests[id].phase)
    ensures var w := Run(START, actions); var r := w.requests[id]; var key := KeyOf(r.order);
            && key in w.claims && w.claims[key] == LinkOf(r.order)
            && Made(w, id) && r.phase.outcome.created && r.phase.outcome.task.id == r.order.taskId
  {
    var i := AnsweredBy(actions, id);
    AtomicKeyIsFree(actions[..i], id);
    RunHolds(START, actions);
    var w := Run(START, actions);
    assert RequestHolds(w, id);
    assert RowHolds(w, KeyOf(w.requests[id].order));
  }

  lemma AtomicKeyIsFree(actions: seq<Action>, id: nat)
    requires IsAtomic(actions) && KeepsOff(actions) && IsAt(Run(START, actions), id, Holding)
    ensures KeyIsFree(Run(START, actions), id)
  {
    RunHolds(START, actions);
    RunKeepsOurs(actions);
    forall other ensures !FailedLate(Run(START, actions), other) {
      LateIsRaisedLate(actions, other);
    }
    HolderFindsKeyFree(Run(START, actions), id);
  }
}
