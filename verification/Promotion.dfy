/** Promoting a finished run to a task: claim the run, create the task, give the claim back on failure. */
module Promotion {
  import opened Options
  import Tasks

  datatype RunKey = RunKey(tenantId: string, runId: string)

  /** A row of the promotion table. */
  datatype Link = Link(taskId: string, title: string, promotedBy: string)

  type Claims = map<RunKey, Link>

  class RunPromotionStore {
    var rows: Claims

    constructor ()
      ensures rows == map[]
    {
      rows := map[];
    }

    method Claim(key: RunKey, link: Link) returns (row: Link, claimed: bool)
      modifies this
      ensures claimed <==> key !in old(rows)
      ensures rows == if claimed then old(rows)[key := link] else old(rows)
      ensures key in rows && row == rows[key]
    {
      claimed := key !in rows;
      if claimed {
        rows := rows[key := link];
      }
      row := rows[key];
    }

    method FindForRun(key: RunKey) returns (row: Option<Link>)
      ensures row == if key in rows then Some(rows[key]) else None
    {
      row := if key in rows then Some(rows[key]) else None;
    }

    method Release(key: RunKey) returns (released: bool)
      modifies this
      ensures rows == old(rows) - {key}
      ensures released <==> key in old(rows)
    {
      released := key in rows;
      rows := rows - {key};
    }
  }

  /** What the handler needs about one request: who asks, for which run, the fresh task id, and the
      content copied from the source task. */
  datatype Order = Order(context: Tasks.Context, runId: string, taskId: string, title: string, fingerprint: string,
                         status: Tasks.Status)

  function KeyOf(order: Order): RunKey {
    RunKey(order.context.tenantId, order.runId)
  }

  function LinkOf(order: Order): Link {
    Link(order.taskId, order.title, order.context.userId)
  }

  function TaskOf(order: Order): Tasks.Task {
    Tasks.Task(order.taskId, order.context.tenantId, order.context.userId, "promote:" + order.runId, order.fingerprint,
               order.title, order.status)
  }

  function Created(m: Tasks.Memory, order: Order): (Tasks.Memory, Tasks.Result<Tasks.Creation>) {
    Tasks.MemoryCreate(m, order.context, TaskOf(order), [Tasks.Entry(Tasks.CREATED, order.context)])
  }

  datatype Outcome =
    | AlreadyPromoted(link: Link)
    | Promoted(task: Tasks.Task, created: bool)
    | Refused

  /** How the creation inside a request goes: the policy gate refuses; it runs to the end; or it raises
      after the task was stored. */
  datatype Course = Gated | Through | RaisedLate

  method PromoteRunToTask(promotions: RunPromotionStore, tasks: Tasks.TaskStore, order: Order, course: Course)
    returns (outcome: Outcome)
    requires forall k :: k in tasks.index ==> tasks.index[k] in tasks.tasks
    modifies promotions, tasks
    ensures var key, before := KeyOf(order), old(promotions.rows); var (made, r) := Created(old(tasks.View()), order);
            if key in before then
              outcome == AlreadyPromoted(before[key]) && promotions.rows == before && tasks.View() == old(tasks.View())
            else if course.Through? && r.Ok? then
              outcome == Promoted(r.value.task, r.value.created)
              && promotions.rows == before[key := LinkOf(order)] && tasks.View() == made
            else
              outcome == Refused && promotions.rows == before
              && tasks.View() == if course.Gated? then old(tasks.View()) else made
  {
    var key := KeyOf(order);
    var existing := promotions.FindForRun(key);
    if existing.Some? {
      return AlreadyPromoted(existing.value);
    }
    ghost var before := promotions.rows;
    var link, claimed := promotions.Claim(key, LinkOf(order));
    assert promotions.rows - {key} == before;
    if course.Gated? {
      var _ := promotions.Release(key);
      return Refused;
    }
    var r := tasks.Create(order.context, TaskOf(order), [Tasks.Entry(Tasks.CREATED, order.context)]);
    if r.Err? || course.RaisedLate? {
      var _ := promotions.Release(key);
      return Refused;
    }
    outcome := Promoted(r.value.task, r.value.created);
  }

  // ---------------------------------------------------------------- any number of requests, interleaved

  datatype Phase = Arrived | NotFound | Holding | Failing | Finished(outcome: Outcome)

  datatype Request = Request(order: Order, phase: Phase)

  /** `owners` only records which request wrote each claim row. */
  datatype World = World(claims: Claims, owners: map<RunKey, nat>, tasks: Tasks.Memory, requests: map<nat, Request>)

  const START := World(map[], map[], Tasks.Memory(map[], map[], map[]), map[])

  datatype Action =
    | Arrive(id: nat, order: Order)
    | Find(id: nat)
    | Deny(id: nat)
    | Claim(id: nat)
    | Create(id: nat, course: Course)
    | Release(id: nat)
    | Other(op: Tasks.Op)

  function Moved(w: World, id: nat, phase: Phase): World
    requires id in w.requests
  {
    w.(requests := w.requests[id := w.requests[id].(phase := phase)])
  }

  predicate IsAt(w: World, id: nat, phase: Phase) {
    id in w.requests && w.requests[id].phase == phase
  }

  /** The task id of the order is new. */
  predicate IsNew(w: World, taskId: string) {
    && taskId != "" && taskId !in w.tasks.tasks
    && forall id :: id in w.requests ==> w.requests[id].order.taskId != taskId
  }

  /** Other operations on tasks: they create under ids no promotion uses and delete no promoted task. */
  predicate IsOutside(w: World, op: Tasks.Op) {
    && Tasks.IsProper(w.tasks.tasks, op)
    && (op.Create? ==> IsNew(w, op.task.id))
    && (op.Delete? ==> forall id :: id in w.requests ==> w.requests[id].order.taskId != op.id)
  }

  function Claimed(w: World, id: nat): World
    requires id in w.requests
  {
    var order := w.requests[id].order;
    Moved(w, id, Holding).(claims := w.claims[KeyOf(order) := LinkOf(order)], owners := w.owners[KeyOf(order) := id])
  }

  function GivenBack(w: World, id: nat): World
    requires id in w.requests
  {
    var key := KeyOf(w.requests[id].order);
    Moved(w, id, Finished(Refused)).(claims := w.claims - {key}, owners := w.owners - {key})
  }

  function Tried(w: World, id: nat, course: Course): World
    requires id in w.requests
  {
    var (made, r) := Created(w.tasks, w.requests[id].order);
    Moved(w, id, if r.Ok? && course.Through? then Finished(Promoted(r.value.task, r.value.created)) else Failing)
      .(tasks := made)
  }

  /** One step; an action that is not possible changes nothing. */
  function Step(w: World, a: Action): World {
    match a
    case Arrive(id, order) =>
      if id !in w.requests && IsNew(w, order.taskId) then w.(requests := w.requests[id := Request(order, Arrived)]) else w
    case Find(id) =>
      if !IsAt(w, id, Arrived) then w
      else
        var key := KeyOf(w.requests[id].order);
        Moved(w, id, if key in w.claims then Finished(AlreadyPromoted(w.claims[key])) else NotFound)
    case Deny(id) =>
      if IsAt(w, id, Arrived) || IsAt(w, id, NotFound) then Moved(w, id, Finished(Refused)) else w
    case Claim(id) =>
      if !IsAt(w, id, NotFound) then w
      else
        var key := KeyOf(w.requests[id].order);
        if key in w.claims then Moved(w, id, Finished(AlreadyPromoted(w.claims[key]))) else Claimed(w, id)
    case Create(id, course) =>
      if !IsAt(w, id, Holding) then w
      else if course.Gated? then Moved(w, id, Failing)
      else Tried(w, id, course)
    case Release(id) =>
      if IsAt(w, id, Failing) then GivenBack(w, id) else w
    case Other(op) =>
      if IsOutside(w, op) then w.(tasks := Tasks.MemoryStep(w.tasks, op).0) else w
  }

  function Run(w: World, actions: seq<Action>): World
    decreases actions
  {
    if actions == [] then w else Run(Step(w, actions[0]), actions[1..])
  }

  // ---------------------------------------------------------------- what holds in every state

  /** The claim row for the run is the one this request wrote. */
  predicate Owns(w: World, id: nat)
    requires id in w.requests
  {
    KeyOf(w.requests[id].order) in w.owners && w.owners[KeyOf(w.requests[id].order)] == id
  }

  /** The task of this request was stored. */
  predicate Made(w: World, id: nat)
    requires id in w.requests
  {
    w.requests[id].order.taskId in w.tasks.tasks
  }

  predicate IsPromoted(phase: Phase) {
    phase.Finished? && phase.outcome.Promoted?
  }

  /** A request in this phase owns a claim exactly when it works on it or was answered with it; its
      task is stored only if it was promoted or is failing late. */
  predicate Fits(order: Order, phase: Phase, owns: bool, made: bool) {
    && order.taskId != ""
    && (owns <==> phase.Holding? || phase.Failing? || IsPromoted(phase))
    && (made ==> phase == Failing || phase == Finished(Refused) || IsPromoted(phase))
    && (IsPromoted(phase) ==>
          && (phase.outcome.created <==> made)
          && (phase.outcome.created ==> phase.outcome.task.id == order.taskId))
  }

  predicate RequestHolds(w: World, id: nat) {
    id in w.requests && Fits(w.requests[id].order, w.requests[id].phase, Owns(w, id), Made(w, id))
  }

  ghost predicate RequestsHold(w: World) {
    forall id :: id in w.requests ==> RequestHolds(w, id)
  }

  ghost predicate DistinctTasks(w: World) {
    forall a, b :: a in w.requests && b in w.requests && w.requests[a].order.taskId == w.requests[b].order.taskId ==> a == b
  }

  predicate RowHolds(w: World, key: RunKey) {
    && key in w.claims && key in w.owners && w.owners[key] in w.requests
    && KeyOf(w.requests[w.owners[key]].order) == key
    && w.claims[key] == LinkOf(w.requests[w.owners[key]].order)
  }

  ghost predicate RowsHold(w: World) {
    forall key :: key in w.claims || key in w.owners ==> RowHolds(w, key)
  }

  ghost predicate Holds(w: World) {
    Tasks.Indexed(w.tasks) && RequestsHold(w) && DistinctTasks(w) && RowsHold(w)
  }

  /** A step of one request that changes neither claims nor tasks. */
  lemma MovedHolds(w: World, id: nat, phase: Phase)
    requires Holds(w) && id in w.requests
    requires Fits(w.requests[id].order, phase, Owns(w, id), Made(w, id))
    ensures Holds(Moved(w, id, phase))
  {
    var next := Moved(w, id, phase);
    MovedRows(w, id, phase);
    forall other | other in next.requests ensures RequestHolds(next, other) {
      assert RequestHolds(w, other);
      MovedRequest(w, id, phase, other);
    }
  }

  lemma MovedRequest(w: World, id: nat, phase: Phase, other: nat)
    requires RequestHolds(w, other) && id in w.requests
    requires Fits(w.requests[id].order, phase, Owns(w, id), Made(w, id))
    ensures RequestHolds(Moved(w, id, phase), other)
  {
  }

  lemma MovedRows(w: World, id: nat, phase: Phase)
    requires RowsHold(w) && id in w.requests
    ensures RowsHold(Moved(w, id, phase))
  {
    var next := Moved(w, id, phase);
    forall key | key in next.claims || key in next.owners ensures RowHolds(next, key) {
      assert RowHolds(w, key);
    }
  }

  lemma ArriveHolds(w: World, id: nat, order: Order)
    requires Holds(w) && id !in w.requests && IsNew(w, order.taskId)
    ensures Holds(w.(requests := w.requests[id := Request(order, Arrived)]))
  {
    var next := w.(requests := w.requests[id := Request(order, Arrived)]);
    forall key | key in next.claims || key in next.owners ensures RowHolds(next, key) {
      assert RowHolds(w, key);
    }
    forall other | other in next.requests ensures RequestHolds(next, other) {
      if other != id {
        assert RequestHolds(w, other);
      } else if KeyOf(order) in w.owners {
        assert RowHolds(w, KeyOf(order));
      }
    }
  }

  lemma ClaimHolds(w: World, id: nat)
    requires Holds(w) && IsAt(w, id, NotFound) && KeyOf(w.requests[id].order) !in w.claims
    ensures Holds(Claimed(w, id))
  {
    var next, mine := Claimed(w, id), KeyOf(w.requests[id].order);
    assert RequestHolds(w, id);
    assert mine !in w.owners by {
      assert mine in w.owners ==> RowHolds(w, mine);
    }
    ClaimedRows(w, id);
    forall other | other in next.requests ensures RequestHolds(next, other) {
      assert RequestHolds(w, other);
      ClaimedRequest(w, id, other);
    }
  }

  lemma ClaimedRequest(w: World, id: nat, other: nat)
    requires RequestHolds(w, id) && RequestHolds(w, other) && w.requests[id].phase == NotFound
    requires KeyOf(w.requests[id].order) !in w.owners
    ensures RequestHolds(Claimed(w, id), other)
  {
  }

  lemma ClaimedRows(w: World, id: nat)
    requires RowsHold(w) && id in w.requests
    ensures RowsHold(Claimed(w, id))
  {
    var next := Claimed(w, id);
    forall key | key in next.claims || key in next.owners ensures RowHolds(next, key) {
      if key != KeyOf(w.requests[id].order) {
        assert RowHolds(w, key);
      }
    }
  }

  lemma ReleaseHolds(w: World, id: nat)
    requires Holds(w) && IsAt(w, id, Failing)
    ensures Holds(GivenBack(w, id))
  {
    var next := GivenBack(w, id);
    assert RequestHolds(w, id);
    forall other | other in next.requests ensures RequestHolds(next, other) {
      assert RequestHolds(w, other);
    }
    forall key | key in next.claims || key in next.owners ensures RowHolds(next, key) {
      assert RowHolds(w, key);
    }
  }

  /** The creation of a claim holder stores its task, or finds another, or is refused. */
  lemma CreationCases(w: World, id: nat)
    requires Holds(w) && IsAt(w, id, Holding)
    ensures var order := w.requests[id].order; var (made, r) := Created(w.tasks, order);
            && Tasks.Indexed(made)
            && order.taskId !in w.tasks.tasks
            && (r.Ok? && r.value.created ==>
                  r.value.task.id == order.taskId && made.tasks.Keys == w.tasks.tasks.Keys + {order.taskId})
            && (!(r.Ok? && r.value.created) ==> made == w.tasks)
  {
    var order := w.requests[id].order;
    assert RequestHolds(w, id);
    if Tasks.KeyOf(TaskOf(order)) !in w.tasks.index {
      Tasks.StoredIndexed(w.tasks, TaskOf(order), [Tasks.Entry(Tasks.CREATED, order.context)]);
    }
  }

  lemma TriedHolds(w: World, id: nat, course: Course)
    requires Holds(w) && IsAt(w, id, Holding) && !course.Gated?
    ensures Holds(Tried(w, id, course))
  {
    var next := Tried(w, id, course);
    CreationCases(w, id);
    assert RequestHolds(w, id);
    forall other | other in next.requests ensures RequestHolds(next, other) {
      assert RequestHolds(w, other);
      assert other != id ==> Made(next, other) == Made(w, other);
    }
    forall key | key in next.claims || key in next.owners ensures RowHolds(next, key) {
      assert RowHolds(w, key);
    }
  }

  lemma OtherHolds(w: World, op: Tasks.Op)
    requires Holds(w) && IsOutside(w, op)
    ensures Holds(w.(tasks := Tasks.MemoryStep(w.tasks, op).0))
  {
    var next := w.(tasks := Tasks.MemoryStep(w.tasks, op).0);
    Tasks.StepIndexed(w.tasks, op);
    forall id | id in next.requests ensures RequestHolds(next, id) {
      assert RequestHolds(w, id);
      OthersKeepTasks(w.tasks, op, w.requests[id].order.taskId);
    }
    forall key | key in next.claims || key in next.owners ensures RowHolds(next, key) {
      assert RowHolds(w, key);
    }
  }

  lemma OthersKeepTasks(m: Tasks.Memory, op: Tasks.Op, taskId: string)
    requires op.Create? ==> op.task.id != taskId
    requires op.Delete? ==> op.id != taskId
    ensures taskId in Tasks.MemoryStep(m, op).0.tasks <==> taskId in m.tasks
  {
  }

  lemma FindHolds(w: World, id: nat)
    requires Holds(w) && IsAt(w, id, Arrived)
    ensures Holds(Step(w, Find(id)))
  {
    assert RequestHolds(w, id);
    var key := KeyOf(w.requests[id].order);
    MovedHolds(w, id, if key in w.claims then Finished(AlreadyPromoted(w.claims[key])) else NotFound);
  }

  lemma DenyHolds(w: World, id: nat)
    requires Holds(w) && (IsAt(w, id, Arrived) || IsAt(w, id, NotFound))
    ensures Holds(Step(w, Deny(id)))
  {
    assert RequestHolds(w, id);
    MovedHolds(w, id, Finished(Refused));
  }

  lemma ClaimStepHolds(w: World, id: nat)
    requires Holds(w) && IsAt(w, id, NotFound)
    ensures Holds(Step(w, Claim(id)))
  {
    assert RequestHolds(w, id);
    var key := KeyOf(w.requests[id].order);
    if key in w.claims {
      MovedHolds(w, id, Finished(AlreadyPromoted(w.claims[key])));
    } else {
      ClaimHolds(w, id);
    }
  }

  lemma StepHolds(w: World, a: Action)
    requires Holds(w)
    ensures Holds(Step(w, a))
  {
    match a
    case Arrive(id, order) =>
      if id !in w.requests && IsNew(w, order.taskId) {
        ArriveHolds(w, id, order);
      }
    case Find(id) =>
      if IsAt(w, id, Arrived) {
        FindHolds(w, id);
      }
    case Deny(id) =>
      if IsAt(w, id, Arrived) || IsAt(w, id, NotFound) {
        DenyHolds(w, id);
      }
    case Claim(id) =>
      if IsAt(w, id, NotFound) {
        ClaimStepHolds(w, id);
      }
    case Create(id, course) =>
      if IsAt(w, id, Holding) {
        assert RequestHolds(w, id);
        if course.Gated? {
          MovedHolds(w, id, Failing);
        } else {
          TriedHolds(w, id, course);
        }
      }
    case Release(id) =>
      if IsAt(w, id, Failing) {
        ReleaseHolds(w, id);
      }
    case Other(op) =>
      if IsOutside(w, op) {
        OtherHolds(w, op);
      }
  }

  lemma {:induction false} RunHolds(w: World, actions: seq<Action>)
    requires Holds(w)
    ensures Holds(Run(w, actions))
    decreases actions
  {
    if actions != [] {
      StepHolds(w, actions[0]);
      RunHolds(Step(w, actions[0]), actions[1..]);
    }
  }

  // ---------------------------------------------------------------- the results

  /** The request gave its claim back, or is about to, although its task was stored. */
  predicate FailedLate(w: World, id: nat) {
    id in w.requests && Made(w, id) && (w.requests[id].phase == Failing || w.requests[id].phase == Finished(Refused))
  }

  /** In any run: of the requests for one run, at most one made a task without failing afterwards. */
  lemma AtMostOneTask(actions: seq<Action>, a: nat, b: nat)
    ensures var w := Run(START, actions);
            a in w.requests && b in w.requests && KeyOf(w.requests[a].order) == KeyOf(w.requests[b].order)
            && Made(w, a) && Made(w, b) && a != b
            ==> FailedLate(w, a) || FailedLate(w, b)
  {
    RunHolds(START, actions);
    var w := Run(START, actions);
    if a in w.requests && b in w.requests {
      assert RequestHolds(w, a) && RequestHolds(w, b);
    }
  }

  /** In any run: every claim row belongs to one request, which is still working on it or was
      answered; an answered one names a live task exactly when its request made the task; and a
      request that was refused owns no row. */
  lemma ClaimsAreHeldOrSettled(actions: seq<Action>, key: RunKey, id: nat)
    ensures var w := Run(START, actions);
            && (key in w.claims ==>
                  && RowHolds(w, key)
                  && var phase := w.requests[w.owners[key]].phase;
                     && (phase.Holding? || phase.Failing? || IsPromoted(phase))
                     && (IsPromoted(phase) ==> (w.claims[key].taskId in w.tasks.tasks <==> phase.outcome.created)))
            && (key in w.claims && id in w.requests && w.claims[key].taskId == w.requests[id].order.taskId ==>
                  id == w.owners[key] && w.requests[id].phase != Finished(Refused))
  {
    RunHolds(START, actions);
    var w := Run(START, actions);
    if key in w.claims {
      assert RowHolds(w, key);
      assert RequestHolds(w, w.owners[key]);
    }
  }

  // ---------------------------------------------------------------- both exceptions happen

  /** One request, undisturbed up to its creation. */
  function PromoteSteps(id: nat, order: Order, course: Course): seq<Action> {
    [Arrive(id, order), Find(id), Claim(id), Create(id, course)]
  }

  /** The state it reaches when the run is not claimed. */
  function AfterCourse(w: World, id: nat, order: Order, course: Course): World {
    var (made, r) := Created(w.tasks, order);
    var phase := if r.Ok? && course.Through? then Finished(Promoted(r.value.task, r.value.created)) else Failing;
    World(w.claims[KeyOf(order) := LinkOf(order)], w.owners[KeyOf(order) := id], made,
          w.requests[id := Request(order, phase)])
  }

  lemma ClaimRuns(w: World, id: nat, order: Order)
    requires id !in w.requests && IsNew(w, order.taskId) && KeyOf(order) !in w.claims
    ensures var w1 := Step(w, Arrive(id, order)); var w2 := Step(w1, Find(id)); var w3 := Step(w2, Claim(id));
            w3 == World(w.claims[KeyOf(order) := LinkOf(order)], w.owners[KeyOf(order) := id], w.tasks,
                        w.requests[id := Request(order, Holding)])
  {
    var w1 := w.(requests := w.requests[id := Request(order, Arrived)]);
    var w2 := w.(requests := w.requests[id := Request(order, NotFound)]);
    assert w1.requests[id := Request(order, NotFound)] == w2.requests;
    assert w2.requests[id := Request(order, Holding)] == w.requests[id := Request(order, Holding)];
    assert Step(w1, Find(id)) == w2;
  }

  lemma CourseRuns(w: World, id: nat, order: Order, course: Course)
    requires id !in w.requests && IsNew(w, order.taskId) && KeyOf(order) !in w.claims && !course.Gated?
    ensures Run(w, PromoteSteps(id, order, course)) == AfterCourse(w, id, order, course)
  {
    var w1 := Step(w, Arrive(id, order));
    var w2 := Step(w1, Find(id));
    var w3 := Step(w2, Claim(id));
    var w4 := AfterCourse(w, id, order, course);
    ClaimRuns(w, id, order);
    assert w3.requests[id := w4.requests[id]] == w4.requests;
    assert Step(w3, Create(id, course)) == w4;
    RunTo(w, PromoteSteps(id, order, course), [w, w1, w2, w3, w4]);
  }

  lemma {:induction false} RunTo(w: World, actions: seq<Action>, states: seq<World>)
    requires |states| == |actions| + 1 && states[0] == w
    requires forall i :: 0 <= i < |actions| ==> states[i + 1] == Step(states[i], actions[i])
    ensures Run(w, actions) == states[|actions|]
    decreases actions
  {
    if actions != [] {
      RunTo(states[1], actions[1..], states[1..]);
    }
  }

  /** The first request fails after its task was stored and gives the run back. */
  function AfterLateError(order: Order): World {
    GivenBack(AfterCourse(START, 0, order, RaisedLate), 0)
  }

  lemma LateErrorRuns(order: Order)
    requires order.taskId != ""
    ensures Run(START, PromoteSteps(0, order, RaisedLate) + [Release(0)]) == AfterLateError(order)
    ensures AfterLateError(order).claims == map[] && AfterLateError(order).tasks.tasks == map[order.taskId := TaskOf(order)]
  {
    CourseRuns(START, 0, order, RaisedLate);
    RunAppend(START, PromoteSteps(0, order, RaisedLate), [Release(0)]);
    var w := AfterCourse(START, 0, order, RaisedLate);
    assert Run(w, [Release(0)]) == Run(Step(w, Release(0)), [Release(0)][1..]);
  }

  lemma {:induction false} RunAppend(w: World, first: seq<Action>, rest: seq<Action>)
    ensures Run(w, first + rest) == Run(Run(w, first), rest)
    decreases first
  {
    if first == [] {
      assert first + rest == rest;
    } else {
      assert (first + rest)[1..] == first[1..] + rest;
      RunAppend(Step(w, first[0]), first[1..], rest);
    }
  }

  /** After such an error the next request for the run, whoever makes it, is promoted: another user
      gets a second task; the same user gets the first task back under a claim whose own task id
      names no task. */
  lemma LateErrorConsequences(first: Order, second: Order)
    requires first.taskId != "" && second.taskId != "" && first.taskId != second.taskId
    requires KeyOf(first) == KeyOf(second) && first.fingerprint == second.fingerprint
    ensures var actions := (PromoteSteps(0, first, RaisedLate) + [Release(0)]) + PromoteSteps(1, second, Through);
            var w := Run(START, actions);
            var sameUser := first.context.userId == second.context.userId;
            && 0 in w.requests && 1 in w.requests && KeyOf(second) in w.claims
            && w.claims[KeyOf(second)].taskId == second.taskId
            && (!sameUser ==> Made(w, 0) && Made(w, 1))
            && (sameUser ==>
                  w.requests[1].phase == Finished(Promoted(TaskOf(first), false)) && second.taskId !in w.tasks.tasks)
  {
    var before := PromoteSteps(0, first, RaisedLate) + [Release(0)];
    var mid := AfterLateError(first);
    LateErrorRuns(first);
    RunAppend(START, before, PromoteSteps(1, second, Through));
    CourseRuns(mid, 1, second, Through);
  }

  // ---------------------------------------------------------------- the steps of one request, to their end

  /** A denied request ends with nothing, before and after it looked for the run. */
  lemma DeniedRuns(w: World, id: nat, order: Order)
    requires id !in w.requests && IsNew(w, order.taskId) && KeyOf(order) !in w.claims
    ensures var early, late := Run(w, [Arrive(id, order), Deny(id)]), Run(w, [Arrive(id, order), Find(id), Deny(id)]);
            && early == late == w.(requests := w.requests[id := Request(order, Finished(Refused))])
  {
    var arrived := w.(requests := w.requests[id := Request(order, Arrived)]);
    var looked := w.(requests := w.requests[id := Request(order, NotFound)]);
    var denied := w.(requests := w.requests[id := Request(order, Finished(Refused))]);
    assert arrived.requests[id := Request(order, Finished(Refused))] == denied.requests;
    assert arrived.requests[id := Request(order, NotFound)] == looked.requests;
    assert looked.requests[id := Request(order, Finished(Refused))] == denied.requests;
    RunTo(w, [Arrive(id, order), Deny(id)], [w, arrived, denied]);
    RunTo(w, [Arrive(id, order), Find(id), Deny(id)], [w, arrived, looked, denied]);
  }

  /** A request for a run that is claimed is answered with the claim, whether it finds that at once or when
      it claims the run itself. */
  lemma ClaimedRuns(w: World, id: nat, order: Order)
    requires id !in w.requests && IsNew(w, order.taskId) && KeyOf(order) in w.claims
    ensures Run(w, [Arrive(id, order), Find(id)])
         == w.(requests := w.requests[id := Request(order, Finished(AlreadyPromoted(w.claims[KeyOf(order)])))])
    ensures var late := w.(requests := w.requests[id := Request(order, NotFound)]);
            Step(late, Claim(id)) == Run(w, [Arrive(id, order), Find(id)])
  {
    var arrived := w.(requests := w.requests[id := Request(order, Arrived)]);
    var looked := w.(requests := w.requests[id := Request(order, NotFound)]);
    var answered := w.(requests := w.requests[id := Request(order, Finished(AlreadyPromoted(w.claims[KeyOf(order)])))]);
    assert arrived.requests[id := answered.requests[id]] == answered.requests;
    assert looked.requests[id := answered.requests[id]] == answered.requests;
    RunTo(w, [Arrive(id, order), Find(id)], [w, arrived, answered]);
  }

  /** What the creation inside a request makes, or finds under its user's key. */
  lemma CreatedIs(m: Tasks.Memory, order: Order)
    requires Tasks.Indexed(m)
    ensures var (made, r) := Created(m, order);
            var key := Tasks.Key(order.context.tenantId, order.context.userId, "promote:" + order.runId);
            var mine := Tasks.Task(order.taskId, order.context.tenantId, order.context.userId, "promote:" + order.runId,
                                   order.fingerprint, order.title, order.status);
            && (key !in m.index ==>
                  && r == Tasks.Ok(Tasks.Creation(mine, true)) && made.tasks == m.tasks[order.taskId := mine]
                  && made.audits == m.audits[order.taskId := [Tasks.Audit("task.created", order.context.userId, order.context.role)]])
            && (key in m.index ==>
                  var found := m.tasks[m.index[key]];
                  && made == m
                  && r == if found.fingerprint == order.fingerprint then Tasks.Ok(Tasks.Creation(found, false))
                          else Tasks.Err(Tasks.IdempotencyConflict))
  {
  }

  /** What an undisturbed request for an unclaimed run leaves when it is through: the claim in its user's
      name and the task with its first audit entry, or the task that its user's key had before; and if
      anything goes wrong no claim, and a task only if the error came after that was stored. */
  lemma WhatIsLeft(w: World, id: nat, order: Order, course: Course)
    requires Tasks.Indexed(w.tasks) && id !in w.requests && IsNew(w, order.taskId)
    requires KeyOf(order) !in w.claims && KeyOf(order) !in w.owners
    ensures var end := Run(w, PromoteSteps(id, order, course) + [Release(id)]);
            var key := Tasks.Key(order.context.tenantId, order.context.userId, "promote:" + order.runId);
            var mine := Tasks.Task(order.taskId, order.context.tenantId, order.context.userId, "promote:" + order.runId,
                                   order.fingerprint, order.title, order.status);
            var isOther := key in w.tasks.index && w.tasks.tasks[w.tasks.index[key]].fingerprint != order.fingerprint;
            && id in end.requests && end.requests[id].order == order
            && (course == Gated ==> end.tasks == w.tasks)
            && (course != Gated && key !in w.tasks.index ==>
                  && end.tasks.tasks == w.tasks.tasks[order.taskId := mine]
                  && order.taskId in end.tasks.audits
                  && end.tasks.audits[order.taskId] == [Tasks.Audit("task.created", order.context.userId, order.context.role)])
            && (course != Gated && key in w.tasks.index ==> end.tasks == w.tasks)
            && (course == Through && !isOther ==>
                  && end.claims == w.claims[RunKey(order.context.tenantId, order.runId)
                                            := Link(order.taskId, order.title, order.context.userId)]
                  && end.requests[id].phase
                     == Finished(if key in w.tasks.index then Promoted(w.tasks.tasks[w.tasks.index[key]], false) else Promoted(mine, true)))
            && (course != Through || isOther ==> end.claims == w.claims && end.requests[id].phase == Finished(Refused))
  {
    CreatedIs(w.tasks, order);
    LeftBy(w, id, order, course);
  }

  /** The same in terms of the creation. */
  lemma LeftBy(w: World, id: nat, order: Order, course: Course)
    requires id !in w.requests && IsNew(w, order.taskId)
    requires KeyOf(order) !in w.claims && KeyOf(order) !in w.owners
    ensures var end := Run(w, PromoteSteps(id, order, course) + [Release(id)]); var (made, r) := Created(w.tasks, order);
            && id in end.requests && end.requests[id].order == order
            && end.tasks == (if course == Gated then w.tasks else made)
            && (if course == Through && r.Ok?
                then end.claims == w.claims[KeyOf(order) := LinkOf(order)]
                     && end.requests[id].phase == Finished(Promoted(r.value.task, r.value.created))
                else end.claims == w.claims && end.requests[id].phase == Finished(Refused))
  {
    var steps := PromoteSteps(id, order, course);
    RunAppend(w, steps, [Release(id)]);
    var before := Run(w, steps);
    assert Run(before, [Release(id)]) == Run(Step(before, Release(id)), [Release(id)][1..]);
    if course == Gated {
      GatedRuns(w, id, order);
    } else {
      CourseRuns(w, id, order, course);
    }
    assert w.claims[KeyOf(order) := LinkOf(order)] - {KeyOf(order)} == w.claims;
  }

  lemma GatedRuns(w: World, id: nat, order: Order)
    requires id !in w.requests && IsNew(w, order.taskId) && KeyOf(order) !in w.claims
    ensures Run(w, PromoteSteps(id, order, Gated))
         == World(w.claims[KeyOf(order) := LinkOf(order)], w.owners[KeyOf(order) := id], w.tasks,
                  w.requests[id := Request(order, Failing)])
  {
    var w1 := Step(w, Arrive(id, order));
    var w2 := Step(w1, Find(id));
    var w3 := Step(w2, Claim(id));
    var w4 := World(w3.claims, w3.owners, w.tasks, w.requests[id := Request(order, Failing)]);
    ClaimRuns(w, id, order);
    assert w3.requests[id := Request(order, Failing)] == w4.requests;
    RunTo(w, PromoteSteps(id, order, Gated), [w, w1, w2, w3, w4]);
  }

  /** Everybody else's operations on tasks are done as they are asked for. */
  lemma OthersAct(w: World, op: Tasks.Op)
    requires IsOutside(w, op)
    ensures Step(w, Other(op)).tasks == Tasks.MemoryStep(w.tasks, op).0 && Step(w, Other(op)).claims == w.claims
  {
  }
}
