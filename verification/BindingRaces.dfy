/** Changes of one slot by transactions that overlap, at the isolation level read committed: a query sees
    what was committed when it starts, a delete waits for rows that another open transaction deletes, and
    an insert waits for one of the same row. */
module BindingRaces {
  import opened Options
  import opened KnowledgeBindings

  /** A row is told apart from a later one with the same identifier by the transaction that wrote it. */
  datatype Version = Version(id: string, writer: nat)

  datatype Phase = HasRead | Deleting | Writing

  /** An open transaction: what it read, the rows its delete found and those it deleted, the identifiers
      it has inserted or found, and the number of changes committed before it began. */
  datatype Change = Change(phase: Phase, before: set<string>, found: set<Version>, deleted: set<Version>,
                           inserted: set<Version>, handled: set<string>, began: nat)

  /** The rows of the slot, the open transactions, the audit log of the slot, the numbers of the
      transactions in the order of their commits and, for each, how many commits there were before it
      began. */
  datatype World = World(live: set<Version>, open: map<nat, Change>, audits: seq<Audit>, order: seq<nat>,
                         begins: seq<nat>, known: set<nat>)

  const START := World({}, map[], [], [], [], {})

  datatype Action =
    | Read(t: nat)
    | Find(t: nat)
    | Delete(t: nat)
    | Insert(t: nat, id: string)
    | Commit(t: nat)
    | Abort(t: nat)

  function Ids(rows: set<Version>): set<string> {
    set row | row in rows :: row.id
  }

  /** The requests are allowed ones for the slot. */
  ghost predicate AreFor(requests: nat -> Request, slot: Slot) {
    forall t :: var q := requests(t);
      q.context.canManage && q.key.Some? && Slot(q.context.tenantId, q.kind, q.key.value) == slot
  }

  function IdsOf(requests: nat -> Request, t: nat): set<string> {
    Clean(requests(t).ids)
  }

  predicate IsIn(w: World, t: nat, phase: Phase) {
    t in w.open && w.open[t].phase == phase
  }

  /** Another open transaction deletes one of these rows. */
  predicate AreHeld(w: World, t: nat, rows: set<Version>) {
    exists u :: u in w.open && u != t && rows * w.open[u].deleted != {}
  }

  /** Another open transaction has written or deleted a row with this identifier. */
  predicate IsHeld(w: World, t: nat, id: string) {
    exists u :: u in w.open && u != t && id in Ids(w.open[u].inserted + w.open[u].deleted)
  }

  function Moved(w: World, t: nat, c: Change): World {
    w.(open := w.open[t := c])
  }

  /** `on conflict do nothing`. */
  function Inserted(w: World, t: nat, id: string): Change
    requires t in w.open
  {
    var c := w.open[t];
    c.(handled := c.handled + {id},
       inserted := if id in Ids(w.live - c.deleted) then c.inserted else c.inserted + {Version(id, t)})
  }

  function Committed(requests: nat -> Request, w: World, t: nat): World
    requires t in w.open
  {
    var c, q := w.open[t], requests(t);
    World(w.live - c.deleted + c.inserted, w.open - {t},
          w.audits + [Audit(Slot(q.context.tenantId, q.kind, if q.key.Some? then q.key.value else ""),
                            c.before, IdsOf(requests, t), q.context.userId)],
          w.order + [t], w.begins + [c.began], w.known)
  }

  /** One step; a step that is not possible, or has to wait, changes nothing. */
  function Step(requests: nat -> Request, w: World, a: Action): World {
    match a
    case Read(t) =>
      if t in w.known then w
      else Moved(w, t, Change(HasRead, Ids(w.live), {}, {}, {}, {}, |w.order|)).(known := w.known + {t})
    case Find(t) =>
      if !IsIn(w, t, HasRead) then w else Moved(w, t, w.open[t].(phase := Deleting, found := w.live))
    case Delete(t) =>
      if !IsIn(w, t, Deleting) || AreHeld(w, t, w.open[t].found * w.live) then w
      else Moved(w, t, w.open[t].(phase := Writing, deleted := w.open[t].found * w.live))
    case Insert(t, id) =>
      if !IsIn(w, t, Writing) || id !in IdsOf(requests, t) - w.open[t].handled || IsHeld(w, t, id) then w
      else Moved(w, t, Inserted(w, t, id))
    case Commit(t) =>
      if !IsIn(w, t, Writing) || w.open[t].handled != IdsOf(requests, t) then w else Committed(requests, w, t)
    case Abort(t) =>
      w.(open := w.open - {t})
  }

  function Run(requests: nat -> Request, actions: seq<Action>): World {
    if actions == [] then START
    else Step(requests, Run(requests, actions[..|actions| - 1]), actions[|actions| - 1])
  }

  /** No transaction began before the commit of one that committed earlier. */
  predicate AreApart(w: World) {
    |w.begins| == |w.order| && forall k :: 0 <= k < |w.order| ==> w.begins[k] == k
  }

  // ---------------------------------------------------------------- no row is held twice

  /** Open transactions neither delete the same row nor write rows with the same identifier. */
  ghost predicate AreDisjoint(w: World) {
    forall t, u :: t in w.open && u in w.open && t != u ==>
      && w.open[t].deleted * w.open[u].deleted == {}
      && Ids(w.open[t].inserted) * Ids(w.open[u].inserted) == {}
  }

  lemma IdsOfOneMore(rows: set<Version>, row: Version)
    ensures Ids(rows + {row}) == Ids(rows) + {row.id}
  {
    assert row in rows + {row};
    forall id | id in Ids(rows) ensures id in Ids(rows + {row}) {
      var r :| r in rows && r.id == id;
      assert r in rows + {row};
    }
  }

  lemma DeleteIsDisjoint(w: World, t: nat, rows: set<Version>, c: Change)
    requires AreDisjoint(w) && t in w.open && !AreHeld(w, t, rows)
    requires c.deleted == rows && c.inserted == w.open[t].inserted
    ensures AreDisjoint(Moved(w, t, c))
  {
    var next := Moved(w, t, c);
    forall u, v | u in next.open && v in next.open && u != v
      ensures next.open[u].deleted * next.open[v].deleted == {} && Ids(next.open[u].inserted) * Ids(next.open[v].inserted) == {}
    {
    }
  }

  lemma InsertIsDisjoint(w: World, t: nat, id: string)
    requires AreDisjoint(w) && t in w.open && !IsHeld(w, t, id)
    ensures AreDisjoint(Moved(w, t, Inserted(w, t, id)))
  {
    var next := Moved(w, t, Inserted(w, t, id));
    IdsOfOneMore(w.open[t].inserted, Version(id, t));
    forall u | u in w.open && u != t ensures id !in Ids(w.open[u].inserted) {
      IsNotAmong(w.open[u].inserted, w.open[u].deleted, id);
    }
    forall u, v | u in next.open && v in next.open && u != v
      ensures next.open[u].deleted * next.open[v].deleted == {} && Ids(next.open[u].inserted) * Ids(next.open[v].inserted) == {}
    {
    }
  }

  lemma IsNotAmong(a: set<Version>, b: set<Version>, id: string)
    requires id !in Ids(a + b)
    ensures id !in Ids(a)
  {
    forall r | r in a ensures r.id != id {
      assert r in a + b;
    }
  }

  /** In every run the waiting keeps open transactions off each other's rows. */
  lemma {:induction false} RunIsDisjoint(requests: nat -> Request, actions: seq<Action>)
    ensures AreDisjoint(Run(requests, actions))
  {
    if actions != [] {
      var w, a := Run(requests, actions[..|actions| - 1]), actions[|actions| - 1];
      RunIsDisjoint(requests, actions[..|actions| - 1]);
      if Step(requests, w, a) != w {
        match a
        case Delete(t) => DeleteIsDisjoint(w, t, w.open[t].found * w.live, Step(requests, w, a).open[t]);
        case Insert(t, id) => InsertIsDisjoint(w, t, id);
        case _ =>
      }
    }
  }

  // ---------------------------------------------------------------- transactions apart

  /** The committed requests in the order of their commits. */
  function InOrder(requests: nat -> Request, order: seq<nat>): seq<Request> {
    seq(|order|, i requires 0 <= i < |order| => requests(order[i]))
  }

  /** As long as nothing was committed since the transaction began, it works on the rows there are. */
  predicate SeesAll(requests: nat -> Request, w: World, t: nat)
    requires t in w.open
  {
    var c := w.open[t];
    && c.began <= |w.order|
    && (c.phase != Writing ==> c.handled == {} && c.inserted == {})
    && (c.began == |w.order| ==>
          && c.before == Ids(w.live)
          && (c.phase != HasRead ==> c.found == w.live)
          && (c.phase == Writing ==> c.deleted == w.live && c.inserted == Written(t, c.handled)))
  }

  function Written(t: nat, ids: set<string>): set<Version> {
    set id | id in ids :: Version(id, t)
  }

  lemma IdsOfWritten(t: nat, ids: set<string>)
    ensures Ids(Written(t, ids)) == ids
  {
    forall id | id in ids ensures id in Ids(Written(t, ids)) {
      assert Version(id, t) in Written(t, ids);
    }
  }

  lemma WrittenMore(t: nat, ids: set<string>, id: string)
    ensures Written(t, ids + {id}) == Written(t, ids) + {Version(id, t)}
  {
  }

  ghost predicate IsWellKept(requests: nat -> Request, w: World) {
    |w.audits| == |w.order| == |w.begins| && forall t :: t in w.open ==> SeesAll(requests, w, t)
  }

  lemma InsertedSeesAll(requests: nat -> Request, w: World, t: nat, id: string)
    requires t in w.open && w.open[t].phase == Writing && SeesAll(requests, w, t)
    ensures SeesAll(requests, Moved(w, t, Inserted(w, t, id)), t)
  {
    var c := w.open[t];
    if c.began == |w.order| {
      assert w.live - c.deleted == {};
      WrittenMore(t, c.handled, id);
    }
  }

  lemma StepSeesAll(requests: nat -> Request, w: World, a: Action, t: nat)
    requires IsWellKept(requests, w) && t in Step(requests, w, a).open
    ensures SeesAll(requests, Step(requests, w, a), t)
  {
    if t in w.open {
      assert SeesAll(requests, w, t);
      if a.Insert? && a.t == t && Step(requests, w, a) != w {
        InsertedSeesAll(requests, w, t, a.id);
      }
      assert w.live * w.live == w.live;
    }
  }

  lemma StepIsWellKept(requests: nat -> Request, w: World, a: Action)
    requires IsWellKept(requests, w)
    ensures IsWellKept(requests, Step(requests, w, a))
  {
    var next := Step(requests, w, a);
    forall t | t in next.open ensures SeesAll(requests, next, t) {
      StepSeesAll(requests, w, a, t);
    }
  }

  /** The slot and the log are those of the serial history. */
  ghost predicate IsSerial(requests: nat -> Request, w: World, slot: Slot) {
    var t := HistoryInTables(InOrder(requests, w.order));
    w.audits == t.audits && Ids(w.live) == RowsOf(t.rows, slot)
  }

  lemma CommitIsSerial(requests: nat -> Request, w: World, t: nat, slot: Slot)
    requires AreFor(requests, slot) && IsWellKept(requests, w) && IsSerial(requests, w, slot)
    requires IsIn(w, t, Writing) && w.open[t].handled == IdsOf(requests, t) && w.open[t].began == |w.order|
    ensures IsSerial(requests, Committed(requests, w, t), slot)
  {
    var q, done := requests(t), InOrder(requests, w.order);
    var tables := HistoryInTables(done);
    assert SeesAll(requests, w, t);
    assert InOrder(requests, w.order + [t]) == done + [q];
    assert (done + [q])[..|done|] == done;
    RowsAfter(tables.rows, slot, Clean(q.ids), slot);
    IdsOfWritten(t, IdsOf(requests, t));
    assert w.live - w.live + Written(t, IdsOf(requests, t)) == Written(t, IdsOf(requests, t));
  }

  lemma StepIsSerial(requests: nat -> Request, w: World, a: Action, slot: Slot)
    requires AreFor(requests, slot) && IsWellKept(requests, w)
    requires AreApart(w) ==> IsSerial(requests, w, slot)
    ensures AreApart(Step(requests, w, a)) ==> IsSerial(requests, Step(requests, w, a), slot)
  {
    var next := Step(requests, w, a);
    if a.Commit? && next != w && AreApart(next) {
      assert SeesAll(requests, w, a.t);
      assert forall k :: 0 <= k < |w.order| ==> next.begins[k] == w.begins[k];
      assert next.begins[|w.order|] == w.open[a.t].began;
      CommitIsSerial(requests, w, a.t, slot);
    }
  }

  /** Transactions that do not overlap leave the rows and the log of their requests in commit order. */
  lemma {:induction false} ApartIsSerial(requests: nat -> Request, actions: seq<Action>, slot: Slot)
    requires AreFor(requests, slot)
    ensures var w := Run(requests, actions); IsWellKept(requests, w) && (AreApart(w) ==> IsSerial(requests, w, slot))
  {
    if actions == [] {
      assert InOrder(requests, []) == [];
    } else {
      var init, last := actions[..|actions| - 1], actions[|actions| - 1];
      ApartIsSerial(requests, init, slot);
      StepIsWellKept(requests, Run(requests, init), last);
      StepIsSerial(requests, Run(requests, init), last, slot);
    }
  }

  // ---------------------------------------------------------------- transactions that overlap

  /** The identifier was committed by one of the first `n` transactions. */
  ghost predicate IsFromFirst(requests: nat -> Request, order: seq<nat>, n: int, id: string) {
    exists m: nat :: m < n && m < |order| && id in IdsOf(requests, order[m])
  }

  ghost predicate AreFromFirst(requests: nat -> Request, order: seq<nat>, n: int, ids: set<string>) {
    forall id :: id in ids ==> IsFromFirst(requests, order, n, id)
  }

  ghost predicate ChangeIsTraced(requests: nat -> Request, w: World, t: nat)
    requires t in w.open
  {
    var c := w.open[t];
    && t in w.known && t !in w.order && c.began <= |w.order|
    && AreFromFirst(requests, w.order, c.began, c.before)
    && Ids(c.inserted) <= c.handled <= IdsOf(requests, t)
  }

  ghost predicate AuditIsTraced(requests: nat -> Request, w: World, k: nat)
    requires k < |w.audits| == |w.order| == |w.begins|
  {
    && w.audits[k].after == IdsOf(requests, w.order[k])
    && w.begins[k] <= k && AreFromFirst(requests, w.order, w.begins[k], w.audits[k].before)
  }

  /** Everything read comes from transactions that had committed before. */
  ghost predicate IsTraced(requests: nat -> Request, w: World) {
    && |w.audits| == |w.order| == |w.begins|
    && (forall t :: t in w.order ==> t in w.known)
    && (forall i, j :: 0 <= i < j < |w.order| ==> w.order[i] != w.order[j])
    && AreFromFirst(requests, w.order, |w.order|, Ids(w.live))
    && (forall t :: t in w.open ==> ChangeIsTraced(requests, w, t))
    && (forall k: nat :: k < |w.order| ==> AuditIsTraced(requests, w, k))
  }

  lemma StillFromFirst(requests: nat -> Request, order: seq<nat>, t: nat, n: int, ids: set<string>)
    requires AreFromFirst(requests, order, n, ids)
    ensures AreFromFirst(requests, order + [t], n, ids)
  {
    forall id | id in ids ensures IsFromFirst(requests, order + [t], n, id) {
      assert IsFromFirst(requests, order, n, id);
      var m: nat :| m < n && m < |order| && id in IdsOf(requests, order[m]);
      assert (order + [t])[m] == order[m];
    }
  }

  lemma LiveIsTraced(requests: nat -> Request, w: World, t: nat)
    requires IsTraced(requests, w) && t in w.open
    ensures var next := Committed(requests, w, t); AreFromFirst(requests, next.order, |next.order|, Ids(next.live))
  {
    var c, next := w.open[t], Committed(requests, w, t);
    assert ChangeIsTraced(requests, w, t);
    forall id | id in Ids(next.live) ensures IsFromFirst(requests, next.order, |next.order|, id) {
      if id in Ids(c.inserted) {
        assert next.order[|w.order|] == t;
      } else {
        assert id in Ids(w.live);
        assert IsFromFirst(requests, w.order, |w.order|, id);
        var m: nat :| m < |w.order| && id in IdsOf(requests, w.order[m]);
        assert next.order[m] == w.order[m];
      }
    }
  }

  lemma AuditsAreTraced(requests: nat -> Request, w: World, t: nat, k: nat)
    requires IsTraced(requests, w) && t in w.open && k <= |w.order|
    ensures AuditIsTraced(requests, Committed(requests, w, t), k)
  {
    if k < |w.order| {
      assert AuditIsTraced(requests, w, k);
      StillFromFirst(requests, w.order, t, w.begins[k], w.audits[k].before);
    } else {
      assert ChangeIsTraced(requests, w, t);
      StillFromFirst(requests, w.order, t, w.open[t].began, w.open[t].before);
    }
  }

  lemma CommitIsTraced(requests: nat -> Request, w: World, t: nat)
    requires IsTraced(requests, w) && t in w.open
    ensures IsTraced(requests, Committed(requests, w, t))
  {
    var next := Committed(requests, w, t);
    LiveIsTraced(requests, w, t);
    assert ChangeIsTraced(requests, w, t);
    forall u | u in next.open ensures ChangeIsTraced(requests, next, u) {
      assert ChangeIsTraced(requests, w, u);
      StillFromFirst(requests, w.order, t, w.open[u].began, w.open[u].before);
    }
    forall k: nat | k < |next.order| ensures AuditIsTraced(requests, next, k) {
      AuditsAreTraced(requests, w, t, k);
    }
  }

  lemma OpenIsTraced(requests: nat -> Request, w: World, a: Action, t: nat)
    requires IsTraced(requests, w) && !a.Commit? && t in Step(requests, w, a).open
    ensures ChangeIsTraced(requests, Step(requests, w, a), t)
  {
    if t in w.open {
      assert ChangeIsTraced(requests, w, t);
    }
  }

  lemma StepIsTraced(requests: nat -> Request, w: World, a: Action)
    requires IsTraced(requests, w)
    ensures IsTraced(requests, Step(requests, w, a))
  {
    if a.Commit? {
      if IsIn(w, a.t, Writing) {
        CommitIsTraced(requests, w, a.t);
      }
    } else {
      var next := Step(requests, w, a);
      forall t | t in next.open ensures ChangeIsTraced(requests, next, t) {
        OpenIsTraced(requests, w, a, t);
      }
      forall k: nat | k < |next.order| ensures AuditIsTraced(requests, next, k) {
        assert AuditIsTraced(requests, w, k);
      }
    }
  }

  lemma {:induction false} RunIsTraced(requests: nat -> Request, actions: seq<Action>)
    ensures IsTraced(requests, Run(requests, actions))
  {
    if actions != [] {
      RunIsTraced(requests, actions[..|actions| - 1]);
      StepIsTraced(requests, Run(requests, actions[..|actions| - 1]), actions[|actions| - 1]);
    }
  }

  /** Different requests bind different knowledge bases, and each binds some. */
  ghost predicate AreDistinct(requests: nat -> Request) {
    && (forall t :: IdsOf(requests, t) != {})
    && (forall t, u :: t != u ==> IdsOf(requests, t) !! IdsOf(requests, u))
  }

  lemma {:induction false} BrokenAt(audits: seq<Audit>, k: nat)
    requires k < |audits| && audits[k].before != Replayed(audits[..k], audits[k].slot)
    ensures !IsChained(audits)
  {
    if k < |audits| - 1 {
      var init := audits[..|audits| - 1];
      assert init[..k] == audits[..k];
      BrokenAt(init, k);
    }
  }

  lemma EarlierIsOther(requests: nat -> Request, order: seq<nat>, n: int, id: string, k: nat)
    requires AreDistinct(requests) && IsFromFirst(requests, order, n, id) && n <= k < |order|
    requires forall i, j :: 0 <= i < j < |order| ==> order[i] != order[j]
    ensures id !in IdsOf(requests, order[k])
  {
    var m: nat :| m < n && m < |order| && id in IdsOf(requests, order[m]);
    assert IdsOf(requests, order[m]) !! IdsOf(requests, order[k]);
  }

  /** A transaction that began before another one's commit did not read what that one bound. */
  lemma OverlapReadsOther(requests: nat -> Request, w: World, k: nat)
    requires IsTraced(requests, w) && AreDistinct(requests)
    requires 1 <= k < |w.order| && w.begins[k] < k
    ensures w.audits[k].before != w.audits[k - 1].after
  {
    assert AuditIsTraced(requests, w, k) && AuditIsTraced(requests, w, k - 1);
    forall id | id in w.audits[k].before ensures id !in w.audits[k - 1].after {
      EarlierIsOther(requests, w.order, w.begins[k], id, k - 1);
    }
    var id :| id in w.audits[k - 1].after;
    assert id !in w.audits[k].before;
  }

  lemma OverlapBreaksChain(requests: nat -> Request, w: World, slot: Slot, k: nat)
    requires IsTraced(requests, w) && AreDistinct(requests)
    requires AreOfSlot(w.audits, slot)
    requires k < |w.order| && w.begins[k] != k
    ensures !IsChained(w.audits)
  {
    assert AuditIsTraced(requests, w, k);
    OverlapReadsOther(requests, w, k);
    assert w.audits[..k][..k - 1] == w.audits[..k - 1];
    BrokenAt(w.audits, k);
  }

  predicate AreOfSlot(audits: seq<Audit>, slot: Slot) {
    forall i :: 0 <= i < |audits| ==> audits[i].slot == slot
  }

  lemma {:induction false} AuditsAreOfSlot(requests: nat -> Request, actions: seq<Action>, slot: Slot)
    requires AreFor(requests, slot)
    ensures AreOfSlot(Run(requests, actions).audits, slot)
  {
    if actions != [] {
      var init, last := actions[..|actions| - 1], actions[|actions| - 1];
      AuditsAreOfSlot(requests, init, slot);
      var q := requests(last.t);
      assert q.key.Some? && Slot(q.context.tenantId, q.kind, q.key.value) == slot;
    }
  }

  /** The log chains, and replaying it gives what the slot is bound to. */
  predicate IsFaithful(w: World, slot: Slot) {
    IsChained(w.audits) && Replayed(w.audits, slot) == Ids(w.live)
  }

  lemma ApartIsFaithful(requests: nat -> Request, actions: seq<Action>, slot: Slot)
    requires AreFor(requests, slot) && AreApart(Run(requests, actions))
    ensures IsFaithful(Run(requests, actions), slot)
  {
    var w := Run(requests, actions);
    var done := InOrder(requests, w.order);
    ApartIsSerial(requests, actions, slot);
    LogIsFaithful(done, slot);
    TablesAgree(done, slot);
  }

  /** For requests that bind different knowledge bases: log and rows of the slot agree and chain exactly
      when no two committed transactions overlapped. Without an overlap they do for any requests. */
  lemma FaithfulIffApart(requests: nat -> Request, actions: seq<Action>, slot: Slot)
    requires AreFor(requests, slot)
    ensures AreApart(Run(requests, actions)) ==> IsFaithful(Run(requests, actions), slot)
    ensures AreDistinct(requests) ==>
              (AreApart(Run(requests, actions))
               <==> var w := Run(requests, actions); IsChained(w.audits) && Replayed(w.audits, slot) == Ids(w.live))
  {
    var w := Run(requests, actions);
    if AreApart(w) {
      ApartIsFaithful(requests, actions, slot);
    } else if AreDistinct(requests) {
      RunIsTraced(requests, actions);
      AuditsAreOfSlot(requests, actions, slot);
      var k: nat :| k < |w.order| && w.begins[k] != k;
      OverlapBreaksChain(requests, w, slot, k);
    }
  }

  // ---------------------------------------------------------------- a case

  lemma RunNext(requests: nat -> Request, actions: seq<Action>, a: Action)
    ensures Run(requests, actions + [a]) == Step(requests, Run(requests, actions), a)
  {
    assert (actions + [a])[..|actions|] == actions;
  }

  const FRESH := Change(HasRead, {}, {}, {}, {}, {}, 0)

  /** A change of an empty slot that has inserted one row. */
  function OneRow(t: nat, id: string): Change {
    Change(Writing, {}, {}, {}, {Version(id, t)}, {id}, 0)
  }

  function WritesOne(actions: seq<Action>, t: nat, id: string): seq<Action> {
    actions + [Find(t)] + [Delete(t)] + [Insert(t, id)]
  }

  lemma FindsNothing(requests: nat -> Request, w: World, t: nat)
    requires w.live == {} && t in w.open && w.open[t] == FRESH
    ensures Step(requests, Step(requests, w, Find(t)), Delete(t)) == Moved(w, t, FRESH.(phase := Writing))
  {
    var found := Step(requests, w, Find(t));
    assert found.open[t].found * found.live == {};
    assert !AreHeld(found, t, {});
    assert w.open[t := FRESH.(phase := Deleting)][t := FRESH.(phase := Writing)] == w.open[t := FRESH.(phase := Writing)];
  }

  lemma InsertsOne(requests: nat -> Request, w: World, t: nat, id: string)
    requires w.live == {} && t in w.open && w.open[t] == FRESH.(phase := Writing)
    requires IdsOf(requests, t) == {id} && !IsHeld(w, t, id)
    ensures Step(requests, w, Insert(t, id)) == Moved(w, t, OneRow(t, id))
  {
    var c := w.open[t];
    assert w.live - c.deleted == {} && id in IdsOf(requests, t) - c.handled;
    assert c.handled + {id} == {id} && c.inserted + {Version(id, t)} == {Version(id, t)};
    assert Inserted(w, t, id) == OneRow(t, id);
  }

  lemma RowWritten(requests: nat -> Request, actions: seq<Action>, t: nat, id: string)
    requires var w := Run(requests, actions); w.live == {} && t in w.open && w.open[t] == FRESH && !IsHeld(w, t, id)
    requires IdsOf(requests, t) == {id}
    ensures Run(requests, WritesOne(actions, t, id)) == Moved(Run(requests, actions), t, OneRow(t, id))
  {
    var w := Run(requests, actions);
    RunNext(requests, actions, Find(t));
    RunNext(requests, actions + [Find(t)], Delete(t));
    RunNext(requests, actions + [Find(t)] + [Delete(t)], Insert(t, id));
    FindsNothing(requests, w, t);
    var deleted := Moved(w, t, FRESH.(phase := Writing));
    assert forall u :: u in deleted.open && u != t ==> u in w.open && deleted.open[u] == w.open[u];
    InsertsOne(requests, deleted, t, id);
    assert deleted.open[t := OneRow(t, id)] == w.open[t := OneRow(t, id)];
  }

  /** Two changes of an empty slot, the second of which reads before the first one commits. */
  function Overlapping(a: string, b: string): seq<Action> {
    WritesOne(WritesOne([] + [Read(0)] + [Read(1)], 0, a), 1, b) + [Commit(0)] + [Commit(1)]
  }

  lemma BothRead(requests: nat -> Request)
    ensures Run(requests, [] + [Read(0)] + [Read(1)]) == World({}, map[0 := FRESH, 1 := FRESH], [], [], [], {0, 1})
  {
    RunNext(requests, [], Read(0));
    RunNext(requests, [] + [Read(0)], Read(1));
    assert Ids({}) == {};
  }

  lemma BothWritten(requests: nat -> Request, a: string, b: string)
    requires IdsOf(requests, 0) == {a} && IdsOf(requests, 1) == {b} && a != b
    ensures Run(requests, WritesOne(WritesOne([] + [Read(0)] + [Read(1)], 0, a), 1, b))
         == World({}, map[0 := OneRow(0, a), 1 := OneRow(1, b)], [], [], [], {0, 1})
  {
    BothRead(requests);
    RowWritten(requests, [] + [Read(0)] + [Read(1)], 0, a);
    RowWritten(requests, WritesOne([] + [Read(0)] + [Read(1)], 0, a), 1, b);
  }

  /** It happens: the slot is left with both knowledge bases, and both entries of the log start from
      nothing. */
  lemma OverlapLeavesBoth(requests: nat -> Request, a: string, b: string)
    requires IdsOf(requests, 0) == {a} && IdsOf(requests, 1) == {b} && a != b
    ensures var w := Run(requests, Overlapping(a, b));
            && Ids(w.live) == {a, b} && |w.audits| == 2
            && w.audits[0].before == w.audits[1].before == {}
            && w.audits[0].after == {a} && w.audits[1].after == {b}
  {
    var written := WritesOne(WritesOne([] + [Read(0)] + [Read(1)], 0, a), 1, b);
    BothWritten(requests, a, b);
    RunNext(requests, written, Commit(0));
    RunNext(requests, written + [Commit(0)], Commit(1));
    var rows := {Version(a, 0), Version(b, 1)};
    assert Run(requests, Overlapping(a, b)).live == rows;
    assert Version(a, 0) in rows && Version(b, 1) in rows;
  }
}
