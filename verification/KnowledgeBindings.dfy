/** Knowledge-base bindings of roles and digital employees, and the audit log of their changes. */
module KnowledgeBindings {
  import opened Options
  import opened Text

  datatype Kind = Role | Agent

  datatype Slot = Slot(tenantId: string, kind: Kind, key: string)

  datatype Audit = Audit(slot: Slot, before: set<string>, after: set<string>, actorId: string)

  datatype Context = Context(tenantId: string, userId: string, canManage: bool)

  /** The identifiers without blanks around them, and without blank ones. */
  function Clean(ids: set<string>): set<string> {
    (set id | id in ids :: RStrip(LStrip(id))) - {""}
  }

  /** Bindings of one kind by tenant and key. */
  type Scopes = map<(string, string), set<string>>

  function Lookup(scopes: Scopes, tenantId: string, key: string): set<string> {
    if (tenantId, key) in scopes then scopes[(tenantId, key)] else {}
  }

  // ---------------------------------------------------------------- in memory

  datatype Registry = Registry(roles: Scopes, agents: Scopes, audits: seq<Audit>)

  function ScopeOf(r: Registry, slot: Slot): set<string> {
    Lookup(if slot.kind == Role then r.roles else r.agents, slot.tenantId, slot.key)
  }

  /** A request that is not allowed or has no valid key changes nothing. */
  function Bound(r: Registry, c: Context, kind: Kind, key: Option<string>, ids: set<string>): Registry {
    if !c.canManage || key.None? then r
    else
      var slot := Slot(c.tenantId, kind, key.value);
      Registry(if kind == Role then r.roles[(c.tenantId, key.value) := Clean(ids)] else r.roles,
               if kind == Agent then r.agents[(c.tenantId, key.value) := Clean(ids)] else r.agents,
               r.audits + [Audit(slot, ScopeOf(r, slot), Clean(ids), c.userId)])
  }

  class KnowledgeAccessRegistry {
    /** The directory's key rule; `None` for a key that is not valid. */
    const normalize: string -> Option<string>
    var roleScopes: Scopes
    var agentScopes: Scopes
    var audits: seq<Audit>

    constructor (normalize: string -> Option<string>)
      ensures this.normalize == normalize
      ensures View() == Registry(map[], map[], [])
    {
      this.normalize := normalize;
      roleScopes, agentScopes, audits := map[], map[], [];
    }

    function View(): Registry
      reads this
    {
      Registry(roleScopes, agentScopes, audits)
    }

    method BindRole(c: Context, key: string, ids: set<string>) returns (done: bool)
      modifies this
      ensures done <==> c.canManage && normalize(key).Some?
      ensures View() == Bound(old(View()), c, Role, normalize(key), ids)
    {
      if !c.canManage || normalize(key).None? {
        return false;
      }
      var k := normalize(key).value;
      var before := if (c.tenantId, k) in roleScopes then roleScopes[(c.tenantId, k)] else {};
      roleScopes := roleScopes[(c.tenantId, k) := Clean(ids)];
      audits := audits + [Audit(Slot(c.tenantId, Role, k), before, Clean(ids), c.userId)];
      done := true;
    }

    method BindAgent(c: Context, key: string, ids: set<string>) returns (done: bool)
      modifies this
      ensures done <==> c.canManage && normalize(key).Some?
      ensures View() == Bound(old(View()), c, Agent, normalize(key), ids)
    {
      if !c.canManage || normalize(key).None? {
        return false;
      }
      var k := normalize(key).value;
      var before := if (c.tenantId, k) in agentScopes then agentScopes[(c.tenantId, k)] else {};
      agentScopes := agentScopes[(c.tenantId, k) := Clean(ids)];
      audits := audits + [Audit(Slot(c.tenantId, Agent, k), before, Clean(ids), c.userId)];
      done := true;
    }

    /** The agent's bindings when an agent is given, else the role's; an invalid key has none. */
    function Resolve(tenantId: string, roleKey: string, agentKey: Option<string>): (ids: set<string>)
      reads this
      ensures agentKey.Some? && normalize(agentKey.value).Some? ==>
                ids == ScopeOf(View(), Slot(tenantId, Agent, normalize(agentKey.value).value))
      ensures agentKey.None? && normalize(roleKey).Some? ==>
                ids == ScopeOf(View(), Slot(tenantId, Role, normalize(roleKey).value))
    {
      if agentKey.Some? then
        Lookup(agentScopes, tenantId, if normalize(agentKey.value).Some? then normalize(agentKey.value).value else "")
      else Lookup(roleScopes, tenantId, if normalize(roleKey).Some? then normalize(roleKey).value else "")
    }
  }

  // ---------------------------------------------------------------- in the database

  datatype Row = Row(slot: Slot, id: string)

  datatype Tables = Tables(rows: set<Row>, audits: seq<Audit>)

  function RowsOf(rows: set<Row>, slot: Slot): set<string> {
    set row | row in rows && row.slot == slot :: row.id
  }

  function OtherRows(rows: set<Row>, slot: Slot): set<Row> {
    set row | row in rows && row.slot != slot
  }

  function NewRows(slot: Slot, ids: set<string>): set<Row> {
    set id | id in ids :: Row(slot, id)
  }

  lemma OneMoreRow(slot: Slot, ids: set<string>, id: string)
    ensures NewRows(slot, ids + {id}) == NewRows(slot, ids) + {Row(slot, id)}
  {
  }

  class PostgresKnowledgeAccessRegistry {
    const normalize: string -> Option<string>
    var rows: set<Row>
    var audits: seq<Audit>

    constructor (normalize: string -> Option<string>)
      ensures this.normalize == normalize && rows == {} && audits == []
    {
      this.normalize := normalize;
      rows, audits := {}, [];
    }

    method InsertRows(slot: Slot, ids: set<string>)
      modifies this`rows
      ensures rows == old(rows) + NewRows(slot, ids)
    {
      var left, inserted: set<string> := ids, {};
      while left != {}
        invariant inserted + left == ids
        invariant rows == old(rows) + NewRows(slot, inserted)
        decreases |left|
      {
        var id :| id in left;
        OneMoreRow(slot, inserted, id);
        rows, left, inserted := rows + {Row(slot, id)}, left - {id}, inserted + {id};
      }
      assert inserted == ids;
    }

    /** One transaction: read, delete, insert one by one, audit. */
    method Bind(c: Context, kind: Kind, key: string, ids: set<string>) returns (done: bool)
      modifies this
      ensures done <==> c.canManage && normalize(key).Some?
      ensures Tables(rows, audits) == BoundInTables(old(Tables(rows, audits)), c, kind, normalize(key), ids)
    {
      if !c.canManage || normalize(key).None? {
        return false;
      }
      var slot := Slot(c.tenantId, kind, normalize(key).value);
      var before := RowsOf(rows, slot);
      var kept := OtherRows(rows, slot);
      var clean := Clean(ids);
      rows := kept;
      InsertRows(slot, clean);
      audits := audits + [Audit(slot, before, clean, c.userId)];
      done := true;
    }
  }

  /** The rows of the slot are replaced, the others stay. */
  function BoundInTables(t: Tables, c: Context, kind: Kind, key: Option<string>, ids: set<string>): Tables {
    if !c.canManage || key.None? then t
    else
      var slot := Slot(c.tenantId, kind, key.value);
      Tables(OtherRows(t.rows, slot) + NewRows(slot, Clean(ids)),
             t.audits + [Audit(slot, RowsOf(t.rows, slot), Clean(ids), c.userId)])
  }

  // ---------------------------------------------------------------- histories

  datatype Request = Request(context: Context, kind: Kind, key: Option<string>, ids: set<string>)

  function History(requests: seq<Request>): Registry {
    if requests == [] then Registry(map[], map[], [])
    else
      var q := requests[|requests| - 1];
      Bound(History(requests[..|requests| - 1]), q.context, q.kind, q.key, q.ids)
  }

  function HistoryInTables(requests: seq<Request>): Tables {
    if requests == [] then Tables({}, [])
    else
      var q := requests[|requests| - 1];
      BoundInTables(HistoryInTables(requests[..|requests| - 1]), q.context, q.kind, q.key, q.ids)
  }

  /** What the log says the slot is bound to: the newest entry for it. */
  function Replayed(audits: seq<Audit>, slot: Slot): set<string> {
    if audits == [] then {}
    else if audits[|audits| - 1].slot == slot then audits[|audits| - 1].after
    else Replayed(audits[..|audits| - 1], slot)
  }

  /** Every entry starts from what the entries before it lead to. */
  predicate IsChained(audits: seq<Audit>) {
    audits == []
    || (var last := |audits| - 1;
        audits[last].before == Replayed(audits[..last], audits[last].slot) && IsChained(audits[..last]))
  }

  /** What a request does: without the right to manage, or with a key that is not valid, nothing; else its
      slot is bound to the identifiers that are not blank, each without blanks around it, every other
      slot keeps what it had, and one entry says what the slot was bound to before and after, and who
      did it. */
  lemma WhatIsBound(r: Registry, q: Request, slot: Slot)
    ensures var next := Bound(r, q.context, q.kind, q.key, q.ids);
            var allowed := q.context.canManage && q.key.Some?;
            && (!allowed ==> next == r)
            && (allowed ==>
                  var at := Slot(q.context.tenantId, q.kind, q.key.value);
                  && (slot != at ==> ScopeOf(next, slot) == ScopeOf(r, slot))
                  && (forall id :: id in ScopeOf(next, at) <==> id != "" && exists raw :: raw in q.ids && id == RStrip(LStrip(raw)))
                  && next.audits == r.audits + [Audit(at, ScopeOf(r, at), ScopeOf(next, at), q.context.userId)])
  {
  }

  /** The audit log is a faithful history: its entries chain, and replaying it gives exactly what each
      slot is bound to. */
  lemma {:induction false} LogIsFaithful(requests: seq<Request>, slot: Slot)
    ensures IsChained(History(requests).audits)
    ensures Replayed(History(requests).audits, slot) == ScopeOf(History(requests), slot)
  {
    if requests != [] {
      var init, q := requests[..|requests| - 1], requests[|requests| - 1];
      LogIsFaithful(init, slot);
      if q.context.canManage && q.key.Some? {
        var at := Slot(q.context.tenantId, q.kind, q.key.value);
        LogIsFaithful(init, at);
        var audits := History(requests).audits;
        assert audits[..|audits| - 1] == History(init).audits;
      }
    }
  }

  /** The database keeps the same log and the same bindings. */
  lemma {:induction false} TablesAgree(requests: seq<Request>, slot: Slot)
    ensures HistoryInTables(requests).audits == History(requests).audits
    ensures RowsOf(HistoryInTables(requests).rows, slot) == ScopeOf(History(requests), slot)
  {
    if requests != [] {
      var init, q := requests[..|requests| - 1], requests[|requests| - 1];
      TablesAgree(init, slot);
      if q.context.canManage && q.key.Some? {
        var at := Slot(q.context.tenantId, q.kind, q.key.value);
        TablesAgree(init, at);
        RowsAfter(HistoryInTables(init).rows, at, Clean(q.ids), slot);
      }
    }
  }

  lemma RowsAfter(rows: set<Row>, at: Slot, ids: set<string>, slot: Slot)
    ensures RowsOf(OtherRows(rows, at) + NewRows(at, ids), slot)
         == if slot == at then ids else RowsOf(rows, slot)
  {
    var after := OtherRows(rows, at) + NewRows(at, ids);
    forall id ensures id in RowsOf(after, slot) <==> Row(slot, id) in after {
      assert Row(slot, id).slot == slot && Row(slot, id).id == id;
    }
    forall id ensures id in RowsOf(rows, slot) <==> Row(slot, id) in rows {
      assert Row(slot, id).slot == slot && Row(slot, id).id == id;
    }
  }

  /** The requests of one tenant, in order. */
  function Only(requests: seq<Request>, tenantId: string): seq<Request> {
    if requests == [] then []
    else
      var last := requests[|requests| - 1];
      Only(requests[..|requests| - 1], tenantId) + (if last.context.tenantId == tenantId then [last] else [])
  }

  function AuditsOf(audits: seq<Audit>, tenantId: string): seq<Audit> {
    if audits == [] then []
    else
      var last := audits[|audits| - 1];
      AuditsOf(audits[..|audits| - 1], tenantId) + (if last.slot.tenantId == tenantId then [last] else [])
  }

  /** What a request does to the bindings: one slot is set, the others stay. */
  lemma ScopeAfter(r: Registry, q: Request, slot: Slot)
    ensures ScopeOf(Bound(r, q.context, q.kind, q.key, q.ids), slot)
         == if q.context.canManage && q.key.Some? && slot == Slot(q.context.tenantId, q.kind, q.key.value)
            then Clean(q.ids) else ScopeOf(r, slot)
  {
  }

  lemma AuditsOfNext(audits: seq<Audit>, next: Audit, tenantId: string)
    ensures AuditsOf(audits + [next], tenantId)
         == AuditsOf(audits, tenantId) + (if next.slot.tenantId == tenantId then [next] else [])
  {
    assert (audits + [next])[..|audits|] == audits;
  }

  /** Both registries bind the tenant's slots alike. */
  ghost predicate SameScopes(a: Registry, b: Registry, tenantId: string) {
    forall slot: Slot :: slot.tenantId == tenantId ==> ScopeOf(a, slot) == ScopeOf(b, slot)
  }

  lemma OwnScopes(own: Registry, whole: Registry, q: Request, tenantId: string)
    requires SameScopes(own, whole, tenantId)
    ensures SameScopes(Bound(own, q.context, q.kind, q.key, q.ids), Bound(whole, q.context, q.kind, q.key, q.ids),
                       tenantId)
  {
    var own', whole' := Bound(own, q.context, q.kind, q.key, q.ids), Bound(whole, q.context, q.kind, q.key, q.ids);
    forall slot: Slot | slot.tenantId == tenantId ensures ScopeOf(own', slot) == ScopeOf(whole', slot) {
      ScopeAfter(own, q, slot);
      ScopeAfter(whole, q, slot);
    }
  }

  lemma OtherScopes(own: Registry, whole: Registry, q: Request, tenantId: string)
    requires SameScopes(own, whole, tenantId) && q.context.tenantId != tenantId
    ensures SameScopes(own, Bound(whole, q.context, q.kind, q.key, q.ids), tenantId)
  {
    var whole' := Bound(whole, q.context, q.kind, q.key, q.ids);
    forall slot: Slot | slot.tenantId == tenantId ensures ScopeOf(own, slot) == ScopeOf(whole', slot) {
      ScopeAfter(whole, q, slot);
    }
  }

  lemma OwnAudits(own: Registry, whole: Registry, q: Request)
    requires SameScopes(own, whole, q.context.tenantId)
    requires AuditsOf(whole.audits, q.context.tenantId) == own.audits
    ensures AuditsOf(Bound(whole, q.context, q.kind, q.key, q.ids).audits, q.context.tenantId)
         == Bound(own, q.context, q.kind, q.key, q.ids).audits
  {
    if q.context.canManage && q.key.Some? {
      var at := Slot(q.context.tenantId, q.kind, q.key.value);
      AuditsOfNext(whole.audits, Audit(at, ScopeOf(whole, at), Clean(q.ids), q.context.userId), at.tenantId);
    }
  }

  lemma OtherAudits(whole: Registry, q: Request, tenantId: string)
    requires q.context.tenantId != tenantId
    ensures AuditsOf(Bound(whole, q.context, q.kind, q.key, q.ids).audits, tenantId) == AuditsOf(whole.audits, tenantId)
  {
    if q.context.canManage && q.key.Some? {
      var at := Slot(q.context.tenantId, q.kind, q.key.value);
      AuditsOfNext(whole.audits, Audit(at, ScopeOf(whole, at), Clean(q.ids), q.context.userId), tenantId);
    }
  }

  /** Tenants do not see each other: a tenant's bindings and log are those of its own requests alone. */
  lemma {:induction false} TenantsAreApart(requests: seq<Request>, tenantId: string)
    ensures SameScopes(History(Only(requests, tenantId)), History(requests), tenantId)
    ensures AuditsOf(History(requests).audits, tenantId) == History(Only(requests, tenantId)).audits
  {
    if requests != [] {
      var init, q := requests[..|requests| - 1], requests[|requests| - 1];
      TenantsAreApart(init, tenantId);
      var mine := Only(init, tenantId);
      if q.context.tenantId == tenantId {
        OwnScopes(History(mine), History(init), q, tenantId);
        OwnAudits(History(mine), History(init), q);
        assert (mine + [q])[..|mine|] == mine;
      } else {
        OtherScopes(History(mine), History(init), q, tenantId);
        OtherAudits(History(init), q, tenantId);
        assert Only(requests, tenantId) == mine;
      }
    }
  }
}
