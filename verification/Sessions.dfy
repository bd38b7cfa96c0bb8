/** The list of revoked sessions, purged as it is used, and what a logged-out token can still do. */
module Sessions {
  type Revoked = map<string, int>

  function Purged(items: Revoked, now: int): Revoked {
    map id | id in items && items[id] > now :: items[id]
  }

  predicate Answer(items: Revoked, id: string, now: int) {
    id in items && items[id] > now
  }

  /** Purges on writes and on reads. */
  class InMemorySessionRevocationStore {
    var items: Revoked

    constructor ()
      ensures items == map[]
    {
      items := map[];
    }

    method Revoke(id: string, expiresAt: int, purgeAt: int)
      modifies this
      ensures items == Purged(old(items)[id := expiresAt], purgeAt)
    {
      items := items[id := expiresAt];
      Purge(purgeAt);
    }

    method IsRevoked(id: string, purgeAt: int, checkAt: int) returns (revoked: bool)
      modifies this
      ensures items == Purged(old(items), purgeAt)
      ensures revoked <==> Answer(items, id, checkAt)
    {
      Purge(purgeAt);
      revoked := id in items && items[id] > checkAt;
    }

    method Purge(now: int)
      modifies this
      ensures items == Purged(old(items), now)
    {
      var keys := set id | id in items && items[id] <= now;
      var start := items;
      while keys != {}
        invariant forall id :: id in items <==> id in start && (start[id] > now || id in keys)
        invariant forall id :: id in items ==> items[id] == start[id]
        invariant forall id :: id in keys ==> id in start && start[id] <= now
        decreases |keys|
      {
        var key :| key in keys;
        items, keys := items - {key}, keys - {key};
      }
    }
  }

  /** Purges on writes only; each method is one transaction with one clock reading. */
  class PostgresSessionRevocationStore {
    var rows: Revoked

    constructor ()
      ensures rows == map[]
    {
      rows := map[];
    }

    method Revoke(id: string, expiresAt: int, now: int)
      modifies this
      ensures rows == Purged(old(rows)[id := expiresAt], now)
    {
      rows := rows[id := expiresAt];
      rows := map key | key in rows && rows[key] > now :: rows[key];
    }

    method IsRevoked(id: string, now: int) returns (revoked: bool)
      ensures revoked <==> Answer(rows, id, now)
    {
      revoked := id in rows && rows[id] > now;
    }
  }

  /** An entry goes at its expiry, not before; the answer changes at the same moment. */
  lemma ExpiryEnds(items: Revoked, id: string, now: int)
    ensures id in Purged(items, now) <==> id in items && now < items[id]
    ensures id in Purged(items, now) ==> Purged(items, now)[id] == items[id]
    ensures Answer(items, id, now) <==> id in Purged(items, now)
  {
  }

  // ---------------------------------------------------------------- purging cannot be seen

  /** Uses of the list with the clock readings they make. */
  datatype Use = Revoke(id: string, expiresAt: int, purgeAt: int) | Ask(id: string, purgeAt: int, checkAt: int)

  function Earliest(use: Use): int {
    use.purgeAt
  }

  function Latest(use: Use): int {
    if use.Ask? then use.checkAt else use.purgeAt
  }

  /** The clock does not go back. */
  predicate InOrder(uses: seq<Use>) {
    && (forall i :: 0 <= i < |uses| ==> Earliest(uses[i]) <= Latest(uses[i]))
    && (forall i, j :: 0 <= i < j < |uses| ==> Latest(uses[i]) <= Earliest(uses[j]))
  }

  /** Which uses purge: reads and writes in memory, writes only in the database. */
  datatype Backend = Memory | Database

  function Step(b: Backend, items: Revoked, use: Use): Revoked {
    match use
    case Revoke(id, expiresAt, purgeAt) => Purged(items[id := expiresAt], purgeAt)
    case Ask(_, purgeAt, _) => if b == Memory then Purged(items, purgeAt) else items
  }

  /** What each store holds after a use: a revocation leaves what has not expired, and so does a question in
      memory; a question in the database leaves everything. */
  lemma WhatIsHeld(b: Backend, items: Revoked, use: Use, id: string)
    ensures var next := Step(b, items, use);
            && (use.Revoke? ==> (id in next <==> (if id == use.id then use.purgeAt < use.expiresAt else id in items && use.purgeAt < items[id])))
            && (use.Revoke? && id == use.id && id in next ==> next[id] == use.expiresAt)
            && (use.Ask? && b == Memory ==> (id in next <==> id in items && use.purgeAt < items[id]))
            && (use.Ask? && b == Database ==> next == items)
            && (id in next && !(use.Revoke? && id == use.id) ==> next[id] == items[id])
  {
  }

  function Answered(items: Revoked, use: Use): seq<bool> {
    if use.Ask? then [Answer(items, use.id, use.checkAt)] else []
  }

  /** The answers given one after the other. */
  function Answers(b: Backend, items: Revoked, uses: seq<Use>): seq<bool>
    decreases uses
  {
    if uses == [] then []
    else
      var next := Step(b, items, uses[0]);
      Answered(next, uses[0]) + Answers(b, next, uses[1..])
  }

  /** The same with a list that is never purged. */
  function Unpurged(items: Revoked, uses: seq<Use>): seq<bool>
    decreases uses
  {
    if uses == [] then []
    else
      var next := if uses[0].Revoke? then items[uses[0].id := uses[0].expiresAt] else items;
      Answered(next, uses[0]) + Unpurged(next, uses[1..])
  }

  /** The lists agree on everything that has not expired by `now`. */
  ghost predicate Agree(items: Revoked, full: Revoked, now: int) {
    && (forall id :: id in items ==> id in full && items[id] == full[id])
    && (forall id :: id in full && full[id] > now ==> id in items)
  }

  lemma StepAgrees(b: Backend, items: Revoked, full: Revoked, use: Use, now: int)
    requires Agree(items, full, now) && now <= Earliest(use) <= Latest(use)
    ensures var next := if use.Revoke? then full[use.id := use.expiresAt] else full;
            && Agree(Step(b, items, use), next, Earliest(use))
            && Agree(Step(b, items, use), next, Latest(use))
            && Answered(Step(b, items, use), use) == Answered(next, use)
  {
  }

  /** Whatever is purged, the answers are those of a list that keeps everything. */
  lemma {:induction false} PurgingIsInvisible(b: Backend, items: Revoked, full: Revoked, uses: seq<Use>, now: int)
    requires InOrder(uses) && (uses != [] ==> now <= Earliest(uses[0])) && Agree(items, full, now)
    ensures Answers(b, items, uses) == Unpurged(full, uses)
    decreases uses
  {
    if uses != [] {
      var next := if uses[0].Revoke? then full[uses[0].id := uses[0].expiresAt] else full;
      StepAgrees(b, items, full, uses[0], now);
      PurgingIsInvisible(b, Step(b, items, uses[0]), next, uses[1..], Latest(uses[0]));
    }
  }

  /** Both stores answer alike from the start on. */
  lemma StoresAnswerAlike(uses: seq<Use>)
    requires InOrder(uses)
    ensures Answers(Memory, map[], uses) == Unpurged(map[], uses) == Answers(Database, map[], uses)
  {
    var now := if uses == [] then 0 else Earliest(uses[0]);
    PurgingIsInvisible(Memory, map[], map[], uses, now);
    PurgingIsInvisible(Database, map[], map[], uses, now);
  }

  // ---------------------------------------------------------------- a token after logout

  function After(b: Backend, items: Revoked, uses: seq<Use>): Revoked
    decreases uses
  {
    if uses == [] then items else After(b, Step(b, items, uses[0]), uses[1..])
  }

  /** The uses revoke this id with this expiry only. */
  predicate RevokesOnly(uses: seq<Use>, id: string, expiresAt: int) {
    forall i :: 0 <= i < |uses| && uses[i].Revoke? && uses[i].id == id ==> uses[i].expiresAt == expiresAt
  }

  lemma {:induction false} StaysRevoked(b: Backend, items: Revoked, uses: seq<Use>, id: string, expiresAt: int, now: int)
    requires InOrder(uses) && RevokesOnly(uses, id, expiresAt)
    requires forall i :: 0 <= i < |uses| ==> Latest(uses[i]) <= now
    requires (id in items ==> items[id] == expiresAt) && (id in items || expiresAt <= now)
    ensures var end := After(b, items, uses);
            (id in end ==> end[id] == expiresAt) && (id in end || expiresAt <= now)
    decreases uses
  {
    if uses != [] {
      StaysRevoked(b, Step(b, items, uses[0]), uses[1..], id, expiresAt, now);
    }
  }

  /** Accepted: the token has not expired at the first clock reading of the request and is not on the
      list at the second. */
  predicate Accepts(items: Revoked, id: string, expiresAt: int, verifiedAt: int, checkedAt: int) {
    verifiedAt < expiresAt && !Answer(items, id, checkedAt)
  }

  /** After a logout and any other uses, a request with the token is accepted exactly when the token
      expires between its two clock readings; with one reading it never is. */
  lemma LoggedOutTokenIsRefused(b: Backend, items: Revoked, logout: Use, uses: seq<Use>, verifiedAt: int, checkedAt: int)
    requires logout.Revoke? && InOrder([logout] + uses) && RevokesOnly(uses, logout.id, logout.expiresAt)
    requires forall i :: 0 <= i < |[logout] + uses| ==> Latest(([logout] + uses)[i]) <= verifiedAt
    requires verifiedAt <= checkedAt
    ensures Accepts(After(b, items, [logout] + uses), logout.id, logout.expiresAt, verifiedAt, checkedAt)
       <==> verifiedAt < logout.expiresAt <= checkedAt
    ensures !Accepts(After(b, items, [logout] + uses), logout.id, logout.expiresAt, verifiedAt, verifiedAt)
  {
    var all := [logout] + uses;
    var id, expiresAt := logout.id, logout.expiresAt;
    assert all[1..] == uses && all[0] == logout;
    var next := Step(b, items, logout);
    assert Latest(logout) <= verifiedAt;
    forall i | 0 <= i < |uses| ensures Latest(uses[i]) <= verifiedAt && Earliest(uses[i]) <= Latest(uses[i]) {
      assert all[i + 1] == uses[i];
    }
    forall i, j | 0 <= i < j < |uses| ensures Latest(uses[i]) <= Earliest(uses[j]) {
      assert all[i + 1] == uses[i] && all[j + 1] == uses[j];
    }
    StaysRevoked(b, next, uses, id, expiresAt, verifiedAt);
    assert After(b, items, all) == After(b, next, uses);
  }

  /** Each question gets one answer, the last so far: whether the id is held after the question and its
      expiry has not come at the second clock reading. A revocation gets none. */
  lemma {:induction false} AnswersAre(b: Backend, items: Revoked, uses: seq<Use>, use: Use)
    ensures var before := Answers(b, items, uses); var held := Step(b, After(b, items, uses), use);
            && (use.Revoke? ==> Answers(b, items, uses + [use]) == before)
            && (use.Ask? ==> Answers(b, items, uses + [use]) == before + [use.id in held && use.checkAt < held[use.id]])
    decreases |uses|
  {
    if uses == [] {
      assert [use][1..] == [];
    } else {
      assert (uses + [use])[1..] == uses[1..] + [use];
      AnswersAre(b, Step(b, items, uses[0]), uses[1..], use);
    }
  }
}
