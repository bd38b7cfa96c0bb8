/** The login failure counter: one windowed count per phone hash, kept in memory or in one upsert. */
module LoginAttempts {
  import opened Options

  datatype Attempts = Attempts(count: int, windowStart: int, lockedUntil: Option<int>)

  datatype Settings = Settings(maxFailures: int, window: int, lock: int)

  /** A failure recorded by the locked dictionary. */
  function InMemory(s: Settings, current: Option<Attempts>, now: int): Attempts {
    var counted :=
      if current.None? || now - current.value.windowStart >= s.window then Attempts(1, now, None)
      else current.value.(count := current.value.count + 1);
    if counted.count >= s.maxFailures then counted.(lockedUntil := Some(now + s.lock)) else counted
  }

  /** A failure recorded by `INSERT ... ON CONFLICT DO UPDATE`. */
  function Upsert(s: Settings, current: Option<Attempts>, now: int): Attempts {
    var cutoff, lockUntil := now - s.window, now + s.lock;
    match current
    case None => Attempts(1, now, if 1 >= s.maxFailures then Some(lockUntil) else None)
    case Some(row) =>
      Attempts(if row.windowStart <= cutoff then 1 else row.count + 1,
               if row.windowStart <= cutoff then now else row.windowStart,
               if (if row.windowStart <= cutoff then 1 else row.count + 1) >= s.maxFailures then Some(lockUntil) else None)
  }

  predicate IsLocked(current: Option<Attempts>, now: int) {
    current.Some? && current.value.lockedUntil.Some? && now < current.value.lockedUntil.value
  }

  /** One failure leaves the same record in both stores unless a lock is set from before, the window
      is still open and the count stays below the limit: then only the upsert removes the lock. */
  lemma StepsAgree(s: Settings, current: Option<Attempts>, now: int)
    ensures InMemory(s, current, now) == Upsert(s, current, now)
       <==> !(current.Some? && now - current.value.windowStart < s.window && current.value.lockedUntil.Some?
              && current.value.count + 1 < s.maxFailures)
  {
  }

  /** The window is open for exactly its length: a failure before its end counts on, and one at its end
      or later starts a new window. */
  lemma WindowIs(s: Settings, current: Attempts, now: int)
    ensures var next := InMemory(s, Some(current), now);
            && (now < current.windowStart + s.window ==> next.count == current.count + 1 && next.windowStart == current.windowStart)
            && (now >= current.windowStart + s.window ==> next.count == 1 && next.windowStart == now)
    ensures InMemory(s, None, now).count == 1 && InMemory(s, None, now).windowStart == now
  {
  }

  /** From the failure that reaches the limit on, the phone is locked for exactly the length of the lock;
      a failure below the limit does not lock. */
  lemma {:induction false} LockIs(s: Settings, ops: seq<Op>, now: int, t: int)
    ensures var current := HistoryInMemory(s, ops + [Fail(now)]);
            && current.Some?
            && (IsLocked(current, t) <==> current.value.count >= s.maxFailures && t < now + s.lock)
    ensures HistoryInMemory(s, ops + [Clear]) == None && !IsLocked(None, t)
  {
    StoresAgree(s, ops);
    assert (ops + [Fail(now)])[..|ops|] == ops && (ops + [Clear])[..|ops|] == ops;
  }

  // ---------------------------------------------------------------- histories

  datatype Op = Fail(now: int) | Clear

  function StepInMemory(s: Settings, current: Option<Attempts>, op: Op): Option<Attempts> {
    if op.Clear? then None else Some(InMemory(s, current, op.now))
  }

  function StepUpsert(s: Settings, current: Option<Attempts>, op: Op): Option<Attempts> {
    if op.Clear? then None else Some(Upsert(s, current, op.now))
  }

  function HistoryInMemory(s: Settings, ops: seq<Op>): Option<Attempts> {
    if ops == [] then None else StepInMemory(s, HistoryInMemory(s, ops[..|ops| - 1]), ops[|ops| - 1])
  }

  function HistoryUpsert(s: Settings, ops: seq<Op>): Option<Attempts> {
    if ops == [] then None else StepUpsert(s, HistoryUpsert(s, ops[..|ops| - 1]), ops[|ops| - 1])
  }

  /** Under fixed settings both stores hold the same record after any history, whatever the clock
      does, and a lock is set exactly when the count has reached the limit. */
  lemma {:induction false} StoresAgree(s: Settings, ops: seq<Op>)
    ensures HistoryInMemory(s, ops) == HistoryUpsert(s, ops)
    ensures var current := HistoryInMemory(s, ops);
            current.Some? ==> (current.value.lockedUntil.Some? <==> current.value.count >= s.maxFailures)
  {
    if ops != [] {
      StoresAgree(s, ops[..|ops| - 1]);
    }
  }

  class InMemoryLoginAttemptStore {
    var items: map<string, Attempts>

    constructor ()
      ensures items == map[]
    {
      items := map[];
    }

    function Load(phoneHash: string): Option<Attempts>
      reads this
    {
      if phoneHash in items then Some(items[phoneHash]) else None
    }

    method RecordFailure(s: Settings, phoneHash: string, now: int) returns (state: Attempts)
      modifies this
      ensures state == InMemory(s, old(Load(phoneHash)), now)
      ensures items == old(items)[phoneHash := state]
    {
      if phoneHash !in items || now - items[phoneHash].windowStart >= s.window {
        state := Attempts(1, now, None);
      } else {
        state := items[phoneHash].(count := items[phoneHash].count + 1);
      }
      if state.count >= s.maxFailures {
        state := state.(lockedUntil := Some(now + s.lock));
      }
      items := items[phoneHash := state];
    }

    method Forget(phoneHash: string)
      modifies this
      ensures items == old(items) - {phoneHash} && Load(phoneHash) == None
    {
      items := items - {phoneHash};
    }
  }

  /** The database table; `RecordFailure` is one statement. */
  class PostgresLoginAttemptStore {
    var rows: map<string, Attempts>

    constructor ()
      ensures rows == map[]
    {
      rows := map[];
    }

    method RecordFailure(s: Settings, phoneHash: string, now: int) returns (state: Attempts)
      modifies this
      ensures state == Upsert(s, if phoneHash in old(rows) then Some(old(rows)[phoneHash]) else None, now)
      ensures rows == old(rows)[phoneHash := state]
    {
      var windowCutoff, lockUntil := now - s.window, now + s.lock;
      if phoneHash !in rows {
        state := Attempts(1, now, if 1 >= s.maxFailures then Some(lockUntil) else None);
      } else {
        var row := rows[phoneHash];
        var expired := row.windowStart <= windowCutoff;
        var count := if expired then 1 else row.count + 1;
        state := Attempts(count, if expired then now else row.windowStart,
                          if count >= s.maxFailures then Some(lockUntil) else None);
      }
      rows := rows[phoneHash := state];
    }
  }

  class LoginRateLimiter {
    const store: InMemoryLoginAttemptStore
    const settings: Settings
    const phoneHash: string -> string

    constructor (store: InMemoryLoginAttemptStore, settings: Settings, phoneHash: string -> string)
      ensures this.store == store && this.settings == settings && this.phoneHash == phoneHash
    {
      this.store, this.settings, this.phoneHash := store, settings, phoneHash;
    }

    /** One login attempt that fails: refused while locked, else registered, each with its own
        reading of the clock. */
    method FailedLogin(phone: string, try: Try) returns (admitted: bool)
      modifies store
      ensures admitted <==> !IsLocked(old(store.Load(phoneHash(phone))), try.checked)
      ensures store.Load(phoneHash(phone)) == AfterTry(settings, old(store.Load(phoneHash(phone))), try)
      ensures forall other :: other != phoneHash(phone) ==> store.Load(other) == old(store.Load(other))
    {
      var current := store.Load(phoneHash(phone));
      if current.Some? && current.value.lockedUntil.Some? && try.checked < current.value.lockedUntil.value {
        return false;
      }
      var _ := store.RecordFailure(settings, phoneHash(phone), try.at);
      admitted := true;
    }
  }

  // ---------------------------------------------------------------- how many failures are let through

  /** A failing attempt reads the clock for the lock check and again when it is registered. */
  datatype Try = Try(checked: int, at: int)

  function AfterTry(s: Settings, current: Option<Attempts>, try: Try): Option<Attempts> {
    if IsLocked(current, try.checked) then current else Some(InMemory(s, current, try.at))
  }

  /** One admitted failure: when it came, and the count and window it was recorded with. */
  datatype Admission = Admission(at: int, count: int, windowStart: int)

  /** The admitted failures among these attempts. */
  function Admitted(s: Settings, current: Option<Attempts>, tries: seq<Try>): seq<Admission>
    decreases tries
  {
    if tries == [] then []
    else
      var next := AfterTry(s, current, tries[0]);
      (if IsLocked(current, tries[0].checked) then []
       else [Admission(tries[0].at, next.value.count, next.value.windowStart)])
      + Admitted(s, next, tries[1..])
  }

  /** The clock does not go back and an attempt is registered before the next one is checked. */
  predicate InOrder(tries: seq<Try>) {
    && (forall i :: 0 <= i < |tries| ==> tries[i].checked <= tries[i].at)
    && (forall i, j :: 0 <= i < j < |tries| ==> tries[i].at <= tries[j].checked)
  }

  /** A limit below one locks at the first failure. */
  function Limit(s: Settings): nat {
    if s.maxFailures < 1 then 1 else s.maxFailures
  }

  /** The largest number of failures let through in one window length. */
  function Bound(s: Settings): nat {
    if Limit(s) == 1 then 1 else 2 * Limit(s) - 2
  }

  predicate IsAdmission(s: Settings, x: Admission) {
    && 1 <= x.count <= Limit(s) && x.windowStart <= x.at
    && (x.count == 1 ==> x.windowStart == x.at)
  }

  /** How the next admitted failure follows: in the same window, or in a new one. A full window is
      locked and only a new one can follow, one window length later. */
  predicate Succeeds(s: Settings, x: Admission, y: Admission) {
    && x.at <= y.at
    && ((y.count == x.count + 1 && y.windowStart == x.windowStart) || (y.count == 1 && y.at >= x.windowStart + s.window))
    && (x.count == Limit(s) ==> y.count == 1 && y.at >= x.at + s.window)
  }

  predicate IsChain(s: Settings, xs: seq<Admission>) {
    && (forall i :: 0 <= i < |xs| ==> IsAdmission(s, xs[i]))
    && (forall i :: 0 <= i < |xs| - 1 ==> Succeeds(s, xs[i], xs[i + 1]))
  }

  /** The record behind the last admitted failure. */
  predicate Matches(s: Settings, current: Option<Attempts>, x: Admission) {
    current == Some(Attempts(x.count, x.windowStart, if x.count >= s.maxFailures then Some(x.at + s.lock) else None))
  }

  lemma {:induction false} AdmittedFollows(s: Settings, current: Option<Attempts>, last: Admission, tries: seq<Try>)
    requires s.window > 0 && s.lock >= s.window
    requires InOrder(tries) && (tries != [] ==> last.at <= tries[0].checked)
    requires IsAdmission(s, last) && Matches(s, current, last)
    ensures IsChain(s, [last] + Admitted(s, current, tries))
    decreases tries
  {
    if tries != [] {
      var next := AfterTry(s, current, tries[0]);
      if IsLocked(current, tries[0].checked) {
        AdmittedFollows(s, next, last, tries[1..]);
        assert Admitted(s, current, tries) == Admitted(s, next, tries[1..]);
      } else {
        var x := Admission(tries[0].at, next.value.count, next.value.windowStart);
        AdmittedFollows(s, next, x, tries[1..]);
        ChainGrows(s, last, [x] + Admitted(s, next, tries[1..]));
        assert Admitted(s, current, tries) == [x] + Admitted(s, next, tries[1..]);
      }
    }
  }

  lemma ChainGrows(s: Settings, first: Admission, xs: seq<Admission>)
    requires IsChain(s, xs) && IsAdmission(s, first) && (xs != [] ==> Succeeds(s, first, xs[0]))
    ensures IsChain(s, [first] + xs)
  {
    var all := [first] + xs;
    forall i | 0 <= i < |all| - 1 ensures Succeeds(s, all[i], all[i + 1]) {
      if i > 0 {
        assert all[i] == xs[i - 1] && all[i + 1] == xs[i];
      }
    }
  }

  lemma AdmittedIsChain(s: Settings, tries: seq<Try>)
    requires s.window > 0 && s.lock >= s.window && InOrder(tries)
    ensures IsChain(s, Admitted(s, None, tries))
  {
    if tries != [] {
      var next := AfterTry(s, None, tries[0]);
      var x := Admission(tries[0].at, 1, tries[0].at);
      AdmittedFollows(s, next, x, tries[1..]);
      assert Admitted(s, None, tries) == [x] + Admitted(s, next, tries[1..]);
    }
  }

  /** The next admitted failure that opens a new window comes soon enough. */
  lemma {:induction false} NextWindow(s: Settings, xs: seq<Admission>, i: nat) returns (r: nat)
    requires IsChain(s, xs) && i < |xs| && i + (Limit(s) - xs[i].count) + 1 < |xs|
    ensures i < r <= i + (Limit(s) - xs[i].count) + 1
    ensures xs[r].count == 1 && xs[r].at >= xs[i].windowStart + s.window
    ensures xs[i].at <= xs[r].at
    ensures r == i + (Limit(s) - xs[i].count) + 1 ==> xs[r].at >= xs[i].at + s.window
    decreases Limit(s) - xs[i].count
  {
    assert Succeeds(s, xs[i], xs[i + 1]) && IsAdmission(s, xs[i + 1]);
    if xs[i + 1].count == 1 && xs[i + 1].at >= xs[i].windowStart + s.window {
      r := i + 1;
    } else {
      r := NextWindow(s, xs, i + 1);
    }
  }

  /** Any admitted failure and the one `Bound` places later are a window length apart. */
  lemma FarApart(s: Settings, xs: seq<Admission>, i: nat)
    requires IsChain(s, xs) && i + Bound(s) < |xs|
    ensures xs[i + Bound(s)].at >= xs[i].at + s.window
  {
    assert IsAdmission(s, xs[i]);
    var r := NextWindow(s, xs, i);
    if xs[i].count == 1 {
      Sorted(s, xs, r, i + Bound(s));
    } else if r == i + (Limit(s) - xs[i].count) + 1 {
      Sorted(s, xs, r, i + Bound(s));
    } else {
      assert IsAdmission(s, xs[r]);
      var r2 := NextWindow(s, xs, r);
      Sorted(s, xs, r2, i + Bound(s));
    }
  }

  lemma {:induction false} Sorted(s: Settings, xs: seq<Admission>, i: nat, j: nat)
    requires IsChain(s, xs) && i <= j < |xs|
    ensures xs[i].at <= xs[j].at
    decreases j - i
  {
    if i < j {
      assert Succeeds(s, xs[i], xs[i + 1]);
      Sorted(s, xs, i + 1, j);
    }
  }

  /** How many of the admitted failures came from `from` on and before `to`. */
  function CountIn(xs: seq<Admission>, from: int, to: int): nat {
    if xs == [] then 0 else (if from <= xs[0].at < to then 1 else 0) + CountIn(xs[1..], from, to)
  }

  /** How many failing attempts are let through within one window length from `from` on. */
  function LetThrough(s: Settings, tries: seq<Try>, from: int): nat {
    CountIn(Admitted(s, None, tries), from, from + s.window)
  }

  lemma {:induction false} CountAppend(xs: seq<Admission>, ys: seq<Admission>, from: int, to: int)
    ensures CountIn(xs + ys, from, to) == CountIn(xs, from, to) + CountIn(ys, from, to)
    ensures CountIn(xs, from, to) <= |xs|
  {
    if xs == [] {
      assert xs + ys == ys;
    } else {
      assert (xs + ys)[1..] == xs[1..] + ys;
      CountAppend(xs[1..], ys, from, to);
    }
  }

  lemma {:induction false} NoneLate(xs: seq<Admission>, from: int, to: int)
    requires forall i :: 0 <= i < |xs| ==> xs[i].at >= to
    ensures CountIn(xs, from, to) == 0
  {
    if xs != [] {
      NoneLate(xs[1..], from, to);
    }
  }

  lemma {:induction false} ChainCount(s: Settings, xs: seq<Admission>, from: int)
    requires IsChain(s, xs)
    ensures CountIn(xs, from, from + s.window) <= Bound(s)
    decreases xs
  {
    var k := Bound(s);
    if xs != [] && xs[0].at < from {
      ChainCount(s, xs[1..], from);
    } else if |xs| <= k {
      CountAppend(xs, [], from, from + s.window);
    } else {
      FarApart(s, xs, 0);
      forall i | 0 <= i < |xs[k..]| ensures xs[k..][i].at >= from + s.window {
        Sorted(s, xs, k, k + i);
      }
      NoneLate(xs[k..], from, from + s.window);
      CountAppend(xs[..k], xs[k..], from, from + s.window);
      assert xs == xs[..k] + xs[k..];
    }
  }

  /** With a lock at least as long as the window, any stretch of time one window long lets at most
      `Bound` failing attempts through, between two successes. */
  lemma FailuresAreBounded(s: Settings, tries: seq<Try>, from: int)
    requires s.window > 0 && s.lock >= s.window && InOrder(tries)
    ensures LetThrough(s, tries, from) <= Bound(s)
  {
    AdmittedIsChain(s, tries);
    ChainCount(s, Admitted(s, None, tries), from);
  }

  // ---------------------------------------------------------------- the bound and its condition are exact

  /** `n` attempts in one instant. */
  function Burst(t: int, n: nat): seq<Try> {
    seq(n, _ => Try(t, t))
  }

  /** A burst inside an open window, up to the limit, is let through. */
  lemma {:induction false} BurstIsAdmitted(s: Settings, current: Attempts, t: int, n: nat, more: seq<Try>, from: int)
    requires t - current.windowStart < s.window && current.lockedUntil.None?
    requires current.count + n <= s.maxFailures
    ensures var end := if n == 0 then current
                       else current.(count := current.count + n,
                                     lockedUntil := if current.count + n >= s.maxFailures then Some(t + s.lock) else None);
            CountIn(Admitted(s, Some(current), Burst(t, n) + more), from, from + s.window)
            == (if from <= t < from + s.window then n else 0)
               + CountIn(Admitted(s, Some(end), more), from, from + s.window)
    decreases n
  {
    var tries := Burst(t, n) + more;
    if n == 0 {
      assert tries == more;
    } else {
      var next := InMemory(s, Some(current), t);
      assert tries[0] == Try(t, t) && tries[1..] == Burst(t, n - 1) + more;
      assert Admitted(s, Some(current), tries)
          == [Admission(t, next.count, next.windowStart)] + Admitted(s, Some(next), Burst(t, n - 1) + more);
      if n > 1 {
        BurstIsAdmitted(s, next, t, n - 1, more, from);
      } else {
        assert Burst(t, 0) + more == more;
      }
    }
  }

  /** A burst that opens a new window, up to the limit, is let through. */
  lemma OpeningBurst(s: Settings, current: Option<Attempts>, t: int, n: nat, more: seq<Try>, from: int)
    requires s.window > 0 && 2 <= s.maxFailures && 1 <= n <= s.maxFailures && from <= t < from + s.window
    requires !IsLocked(current, t) && (current.Some? ==> t - current.value.windowStart >= s.window)
    ensures CountIn(Admitted(s, current, Burst(t, n) + more), from, from + s.window)
         >= n
  {
    var tries := Burst(t, n) + more;
    var started := Attempts(1, t, None);
    assert tries[0] == Try(t, t) && tries[1..] == Burst(t, n - 1) + more;
    assert Admitted(s, current, tries) == [Admission(t, 1, t)] + Admitted(s, Some(started), tries[1..]);
    BurstIsAdmitted(s, started, t, n - 1, more, from);
  }

  /** A first failure, a burst just before its window ends, and a full burst at `t`. */
  function ThreeBursts(s: Settings, n: nat, t: int): seq<Try>
    requires s.maxFailures >= 2
  {
    [Try(0, 0)] + (Burst(s.window - 1, n) + (Burst(t, s.maxFailures) + []))
  }

  lemma ThreeBurstsInOrder(s: Settings, n: nat, t: int)
    requires s.maxFailures >= 2 && s.window >= 2 && s.window <= t
    ensures InOrder(ThreeBursts(s, n, t))
  {
  }

  lemma ThreeBurstsCount(s: Settings, n: nat, t: int)
    requires s.maxFailures >= 2 && s.window >= 2 && n <= s.maxFailures - 1
    requires s.window <= t < 2 * s.window - 1
    requires n == s.maxFailures - 1 ==> t >= s.window - 1 + s.lock
    ensures LetThrough(s, ThreeBursts(s, n, t), s.window - 1) >= n + s.maxFailures
  {
    var w, tries := s.window, ThreeBursts(s, n, t);
    var last := Burst(t, s.maxFailures) + [];
    var first := Attempts(1, 0, None);
    var end := if n == 0 then first
               else first.(count := 1 + n, lockedUntil := if 1 + n >= s.maxFailures then Some(w - 1 + s.lock) else None);
    assert tries[0] == Try(0, 0) && tries[1..] == Burst(w - 1, n) + last;
    assert Admitted(s, None, tries) == [Admission(0, 1, 0)] + Admitted(s, Some(first), tries[1..]);
    BurstIsAdmitted(s, first, w - 1, n, last, w - 1);
    OpeningBurst(s, Some(end), t, s.maxFailures, [], w - 1);
  }

  /** From a limit of two on the bound is reached. */
  lemma BoundIsReached(s: Settings)
    requires s.maxFailures >= 2 && s.window >= 2 && s.lock >= s.window
    ensures var tries := ThreeBursts(s, s.maxFailures - 2, s.window);
            InOrder(tries) && LetThrough(s, tries, s.window - 1) == Bound(s)
  {
    ThreeBurstsInOrder(s, s.maxFailures - 2, s.window);
    ThreeBurstsCount(s, s.maxFailures - 2, s.window);
    FailuresAreBounded(s, ThreeBursts(s, s.maxFailures - 2, s.window), s.window - 1);
  }

  /** A lock that ends at once stops nothing. */
  lemma {:induction false} WithoutLock(s: Settings, current: Option<Attempts>, n: nat)
    requires s.lock <= 0 && s.window > 0 && !IsLocked(current, 0)
    ensures CountIn(Admitted(s, current, Burst(0, n)), 0, s.window) == n
    decreases n
  {
    if n > 0 {
      var next := Some(InMemory(s, current, 0));
      assert Burst(0, n)[0] == Try(0, 0) && Burst(0, n)[1..] == Burst(0, n - 1);
      assert Admitted(s, current, Burst(0, n))
          == [Admission(0, next.value.count, next.value.windowStart)] + Admitted(s, next, Burst(0, n - 1));
      WithoutLock(s, next, n - 1);
    }
  }

  /** Attempts that exceed the bound when the lock is shorter than the window. */
  function Overrun(s: Settings): seq<Try> {
    if s.lock <= 0 then Burst(0, Bound(s) + 1)
    else if s.maxFailures <= 1 then [Try(0, 0), Try(s.lock, s.lock)]
    else ThreeBursts(s, s.maxFailures - 1, s.window - 1 + s.lock)
  }

  lemma TwoThrough(s: Settings)
    requires s.maxFailures <= 1 && 0 < s.lock < s.window
    ensures LetThrough(s, [Try(0, 0), Try(s.lock, s.lock)], 0) == 2
  {
    var t := s.lock;
    var tries := [Try(0, 0), Try(t, t)];
    var first, second := Attempts(1, 0, Some(t)), Attempts(2, 0, Some(t + s.lock));
    var a, b := Admission(0, 1, 0), Admission(t, 2, 0);
    assert tries[1..] == [Try(t, t)] && [Try(t, t)][1..] == [];
    assert InMemory(s, Some(first), t) == second;
    assert Admitted(s, Some(first), [Try(t, t)]) == [b] + Admitted(s, Some(second), []);
    assert Admitted(s, None, tries) == [a] + [b];
    CountAppend([a], [b], 0, s.window);
    assert [a][1..] == [] == [b][1..];
  }

  lemma OverrunExceeds(s: Settings)
    requires s.window > 0 && s.lock < s.window
    ensures InOrder(Overrun(s))
    ensures exists from :: LetThrough(s, Overrun(s), from) > Bound(s)
  {
    if s.lock <= 0 {
      WithoutLock(s, None, Bound(s) + 1);
      assert LetThrough(s, Overrun(s), 0) > Bound(s);
    } else if s.maxFailures <= 1 {
      TwoThrough(s);
      assert LetThrough(s, Overrun(s), 0) > Bound(s);
    } else {
      var n, t := s.maxFailures - 1, s.window - 1 + s.lock;
      ThreeBurstsInOrder(s, n, t);
      ThreeBurstsCount(s, n, t);
      assert LetThrough(s, Overrun(s), s.window - 1) > Bound(s);
    }
  }

  ghost predicate NeverExceeds(s: Settings) {
    forall tries, from :: InOrder(tries) ==> LetThrough(s, tries, from) <= Bound(s)
  }

  /** The bound holds for all attempts exactly when the lock is at least as long as the window. */
  lemma LockMustCoverWindow(s: Settings)
    requires s.window > 0
    ensures NeverExceeds(s) <==> s.lock >= s.window
  {
    if s.lock >= s.window {
      forall tries, from | InOrder(tries)
        ensures LetThrough(s, tries, from) <= Bound(s)
      {
        FailuresAreBounded(s, tries, from);
      }
    } else {
      OverrunExceeds(s);
    }
  }
}
