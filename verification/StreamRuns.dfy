/** What clients that come back get in the end: the whole log of a quiet stream, what a notice costs,
    and the histories in which it costs them the order. */
module StreamRuns {
  import opened StreamLog
  import opened StreamReader
  import opened StreamClient

  // ---------------------------------------------------------------- a visit that is served

  lemma PollOnlyAddsChunks(cfg: Config, r: Reader, t: Tick)
    ensures r.chunks <= Poll(cfg, r, t).chunks
  {
  }

  lemma {:induction false} TurnsOnlyAddChunks(cfg: Config, r: Reader, env: nat -> Tick, n: nat)
    requires n >= 1
    ensures Turns(cfg, r, env, 1).chunks <= Turns(cfg, r, env, n).chunks
  {
    if n > 1 {
      TurnsOnlyAddChunks(cfg, r, env, n - 1);
      PollOnlyAddsChunks(cfg, Turns(cfg, r, env, n - 1), env(n - 1));
    }
  }

  /** The first turn reads the frames in time and at least one chunk arrives. */
  predicate IsServed(cfg: Config, c: Client, v: Visit) {
    v.turns >= 1 && v.taken >= 1 && Reads(cfg, Connect(c.log, c.Start()), v.env(0))
  }

  lemma FirstTurnSends(cfg: Config, log: Log, cursor: nat, t: Tick)
    requires cfg.limits.maxFrames >= 0 && WellFormed(cfg.limits, log) && cursor < |log.frames|
    requires Reads(cfg, Connect(log, cursor), t)
    ensures var p := Poll(cfg, Connect(log, cursor), t); p.chunks != [] && p.chunks[0] == Data(log.frames[cursor])
  {
    var r := Connect(log, cursor);
    var listed := ApplyAll(cfg.limits, log, t.before);
    ApplyAllKeeps(cfg.limits, log, t.before);
    PollCases(cfg, r, t);
    ListFramesIsStretch(cfg.limits, listed, cursor, BATCH);
    BatchAdvances(cfg.limits, listed, cursor, false);
    var d := Deliver(ListFrames(listed, cursor, BATCH), cursor, false);
    assert d.sent[0] == listed.frames[cursor];
    assert [] + AsData(d.sent) == AsData(d.sent);
  }

  /** Such a visit of a client that is not at the end of the log brings it the next frame first. */
  lemma ServedGetsNext(cfg: Config, c: Client, v: Visit)
    requires cfg.limits.maxFrames >= 0 && WellFormed(cfg.limits, c.log) && c.Start() < |c.log.frames|
    requires IsServed(cfg, c, v)
    ensures var got := Arriving(cfg, c, v); Stored(got) != [] && Stored(got)[0] == c.log.frames[c.Start()]
  {
    var r := Connect(c.log, c.Start());
    assert Turns(cfg, r, v.env, 1) == Poll(cfg, Turns(cfg, r, v.env, 0), v.env(0));
    FirstTurnSends(cfg, c.log, c.Start(), v.env(0));
    TurnsOnlyAddChunks(cfg, r, v.env, v.turns);
    var got := Arriving(cfg, c, v);
    assert got[0] == Turns(cfg, r, v.env, v.turns).chunks[0] == Data(c.log.frames[c.Start()]);
  }

  // ---------------------------------------------------------------- a quiet stream is received whole

  /** Nobody else changes the log during and after the visit. */
  ghost predicate IsQuiet(v: Visit) {
    v.gap == [] && forall i: nat :: v.env(i).before == [] && v.env(i).between == []
  }

  /** On a quiet log a notice is sent only to a client that has everything. */
  ghost predicate QuietSoFar(log: Log, r: Reader) {
    r.log == log && r.history == [] && (HasNotified(r.chunks) ==> r.last >= |log.frames|)
  }

  lemma QuietSend(cfg: Config, log: Log, start: nat, r: Reader, t: Tick)
    requires cfg.limits.maxFrames >= 0 && Faithful(cfg, log, start, r) && Reads(cfg, r, t)
    requires QuietSoFar(log, r) && t.before == [] && t.between == [] && ListFrames(log, r.last, BATCH) != []
    ensures QuietSoFar(log, SendTurn(Read(cfg, r, t), ListFrames(log, r.last, BATCH), t))
  {
    assert r.history + [] + [] == [];
    LogsOfTurn(cfg, log, r, t);
    SendIsFaithful(cfg.limits, start, r, log, Read(cfg, r, t), t);
    SentHasNoNotice(r, Deliver(ListFrames(log, r.last, BATCH), r.last, r.notified).sent);
    BatchAdvances(cfg.limits, log, r.last, r.notified);
  }

  lemma QuietPoll(cfg: Config, log: Log, start: nat, r: Reader, t: Tick)
    requires cfg.limits.maxFrames >= 0 && Faithful(cfg, log, start, r) && r.open
    requires QuietSoFar(log, r) && t.before == [] && t.between == []
    ensures QuietSoFar(log, Poll(cfg, r, t))
  {
    assert r.history + [] + [] == [];
    if Reads(cfg, r, t) {
      PollCases(cfg, r, t);
      ListFramesIsStretch(cfg.limits, log, r.last, BATCH);
      if ListFrames(log, r.last, BATCH) != [] {
        QuietSend(cfg, log, start, r, t);
      }
    } else {
      NotifiedOfAppend(r.chunks, [Beat]);
    }
  }

  lemma SentHasNoNotice(r: Reader, frames: seq<Frame>)
    ensures HasNotified(r.chunks + AsData(frames)) <==> HasNotified(r.chunks)
  {
    NotifiedOfAppend(r.chunks, AsData(frames));
  }

  lemma {:induction false} QuietTurns(cfg: Config, log: Log, start: nat, env: nat -> Tick, n: nat)
    requires cfg.limits.maxFrames >= 0 && WellFormed(cfg.limits, log)
    requires forall i: nat :: env(i).before == [] && env(i).between == []
    ensures QuietSoFar(log, Turns(cfg, Connect(log, start), env, n))
  {
    if n > 0 {
      QuietTurns(cfg, log, start, env, n - 1);
      TurnsAreFaithful(cfg, log, start, env, n - 1);
      var r := Turns(cfg, Connect(log, start), env, n - 1);
      if r.open {
        QuietPoll(cfg, log, start, r, env(n - 1));
      }
    }
  }

  /** A client on a quiet log: it has everything, or resumes right behind what it has. */
  ghost predicate IsCatchingUp(cfg: Config, c: Client) {
    && WellFormed(cfg.limits, c.log) && c.IsAccepted() && c.received <= c.log.frames
    && (c.received == c.log.frames || (!c.noticed && c.Start() == |c.received|))
    && c.Start() >= |c.received|
  }

  lemma QuietVisit(cfg: Config, c: Client, v: Visit)
    requires cfg.limits.maxFrames >= 0 && IsCatchingUp(cfg, c) && IsQuiet(v)
    ensures var d := Visited(cfg, c, v);
            && IsCatchingUp(cfg, d) && d.log == c.log
            && (IsServed(cfg, c, v) && c.received != c.log.frames ==> |d.received| > |c.received|)
            && |d.received| >= |c.received|
  {
    NextStart(cfg, c, v);
    var r := Turns(cfg, Connect(c.log, c.Start()), v.env, v.turns);
    var got := Arriving(cfg, c, v);
    QuietTurns(cfg, c.log, c.Start(), v.env, v.turns);
    ArrivingFollows(cfg, c, v);
    FollowsStretch(c.log.frames, c.Start(), got);
    if c.received == c.log.frames {
      assert Stored(got) == [];
    } else {
      NextFrames(cfg.limits, c.received, c.log, r.log, got);
      if HasNotified(got) {
        WholeArrives(cfg, c, v);
        assert |c.received + Stored(got)| == r.last;
      }
      if IsServed(cfg, c, v) {
        ServedGetsNext(cfg, c, v);
      }
    }
  }

  /** A notice is the last chunk, so when it arrives everything does. */
  lemma WholeArrives(cfg: Config, c: Client, v: Visit)
    requires cfg.limits.maxFrames >= 0 && WellFormed(cfg.limits, c.log) && HasNotified(Arriving(cfg, c, v))
    ensures Arriving(cfg, c, v) == Turns(cfg, Connect(c.log, c.Start()), v.env, v.turns).chunks
  {
    var r := Turns(cfg, Connect(c.log, c.Start()), v.env, v.turns);
    var got := Arriving(cfg, c, v);
    TurnsAreFaithful(cfg, c.log, c.Start(), v.env, v.turns);
    assert got == r.chunks[..|got|];
    NoticeArrivesLast(r.log.frames, c.Start(), r.chunks, |got|);
  }

  /** Every visit of the sequence is served in the state in which it comes. */
  ghost predicate AreServed(cfg: Config, c: Client, visits: seq<Visit>)
    decreases visits
  {
    visits == [] || (IsServed(cfg, c, visits[0]) && AreServed(cfg, Visited(cfg, c, visits[0]), visits[1..]))
  }

  lemma {:induction false} CatchesUp(cfg: Config, c: Client, visits: seq<Visit>)
    requires cfg.limits.maxFrames >= 0 && IsCatchingUp(cfg, c)
    requires AreServed(cfg, c, visits) && forall i :: 0 <= i < |visits| ==> IsQuiet(visits[i])
    requires |visits| >= |c.log.frames| - |c.received|
    ensures Follow(cfg, c, visits).received == c.log.frames && Follow(cfg, c, visits).log == c.log
    decreases visits
  {
    if visits == [] {
      assert c.received == c.log.frames[..|c.received|];
    } else {
      var d := Visited(cfg, c, visits[0]);
      assert IsQuiet(visits[0]);
      QuietVisit(cfg, c, visits[0]);
      assert forall i :: 0 <= i < |visits[1..]| ==> IsQuiet(visits[1..][i]);
      CatchesUp(cfg, d, visits[1..]);
    }
  }

  /** Completeness: once the log is quiet, a client without a notice has received the whole log after
      at most as many visits as frames are missing, if the first turn of each is neither late nor
      failed and one chunk of it arrives; whatever it went through before. */
  lemma QuietLogIsReceivedWhole(cfg: Config, log0: Log, before: seq<Visit>, visits: seq<Visit>)
    requires cfg.limits.maxFrames >= 0 && WellFormed(cfg.limits, log0)
    requires var c := Follow(cfg, Newcomer(log0), before);
             && !c.noticed && AreServed(cfg, c, visits) && (forall i :: 0 <= i < |visits| ==> IsQuiet(visits[i]))
             && |visits| >= |c.log.frames| - |c.received|
    ensures var c := Follow(cfg, Newcomer(log0), before);
            Follow(cfg, c, visits).log == c.log && Follow(cfg, c, visits).received == c.log.frames
  {
    NewcomerStarts(log0);
    ClientInStep(cfg, log0, Newcomer(log0), before);
    CatchesUp(cfg, Follow(cfg, Newcomer(log0), before), visits);
  }

  // ---------------------------------------------------------------- what a notice costs

  /** A notice ends the receiving: whatever is stored later without a jump over an announced number,
      and whoever comes back, nothing more arrives. */
  lemma NoticeEndsReceiving(cfg: Config, log0: Log, c: Client, v: Visit, later: seq<Visit>)
    requires cfg.limits.maxFrames >= 0 && InStep(cfg, log0, c)
    requires HasNotified(Arriving(cfg, c, v))
    requires NeverJumps(cfg.limits, log0, Follow(cfg, c, [v] + later).history)
    ensures var d := Visited(cfg, c, v); var end := Follow(cfg, c, [v] + later);
            end.received == d.received && c.log.frames <= d.log.frames <= end.log.frames
  {
    var d := Visited(cfg, c, v);
    assert ([v] + later)[0] == v && ([v] + later)[1..] == later;
    HistoryGrows(cfg, d, later);
    NeverJumpsEarlier(cfg.limits, log0, d.history, Follow(cfg, d, later).history);
    VisitKeepsInStep(cfg, log0, c, v);
    ClientInStep(cfg, log0, d, later);
  }

  /** A turn that takes the connection from `r` to `p` ends it with the notice. */
  predicate EndsWithNotice(cfg: Config, r: Reader, t: Tick, p: Reader) {
    Reads(cfg, r, t) && !HasNotified(r.chunks) && HasNotified(p.chunks)
  }

  /** Such a turn found no frames, so the cursor stays at the end of what was listed. */
  lemma NoticeTurn(cfg: Config, log0: Log, start: nat, r: Reader, t: Tick, p: Reader)
    requires cfg.limits.maxFrames >= 0 && Faithful(cfg, log0, start, r) && start <= |r.log.frames|
    requires p == Poll(cfg, r, t) && EndsWithNotice(cfg, r, t, p)
    ensures var listed := ApplyAll(cfg.limits, r.log, t.before);
            && p.last == |listed.frames| && listed.frames <= p.log.frames
            && p.log == ApplyAll(cfg.limits, listed, t.between)
  {
    var listed := ApplyAll(cfg.limits, r.log, t.before);
    var frames := ListFrames(listed, r.last, BATCH);
    LogsOfTurn(cfg, log0, r, t);
    PollCases(cfg, r, t);
    ListFramesIsStretch(cfg.limits, listed, r.last, BATCH);
    if frames != [] {
      SentHasNoNotice(r, Deliver(frames, r.last, r.notified).sent);
    }
  }

  /** The last turn of the visit, and what it listed. */
  function LastTurn(cfg: Config, c: Client, v: Visit): Reader
    requires v.turns >= 1
  {
    Turns(cfg, Connect(c.log, c.Start()), v.env, v.turns - 1)
  }

  function Listed(cfg: Config, c: Client, v: Visit): Log
    requires v.turns >= 1
  {
    ApplyAll(cfg.limits, LastTurn(cfg, c, v).log, v.env(v.turns - 1).before)
  }

  predicate EndsInNotice(cfg: Config, c: Client, v: Visit)
    requires v.turns >= 1
  {
    EndsWithNotice(cfg, LastTurn(cfg, c, v), v.env(v.turns - 1), Turns(cfg, Connect(c.log, c.Start()), v.env, v.turns))
  }

  lemma TurnsStart(cfg: Config, log: Log, start: nat, env: nat -> Tick, n: nat)
    requires cfg.limits.maxFrames >= 0 && WellFormed(cfg.limits, log)
    ensures var r := Turns(cfg, Connect(log, start), env, n); Faithful(cfg, log, start, r) && log.frames <= r.log.frames
  {
    TurnsAreFaithful(cfg, log, start, env, n);
    ApplyAllKeeps(cfg.limits, log, Turns(cfg, Connect(log, start), env, n).history);
  }

  lemma TurnsNext(cfg: Config, r: Reader, env: nat -> Tick, n: nat)
    requires n >= 1
    ensures Turns(cfg, r, env, n) == Poll(cfg, Turns(cfg, r, env, n - 1), env(n - 1))
  {
  }

  lemma LastTurnStarts(cfg: Config, c: Client, v: Visit)
    requires cfg.limits.maxFrames >= 0 && WellFormed(cfg.limits, c.log) && c.Start() <= |c.log.frames| && v.turns >= 1
    ensures Faithful(cfg, c.log, c.Start(), LastTurn(cfg, c, v)) && c.Start() <= |LastTurn(cfg, c, v).log.frames|
  {
    TurnsStart(cfg, c.log, c.Start(), v.env, v.turns - 1);
  }

  lemma VisitListed(cfg: Config, c: Client, v: Visit, p: Reader)
    requires cfg.limits.maxFrames >= 0 && WellFormed(cfg.limits, c.log) && c.Start() <= |c.log.frames|
    requires v.turns >= 1 && EndsInNotice(cfg, c, v) && p == Turns(cfg, Connect(c.log, c.Start()), v.env, v.turns)
    ensures p.last == |Listed(cfg, c, v).frames| && Listed(cfg, c, v).frames <= p.log.frames
    ensures p.log == ApplyAll(cfg.limits, Listed(cfg, c, v), v.env(v.turns - 1).between)
  {
    LastTurnStarts(cfg, c, v);
    TurnsNext(cfg, Connect(c.log, c.Start()), v.env, v.turns);
    NoticeTurn(cfg, c.log, c.Start(), LastTurn(cfg, c, v), v.env(v.turns - 1), p);
  }

  /** The visit leaves the client with what its last turn listed. */
  lemma VisitKeepsListed(cfg: Config, log0: Log, c: Client, v: Visit)
    requires cfg.limits.maxFrames >= 0 && InStep(cfg, log0, c) && !c.noticed
    requires v.turns >= 1 && EndsInNotice(cfg, c, v)
    requires HasNotified(Arriving(cfg, c, v))
    ensures Visited(cfg, c, v).received == Listed(cfg, c, v).frames
  {
    var p := Turns(cfg, Connect(c.log, c.Start()), v.env, v.turns);
    VisitListed(cfg, c, v, p);
    WholeArrives(cfg, c, v);
    VisitBrings(cfg, log0, c, v, p);
    SamePrefix(Visited(cfg, c, v).received, Listed(cfg, c, v).frames, p.log.frames);
  }

  /** What is stored between the two reads of that turn only adds to what was listed. */
  lemma StoredBehindListed(cfg: Config, log0: Log, c: Client, v: Visit)
    requires cfg.limits.maxFrames >= 0 && InStep(cfg, log0, c) && !c.noticed
    requires v.turns >= 1 && EndsInNotice(cfg, c, v)
    ensures var stored := ApplyAll(cfg.limits, Listed(cfg, c, v), v.env(v.turns - 1).between);
            Listed(cfg, c, v).frames <= stored.frames <= Visited(cfg, c, v).log.frames
  {
    var p := Turns(cfg, Connect(c.log, c.Start()), v.env, v.turns);
    VisitListed(cfg, c, v, p);
    GapOnlyAdds(cfg, c, v);
  }

  lemma SamePrefix<T>(a: seq<T>, b: seq<T>, whole: seq<T>)
    requires a <= whole && b <= whole && |a| == |b|
    ensures a == b
  {
  }

  /** While the log does not jump, a client that has got the notice keeps exactly the frames that were
      listed before the state was read: frames stored between the two reads, or later, never reach it. */
  lemma NoticeKeepsWhatWasListed(cfg: Config, log0: Log, c: Client, v: Visit, later: seq<Visit>)
    requires cfg.limits.maxFrames >= 0 && InStep(cfg, log0, c) && !c.noticed
    requires v.turns >= 1 && EndsInNotice(cfg, c, v)
    requires HasNotified(Arriving(cfg, c, v))
    requires NeverJumps(cfg.limits, log0, Follow(cfg, c, [v] + later).history)
    ensures var listed := Listed(cfg, c, v); var end := Follow(cfg, c, [v] + later);
            && end.received == listed.frames
            && listed.frames <= ApplyAll(cfg.limits, listed, v.env(v.turns - 1).between).frames <= end.log.frames
  {
    VisitKeepsListed(cfg, log0, c, v);
    StoredBehindListed(cfg, log0, c, v);
    NoticeEndsReceiving(cfg, log0, c, v, later);
  }

  /** A client behind the last frame it received: what the visit makes of it when everything arrives. */
  lemma VisitBrings(cfg: Config, log0: Log, c: Client, v: Visit, p: Reader)
    requires cfg.limits.maxFrames >= 0 && InStep(cfg, log0, c) && !c.noticed
    requires p == Turns(cfg, Connect(c.log, c.Start()), v.env, v.turns) && Arriving(cfg, c, v) == p.chunks
    ensures Visited(cfg, c, v).received <= p.log.frames && |Visited(cfg, c, v).received| == p.last
  {
    ArrivingFollows(cfg, c, v);
    NextFrames(cfg.limits, c.received, c.log, p.log, p.chunks);
  }

  lemma GapOnlyAdds(cfg: Config, c: Client, v: Visit)
    requires cfg.limits.maxFrames >= 0 && WellFormed(cfg.limits, c.log)
    ensures Turns(cfg, Connect(c.log, c.Start()), v.env, v.turns).log.frames <= Visited(cfg, c, v).log.frames
  {
    TurnsAreFaithful(cfg, c.log, c.Start(), v.env, v.turns);
    ApplyAllKeeps(cfg.limits, Turns(cfg, Connect(c.log, c.Start()), v.env, v.turns).log, v.gap);
  }

  /** Two frames, a message and the notice of a failed write, stored between the two reads. */
  function LateFrames(i: nat): Tick {
    Tick(0, Found, false, [], [Append("message.assistant", Payload("hello", 7), false), Notice("write_failed")], [], false, 0, 0, 0)
  }

  lemma LateFramesTurn(cfg: Config)
    requires cfg.limits.maxFrames >= 1 && cfg.limits.maxBytes >= 7 && cfg.lifetime > 0
    ensures var r := Connect(EMPTY, 0); var p := Poll(cfg, r, LateFrames(0));
            && EndsWithNotice(cfg, r, LateFrames(0), p)
            && |p.chunks| == 1 && p.chunks[0].Notified?
            && |ApplyAll(cfg.limits, EMPTY, LateFrames(0).between).frames| == 2
  {
    var t := LateFrames(0);
    var r := Connect(EMPTY, 0);
    var a, b := t.between[0], t.between[1];
    ApplyTwo(cfg.limits, EMPTY, a, b);
    assert t.between == [a, b];
    assert |a.kind| != |UNAVAILABLE_KIND|;
    FirstNoticeAppend([], Frame(1, a.kind, a.payload, false));
    var log := Apply(cfg.limits, Apply(cfg.limits, EMPTY, a), b);
    assert log.status == Unavailable && log.terminal && |log.frames| == 2;
    PollCases(cfg, r, t);
    assert ListFrames(EMPTY, 0, BATCH) == [];
    var p := Poll(cfg, r, t);
    assert p.chunks[0].Notified?;
  }

  /** It happens: under any limits the settings allow, with that timing, a new client is told event 3,
      and while the log does not jump no later connection brings it frames 1 and 2. */
  lemma NoticeCanSkipFrames(cfg: Config, later: seq<Visit>)
    requires cfg.limits.maxFrames >= 100 && cfg.limits.maxBytes >= 262144 && cfg.lifetime > 0
    requires NeverJumps(cfg.limits, EMPTY, Follow(cfg, Newcomer(EMPTY), [Visit(LateFrames, 1, 1, [])] + later).history)
    ensures var end := Follow(cfg, Newcomer(EMPTY), [Visit(LateFrames, 1, 1, [])] + later);
            end.received == [] && |end.log.frames| >= 2
  {
    NewcomerStarts(EMPTY);
    var c, v := Newcomer(EMPTY), Visit(LateFrames, 1, 1, []);
    LateFramesTurn(cfg);
    assert LastTurn(cfg, c, v) == Connect(EMPTY, 0);
    assert Turns(cfg, Connect(EMPTY, 0), LateFrames, 1) == Poll(cfg, Connect(EMPTY, 0), LateFrames(0));
    assert HasNotified(Arriving(cfg, c, v));
    assert Listed(cfg, c, v) == EMPTY && v.env(v.turns - 1) == LateFrames(0);
    var stored := ApplyAll(cfg.limits, EMPTY, LateFrames(0).between).frames;
    assert stored <= Follow(cfg, c, [v] + later).log.frames by {
      NoticeKeepsWhatWasListed(cfg, EMPTY, c, v, later);
    }
    NoticeKeepsWhatWasListed(cfg, EMPTY, c, v, later);
  }

  // ---------------------------------------------------------------- the histories that keep the order

  /** Whatever visits a new client makes while the log goes through these operations, what it has is
      the beginning of the log. */
  ghost predicate KeepsOrder(cfg: Config, ops: seq<Op>) {
    forall visits :: Follow(cfg, Newcomer(EMPTY), visits).history == ops ==>
      Follow(cfg, Newcomer(EMPTY), visits).received <= Follow(cfg, Newcomer(EMPTY), visits).log.frames
  }

  /** A turn in good time between whose reads the given operations are done. */
  function Between(ops: seq<Op>): nat -> Tick {
    i => Tick(0, Found, false, [], ops, [], false, 0, 0, 0)
  }

  /** A visit of one turn that brings one chunk. */
  function OneTurn(between: seq<Op>, gap: seq<Op>): Visit {
    Visit(Between(between), 1, 1, gap)
  }

  /** The chunks are the notice of this number, and nothing else. */
  predicate TellsOnly(chunks: seq<Chunk>, number: nat) {
    |chunks| == 1 && chunks[0].Notified? && chunks[0].id == number
  }

  lemma CloseTellsOnly(cfg: Config, r: Reader, t: Tick)
    requires r.log.status == Unavailable && !r.notified && r.chunks == []
    ensures var p := CloseTurn(cfg, r, t); TellsOnly(p.chunks, r.log.lastSeq + 1) && p.log == r.log && p.history == r.history
  {
  }

  /** The turn between whose reads the stream becomes unavailable sends the notice, and nothing else. */
  lemma ToldTurn(cfg: Config, ops: seq<Op>)
    requires cfg.limits.maxFrames >= 0 && cfg.lifetime > 0
    requires ApplyAll(cfg.limits, EMPTY, ops).status == Unavailable
    ensures var p := Poll(cfg, Connect(EMPTY, 0), Between(ops)(0)); var log := ApplyAll(cfg.limits, EMPTY, ops);
            p.log == log && p.history == ops && TellsOnly(p.chunks, |log.frames| + 1)
  {
    var r, t := Connect(EMPTY, 0), Between(ops)(0);
    ApplyAllKeeps(cfg.limits, EMPTY, ops);
    PollCases(cfg, r, t);
    assert ListFrames(EMPTY, 0, BATCH) == [];
    assert [] + [] + ops == ops;
    CloseTellsOnly(cfg, Read(cfg, r, t), t);
  }

  lemma OnlyNotified(start: nat, got: seq<Chunk>, number: nat)
    requires TellsOnly(got, number)
    ensures Cursor(got, start) == number && Stored(got) == []
  {
    assert got[1..] == [];
  }

  /** A client that is told of the notice before it got anything. */
  lemma ToldFirst(cfg: Config, ops: seq<Op>, gap: seq<Op>)
    requires cfg.limits.maxFrames >= 0 && cfg.lifetime > 0
    requires ApplyAll(cfg.limits, EMPTY, ops).status == Unavailable
    ensures var d := Visited(cfg, Newcomer(EMPTY), OneTurn(ops, gap)); var log := ApplyAll(cfg.limits, EMPTY, ops);
            && d.log == ApplyAll(cfg.limits, log, gap) && d.Start() == |log.frames| + 1
            && d.received == [] && d.history == ops + gap
  {
    NewcomerStarts(EMPTY);
    NextStart(cfg, Newcomer(EMPTY), OneTurn(ops, gap));
    var c, v := Newcomer(EMPTY), OneTurn(ops, gap);
    var p := Turns(cfg, Connect(EMPTY, 0), v.env, 1);
    assert p == Poll(cfg, Turns(cfg, Connect(EMPTY, 0), v.env, 0), v.env(0));
    ToldTurn(cfg, ops);
    var number := |ApplyAll(cfg.limits, EMPTY, ops).frames| + 1;
    OnlyNotified(0, p.chunks, number);
    assert Arriving(cfg, c, v) == p.chunks;
    assert [] + (ops + gap) == ops + gap;
  }

  /** A client that resumes past a frame it does not have and gets the next one: it no longer holds the
      beginning of the log. */
  lemma ResumesTooFar(cfg: Config, c: Client, v: Visit)
    requires cfg.limits.maxFrames >= 0 && WellFormed(cfg.limits, c.log)
    requires c.received == [] && 0 < c.Start() < |c.log.frames| && IsServed(cfg, c, v)
    ensures !(Visited(cfg, c, v).received <= Visited(cfg, c, v).log.frames)
  {
    var d := Visited(cfg, c, v);
    ServedGetsNext(cfg, c, v);
    assert d.received[0] == c.log.frames[c.Start()] && c.log.frames[c.Start()].seqNo == c.Start() + 1;
    VisitedIsWellFormed(cfg, c, v);
    assert d.log.frames != [] ==> d.log.frames[0].seqNo == 1;
  }

  lemma VisitedIsWellFormed(cfg: Config, c: Client, v: Visit)
    requires cfg.limits.maxFrames >= 0 && WellFormed(cfg.limits, c.log)
    ensures WellFormed(cfg.limits, Visited(cfg, c, v).log)
  {
    var r := Turns(cfg, Connect(c.log, c.Start()), v.env, v.turns);
    TurnsAreFaithful(cfg, c.log, c.Start(), v.env, v.turns);
    ApplyAllKeeps(cfg.limits, r.log, v.gap);
  }

  /** Two visits: the notice is announced after `i` operations, and the client comes back after `j`. */
  function JumpedOver(ops: seq<Op>, i: nat, j: nat): seq<Visit>
    requires i <= j <= |ops|
  {
    [OneTurn(ops[..i], ops[i..j]), OneTurn([], ops[j..])]
  }

  lemma FollowTwo(cfg: Config, c: Client, a: Visit, b: Visit)
    ensures Follow(cfg, c, [a, b]) == Visited(cfg, Visited(cfg, c, a), b)
  {
    assert [a, b][1..] == [b] && [b][1..] == [];
    assert Follow(cfg, Visited(cfg, c, a), [b]) == Follow(cfg, Visited(cfg, Visited(cfg, c, a), b), []);
  }

  lemma QuietTurnHistory(cfg: Config, c: Client, gap: seq<Op>)
    requires cfg.limits.maxFrames >= 0 && WellFormed(cfg.limits, c.log)
    ensures Visited(cfg, c, OneTurn([], gap)).history == c.history + gap
  {
    QuietTurns(cfg, c.log, c.Start(), Between([]), 1);
    assert [] + gap == gap;
  }

  lemma Cut<T>(s: seq<T>, i: nat, j: nat)
    requires i <= j <= |s|
    ensures s[..i] + s[i..j] == s[..j] && s[..j] + s[j..] == s
  {
  }

  /** The client of the first visit, when it comes back. */
  lemma ToldAndLeftBehind(cfg: Config, ops: seq<Op>, i: nat, j: nat)
    requires cfg.limits.maxFrames >= 0 && cfg.lifetime > 0 && Jumps(cfg.limits, EMPTY, ops, i, j)
    ensures var c := Visited(cfg, Newcomer(EMPTY), OneTurn(ops[..i], ops[i..j]));
            && WellFormed(cfg.limits, c.log) && c.history == ops[..j]
            && c.received == [] && 0 < c.Start() < |c.log.frames|
  {
    ToldFirst(cfg, ops[..i], ops[i..j]);
    Cut(ops, i, j);
    ApplyAllAppend(cfg.limits, EMPTY, ops[..i], ops[i..j]);
    ApplyAllKeeps(cfg.limits, EMPTY, ops[..j]);
  }

  lemma JumpBreaksOrder(cfg: Config, ops: seq<Op>, i: nat, j: nat)
    requires cfg.limits.maxFrames >= 0 && cfg.lifetime > 0 && Jumps(cfg.limits, EMPTY, ops, i, j)
    ensures var end := Follow(cfg, Newcomer(EMPTY), JumpedOver(ops, i, j));
            end.history == ops && !(end.received <= end.log.frames)
  {
    var first, second := OneTurn(ops[..i], ops[i..j]), OneTurn([], ops[j..]);
    ToldAndLeftBehind(cfg, ops, i, j);
    var c := Visited(cfg, Newcomer(EMPTY), first);
    FollowTwo(cfg, Newcomer(EMPTY), first, second);
    ResumesTooFar(cfg, c, second);
    QuietTurnHistory(cfg, c, ops[j..]);
    Cut(ops, i, j);
  }

  /** The exact condition: new clients always hold the beginning of the log, in order and without a
      gap, exactly in the histories that never jump over an announced number. */
  lemma OrderIffNeverJumps(cfg: Config, ops: seq<Op>)
    requires cfg.limits.maxFrames >= 0 && cfg.lifetime > 0
    ensures KeepsOrder(cfg, ops) <==> NeverJumps(cfg.limits, EMPTY, ops)
  {
    NewcomerStarts(EMPTY);
    if NeverJumps(cfg.limits, EMPTY, ops) {
      forall visits | Follow(cfg, Newcomer(EMPTY), visits).history == ops
        ensures Follow(cfg, Newcomer(EMPTY), visits).received <= Follow(cfg, Newcomer(EMPTY), visits).log.frames
      {
        ClientInStep(cfg, EMPTY, Newcomer(EMPTY), visits);
      }
    } else {
      var i: nat, j: nat :| Jumps(cfg.limits, EMPTY, ops, i, j);
      JumpBreaksOrder(cfg, ops, i, j);
    }
  }

  // ---------------------------------------------------------------- late terminal marks

  /** A terminal frame, another writer's notice, and then the mark of the frame. */
  function MarkedLate(): seq<Op> {
    [Append("run.completed", Payload("{}", 2), true), Notice("write_failed"), SetTerminal(false)]
  }

  function SpokenAgain(): seq<Op> {
    LateMark("message.assistant", Payload("hello", 7))[1..]
  }

  lemma MarkedLateLog(lim: Limits)
    requires lim.maxFrames >= 4 && lim.maxBytes >= 100
    ensures var ops := MarkedLate();
            && LogAfter(lim, EMPTY, ops, 1).status == Streaming && |LogAfter(lim, EMPTY, ops, 1).frames| == 1
            && LogAfter(lim, EMPTY, ops, 2).status == Unavailable && |LogAfter(lim, EMPTY, ops, 2).frames| == 2
            && LogAfter(lim, EMPTY, ops, 3).status == Completed && |LogAfter(lim, EMPTY, ops, 3).frames| == 2
            && LogAfter(lim, EMPTY, ops, 2).byteCount <= 50
  {
    var ops := MarkedLate();
    ApplyTwo(lim, EMPTY, ops[0], ops[1]);
    assert ops[..1] == [ops[0]] && ops[..2] == [ops[0], ops[1]];
    assert ops[..3] == [ops[0], ops[1]] + [ops[2]];
    ApplyAllAppend(lim, EMPTY, [ops[0], ops[1]], [ops[2]]);
    ApplyTwo(lim, LogAfter(lim, EMPTY, ops, 2), ops[2], ops[2]);
    assert |ops[0].kind| != |UNAVAILABLE_KIND|;
    FirstNoticeAppend([], Frame(1, ops[0].kind, ops[0].payload, true));
  }

  /** A late mark alone costs no client anything: the history is not calm and keeps the order. */
  lemma LateMarkAloneKeepsOrder(cfg: Config)
    requires cfg.limits.maxFrames >= 4 && cfg.limits.maxBytes >= 100 && cfg.lifetime > 0
    ensures !Calm(cfg.limits, EMPTY, MarkedLate()) && KeepsOrder(cfg, MarkedLate())
  {
    var ops := MarkedLate();
    MarkedLateLog(cfg.limits);
    CalmMarks(cfg.limits, EMPTY, ops);
    assert ops[2].SetTerminal?;
    forall i: nat, j: nat ensures !Jumps(cfg.limits, EMPTY, ops, i, j) {
      assert ops[..0] == [];
    }
    OrderIffNeverJumps(cfg, ops);
  }

  lemma LastApart<T>(s: seq<T>, n: nat, t: seq<T>)
    requires |s| == n + 1
    ensures s + t == s[..n] + ([s[n]] + t)
  {
  }

  lemma SpokenAgainJumps(lim: Limits)
    requires lim.maxFrames >= 4 && lim.maxBytes >= 100
    ensures Jumps(lim, EMPTY, MarkedLate() + SpokenAgain(), 2, 6)
  {
    var ops, marked, again := MarkedLate() + SpokenAgain(), MarkedLate(), SpokenAgain();
    MarkedLateLog(lim);
    ApplyAllKeeps(lim, EMPTY, marked[..2]);
    assert LateMark("message.assistant", Payload("hello", 7)) == [marked[2]] + again;
    LastApart(marked, 2, again);
    assert ops[..2] == marked[..2] && ops[..6] == ops;
    ApplyAllAppend(lim, EMPTY, marked[..2], [marked[2]] + again);
    LateMarkAddsTwo(lim, LogAfter(lim, EMPTY, marked, 2), "message.assistant", Payload("hello", 7));
  }

  lemma MarkIsOwn(lim: Limits)
    requires lim.maxFrames >= 4 && lim.maxBytes >= 100
    ensures MarksAreOwn(lim, EMPTY, MarkedLate() + SpokenAgain(), _ => 0)
  {
    var ops := MarkedLate() + SpokenAgain();
    assert ops[..0] == [];
    assert ops == [ops[0], ops[1], ops[2], ops[3], ops[4], ops[5]];
  }

  /** With a resumption and two more frames it costs the order: a run from the empty log in which the
      one mark belongs to a stored terminal frame. */
  lemma LateMarkBreaksOrder(cfg: Config)
    requires cfg.limits.maxFrames >= 4 && cfg.limits.maxBytes >= 100 && cfg.lifetime > 0
    ensures MarksAreOwn(cfg.limits, EMPTY, MarkedLate() + SpokenAgain(), _ => 0)
    ensures !KeepsOrder(cfg, MarkedLate() + SpokenAgain())
  {
    MarkIsOwn(cfg.limits);
    SpokenAgainJumps(cfg.limits);
    OrderIffNeverJumps(cfg, MarkedLate() + SpokenAgain());
  }
}
