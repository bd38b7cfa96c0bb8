/** A client that follows one run over any number of connections, each time presenting the last
    event number it received, as the text it received it in. */
module StreamClient {
  import opened Options
  import opened Decimals
  import opened StreamLog
  import opened StreamReader
  import opened StreamCursor

  /** The event number a client remembers after the given chunks. */
  function Cursor(chunks: seq<Chunk>, start: nat): nat {
    if chunks == [] then start
    else Cursor(chunks[1..], match chunks[0]
                             case Data(f) => f.seqNo
                             case Notified(id, _) => id
                             case Beat => start)
  }

  /** The `id:` line of a chunk; a heartbeat has none. */
  function IdOf(chunk: Chunk): Option<string> {
    match chunk
    case Data(f) => Some(Decimal(f.seqNo))
    case Notified(id, _) => Some(Decimal(id))
    case Beat => None
  }

  /** The last id a client has seen. */
  function Remembered(chunks: seq<Chunk>, lastEventId: Option<string>): Option<string> {
    if chunks == [] then lastEventId
    else Remembered(chunks[1..], if IdOf(chunks[0]).Some? then IdOf(chunks[0]) else lastEventId)
  }

  /** Where the server starts when this id is presented. */
  function StartOf(lastEventId: Option<string>): nat {
    var start := StartCursor(lastEventId, None);
    if start.At? then start.cursor else 0
  }

  lemma StartOfNumber(n: nat)
    ensures StartCursor(Some(Decimal(n)), None) == At(n)
  {
    PresentedNumberIsResumed("", n, "", None);
    assert "" + Decimal(n) + "" == Decimal(n);
  }

  /** The server takes what a client remembers, and starts at the number it stands for. */
  lemma {:induction false} RememberedIsResumed(chunks: seq<Chunk>, lastEventId: Option<string>)
    requires StartCursor(lastEventId, None).At?
    ensures StartCursor(Remembered(chunks, lastEventId), None) == At(Cursor(chunks, StartOf(lastEventId)))
  {
    if chunks != [] {
      match chunks[0]
      case Data(f) =>
        StartOfNumber(f.seqNo);
        RememberedIsResumed(chunks[1..], Some(Decimal(f.seqNo)));
      case Notified(id, _) =>
        StartOfNumber(id);
        RememberedIsResumed(chunks[1..], Some(Decimal(id)));
      case Beat =>
        RememberedIsResumed(chunks[1..], lastEventId);
    }
  }

  function Stored(chunks: seq<Chunk>): seq<Frame> {
    if chunks == [] then []
    else (if chunks[0].Data? then [chunks[0].frame] else []) + Stored(chunks[1..])
  }

  predicate HasNotified(chunks: seq<Chunk>) {
    exists i | 0 <= i < |chunks| :: chunks[i].Notified?
  }

  /** The chunks are the frames behind the cursor, one by one, with heartbeats anywhere; a synthetic
      notice can only be the last chunk. */
  predicate Follows(frames: seq<Frame>, cursor: nat, chunks: seq<Chunk>)
    decreases |chunks|
  {
    if chunks == [] then true
    else match chunks[0]
      case Beat => Follows(frames, cursor, chunks[1..])
      case Data(f) => cursor < |frames| && f == frames[cursor] && f.seqNo == cursor + 1
                      && Follows(frames, cursor + 1, chunks[1..])
      case Notified(id, _) => |chunks| == 1
  }

  lemma FrontOfStretch(frames: seq<Frame>, i: nat, n: nat)
    requires i < |frames| && i + 1 + n <= |frames|
    ensures [frames[i]] + frames[i + 1..i + 1 + n] == frames[i..i + 1 + n]
  {
  }

  lemma {:induction false} FollowsStretch(frames: seq<Frame>, cursor: nat, chunks: seq<Chunk>)
    requires Follows(frames, cursor, chunks)
    ensures var n := |Stored(chunks)|;
            && (n > 0 ==> cursor + n <= |frames| && Stored(chunks) == frames[cursor..cursor + n])
            && (!HasNotified(chunks) ==> Cursor(chunks, cursor) == cursor + n)
            && (HasNotified(chunks) ==> chunks[|chunks| - 1].Notified? && Cursor(chunks, cursor) == chunks[|chunks| - 1].id)
    decreases |chunks|
  {
    if chunks != [] {
      var tail := chunks[1..];
      match chunks[0]
      case Beat =>
        FollowsStretch(frames, cursor, tail);
        NotifiedInTail(chunks);
      case Data(f) =>
        FollowsStretch(frames, cursor + 1, tail);
        NotifiedInTail(chunks);
        var n := |Stored(tail)|;
        assert n == 0 ==> Stored(tail) == [];
        FrontOfStretch(frames, cursor, n);
        assert Stored(chunks) == [f] + Stored(tail);
      case Notified(id, _) =>
        assert tail == [];
    }
  }

  lemma NotifiedInTail(chunks: seq<Chunk>)
    requires chunks != [] && !chunks[0].Notified?
    ensures HasNotified(chunks) <==> HasNotified(chunks[1..])
  {
    if HasNotified(chunks) {
      var i :| 0 <= i < |chunks| && chunks[i].Notified?;
      assert chunks[1..][i - 1].Notified?;
    }
  }

  lemma {:induction false} FollowsPrefix(frames: seq<Frame>, cursor: nat, chunks: seq<Chunk>, k: nat)
    requires Follows(frames, cursor, chunks) && k <= |chunks|
    ensures Follows(frames, cursor, chunks[..k])
    decreases |chunks|
  {
    if k > 0 {
      assert chunks[..k][1..] == chunks[1..][..k - 1];
      match chunks[0]
      case Beat => FollowsPrefix(frames, cursor, chunks[1..], k - 1);
      case Data(f) => FollowsPrefix(frames, cursor + 1, chunks[1..], k - 1);
      case Notified(id, _) =>
    }
  }

  lemma {:induction false} FollowsGrow(frames: seq<Frame>, later: seq<Frame>, cursor: nat, chunks: seq<Chunk>)
    requires Follows(frames, cursor, chunks) && frames <= later
    ensures Follows(later, cursor, chunks)
    decreases |chunks|
  {
    if chunks != [] {
      match chunks[0]
      case Beat => FollowsGrow(frames, later, cursor, chunks[1..]);
      case Data(f) => FollowsGrow(frames, later, cursor + 1, chunks[1..]);
      case Notified(id, _) =>
    }
  }

  lemma {:induction false} FollowsAppend(frames: seq<Frame>, cursor: nat, a: seq<Chunk>, b: seq<Chunk>)
    requires Follows(frames, cursor, a) && !HasNotified(a)
    requires Follows(frames, Cursor(a, cursor), b)
    ensures Follows(frames, cursor, a + b)
    ensures Cursor(a + b, cursor) == Cursor(b, Cursor(a, cursor))
    decreases |a|
  {
    if a == [] {
      assert a + b == b;
    } else {
      var tail := a[1..];
      assert (a + b)[1..] == tail + b;
      assert a[0] != Notified(0, "") && !a[0].Notified?;
      NotifiedInTail(a);
      match a[0]
      case Beat => FollowsAppend(frames, cursor, tail, b);
      case Data(f) => FollowsAppend(frames, cursor + 1, tail, b);
    }
  }

  lemma {:induction false} BatchFollows(frames: seq<Frame>, cursor: nat, last: nat)
    requires cursor <= last <= |frames| && forall i | 0 <= i < |frames| :: frames[i].seqNo == i + 1
    ensures var chunks := AsData(frames[cursor..last]);
            Follows(frames, cursor, chunks) && Cursor(chunks, cursor) == last && !HasNotified(chunks)
    decreases last - cursor
  {
    if cursor < last {
      BatchFollows(frames, cursor + 1, last);
      var chunks := AsData(frames[cursor..last]);
      assert chunks[1..] == AsData(frames[cursor + 1..last]);
    }
  }

  // ---------------------------------------------------------------- one connection

  /** What the connection has sent follows the log from its start; a notice ends it, and then the
      stream was unavailable and the number announced is the next free one. */
  ghost predicate Sent(start: nat, r: Reader) {
    && Follows(r.log.frames, start, r.chunks)
    && r.last == start + |Stored(r.chunks)|
    && (r.open ==> !HasNotified(r.chunks) && Cursor(r.chunks, start) == r.last)
    && (HasNotified(r.chunks) ==>
          && r.log.status == Unavailable && r.chunks[|r.chunks| - 1].Notified?
          && r.chunks[|r.chunks| - 1].id == r.log.lastSeq + 1)
  }

  ghost predicate Faithful(cfg: Config, log0: Log, start: nat, r: Reader) {
    Reading(cfg, log0, start, r) && Sent(start, r)
  }

  lemma {:induction false} StoredOfAppend(a: seq<Chunk>, b: seq<Chunk>)
    ensures Stored(a + b) == Stored(a) + Stored(b)
  {
    if a == [] {
      assert a + b == b;
    } else {
      assert (a + b)[1..] == a[1..] + b;
      StoredOfAppend(a[1..], b);
      var first := if a[0].Data? then [a[0].frame] else [];
      assert first + (Stored(a[1..]) + Stored(b)) == (first + Stored(a[1..])) + Stored(b);
    }
  }

  lemma {:induction false} StoredOfData(frames: seq<Frame>)
    ensures Stored(AsData(frames)) == frames
  {
    if frames != [] {
      assert AsData(frames)[1..] == AsData(frames[1..]);
      StoredOfData(frames[1..]);
      assert [frames[0]] + frames[1..] == frames;
    }
  }

  lemma NotifiedOfAppend(a: seq<Chunk>, b: seq<Chunk>)
    ensures HasNotified(a + b) <==> HasNotified(a) || HasNotified(b)
  {
    if HasNotified(a) {
      var i :| 0 <= i < |a| && a[i].Notified?;
      assert (a + b)[i].Notified?;
    }
    if HasNotified(b) {
      var i :| 0 <= i < |b| && b[i].Notified?;
      assert (a + b)[|a| + i].Notified?;
    }
  }

  /** Adding chunks that continue from the cursor. */
  lemma FollowsOn(r: Reader, start: nat, later: seq<Frame>, added: seq<Chunk>)
    requires Sent(start, r) && r.open
    requires r.log.frames <= later && Follows(later, r.last, added)
    ensures Follows(later, start, r.chunks + added)
    ensures Cursor(r.chunks + added, start) == Cursor(added, r.last)
    ensures HasNotified(r.chunks + added) <==> HasNotified(added)
  {
    FollowsGrow(r.log.frames, later, start, r.chunks);
    FollowsAppend(later, start, r.chunks, added);
    NotifiedOfAppend(r.chunks, added);
  }

  lemma SendIsFaithful(lim: Limits, start: nat, r: Reader, listed: Log, read: Reader, t: Tick)
    requires Sent(start, r) && r.open
    requires WellFormed(lim, listed) && WellFormed(lim, read.log)
    requires r.log.frames <= listed.frames <= read.log.frames
    requires read.last == r.last && read.chunks == r.chunks && read.notified == r.notified
    requires ListFrames(listed, r.last, BATCH) != []
    ensures Sent(start, SendTurn(read, ListFrames(listed, r.last, BATCH), t))
  {
    BatchAdvances(lim, listed, r.last, r.notified);
    var d := Deliver(ListFrames(listed, r.last, BATCH), r.last, r.notified);
    assert d.sent == read.log.frames[r.last..d.last];
    BatchFollows(read.log.frames, r.last, d.last);
    FollowsOn(r, start, read.log.frames, AsData(d.sent));
    StoredOfAppend(r.chunks, AsData(d.sent));
    StoredOfData(d.sent);
  }

  lemma QuietIsFaithful(r: Reader, start: nat, later: seq<Frame>, added: seq<Chunk>)
    requires Sent(start, r) && r.open
    requires r.log.frames <= later && (added == [] || (|added| == 1 && !added[0].Data?))
    ensures Follows(later, start, r.chunks + added)
    ensures HasNotified(r.chunks + added) <==> added != [] && added[0].Notified?
    ensures !HasNotified(r.chunks + added) ==> Cursor(r.chunks + added, start) == r.last
    ensures Stored(r.chunks + added) == Stored(r.chunks)
  {
    assert added != [] ==> added[1..] == [];
    StoredOfAppend(r.chunks, added);
    FollowsOn(r, start, later, added);
  }

  lemma CloseIsFaithful(cfg: Config, start: nat, r: Reader, read: Reader, t: Tick)
    requires Sent(start, r) && r.open
    requires r.log.frames <= read.log.frames && read.chunks == r.chunks && read.last == r.last
    ensures Sent(start, CloseTurn(cfg, read, t))
  {
    var p := CloseTurn(cfg, read, t);
    var added := p.chunks[|r.chunks|..];
    assert p.chunks == r.chunks + added;
    QuietIsFaithful(r, start, p.log.frames, added);
  }

  lemma IdleIsFaithful(cfg: Config, start: nat, r: Reader, read: Reader, t: Tick)
    requires Sent(start, r) && r.open
    requires r.log.frames <= read.log.frames && read.chunks == r.chunks && read.last == r.last
    ensures Sent(start, IdleTurn(cfg, read, t))
  {
    var p := IdleTurn(cfg, read, t);
    var added := p.chunks[|r.chunks|..];
    assert p.chunks == r.chunks + added;
    QuietIsFaithful(r, start, p.log.frames, added);
  }

  lemma WaitIsFaithful(cfg: Config, start: nat, r: Reader, woken: Reader, t: Tick)
    requires Sent(start, r) && r.open
    requires woken.log == r.log && woken.chunks == r.chunks && woken.last == r.last
    ensures Sent(start, WaitTurn(cfg, woken, t))
  {
    var p := WaitTurn(cfg, woken, t);
    var added := p.chunks[|r.chunks|..];
    assert p.chunks == r.chunks + added;
    QuietIsFaithful(r, start, p.log.frames, added);
  }

  /** The state of the connection after the two reads of a turn. */
  function Read(cfg: Config, r: Reader, t: Tick): Reader {
    r.(clock := r.clock + t.wait, pinned := true, history := r.history + t.before + t.between,
       log := ApplyAll(cfg.limits, ApplyAll(cfg.limits, r.log, t.before), t.between))
  }

  lemma PollCases(cfg: Config, r: Reader, t: Tick)
    requires Reads(cfg, r, t)
    ensures var frames := ListFrames(ApplyAll(cfg.limits, r.log, t.before), r.last, BATCH);
            var read := Read(cfg, r, t);
            Poll(cfg, r, t) == if frames != [] then SendTurn(read, frames, t)
                               else if read.log.terminal then CloseTurn(cfg, read, t)
                               else IdleTurn(cfg, read, t)
  {
  }

  lemma ReadIsSent(cfg: Config, log0: Log, start: nat, r: Reader, t: Tick)
    requires cfg.limits.maxFrames >= 0 && WellFormed(cfg.limits, r.log) && Sent(start, r) && Reads(cfg, r, t)
    requires r.log == ApplyAll(cfg.limits, log0, r.history)
    ensures Sent(start, Poll(cfg, r, t))
  {
    LogsOfTurn(cfg, log0, r, t);
    PollCases(cfg, r, t);
    var listed := ApplyAll(cfg.limits, r.log, t.before);
    var read := Read(cfg, r, t);
    if ListFrames(listed, r.last, BATCH) != [] {
      SendIsFaithful(cfg.limits, start, r, listed, read, t);
    } else if read.log.terminal {
      CloseIsFaithful(cfg, start, r, read, t);
    } else {
      IdleIsFaithful(cfg, start, r, read, t);
    }
  }

  lemma PollIsSent(cfg: Config, log0: Log, start: nat, r: Reader, t: Tick)
    requires cfg.limits.maxFrames >= 0 && WellFormed(cfg.limits, r.log) && Sent(start, r) && r.open
    requires r.log == ApplyAll(cfg.limits, log0, r.history)
    ensures Sent(start, Poll(cfg, r, t))
  {
    if Reads(cfg, r, t) {
      ReadIsSent(cfg, log0, start, r, t);
    } else {
      WaitIsFaithful(cfg, start, r, r.(clock := r.clock + t.wait), t);
    }
  }

  lemma {:induction false} TurnsAreFaithful(cfg: Config, log0: Log, start: nat, env: nat -> Tick, n: nat, pinned: bool := true)
    requires cfg.limits.maxFrames >= 0 && WellFormed(cfg.limits, log0)
    ensures Faithful(cfg, log0, start, Turns(cfg, Connect(log0, start, pinned), env, n))
  {
    if n > 0 {
      TurnsAreFaithful(cfg, log0, start, env, n - 1, pinned);
      var r := Turns(cfg, Connect(log0, start, pinned), env, n - 1);
      if r.open {
        PollKeeps(cfg, log0, start, r, env(n - 1));
        PollIsSent(cfg, log0, start, r, env(n - 1));
      }
    }
  }

  // ---------------------------------------------------------------- many connections

  /** One connection of the client: how many turns the server takes, how many of the chunks sent
      arrive, and what other requests do to the log before the client comes back. */
  datatype Visit = Visit(env: nat -> Tick, turns: nat, taken: nat, gap: seq<Op>)

  datatype Client = Client(log: Log, lastEventId: Option<string>, received: seq<Frame>, noticed: bool, history: seq<Op>)
  {
    /** Where the next connection starts. */
    function Start(): nat {
      StartOf(lastEventId)
    }

    /** The server does not refuse the connection. */
    predicate IsAccepted() {
      StartCursor(lastEventId, None).At?
    }
  }

  function Newcomer(log: Log): Client {
    Client(log, None, [], false, [])
  }

  function Arriving(cfg: Config, c: Client, v: Visit): seq<Chunk> {
    var chunks := Turns(cfg, Connect(c.log, c.Start()), v.env, v.turns).chunks;
    if v.taken < |chunks| then chunks[..v.taken] else chunks
  }

  ghost function Visited(cfg: Config, c: Client, v: Visit): Client {
    var r := Turns(cfg, Connect(c.log, c.Start()), v.env, v.turns);
    var got := Arriving(cfg, c, v);
    Client(ApplyAll(cfg.limits, r.log, v.gap), Remembered(got, c.lastEventId), c.received + Stored(got),
           c.noticed || HasNotified(got), c.history + (r.history + v.gap))
  }

  lemma NewcomerStarts(log: Log)
    ensures Newcomer(log).IsAccepted() && Newcomer(log).Start() == 0
  {
    FirstConnectionStartsAtZero(0);
  }

  /** The next connection starts at the last number that arrived. */
  lemma NextStart(cfg: Config, c: Client, v: Visit)
    requires c.IsAccepted()
    ensures var d := Visited(cfg, c, v); d.IsAccepted() && d.Start() == Cursor(Arriving(cfg, c, v), c.Start())
  {
    RememberedIsResumed(Arriving(cfg, c, v), c.lastEventId);
  }

  ghost function Follow(cfg: Config, c: Client, visits: seq<Visit>): Client
    decreases |visits|
  {
    if visits == [] then c else Follow(cfg, Visited(cfg, c, visits[0]), visits[1..])
  }

  /** The number announced with a notice at some point of the history. */
  ghost predicate WasAnnounced(lim: Limits, log0: Log, history: seq<Op>, number: nat) {
    exists i: nat :: IsAnnouncedAt(lim, log0, history, number, i)
  }

  predicate IsAnnouncedAt(lim: Limits, log0: Log, history: seq<Op>, number: nat, i: nat) {
    && i <= |history| && StatusAfter(lim, log0, history, i) == Unavailable
    && number == |LogAfter(lim, log0, history, i).frames| + 1
  }

  /** What was received is the beginning of the log, and the client resumes right behind it unless
      a notice has moved it to a number announced before. */
  ghost predicate InStep(cfg: Config, log0: Log, c: Client) {
    && WellFormed(cfg.limits, c.log) && c.log == ApplyAll(cfg.limits, log0, c.history)
    && c.IsAccepted() && c.received <= c.log.frames
    && (!c.noticed ==> c.Start() == |c.received|)
    && (c.noticed ==> c.Start() > |c.received| && WasAnnounced(cfg.limits, log0, c.history, c.Start()))
  }

  /** Without a jump the log never reaches behind a number that was announced. */
  lemma AnnouncedStaysAbove(lim: Limits, log0: Log, before: seq<Op>, history: seq<Op>, number: nat)
    requires WasAnnounced(lim, log0, before, number) && before <= history
    ensures WasAnnounced(lim, log0, history, number)
    ensures NeverJumps(lim, log0, history) ==> |ApplyAll(lim, log0, history).frames| <= number
  {
    var i: nat :| IsAnnouncedAt(lim, log0, before, number, i);
    assert history[..i] == before[..i] && history[..|history|] == history;
    assert IsAnnouncedAt(lim, log0, history, number, i);
    if NeverJumps(lim, log0, history) {
      assert !Jumps(lim, log0, history, i, |history|);
    }
  }

  lemma AnnouncedNow(lim: Limits, log0: Log, history: seq<Op>)
    requires ApplyAll(lim, log0, history).status == Unavailable
    ensures WasAnnounced(lim, log0, history, |ApplyAll(lim, log0, history).frames| + 1)
  {
    assert history[..|history|] == history;
    assert IsAnnouncedAt(lim, log0, history, |ApplyAll(lim, log0, history).frames| + 1, |history|);
  }

  /** A notice is the last chunk: when it arrives, everything does. */
  lemma NoticeArrivesLast(frames: seq<Frame>, cursor: nat, chunks: seq<Chunk>, k: nat)
    requires Follows(frames, cursor, chunks) && k <= |chunks| && HasNotified(chunks[..k])
    ensures chunks[..k] == chunks
  {
    var i :| 0 <= i < k && chunks[..k][i].Notified?;
    NoticeIsLast(frames, cursor, chunks, i);
  }

  lemma ArrivingFollows(cfg: Config, c: Client, v: Visit)
    requires cfg.limits.maxFrames >= 0 && WellFormed(cfg.limits, c.log)
    ensures var r := Turns(cfg, Connect(c.log, c.Start()), v.env, v.turns); var got := Arriving(cfg, c, v);
            && Faithful(cfg, c.log, c.Start(), r)
            && c.log.frames <= r.log.frames
            && got <= r.chunks && |got| == (if v.taken < |r.chunks| then v.taken else |r.chunks|)
            && Follows(r.log.frames, c.Start(), got)
            && (HasNotified(got) ==> r.log.status == Unavailable && Cursor(got, c.Start()) == r.log.lastSeq + 1)
  {
    var r := Turns(cfg, Connect(c.log, c.Start()), v.env, v.turns);
    var got := Arriving(cfg, c, v);
    TurnsAreFaithful(cfg, c.log, c.Start(), v.env, v.turns);
    ApplyAllKeeps(cfg.limits, c.log, r.history);
    assert got == r.chunks[..|got|];
    FollowsPrefix(r.log.frames, c.Start(), r.chunks, |got|);
    if HasNotified(got) {
      NoticeArrivesLast(r.log.frames, c.Start(), r.chunks, |got|);
      FollowsStretch(r.log.frames, c.Start(), got);
    }
  }

  lemma {:induction false} NoticeIsLast(frames: seq<Frame>, cursor: nat, chunks: seq<Chunk>, i: nat)
    requires Follows(frames, cursor, chunks) && i < |chunks| && chunks[i].Notified?
    ensures i == |chunks| - 1
    decreases |chunks|
  {
    match chunks[0]
    case Beat => NoticeIsLast(frames, cursor, chunks[1..], i - 1);
    case Data(f) => NoticeIsLast(frames, cursor + 1, chunks[1..], i - 1);
    case Notified(id, _) =>
  }

  /** A client whose number the log has not gone past receives no further frame. */
  lemma AfterNotice(lim: Limits, cursor: nat, log: Log, got: seq<Chunk>)
    requires WellFormed(lim, log) && |log.frames| <= cursor && Follows(log.frames, cursor, got)
    ensures Stored(got) == [] && (!HasNotified(got) ==> Cursor(got, cursor) == cursor)
  {
    FollowsStretch(log.frames, cursor, got);
  }

  /** A client behind the last frame it received gets the frames that follow. */
  lemma NextFrames(lim: Limits, received: seq<Frame>, before: Log, log: Log, got: seq<Chunk>)
    requires WellFormed(lim, log) && received <= before.frames <= log.frames
    requires Follows(log.frames, |received|, got)
    ensures received + Stored(got) <= log.frames
    ensures !HasNotified(got) ==> Cursor(got, |received|) == |received + Stored(got)|
  {
    FollowsStretch(log.frames, |received|, got);
    PrefixExtends(received, log.frames, Stored(got));
  }

  lemma PrefixExtends(received: seq<Frame>, frames: seq<Frame>, more: seq<Frame>)
    requires received <= frames
    requires |more| > 0 ==> |received| + |more| <= |frames| && more == frames[|received|..|received| + |more|]
    ensures received + more <= frames
  {
    assert received == frames[..|received|];
    assert received + more == frames[..|received| + |more|];
  }

  /** The log of a connection is that of the history so far, at its end and when the client comes back. */
  lemma LogsOfVisit(cfg: Config, log0: Log, log: Log, history: seq<Op>, start: nat, v: Visit, r: Reader)
    requires cfg.limits.maxFrames >= 0 && WellFormed(cfg.limits, log) && log == ApplyAll(cfg.limits, log0, history)
    requires r == Turns(cfg, Connect(log, start), v.env, v.turns)
    ensures WellFormed(cfg.limits, r.log) && r.log == ApplyAll(cfg.limits, log0, history + r.history)
    ensures var later := ApplyAll(cfg.limits, r.log, v.gap);
            && WellFormed(cfg.limits, later) && later == ApplyAll(cfg.limits, log0, history + (r.history + v.gap))
            && log.frames <= r.log.frames <= later.frames
  {
    TurnsAreFaithful(cfg, log, start, v.env, v.turns);
    ApplyAllKeeps(cfg.limits, log, r.history);
    ApplyAllKeeps(cfg.limits, r.log, v.gap);
    ApplyAllAppend(cfg.limits, log0, history, r.history);
    ApplyAllAppend(cfg.limits, log0, history + r.history, v.gap);
    assert history + (r.history + v.gap) == (history + r.history) + v.gap;
  }

  lemma VisitLogs(cfg: Config, log0: Log, c: Client, v: Visit)
    requires cfg.limits.maxFrames >= 0 && WellFormed(cfg.limits, c.log) && c.log == ApplyAll(cfg.limits, log0, c.history)
    ensures var r := Turns(cfg, Connect(c.log, c.Start()), v.env, v.turns); var d := Visited(cfg, c, v);
            && WellFormed(cfg.limits, r.log) && r.log == ApplyAll(cfg.limits, log0, c.history + r.history)
            && WellFormed(cfg.limits, d.log) && d.log == ApplyAll(cfg.limits, log0, d.history)
            && c.log.frames <= r.log.frames <= d.log.frames && c.history <= c.history + r.history <= d.history
  {
    var r := Turns(cfg, Connect(c.log, c.Start()), v.env, v.turns);
    LogsOfVisit(cfg, log0, c.log, c.history, c.Start(), v, r);
    assert c.history + (r.history + v.gap) == (c.history + r.history) + v.gap;
  }

  /** What the client has and where it resumes after a visit, when it was right behind what it had. */
  lemma FreshReceives(cfg: Config, c: Client, v: Visit, r: Reader)
    requires cfg.limits.maxFrames >= 0 && WellFormed(cfg.limits, c.log) && c.IsAccepted() && !c.noticed
    requires c.received <= c.log.frames && c.Start() == |c.received|
    requires r == Turns(cfg, Connect(c.log, c.Start()), v.env, v.turns) && WellFormed(cfg.limits, r.log)
    ensures var d := Visited(cfg, c, v);
            && d.received <= r.log.frames
            && (!d.noticed ==> d.Start() == |d.received|)
            && (d.noticed ==> r.log.status == Unavailable && d.Start() == |r.log.frames| + 1)
  {
    ArrivingFollows(cfg, c, v);
    NextFrames(cfg.limits, c.received, c.log, r.log, Arriving(cfg, c, v));
    NextStart(cfg, c, v);
  }

  /** ... and when it was at a number that the log has not gone past. */
  lemma NoticedReceives(cfg: Config, c: Client, v: Visit, r: Reader)
    requires cfg.limits.maxFrames >= 0 && WellFormed(cfg.limits, c.log) && c.IsAccepted() && c.noticed
    requires r == Turns(cfg, Connect(c.log, c.Start()), v.env, v.turns) && WellFormed(cfg.limits, r.log)
    requires |r.log.frames| <= c.Start()
    ensures var d := Visited(cfg, c, v);
            && d.received == c.received && d.noticed
            && (d.Start() == c.Start() || (r.log.status == Unavailable && d.Start() == |r.log.frames| + 1))
  {
    ArrivingFollows(cfg, c, v);
    AfterNotice(cfg.limits, c.Start(), r.log, Arriving(cfg, c, v));
    NextStart(cfg, c, v);
  }

  /** What arrives after a notice, while the log does not jump: nothing, and at most a new number. */
  lemma NoticedVisit(cfg: Config, log0: Log, c: Client, v: Visit)
    requires cfg.limits.maxFrames >= 0 && InStep(cfg, log0, c) && c.noticed
    requires NeverJumps(cfg.limits, log0, Visited(cfg, c, v).history)
    ensures var d := Visited(cfg, c, v);
            d.received == c.received && d.Start() > |d.received| && WasAnnounced(cfg.limits, log0, d.history, d.Start())
  {
    var r, d := Turns(cfg, Connect(c.log, c.Start()), v.env, v.turns), Visited(cfg, c, v);
    VisitLogs(cfg, log0, c, v);
    NeverJumpsEarlier(cfg.limits, log0, c.history + r.history, d.history);
    AnnouncedStaysAbove(cfg.limits, log0, c.history, c.history + r.history, c.Start());
    NoticedReceives(cfg, c, v, r);
    if d.Start() != c.Start() {
      AnnouncedNow(cfg.limits, log0, c.history + r.history);
    }
    AnnouncedStaysAbove(cfg.limits, log0, c.history + r.history, d.history, d.Start());
  }

  /** A number that is announced now stays announced. */
  lemma AnnouncedFromNowOn(lim: Limits, log0: Log, now: seq<Op>, later: seq<Op>)
    requires ApplyAll(lim, log0, now).status == Unavailable && now <= later
    ensures WasAnnounced(lim, log0, later, |ApplyAll(lim, log0, now).frames| + 1)
  {
    AnnouncedNow(lim, log0, now);
    AnnouncedStaysAbove(lim, log0, now, later, |ApplyAll(lim, log0, now).frames| + 1);
  }

  /** What arrives before a notice, and the notice itself. */
  lemma FreshVisit(cfg: Config, log0: Log, c: Client, v: Visit)
    requires cfg.limits.maxFrames >= 0 && InStep(cfg, log0, c) && !c.noticed
    ensures InStep(cfg, log0, Visited(cfg, c, v))
  {
    var r, d := Turns(cfg, Connect(c.log, c.Start()), v.env, v.turns), Visited(cfg, c, v);
    VisitLogs(cfg, log0, c, v);
    FreshReceives(cfg, c, v, r);
    assert d.IsAccepted() by {
      NextStart(cfg, c, v);
    }
    if d.noticed {
      AnnouncedFromNowOn(cfg.limits, log0, c.history + r.history, d.history);
    }
  }

  lemma VisitKeepsInStep(cfg: Config, log0: Log, c: Client, v: Visit)
    requires cfg.limits.maxFrames >= 0 && InStep(cfg, log0, c)
    requires c.noticed ==> NeverJumps(cfg.limits, log0, Visited(cfg, c, v).history)
    ensures InStep(cfg, log0, Visited(cfg, c, v)) && c.log.frames <= Visited(cfg, c, v).log.frames
    ensures c.noticed ==> Visited(cfg, c, v).received == c.received
  {
    VisitLogs(cfg, log0, c, v);
    NextStart(cfg, c, v);
    if c.noticed {
      NoticedVisit(cfg, log0, c, v);
    } else {
      FreshVisit(cfg, log0, c, v);
    }
  }

  /** Over any sequence of connections, with any store operations in between: what the client has
      received is a prefix of the log, in order, without gap or repeat, as long as it has not got a
      notice, and after one as long as the log does not jump over an announced number. Without a notice
      it resumes exactly behind what it has. */
  lemma {:induction false} ClientInStep(cfg: Config, log0: Log, c: Client, visits: seq<Visit>)
    requires cfg.limits.maxFrames >= 0 && InStep(cfg, log0, c)
    requires Follow(cfg, c, visits).noticed ==> NeverJumps(cfg.limits, log0, Follow(cfg, c, visits).history)
    ensures InStep(cfg, log0, Follow(cfg, c, visits))
    ensures c.log.frames <= Follow(cfg, c, visits).log.frames
    ensures c.noticed ==> Follow(cfg, c, visits).received == c.received
    decreases |visits|
  {
    if visits != [] {
      var d := Visited(cfg, c, visits[0]);
      HistoryGrows(cfg, d, visits[1..]);
      if Follow(cfg, c, visits).noticed {
        NeverJumpsEarlier(cfg.limits, log0, d.history, Follow(cfg, c, visits).history);
      }
      VisitKeepsInStep(cfg, log0, c, visits[0]);
      ClientInStep(cfg, log0, d, visits[1..]);
    }
  }

  lemma {:induction false} HistoryGrows(cfg: Config, c: Client, visits: seq<Visit>)
    ensures c.history <= Follow(cfg, c, visits).history
    ensures c.noticed ==> Follow(cfg, c, visits).noticed
    decreases |visits|
  {
    if visits != [] {
      HistoryGrows(cfg, Visited(cfg, c, visits[0]), visits[1..]);
    }
  }

  /** The theorem for a client that starts from nothing, in histories without a late terminal mark. */
  lemma ReceivedIsPrefix(cfg: Config, log0: Log, visits: seq<Visit>)
    requires cfg.limits.maxFrames >= 0 && WellFormed(cfg.limits, log0)
    requires Calm(cfg.limits, log0, Follow(cfg, Newcomer(log0), visits).history)
    ensures var c := Follow(cfg, Newcomer(log0), visits);
            && c.received <= c.log.frames
            && (c.Start() == |c.received| <==> !c.noticed)
  {
    CalmNeverJumps(cfg.limits, log0, Follow(cfg, Newcomer(log0), visits).history);
    NewcomerStarts(log0);
    ClientInStep(cfg, log0, Newcomer(log0), visits);
  }

  // ---------------------------------------------------------------- what a notice can cost

  /** When a turn announces a notice, the client is up to date exactly if no frame was stored
      between the read of the frames and the read of the state. */
  lemma NoticeSkipsIff(cfg: Config, log0: Log, start: nat, r: Reader, t: Tick)
    requires cfg.limits.maxFrames >= 0 && Faithful(cfg, log0, start, r) && r.open
    requires start <= |r.log.frames|
    requires HasNotified(Poll(cfg, r, t).chunks)
    ensures var p := Poll(cfg, r, t); var listed := ApplyAll(cfg.limits, r.log, t.before);
            p.last == p.log.lastSeq <==> ApplyAll(cfg.limits, listed, t.between).frames == listed.frames
  {
    var listed := ApplyAll(cfg.limits, r.log, t.before);
    LogsOfTurn(cfg, log0, r, t);
    PollCases(cfg, r, t);
    ListFramesIsStretch(cfg.limits, listed, r.last, BATCH);
    if ListFrames(listed, r.last, BATCH) != [] {
      SendIsFaithful(cfg.limits, start, r, listed, Read(cfg, r, t), t);
    }
  }

  lemma SentUpToTerminal(lim: Limits, log: Log, r: Reader, t: Tick)
    requires WellFormed(lim, log) && ListFrames(log, r.last, BATCH) != []
    requires !SendTurn(r, ListFrames(log, r.last, BATCH), t).open
    ensures var p := SendTurn(r, ListFrames(log, r.last, BATCH), t);
            p.chunks != [] && p.chunks[|p.chunks| - 1].Data? && p.chunks[|p.chunks| - 1].frame.terminal
  {
    ListFramesIsStretch(lim, log, r.last, BATCH);
    DeliverAdvances(ListFrames(log, r.last, BATCH), r.last, r.notified);
  }

  /** A connection that closes by itself, neither timed out nor cut by a failed read, has sent a
      terminal frame or everything that was stored when it last listed the frames. */
  lemma ClosesCaughtUp(cfg: Config, log0: Log, start: nat, r: Reader, t: Tick)
    requires cfg.limits.maxFrames >= 0 && Faithful(cfg, log0, start, r) && start <= |r.log.frames|
    requires !Poll(cfg, r, t).open && Reads(cfg, r, t)
    ensures var p := Poll(cfg, r, t);
            || (p.chunks != [] && p.chunks[|p.chunks| - 1].Data? && p.chunks[|p.chunks| - 1].frame.terminal)
            || p.last == |ApplyAll(cfg.limits, r.log, t.before).frames|
  {
    var listed := ApplyAll(cfg.limits, r.log, t.before);
    LogsOfTurn(cfg, log0, r, t);
    PollCases(cfg, r, t);
    if ListFrames(listed, r.last, BATCH) != [] {
      SentUpToTerminal(cfg.limits, listed, Read(cfg, r, t), t);
    } else {
      ListFramesIsStretch(cfg.limits, listed, r.last, BATCH);
    }
  }
}
