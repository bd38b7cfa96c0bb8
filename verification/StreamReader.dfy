/** One server-sent-events connection: a polling loop over a log that other requests keep changing. */
module StreamReader {
  import opened StreamLog

  const BATCH := 200
  const HEARTBEAT := 15000

  /** Times are in milliseconds. */
  datatype Config = Config(limits: Limits, interval: int, lifetime: int)
  {
    /** The poll interval never goes below 50 milliseconds. */
    function Poll(): (p: nat)
      ensures p >= 50
    {
      if interval < 50 then 50 else interval
    }
  }

  /** Looking for the conversation's run when the client has not named one. */
  datatype Lookup = LookupFails | NoRun | Found

  /** What happens around one turn of the loop: the time that passes at each step, what a lookup of the
      run gives, whether a read fails, and the store operations of other requests before the frames are read, between that
      read and the read of the state, and before the reason of a notice is looked up. */
  datatype Tick = Tick(wait: nat, lookup: Lookup, fails: bool, before: seq<Op>, between: seq<Op>, atReason: seq<Op>,
                       reasonFails: bool, sending: nat, thinking: nat, oversleep: nat)

  datatype Chunk = Data(frame: Frame) | Notified(id: nat, reason: string) | Beat

  /** `log` is the log of the run that is read, or will be once it is found. */
  datatype Reader = Reader(log: Log, pinned: bool, last: nat, notified: bool, clock: nat, lastBeat: nat,
                           sleeps: nat, chunks: seq<Chunk>, open: bool, history: seq<Op>)

  /** A connection to a given run, or to the conversation's run whichever that will be. */
  function Connect(log: Log, start: nat, pinned: bool := true): Reader {
    Reader(log, pinned, start, false, 0, 0, 0, [], true, [])
  }

  datatype Delivery = Delivery(sent: seq<Frame>, last: nat, notified: bool, closed: bool)

  /** Sending a batch: frame by frame, up to and including a terminal one. */
  function Deliver(frames: seq<Frame>, last: nat, notified: bool): Delivery {
    if frames == [] then Delivery([], last, notified, false)
    else
      var f := frames[0];
      var last' := if f.seqNo > last then f.seqNo else last;
      var notified' := notified || f.kind == UNAVAILABLE_KIND;
      if f.terminal then Delivery([f], last', notified', true)
      else var rest := Deliver(frames[1..], last', notified'); rest.(sent := [f] + rest.sent)
  }

  function AsData(frames: seq<Frame>): (chunks: seq<Chunk>)
    ensures |chunks| == |frames| && forall i | 0 <= i < |frames| :: chunks[i] == Data(frames[i])
  {
    seq(|frames|, i requires 0 <= i < |frames| => Data(frames[i]))
  }

  /** The reason sent with a notice: the stored notice frame's, if that is the last frame. */
  function NoticeReason(log: Log, lastSeq: nat): string {
    var tail := ListFrames(log, if lastSeq == 0 then 0 else lastSeq - 1, 1);
    if tail != [] && tail[0].kind == UNAVAILABLE_KIND && tail[0].payload.text != "" then tail[0].payload.text else STALLED
  }

  /** A turn that found frames. */
  function SendTurn(r: Reader, frames: seq<Frame>, t: Tick): Reader {
    var d := Deliver(frames, r.last, r.notified);
    var clock := r.clock + t.sending;
    r.(last := d.last, notified := d.notified, clock := clock, lastBeat := clock,
       chunks := r.chunks + AsData(d.sent), open := !d.closed)
  }

  /** A turn that found no frames and a finished stream. */
  function CloseTurn(cfg: Config, r: Reader, t: Tick): Reader {
    if r.log.status == Unavailable && !r.notified then
      var reason := if t.reasonFails then STALLED
                    else NoticeReason(ApplyAll(cfg.limits, r.log, t.atReason), r.log.lastSeq);
      r.(chunks := r.chunks + [Notified(r.log.lastSeq + 1, reason)], open := false)
    else r.(open := false)
  }

  /** A turn that found nothing. */
  function IdleTurn(cfg: Config, r: Reader, t: Tick): Reader {
    var late := r.clock + t.thinking;
    var beat := late - r.lastBeat >= HEARTBEAT;
    r.(clock := late + cfg.Poll() + t.oversleep, sleeps := r.sleeps + 1,
       lastBeat := if beat then late else r.lastBeat,
       chunks := if beat then r.chunks + [Beat] else r.chunks)
  }

  /** A turn in which there is no run yet. */
  function WaitTurn(cfg: Config, r: Reader, t: Tick): Reader {
    var beat := r.clock - r.lastBeat >= HEARTBEAT;
    r.(clock := r.clock + cfg.Poll() + t.oversleep, sleeps := r.sleeps + 1,
       lastBeat := if beat then r.clock else r.lastBeat,
       chunks := if beat then r.chunks + [Beat] else r.chunks)
  }

  /** A turn for a known run: the frames are read, then the state. */
  function ReadTurn(cfg: Config, r: Reader, t: Tick): Reader {
    var listed := ApplyAll(cfg.limits, r.log, t.before);
    var frames := ListFrames(listed, r.last, BATCH);
    var read := r.(log := ApplyAll(cfg.limits, listed, t.between), history := r.history + t.before + t.between);
    if frames != [] then SendTurn(read, frames, t)
    else if read.log.terminal then CloseTurn(cfg, read, t)
    else IdleTurn(cfg, read, t)
  }

  /** One turn of the loop. */
  function Poll(cfg: Config, r: Reader, t: Tick): Reader {
    if !r.open then r
    else
      var woken := r.(clock := r.clock + t.wait);
      if woken.clock >= cfg.lifetime || (!r.pinned && t.lookup.LookupFails?) then woken.(open := false)
      else if !r.pinned && t.lookup.NoRun? then WaitTurn(cfg, woken, t)
      else
        var found := woken.(pinned := true);
        if t.fails then found.(open := false) else ReadTurn(cfg, found, t)
  }

  /** The connection after at most `n` turns. */
  function Turns(cfg: Config, r: Reader, env: nat -> Tick, n: nat): Reader {
    if n == 0 then r else Poll(cfg, Turns(cfg, r, env, n - 1), env(n - 1))
  }

  // ---------------------------------------------------------------- what a turn sends

  /** The reason that goes with a notice: the text of the frame with the last number when that is a stored
      notice with a text, and `stalled` otherwise. */
  lemma ReasonIs(lim: Limits, log: Log, lastSeq: nat)
    requires WellFormed(lim, log) && 1 <= lastSeq <= |log.frames|
    ensures var last := log.frames[lastSeq - 1];
            NoticeReason(log, lastSeq) == if last.kind == "stream.unavailable" && last.payload.text != "" then last.payload.text else "stalled"
  {
    ListFramesIsStretch(lim, log, lastSeq - 1, 1);
  }

  /** A turn of a quiet, unfinished stream sends a heartbeat exactly when 15 seconds have passed since the
      connection last sent anything, counting from its start, and nothing else; then it sleeps. */
  lemma QuietTurnBeats(cfg: Config, r: Reader, t: Tick)
    requires r.open && r.clock + t.wait < cfg.lifetime && (r.pinned || t.lookup.Found?) && !t.fails
    requires var listed := ApplyAll(cfg.limits, r.log, t.before);
             ListFrames(listed, r.last, BATCH) == [] && !ApplyAll(cfg.limits, listed, t.between).terminal
    ensures var p := Poll(cfg, r, t); var now := r.clock + t.wait + t.thinking;
            && p.open && p.last == r.last
            && p.chunks == r.chunks + (if now - r.lastBeat >= 15000 then [Beat] else [])
            && p.lastBeat == (if now - r.lastBeat >= 15000 then now else r.lastBeat)
            && p.clock == now + (if cfg.interval < 50 then 50 else cfg.interval) + t.oversleep
  {
    assert r.chunks + [] == r.chunks;
  }

  /** So does a turn that has no run to read yet; a lookup or read that fails, and the end of the
      connection's lifetime, close it without a word. */
  lemma OtherTurns(cfg: Config, r: Reader, t: Tick)
    requires r.open
    ensures var p := Poll(cfg, r, t); var now := r.clock + t.wait;
            && (now >= cfg.lifetime ==> !p.open && p.chunks == r.chunks)
            && (now < cfg.lifetime && !r.pinned && t.lookup.LookupFails? ==> !p.open && p.chunks == r.chunks)
            && (now < cfg.lifetime && (r.pinned || t.lookup.Found?) && t.fails ==> !p.open && p.chunks == r.chunks)
            && (now < cfg.lifetime && !r.pinned && t.lookup.NoRun? ==>
                  && p.open && p.last == r.last && p.pinned == r.pinned
                  && p.chunks == r.chunks + (if now - r.lastBeat >= 15000 then [Beat] else [])
                  && p.lastBeat == (if now - r.lastBeat >= 15000 then now else r.lastBeat)
                  && p.clock == now + (if cfg.interval < 50 then 50 else cfg.interval) + t.oversleep)
  {
    assert r.chunks + [] == r.chunks;
  }

  predicate OnlyLastIsTerminal(frames: seq<Frame>) {
    forall i :: 0 <= i < |frames| - 1 ==> !frames[i].terminal
  }

  lemma {:induction false} NothingAfterTerminal(frames: seq<Frame>, last: nat, notified: bool)
    ensures OnlyLastIsTerminal(Deliver(frames, last, notified).sent)
    decreases |frames|
  {
    if frames != [] && !frames[0].terminal {
      var f := frames[0];
      var last' := if f.seqNo > last then f.seqNo else last;
      NothingAfterTerminal(frames[1..], last', notified || f.kind == UNAVAILABLE_KIND);
      OneMoreInFront(f, Deliver(frames[1..], last', notified || f.kind == UNAVAILABLE_KIND).sent);
    }
  }

  lemma OneMoreInFront(f: Frame, rest: seq<Frame>)
    requires !f.terminal && OnlyLastIsTerminal(rest)
    ensures OnlyLastIsTerminal([f] + rest)
  {
  }

  /** A turn that finds frames sends the next one and those behind it, up to a terminal one, which
      closes the connection; and the clock of the heartbeats starts again. */
  lemma SendingTurn(cfg: Config, r: Reader, t: Tick, frames: seq<Frame>)
    requires r.open && r.clock + t.wait < cfg.lifetime && (r.pinned || t.lookup.Found?) && !t.fails
    requires frames == ListFrames(ApplyAll(cfg.limits, r.log, t.before), r.last, BATCH) && frames != []
    requires forall i | 0 <= i < |frames| :: frames[i].seqNo == r.last + 1 + i
    ensures var p := Poll(cfg, r, t); var n := |r.chunks|;
            && p.clock == p.lastBeat == r.clock + t.wait + t.sending
            && n < |p.chunks| <= n + |frames| && p.chunks == r.chunks + AsData(frames[..|p.chunks| - n])
            && OnlyLastIsTerminal(frames[..|p.chunks| - n])
            && (!p.open <==> frames[|p.chunks| - n - 1].terminal)
            && (p.open ==> |p.chunks| == n + |frames|)
  {
    DeliverAdvances(frames, r.last, r.notified);
    NothingAfterTerminal(frames, r.last, r.notified);
    var sent := Deliver(frames, r.last, r.notified).sent;
    assert sent == frames[..|sent|];
  }

  /** A turn that finds none in a finished stream closes the connection, with a notice of the next number
      when the stream is unavailable and none was sent before. */
  lemma ClosingTurn(cfg: Config, r: Reader, t: Tick, read: Log)
    requires r.open && r.clock + t.wait < cfg.lifetime && (r.pinned || t.lookup.Found?) && !t.fails
    requires ListFrames(ApplyAll(cfg.limits, r.log, t.before), r.last, BATCH) == []
    requires read == ApplyAll(cfg.limits, ApplyAll(cfg.limits, r.log, t.before), t.between) && read.terminal
    ensures var p := Poll(cfg, r, t); var n := |r.chunks|;
            && !p.open
            && (if read.status == Unavailable && !r.notified
                then |p.chunks| == n + 1 && r.chunks <= p.chunks && p.chunks[n].Notified? && p.chunks[n].id == read.lastSeq + 1
                     && p.chunks[n].reason == (if t.reasonFails then "stalled"
                                               else NoticeReason(ApplyAll(cfg.limits, read, t.atReason), read.lastSeq))
                else p.chunks == r.chunks)
  {
  }

  // ---------------------------------------------------------------- the loop ends

  ghost predicate Reading(cfg: Config, log0: Log, start: nat, r: Reader) {
    && WellFormed(cfg.limits, r.log)
    && r.log == ApplyAll(cfg.limits, log0, r.history)
    && start <= r.last && (r.last == start || r.last <= |r.log.frames|)
  }

  lemma DeliverAdvances(frames: seq<Frame>, last: nat, notified: bool)
    requires frames != [] && forall i | 0 <= i < |frames| :: frames[i].seqNo == last + 1 + i
    ensures var d := Deliver(frames, last, notified);
            && d.sent != [] && d.sent <= frames && d.last == last + |d.sent|
            && (d.closed <==> d.sent[|d.sent| - 1].terminal)
            && (!d.closed ==> d.sent == frames)
    decreases |frames|
  {
    if !frames[0].terminal && |frames| > 1 {
      DeliverAdvances(frames[1..], last + 1, notified || frames[0].kind == UNAVAILABLE_KIND);
    }
  }

  /** A batch is the next stretch of the log behind the cursor, and moves the cursor to its end. */
  lemma BatchAdvances(lim: Limits, log: Log, last: nat, notified: bool)
    requires WellFormed(lim, log)
    ensures var frames := ListFrames(log, last, BATCH); var d := Deliver(frames, last, notified);
            frames != [] ==> last < d.last <= |log.frames| && d.sent == log.frames[last..d.last]
  {
    ListFramesIsStretch(lim, log, last, BATCH);
    var frames := ListFrames(log, last, BATCH);
    if frames != [] {
      DeliverAdvances(frames, last, notified);
    }
  }

  /** The logs a turn sees extend each other. */
  lemma LogsOfTurn(cfg: Config, log0: Log, r: Reader, t: Tick)
    requires cfg.limits.maxFrames >= 0 && WellFormed(cfg.limits, r.log)
    requires r.log == ApplyAll(cfg.limits, log0, r.history)
    ensures var listed := ApplyAll(cfg.limits, r.log, t.before);
            var read := ApplyAll(cfg.limits, listed, t.between);
            && WellFormed(cfg.limits, listed) && WellFormed(cfg.limits, read)
            && r.log.frames <= listed.frames <= read.frames
            && read == ApplyAll(cfg.limits, log0, r.history + t.before + t.between)
  {
    ApplyAllKeeps(cfg.limits, r.log, t.before);
    ApplyAllKeeps(cfg.limits, ApplyAll(cfg.limits, r.log, t.before), t.between);
    ApplyAllAppend(cfg.limits, log0, r.history, t.before);
    ApplyAllAppend(cfg.limits, log0, r.history + t.before, t.between);
  }

  /** The connection moved the cursor, or ended, or slept for at least the poll interval. */
  predicate HasAdvanced(cfg: Config, r: Reader, p: Reader) {
    && r.log.frames <= p.log.frames && p.clock >= r.clock && p.last >= r.last
    && (|| (p.sleeps == r.sleeps && (p.open ==> p.last > r.last))
        || (p.sleeps == r.sleeps + 1 && r.clock < cfg.lifetime && p.clock >= r.clock + cfg.Poll()))
  }

  lemma ReadKeeps(cfg: Config, log0: Log, start: nat, r: Reader, t: Tick)
    requires cfg.limits.maxFrames >= 0 && Reading(cfg, log0, start, r) && r.open && r.clock < cfg.lifetime
    ensures Reading(cfg, log0, start, ReadTurn(cfg, r, t)) && HasAdvanced(cfg, r, ReadTurn(cfg, r, t))
  {
    LogsOfTurn(cfg, log0, r, t);
    BatchAdvances(cfg.limits, ApplyAll(cfg.limits, r.log, t.before), r.last, r.notified);
  }

  /** The turn reads the log when there is a run and nothing fails. */
  predicate Reads(cfg: Config, r: Reader, t: Tick) {
    r.open && r.clock + t.wait < cfg.lifetime && (r.pinned || t.lookup.Found?) && !t.fails
  }

  function Woken(r: Reader, t: Tick): Reader {
    r.(clock := r.clock + t.wait, pinned := true)
  }

  lemma PollReads(cfg: Config, r: Reader, t: Tick)
    requires Reads(cfg, r, t)
    ensures Poll(cfg, r, t) == ReadTurn(cfg, Woken(r, t), t)
  {
  }

  /** Time that passes before the read takes nothing from what the turn advanced. */
  lemma AdvancedSinceWoken(cfg: Config, r: Reader, t: Tick, p: Reader)
    requires HasAdvanced(cfg, Woken(r, t), p)
    ensures HasAdvanced(cfg, r, p)
  {
  }

  /** One turn keeps the view of the log consistent. If the connection stays open, the turn either
      moved the cursor or slept for at least the poll interval. */
  lemma PollKeeps(cfg: Config, log0: Log, start: nat, r: Reader, t: Tick)
    requires cfg.limits.maxFrames >= 0 && Reading(cfg, log0, start, r) && r.open
    ensures Reading(cfg, log0, start, Poll(cfg, r, t)) && HasAdvanced(cfg, r, Poll(cfg, r, t))
  {
    if Reads(cfg, r, t) {
      PollReads(cfg, r, t);
      ReadKeeps(cfg, log0, start, Woken(r, t), t);
      AdvancedSinceWoken(cfg, r, t, Poll(cfg, r, t));
    } else {
      WaitKeeps(cfg, log0, start, r, t);
    }
  }

  lemma WaitKeeps(cfg: Config, log0: Log, start: nat, r: Reader, t: Tick)
    requires Reading(cfg, log0, start, r) && r.open
    requires !Reads(cfg, r, t)
    ensures Reading(cfg, log0, start, Poll(cfg, r, t)) && HasAdvanced(cfg, r, Poll(cfg, r, t))
  {
  }

  /** The most turns a connection can take. */
  function TurnLimit(cfg: Config, start: nat): (n: nat) {
    var frames := if start < cfg.limits.maxFrames + 1 then cfg.limits.maxFrames + 1 - start else 0;
    var sleeps := if cfg.lifetime <= 0 then 0 else (cfg.lifetime + cfg.Poll() - 1) / cfg.Poll();
    frames + sleeps + 1
  }

  /** The account of `n` turns: each moved the cursor or slept, and the sleeps fit the clock. */
  ghost predicate Spent(cfg: Config, log0: Log, start: nat, r: Reader, n: nat) {
    && Reading(cfg, log0, start, r)
    && log0.frames <= r.log.frames
    && r.sleeps * cfg.Poll() <= r.clock
    && (r.sleeps > 0 ==> (r.sleeps - 1) * cfg.Poll() < cfg.lifetime)
    && (r.open ==> n <= r.last - start + r.sleeps)
  }

  lemma SpentOneMore(cfg: Config, log0: Log, start: nat, r: Reader, n: nat, p: Reader)
    requires Spent(cfg, log0, start, r, n) && r.open && Reading(cfg, log0, start, p)
    requires HasAdvanced(cfg, r, p)
    ensures Spent(cfg, log0, start, p, n + 1)
  {
    assert (r.sleeps + 1) * cfg.Poll() == r.sleeps * cfg.Poll() + cfg.Poll();
  }

  lemma {:induction false} TurnsSpent(cfg: Config, log0: Log, start: nat, env: nat -> Tick, n: nat, pinned: bool)
    requires cfg.limits.maxFrames >= 0 && WellFormed(cfg.limits, log0)
    ensures Spent(cfg, log0, start, Turns(cfg, Connect(log0, start, pinned), env, n), n)
  {
    if n == 0 {
      assert 0 * cfg.Poll() == 0;
    } else {
      TurnsSpent(cfg, log0, start, env, n - 1, pinned);
      var r := Turns(cfg, Connect(log0, start, pinned), env, n - 1);
      if r.open {
        PollKeeps(cfg, log0, start, r, env(n - 1));
        SpentOneMore(cfg, log0, start, r, n - 1, Poll(cfg, r, env(n - 1)));
      }
    }
  }

  lemma LimitFits(cfg: Config, start: nat, last: nat, sleeps: nat)
    requires start <= last && (last == start || last <= cfg.limits.maxFrames + 1)
    requires sleeps > 0 ==> (sleeps - 1) * cfg.Poll() < cfg.lifetime
    ensures last - start + sleeps < TurnLimit(cfg, start)
  {
    if sleeps > 0 {
      SleepsFit(sleeps, cfg.Poll(), cfg.lifetime);
    }
  }

  lemma OpenBelowLimit(cfg: Config, log0: Log, start: nat, env: nat -> Tick, n: nat, pinned: bool)
    requires cfg.limits.maxFrames >= 0 && WellFormed(cfg.limits, log0)
    ensures Turns(cfg, Connect(log0, start, pinned), env, n).open ==> n < TurnLimit(cfg, start)
  {
    var r := Turns(cfg, Connect(log0, start, pinned), env, n);
    TurnsSpent(cfg, log0, start, env, n, pinned);
    LimitFits(cfg, start, r.last, r.sleeps);
  }

  /** The connection ends: at most one turn per frame of the log and one per poll interval of its
      lifetime, and one more. */
  lemma ConnectionEnds(cfg: Config, log0: Log, start: nat, env: nat -> Tick, pinned: bool)
    requires cfg.limits.maxFrames >= 0 && WellFormed(cfg.limits, log0)
    ensures !Turns(cfg, Connect(log0, start, pinned), env, TurnLimit(cfg, start)).open
  {
    OpenBelowLimit(cfg, log0, start, env, TurnLimit(cfg, start), pinned);
  }

  lemma SleepsFit(sleeps: nat, poll: nat, lifetime: int)
    requires sleeps > 0 && poll > 0 && (sleeps - 1) * poll < lifetime
    ensures lifetime > 0 && sleeps <= (lifetime + poll - 1) / poll
  {
    var q := (lifetime + poll - 1) / poll;
    assert (sleeps - 1) * poll >= 0 && sleeps * poll == (sleeps - 1) * poll + poll;
    assert (q + 1) * poll == q * poll + poll;
    if sleeps >= q + 1 {
      MulMonotone(q + 1, sleeps, poll);
    }
  }

  lemma MulMonotone(a: nat, b: nat, c: nat)
    requires a <= b
    ensures a * c <= b * c
  {
    assert b * c == a * c + (b - a) * c;
  }

  function Prepend(sent: seq<Frame>, d: Delivery): Delivery {
    d.(sent := sent + d.sent)
  }

  lemma DeliverStep(frames: seq<Frame>, last: nat, notified: bool, sent: seq<Frame>)
    requires frames != []
    ensures var f := frames[0];
            var last' := if f.seqNo > last then f.seqNo else last;
            var notified' := notified || f.kind == UNAVAILABLE_KIND;
            Prepend(sent, Deliver(frames, last, notified))
            == if f.terminal then Delivery(sent + [f], last', notified', true)
               else Prepend(sent + [f], Deliver(frames[1..], last', notified'))
  {
    var f := frames[0];
    if !f.terminal {
      var rest := Deliver(frames[1..], if f.seqNo > last then f.seqNo else last, notified || f.kind == UNAVAILABLE_KIND);
      assert sent + ([f] + rest.sent) == (sent + [f]) + rest.sent;
    }
  }

  lemma AsDataOfOneMore(sent: seq<Frame>, f: Frame)
    ensures AsData(sent + [f]) == AsData(sent) + [Data(f)]
  {
  }

  /** Sending one batch. */
  method SendBatch(frames: seq<Frame>, last0: nat, notified0: bool)
    returns (chunks: seq<Chunk>, last: nat, notified: bool, closed: bool)
    ensures var d := Deliver(frames, last0, notified0);
            chunks == AsData(d.sent) && last == d.last && notified == d.notified && closed == d.closed
  {
    chunks, last, notified, closed := [], last0, notified0, false;
    ghost var d := Deliver(frames, last0, notified0);
    ghost var sent: seq<Frame> := [];
    assert Prepend([], d) == d;
    for i := 0 to |frames|
      invariant chunks == AsData(sent)
      invariant d == Prepend(sent, Deliver(frames[i..], last, notified))
    {
      var frame := frames[i];
      DeliverStep(frames[i..], last, notified, sent);
      AsDataOfOneMore(sent, frame);
      assert frames[i..][1..] == frames[i + 1..];
      last := if frame.seqNo > last then frame.seqNo else last;
      if frame.kind == UNAVAILABLE_KIND {
        notified := true;
      }
      chunks := chunks + [Data(frame)];
      sent := sent + [frame];
      if frame.terminal {
        return chunks, last, notified, true;
      }
    }
    assert sent + [] == sent;
  }

  /** The body of the loop. */
  method Turn(cfg: Config, r: Reader, t: Tick) returns (after: Reader)
    requires r.open
    ensures after == Poll(cfg, r, t)
  {
    var now := r.clock + t.wait;
    if now >= cfg.lifetime {
      return r.(clock := now, open := false);
    }
    if !r.pinned {
      if t.lookup.LookupFails? {
        return r.(clock := now, open := false);
      }
      if t.lookup.NoRun? {
        var lastBeat, chunks := r.lastBeat, r.chunks;
        if now - lastBeat >= HEARTBEAT {
          lastBeat := now;
          chunks := chunks + [Beat];
        }
        return r.(clock := now + cfg.Poll() + t.oversleep, lastBeat := lastBeat, sleeps := r.sleeps + 1, chunks := chunks);
      }
    }
    if t.fails {
      return r.(clock := now, pinned := true, open := false);
    }
    after := ReadFrames(cfg, r.(clock := now, pinned := true), t);
  }

  /** The rest of the body, from the two reads on. */
  method ReadFrames(cfg: Config, r: Reader, t: Tick) returns (after: Reader)
    requires r.open && r.pinned
    ensures after == ReadTurn(cfg, r, t)
  {
    var log, last, notified, lastBeat, chunks, now := r.log, r.last, r.notified, r.lastBeat, r.chunks, r.clock;
    log := ApplyAll(cfg.limits, log, t.before);
    var frames := ListFrames(log, last, BATCH);
    log := ApplyAll(cfg.limits, log, t.between);
    var history := r.history + t.before + t.between;
    if frames != [] {
      var sent, closed;
      sent, last, notified, closed := SendBatch(frames, last, notified);
      chunks := chunks + sent;
      now := now + t.sending;
      return Reader(log, true, last, notified, now, now, r.sleeps, chunks, !closed, history);
    }
    if log.terminal {
      if log.status == Unavailable && !notified {
        var reason := STALLED;
        if !t.reasonFails {
          reason := NoticeReason(ApplyAll(cfg.limits, log, t.atReason), log.lastSeq);
        }
        chunks := chunks + [Notified(log.lastSeq + 1, reason)];
      }
      return Reader(log, true, last, notified, now, lastBeat, r.sleeps, chunks, false, history);
    }
    now := now + t.thinking;
    if now - lastBeat >= HEARTBEAT {
      lastBeat := now;
      chunks := chunks + [Beat];
    }
    now := now + cfg.Poll() + t.oversleep;
    after := Reader(log, true, last, notified, now, lastBeat, r.sleeps + 1, chunks, true, history);
  }

  /** The generator itself: it ends, and has then taken no more turns than the limit. */
  method FrameStream(cfg: Config, log0: Log, start: nat, pinned: bool, env: nat -> Tick) returns (r: Reader, turns: nat)
    requires cfg.limits.maxFrames >= 0 && WellFormed(cfg.limits, log0)
    ensures r == Turns(cfg, Connect(log0, start, pinned), env, turns) && !r.open
    ensures turns <= TurnLimit(cfg, start)
  {
    r, turns := Connect(log0, start, pinned), 0;
    while r.open
      invariant r == Turns(cfg, Connect(log0, start, pinned), env, turns)
      invariant turns <= TurnLimit(cfg, start)
      decreases TurnLimit(cfg, start) - turns
    {
      OpenBelowLimit(cfg, log0, start, env, turns, pinned);
      r := Turn(cfg, r, env(turns));
      turns := turns + 1;
    }
  }
}
