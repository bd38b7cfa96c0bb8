/** The stored frames and the state row of one run, and what each store operation does to them. */
module StreamLog {
  import opened Options

  const UNAVAILABLE_KIND := "stream.unavailable"
  const STALLED := "stalled"

  /** The size of an encoded object: at least that of `{}`. */
  const SMALLEST := 2

  type Size = n: nat | SMALLEST <= n witness SMALLEST

  /** A JSON payload and the size of its encoding. */
  datatype Payload = Payload(text: string, bytes: Size)

  datatype Frame = Frame(seqNo: nat, kind: string, payload: Payload, terminal: bool)

  /** `Unopened` stands for a run without a state row. */
  datatype Status = Unopened | Streaming | Completed | Failed | Unavailable

  datatype Log = Log(frames: seq<Frame>, lastSeq: nat, frameCount: nat, byteCount: nat, terminal: bool, status: Status)

  datatype Limits = Limits(maxFrames: int, maxBytes: int)

  const EMPTY := Log([], 0, 0, 0, false, Unopened)

  /** `{"reason": "..."}` */
  function ReasonPayload(reason: string): Payload {
    Payload(reason, |reason| + 14)
  }

  /** One atomic operation of the store. */
  datatype Op =
    | Append(kind: string, payload: Payload, isTerminal: bool)
    | Notice(reason: string)
    | SetTerminal(failed: bool)
    | SetUnavailable
    | Reopen
    | Stall(idle: bool)

  predicate Fits(lim: Limits, log: Log, payload: Payload) {
    && log.status != Unavailable
    && log.frameCount + 1 <= lim.maxFrames
    && log.byteCount + payload.bytes <= lim.maxBytes
  }

  /** The log with a state row, which every append makes sure of. */
  function WithRow(log: Log): Log {
    if log.status == Unopened then log.(status := Streaming) else log
  }

  function Extended(log: Log, kind: string, payload: Payload, isTerminal: bool): Log {
    log.(frames := log.frames + [Frame(log.lastSeq + 1, kind, payload, isTerminal)],
         lastSeq := log.lastSeq + 1, frameCount := log.frameCount + 1, byteCount := log.byteCount + payload.bytes)
  }

  function FirstNotice(frames: seq<Frame>): Option<Frame> {
    if frames == [] then None
    else if frames[0].kind == UNAVAILABLE_KIND then Some(frames[0])
    else FirstNotice(frames[1..])
  }

  predicate HasNotice(log: Log) {
    FirstNotice(log.frames).Some?
  }

  function Apply(lim: Limits, log: Log, op: Op): Log {
    match op
    case Append(kind, payload, isTerminal) =>
      if Fits(lim, log, payload) then Extended(WithRow(log), kind, payload, isTerminal) else WithRow(log)
    case Notice(reason) =>
      var noted := if HasNotice(log) then log else Extended(log, UNAVAILABLE_KIND, ReasonPayload(reason), true);
      noted.(status := Unavailable, terminal := true)
    case SetTerminal(failed) =>
      if log.status == Unopened then log
      else log.(status := if failed then Failed else Completed, terminal := true)
    case SetUnavailable =>
      log.(status := Unavailable, terminal := true)
    case Reopen =>
      if log.terminal && log.status != Unavailable then log.(status := Streaming, terminal := false) else log
    case Stall(idle) =>
      if log.status == Streaming && idle then log.(status := Unavailable, terminal := true) else log
  }

  function ApplyAll(lim: Limits, log: Log, ops: seq<Op>): Log
    decreases ops
  {
    if ops == [] then log else ApplyAll(lim, Apply(lim, log, ops[0]), ops[1..])
  }

  lemma ApplyTwo(lim: Limits, log: Log, a: Op, b: Op)
    ensures ApplyAll(lim, log, [a]) == Apply(lim, log, a)
    ensures ApplyAll(lim, log, [a, b]) == Apply(lim, Apply(lim, log, a), b)
  {
    assert [a, b] == [a] + [b];
    ApplyAllAppend(lim, log, [a], [b]);
  }

  /** The frames after a cursor, at most `limit` of them. */
  function After(frames: seq<Frame>, cursor: nat): seq<Frame> {
    if frames == [] then []
    else (if frames[0].seqNo > cursor then [frames[0]] else []) + After(frames[1..], cursor)
  }

  function ListFrames(log: Log, cursor: nat, limit: nat): seq<Frame> {
    var found := After(log.frames, cursor);
    if |found| <= limit then found else found[..limit]
  }

  function TotalBytes(frames: seq<Frame>): nat {
    if frames == [] then 0 else TotalBytes(frames[..|frames| - 1]) + frames[|frames| - 1].payload.bytes
  }

  /** The size of the notice frame, which the limits do not apply to. */
  function NoticeBytes(frames: seq<Frame>): nat {
    if FirstNotice(frames).Some? then FirstNotice(frames).value.payload.bytes else 0
  }

  // ---------------------------------------------------------------- what every operation keeps

  /** Frames are numbered 1, 2, 3, ... without a gap, the counters agree with them, and only the
      notice may exceed the frame limit. */
  ghost predicate WellFormed(lim: Limits, log: Log) {
    && log.lastSeq == log.frameCount == |log.frames|
    && (forall i | 0 <= i < |log.frames| :: log.frames[i].seqNo == i + 1)
    && (log.frames == [] || |log.frames| <= lim.maxFrames + (if HasNotice(log) then 1 else 0))
    && (log.terminal <==> log.status == Completed || log.status == Failed || log.status == Unavailable)
    && (log.status == Unopened ==> log.frames == [])
  }

  lemma {:induction false} FirstNoticeAppend(frames: seq<Frame>, frame: Frame)
    ensures FirstNotice(frames + [frame])
         == if FirstNotice(frames).Some? then FirstNotice(frames)
            else if frame.kind == UNAVAILABLE_KIND then Some(frame) else None
  {
    if frames != [] {
      assert (frames + [frame])[1..] == frames[1..] + [frame];
      FirstNoticeAppend(frames[1..], frame);
    } else {
      assert [] + [frame] == [frame] && [frame][1..] == [];
    }
  }

  lemma AppendKeeps(lim: Limits, log: Log, kind: string, payload: Payload, isTerminal: bool)
    requires WellFormed(lim, log) && lim.maxFrames >= 0 && Fits(lim, log, payload)
    ensures WellFormed(lim, Extended(WithRow(log), kind, payload, isTerminal))
    ensures HasNotice(log) ==> HasNotice(Extended(log, kind, payload, isTerminal))
  {
    var frame := Frame(log.lastSeq + 1, kind, payload, isTerminal);
    FirstNoticeAppend(log.frames, frame);
  }

  lemma NoticeKeeps(lim: Limits, log: Log, reason: string)
    requires WellFormed(lim, log) && lim.maxFrames >= 0 && !HasNotice(log)
    ensures var next := Extended(log, UNAVAILABLE_KIND, ReasonPayload(reason), true);
            WellFormed(lim, next.(status := Unavailable, terminal := true)) && HasNotice(next)
  {
    var frame := Frame(log.lastSeq + 1, UNAVAILABLE_KIND, ReasonPayload(reason), true);
    FirstNoticeAppend(log.frames, frame);
  }

  lemma ApplyKeeps(lim: Limits, log: Log, op: Op)
    requires WellFormed(lim, log) && lim.maxFrames >= 0
    ensures WellFormed(lim, Apply(lim, log, op))
    ensures log.frames <= Apply(lim, log, op).frames
    ensures HasNotice(log) ==> HasNotice(Apply(lim, log, op))
  {
    match op
    case Append(kind, payload, isTerminal) =>
      if Fits(lim, log, payload) {
        AppendKeeps(lim, log, kind, payload, isTerminal);
      }
    case Notice(reason) =>
      if !HasNotice(log) {
        NoticeKeeps(lim, log, reason);
      }
    case _ =>
  }

  /** The log only grows, its numbering stays contiguous, and its length stays bounded. */
  lemma {:induction false} ApplyAllKeeps(lim: Limits, log: Log, ops: seq<Op>)
    requires WellFormed(lim, log) && lim.maxFrames >= 0
    ensures WellFormed(lim, ApplyAll(lim, log, ops))
    ensures log.frames <= ApplyAll(lim, log, ops).frames
    ensures HasNotice(log) ==> HasNotice(ApplyAll(lim, log, ops))
    decreases ops
  {
    if ops != [] {
      ApplyKeeps(lim, log, ops[0]);
      ApplyAllKeeps(lim, Apply(lim, log, ops[0]), ops[1..]);
    }
  }

  lemma BytesOfOneMore(frames: seq<Frame>, frame: Frame)
    ensures TotalBytes(frames + [frame]) == TotalBytes(frames) + frame.payload.bytes
  {
    assert (frames + [frame])[..|frames|] == frames;
  }

  /** The byte counter is the sum of the stored sizes, and only the notice may exceed the limit. */
  ghost predicate BytesAgree(lim: Limits, log: Log) {
    && log.byteCount == TotalBytes(log.frames)
    && TotalBytes(log.frames) <= (if lim.maxBytes < 0 then 0 else lim.maxBytes) + NoticeBytes(log.frames)
  }

  lemma BytesAfter(frames: seq<Frame>, frame: Frame)
    ensures TotalBytes(frames + [frame]) == TotalBytes(frames) + frame.payload.bytes
    ensures NoticeBytes(frames + [frame])
         == if FirstNotice(frames).None? && frame.kind == UNAVAILABLE_KIND then frame.payload.bytes else NoticeBytes(frames)
  {
    BytesOfOneMore(frames, frame);
    FirstNoticeAppend(frames, frame);
  }

  lemma AppendKeepsBytes(lim: Limits, log: Log, kind: string, payload: Payload, isTerminal: bool)
    requires BytesAgree(lim, log) && log.byteCount + payload.bytes <= lim.maxBytes
    ensures BytesAgree(lim, Extended(log, kind, payload, isTerminal))
  {
    BytesAfter(log.frames, Frame(log.lastSeq + 1, kind, payload, isTerminal));
  }

  lemma NoticeKeepsBytes(lim: Limits, log: Log, reason: string)
    requires BytesAgree(lim, log) && !HasNotice(log)
    ensures BytesAgree(lim, Extended(log, UNAVAILABLE_KIND, ReasonPayload(reason), true))
  {
    BytesAfter(log.frames, Frame(log.lastSeq + 1, UNAVAILABLE_KIND, ReasonPayload(reason), true));
  }

  /** Only frames and bytes matter. */
  lemma SameBytes(lim: Limits, a: Log, b: Log)
    requires BytesAgree(lim, a) && a.frames == b.frames && a.byteCount == b.byteCount
    ensures BytesAgree(lim, b)
  {
  }

  lemma ApplyKeepsBytes(lim: Limits, log: Log, op: Op)
    requires BytesAgree(lim, log)
    ensures BytesAgree(lim, Apply(lim, log, op))
  {
    match op
    case Append(kind, payload, isTerminal) =>
      SameBytes(lim, log, WithRow(log));
      if Fits(lim, log, payload) {
        AppendKeepsBytes(lim, WithRow(log), kind, payload, isTerminal);
      }
    case Notice(reason) =>
      if HasNotice(log) {
        SameBytes(lim, log, Apply(lim, log, op));
      } else {
        NoticeKeepsBytes(lim, log, reason);
        SameBytes(lim, Extended(log, UNAVAILABLE_KIND, ReasonPayload(reason), true), Apply(lim, log, op));
      }
    case _ =>
      SameBytes(lim, log, Apply(lim, log, op));
  }

  lemma {:induction false} ApplyAllKeepsBytes(lim: Limits, log: Log, ops: seq<Op>)
    requires BytesAgree(lim, log)
    ensures BytesAgree(lim, ApplyAll(lim, log, ops))
    decreases ops
  {
    if ops != [] {
      ApplyKeepsBytes(lim, log, ops[0]);
      ApplyAllKeepsBytes(lim, Apply(lim, log, ops[0]), ops[1..]);
    }
  }

  /** Over all operations from the empty log: the byte counter is the sum of the stored sizes, and
      without the notice that sum is within the limit. */
  lemma BytesAreCounted(lim: Limits, ops: seq<Op>)
    requires lim.maxFrames >= 0 && lim.maxBytes >= 0
    ensures var log := ApplyAll(lim, EMPTY, ops);
            && log.byteCount == TotalBytes(log.frames) <= lim.maxBytes + NoticeBytes(log.frames)
            && log.frameCount == |log.frames| <= lim.maxFrames + (if HasNotice(log) then 1 else 0)
  {
    ApplyAllKeeps(lim, EMPTY, ops);
    ApplyAllKeepsBytes(lim, EMPTY, ops);
  }

  /** Whatever happened before, a frame is refused exactly when the stream is unavailable or the frames
      or bytes stored so far leave no room for it; else it is stored behind them. */
  lemma RefusedIff(lim: Limits, ops: seq<Op>, kind: string, payload: Payload, isTerminal: bool)
    requires lim.maxFrames >= 0
    ensures var log := ApplyAll(lim, EMPTY, ops); var next := ApplyAll(lim, EMPTY, ops + [Append(kind, payload, isTerminal)]);
            next.frames == if || log.status == Unavailable
                              || |log.frames| + 1 > lim.maxFrames
                              || TotalBytes(log.frames) + payload.bytes > lim.maxBytes
                           then log.frames
                           else log.frames + [Frame(|log.frames| + 1, kind, payload, isTerminal)]
  {
    ApplyAllKeepsBytes(lim, EMPTY, ops);
    ApplyAllKeeps(lim, EMPTY, ops);
    ApplyAllAppend(lim, EMPTY, ops, [Append(kind, payload, isTerminal)]);
    ApplyTwo(lim, ApplyAll(lim, EMPTY, ops), Append(kind, payload, isTerminal), Reopen);
  }

  lemma {:induction false} NoticeIsThere(frames: seq<Frame>)
    ensures FirstNotice(frames).Some? <==> exists i :: 0 <= i < |frames| && frames[i].kind == "stream.unavailable"
  {
    if frames != [] {
      NoticeIsThere(frames[1..]);
      if i :| 0 <= i < |frames| && frames[i].kind == "stream.unavailable" {
        assert i > 0 ==> frames[1..][i - 1] == frames[i];
      }
    }
  }

  /** The notice is stored past all limits, unless one is stored already, and leaves the stream
      unavailable. */
  lemma NoticeIsStoredOnce(lim: Limits, ops: seq<Op>, reason: string)
    requires lim.maxFrames >= 0
    ensures var log := ApplyAll(lim, EMPTY, ops); var next := ApplyAll(lim, EMPTY, ops + [Notice(reason)]);
            && next.status == Unavailable && next.terminal
            && next.frames == if exists i :: 0 <= i < |log.frames| && log.frames[i].kind == "stream.unavailable"
                              then log.frames
                              else log.frames + [Frame(|log.frames| + 1, "stream.unavailable", Payload(reason, |reason| + 14), true)]
  {
    ApplyAllKeeps(lim, EMPTY, ops);
    ApplyAllAppend(lim, EMPTY, ops, [Notice(reason)]);
    ApplyTwo(lim, ApplyAll(lim, EMPTY, ops), Notice(reason), Reopen);
    NoticeIsThere(ApplyAll(lim, EMPTY, ops).frames);
  }

  lemma {:induction false} ApplyAllAppend(lim: Limits, log: Log, a: seq<Op>, b: seq<Op>)
    ensures ApplyAll(lim, log, a + b) == ApplyAll(lim, ApplyAll(lim, log, a), b)
    decreases a
  {
    if a == [] {
      assert a + b == b;
    } else {
      assert (a + b)[1..] == a[1..] + b;
      ApplyAllAppend(lim, Apply(lim, log, a[0]), a[1..], b);
    }
  }

  lemma {:induction false} AfterIsSuffix(frames: seq<Frame>, first: nat, cursor: nat)
    requires forall i | 0 <= i < |frames| :: frames[i].seqNo == first + i
    ensures After(frames, cursor)
         == if cursor < first then frames else if cursor - first < |frames| then frames[cursor - first + 1..] else []
  {
    if frames != [] {
      AfterIsSuffix(frames[1..], first + 1, cursor);
    }
  }

  /** Listing returns exactly the stretch of the log behind the cursor. */
  lemma ListFramesIsStretch(lim: Limits, log: Log, cursor: nat, limit: nat)
    requires WellFormed(lim, log)
    ensures ListFrames(log, cursor, limit)
         == if cursor >= |log.frames| then []
            else if cursor + limit < |log.frames| then log.frames[cursor..cursor + limit] else log.frames[cursor..]
  {
    AfterIsSuffix(log.frames, 1, cursor);
    if cursor == 0 {
      assert log.frames[0..] == log.frames;
    }
  }

  // ---------------------------------------------------------------- the unavailable state

  /** No operation of the history ends a run whose stream was already declared unavailable: a
      terminal mark is not written after another writer's notice. */
  predicate Calm(lim: Limits, log: Log, ops: seq<Op>)
    decreases ops
  {
    ops == [] || (!(ops[0].SetTerminal? && log.status == Unavailable) && Calm(lim, Apply(lim, log, ops[0]), ops[1..]))
  }

  lemma {:induction false} CalmAppend(lim: Limits, log: Log, a: seq<Op>, b: seq<Op>)
    ensures Calm(lim, log, a + b) <==> Calm(lim, log, a) && Calm(lim, ApplyAll(lim, log, a), b)
    decreases a
  {
    if a == [] {
      assert a + b == b;
    } else {
      assert (a + b)[1..] == a[1..] + b;
      CalmAppend(lim, Apply(lim, log, a[0]), a[1..], b);
    }
  }

  /** In a calm history an unavailable stream stays unavailable, and at most the notice, if it is
      not there yet, is still added. */
  lemma {:induction false} UnavailableIsFinal(lim: Limits, log: Log, ops: seq<Op>)
    requires WellFormed(lim, log) && lim.maxFrames >= 0
    requires log.status == Unavailable && Calm(lim, log, ops)
    ensures var later := ApplyAll(lim, log, ops);
            && later.status == Unavailable
            && (HasNotice(log) ==> |later.frames| == |log.frames|)
            && (!HasNotice(log) ==> |later.frames| == |log.frames| + (if HasNotice(later) then 1 else 0))
    decreases ops
  {
    if ops != [] {
      var next := Apply(lim, log, ops[0]);
      ApplyKeeps(lim, log, ops[0]);
      if ops[0].Notice? && !HasNotice(log) {
        FirstNoticeAppend(log.frames, Frame(log.lastSeq + 1, UNAVAILABLE_KIND, ReasonPayload(ops[0].reason), true));
      }
      UnavailableIsFinal(lim, next, ops[1..]);
      ApplyAllKeeps(lim, next, ops[1..]);
    }
  }

  /** Whatever happened before: the sweep declares exactly the idle streaming runs unavailable, a mark ends
      any run that has a state row, and only completed and failed runs are resumed. None of them touches
      the frames. */
  lemma StatusChanges(lim: Limits, ops: seq<Op>, idle: bool, failed: bool)
    requires lim.maxFrames >= 0
    ensures var log := ApplyAll(lim, EMPTY, ops);
            var swept := ApplyAll(lim, EMPTY, ops + [Stall(idle)]);
            var marked := ApplyAll(lim, EMPTY, ops + [SetTerminal(failed)]);
            var resumed := ApplyAll(lim, EMPTY, ops + [Reopen]);
            && swept.frames == marked.frames == resumed.frames == log.frames
            && swept.status == (if log.status == Streaming && idle then Unavailable else log.status)
            && marked.status == (if log.status == Unopened then Unopened else if failed then Failed else Completed)
            && resumed.status == (if log.status == Completed || log.status == Failed then Streaming else log.status)
  {
    ApplyAllKeeps(lim, EMPTY, ops);
    var log := ApplyAll(lim, EMPTY, ops);
    ApplyAllAppend(lim, EMPTY, ops, [Stall(idle)]);
    ApplyAllAppend(lim, EMPTY, ops, [SetTerminal(failed)]);
    ApplyAllAppend(lim, EMPTY, ops, [Reopen]);
    ApplyTwo(lim, log, Stall(idle), Reopen);
    ApplyTwo(lim, log, SetTerminal(failed), Reopen);
    ApplyTwo(lim, log, Reopen, Reopen);
  }

  /** What goes wrong in one write: the append raises before or after it stores the frame, the state
      cannot be read for the reason, or the notice or the terminal mark fails. */
  datatype AppendFault = Answers | RaisesBefore | RaisesAfter

  datatype Trouble = Trouble(append: AppendFault, stateFails: bool, noticeFails: bool, markFails: bool)

  function LimitReason(lim: Limits, log: Log, stateFails: bool): string {
    if stateFails || log.frameCount >= lim.maxFrames then "frame_limit" else "byte_limit"
  }

  function NoticeOps(reason: string, fails: bool): seq<Op> {
    if fails then [] else [Notice(reason)]
  }

  /** The store operations of one write, in the order in which the write gateway issues them. */
  function WriteOps(lim: Limits, log: Log, kind: string, payload: Payload, isTerminal: bool, tr: Trouble): seq<Op> {
    var append := Append(kind, payload, isTerminal);
    match tr.append
    case RaisesBefore => NoticeOps("write_failed", tr.noticeFails)
    case RaisesAfter => [append] + NoticeOps("write_failed", tr.noticeFails)
    case Answers =>
      if !Fits(lim, log, payload) then [append] + NoticeOps(LimitReason(lim, log, tr.stateFails), tr.noticeFails)
      else if isTerminal && !tr.markFails then [append, SetTerminal(kind == "run.failed")]
      else [append]
  }

  /** A write that no other writer interrupts is calm, whatever the state it meets and whatever fails. */
  lemma WriteIsCalm(lim: Limits, log: Log, kind: string, payload: Payload, isTerminal: bool, tr: Trouble)
    ensures Calm(lim, log, WriteOps(lim, log, kind, payload, isTerminal, tr))
  {
    var ops := WriteOps(lim, log, kind, payload, isTerminal, tr);
    if |ops| == 2 {
      var next := Apply(lim, log, ops[0]);
      assert ops[1..] == [ops[1]];
      assert Calm(lim, Apply(lim, next, ops[1]), ops[1..][1..]);
    }
  }

  const CALM_WRITE := Trouble(Answers, false, false, false)

  /** There is room for a frame of this size behind those that are stored. */
  predicate HasRoom(lim: Limits, log: Log, bytes: nat) {
    log.status != Unavailable && |log.frames| + 1 <= lim.maxFrames && TotalBytes(log.frames) + bytes <= lim.maxBytes
  }

  /** What one write leaves when nothing fails and there is room, whatever happened before: the frame, and
      then the run's end if it is a terminal one. */
  lemma WhatIsWritten(lim: Limits, ops: seq<Op>, kind: string, payload: Payload, isTerminal: bool)
    requires lim.maxFrames >= 0 && HasRoom(lim, ApplyAll(lim, EMPTY, ops), payload.bytes)
    ensures var log := ApplyAll(lim, EMPTY, ops);
            var after := ApplyAll(lim, log, WriteOps(lim, log, kind, payload, isTerminal, CALM_WRITE));
            && after.frames == log.frames + [Frame(|log.frames| + 1, kind, payload, isTerminal)]
            && after.status == (if isTerminal then (if kind == "run.failed" then Failed else Completed)
                                else if log.status == Unopened then Streaming else log.status)
  {
    ApplyAllKeeps(lim, EMPTY, ops);
    ApplyAllKeepsBytes(lim, EMPTY, ops);
    var log := ApplyAll(lim, EMPTY, ops);
    ApplyTwo(lim, log, Append(kind, payload, isTerminal), SetTerminal(kind == "run.failed"));
  }

  /** And when there is none: no frame but the notice, with the limit that was in the way as its reason. */
  lemma WhatIsRefused(lim: Limits, ops: seq<Op>, kind: string, payload: Payload, isTerminal: bool)
    requires lim.maxFrames >= 0 && !HasRoom(lim, ApplyAll(lim, EMPTY, ops), payload.bytes)
    ensures var log := ApplyAll(lim, EMPTY, ops);
            var after := ApplyAll(lim, log, WriteOps(lim, log, kind, payload, isTerminal, CALM_WRITE));
            var reason := if |log.frames| >= lim.maxFrames then "frame_limit" else "byte_limit";
            && after.status == Unavailable
            && after.frames == log.frames + (if HasNotice(log) then []
                 else [Frame(|log.frames| + 1, "stream.unavailable", Payload(reason, |reason| + 14), true)])
  {
    ApplyAllKeeps(lim, EMPTY, ops);
    ApplyAllKeepsBytes(lim, EMPTY, ops);
    var log := ApplyAll(lim, EMPTY, ops);
    ApplyTwo(lim, log, Append(kind, payload, isTerminal), Notice(LimitReason(lim, log, false)));
  }

  /** What one write leaves when something fails: an append that raises is answered with the notice of a
      failed write, behind the frame if that was stored all the same; a notice that fails leaves the
      stream as it is, and a mark that fails leaves it open. */
  lemma WhatIsLeft(lim: Limits, log: Log, kind: string, payload: Payload, isTerminal: bool, tr: Trouble)
    ensures var append, notice := Append(kind, payload, isTerminal), Notice("write_failed");
            var ops := WriteOps(lim, log, kind, payload, isTerminal, tr);
            && (tr.append == RaisesBefore ==> ops == if tr.noticeFails then [] else [notice])
            && (tr.append == RaisesAfter ==> ops == if tr.noticeFails then [append] else [append, notice])
            && (tr.append == Answers && (tr.markFails || !isTerminal) && Fits(lim, log, payload) ==> ops == [append])
            && (tr.append == Answers && tr.noticeFails && !Fits(lim, log, payload) ==> ops == [append])
            && (tr.append == Answers && tr.stateFails && !tr.noticeFails && !Fits(lim, log, payload) ==>
                  ops == [append, Notice("frame_limit")])
  {
    assert [Append(kind, payload, isTerminal)] + [] == [Append(kind, payload, isTerminal)];
  }

  // ---------------------------------------------------------------- several writers

  function LogAfter(lim: Limits, log: Log, ops: seq<Op>, n: nat): Log
    requires n <= |ops|
  {
    ApplyAll(lim, log, ops[..n])
  }

  function StatusAfter(lim: Limits, log: Log, ops: seq<Op>, n: nat): Status
    requires n <= |ops|
  {
    LogAfter(lim, log, ops, n).status
  }

  /** Calm, operation by operation. */
  lemma {:induction false} CalmMarks(lim: Limits, log: Log, ops: seq<Op>)
    ensures Calm(lim, log, ops)
       <==> forall j :: 0 <= j < |ops| && ops[j].SetTerminal? ==> StatusAfter(lim, log, ops, j) != Unavailable
    decreases ops
  {
    if ops != [] {
      var next, tail := Apply(lim, log, ops[0]), ops[1..];
      CalmMarks(lim, next, tail);
      assert StatusAfter(lim, log, ops, 0) == log.status;
      forall j | 0 <= j < |tail| ensures StatusAfter(lim, next, tail, j) == StatusAfter(lim, log, ops, j + 1) {
        assert ops[..j + 1][0] == ops[0] && ops[..j + 1][1..] == tail[..j];
      }
      if !Calm(lim, next, tail) {
        var j :| 0 <= j < |tail| && tail[j].SetTerminal? && StatusAfter(lim, next, tail, j) == Unavailable;
        assert ops[j + 1].SetTerminal? && StatusAfter(lim, log, ops, j + 1) == Unavailable;
      }
      if Calm(lim, log, ops) {
        forall j | 0 <= j < |ops| && ops[j].SetTerminal? ensures StatusAfter(lim, log, ops, j) != Unavailable {
          if j > 0 {
            assert tail[j - 1].SetTerminal?;
          }
        }
      }
    }
  }

  lemma {:induction false} UnavailableStays(lim: Limits, log: Log, ops: seq<Op>)
    requires log.status == Unavailable && Calm(lim, log, ops)
    ensures ApplyAll(lim, log, ops).status == Unavailable
    decreases ops
  {
    if ops != [] {
      UnavailableStays(lim, Apply(lim, log, ops[0]), ops[1..]);
    }
  }

  /** The mark at `j` belongs to the terminal frame that its writer stored at `i`. */
  predicate IsOwnMark(lim: Limits, log: Log, ops: seq<Op>, i: nat, j: nat) {
    && i < j < |ops| && ops[j].SetTerminal?
    && ops[i].Append? && ops[i].isTerminal && Fits(lim, ApplyAll(lim, log, ops[..i]), ops[i].payload)
  }

  /** Every mark is one that a writer issues, for the frame at `own(j)`. */
  ghost predicate MarksAreOwn(lim: Limits, log: Log, ops: seq<Op>, own: nat -> nat) {
    forall j: nat :: j < |ops| && ops[j].SetTerminal? ==> IsOwnMark(lim, log, ops, own(j), j)
  }

  /** The stream has become unavailable after the frame of a mark and before the mark. */
  predicate IsSpoiled(lim: Limits, log: Log, ops: seq<Op>, own: nat -> nat, j: nat, k: nat) {
    j < |ops| && ops[j].SetTerminal? && own(j) < k < j && StatusAfter(lim, log, ops, k + 1) == Unavailable
  }

  lemma OwnFrameKeepsStatus(lim: Limits, log: Log, ops: seq<Op>, i: nat, j: nat)
    requires IsOwnMark(lim, log, ops, i, j)
    ensures StatusAfter(lim, log, ops, i + 1) != Unavailable
  {
    assert ops[..i + 1] == ops[..i] + [ops[i]];
    ApplyAllAppend(lim, log, ops[..i], [ops[i]]);
    ApplyTwo(lim, ApplyAll(lim, log, ops[..i]), ops[i], ops[i]);
  }

  lemma SpoiledIsNotCalm(lim: Limits, log: Log, ops: seq<Op>, own: nat -> nat, j: nat, k: nat)
    requires IsSpoiled(lim, log, ops, own, j, k)
    ensures !Calm(lim, log, ops)
  {
    var mid := ops[k + 1..j];
    var before := ApplyAll(lim, log, ops[..k + 1]);
    assert ops == ops[..k + 1] + (mid + ops[j..]) && ops[..j] == ops[..k + 1] + mid;
    CalmAppend(lim, log, ops[..k + 1], mid + ops[j..]);
    CalmAppend(lim, before, mid, ops[j..]);
    ApplyAllAppend(lim, log, ops[..k + 1], mid);
    CalmMarks(lim, log, ops);
    if Calm(lim, log, ops) {
      UnavailableStays(lim, before, mid);
    }
  }

  /** Any interleaving of writers, stall sweeps and resumptions is calm exactly when no notice and no
      stall comes between a stored terminal frame and its mark. */
  lemma CalmIffMarksAreUndisturbed(lim: Limits, log: Log, ops: seq<Op>, own: nat -> nat)
    requires MarksAreOwn(lim, log, ops, own)
    ensures Calm(lim, log, ops) <==> forall j: nat, k: nat :: !IsSpoiled(lim, log, ops, own, j, k)
  {
    if j: nat, k: nat :| IsSpoiled(lim, log, ops, own, j, k) {
      SpoiledIsNotCalm(lim, log, ops, own, j, k);
    } else {
      forall j | 0 <= j < |ops| && ops[j].SetTerminal? ensures StatusAfter(lim, log, ops, j) != Unavailable {
        OwnFrameKeepsStatus(lim, log, ops, own(j), j);
        assert own(j) < j - 1 ==> !IsSpoiled(lim, log, ops, own, j, j - 1);
      }
      CalmMarks(lim, log, ops);
    }
  }

  /** The number announced with an unavailable notice is above every stored number, now and in every
      calm future, exactly when the log already holds a notice frame. */
  lemma NoticeNumberStaysAbove(lim: Limits, log: Log)
    requires WellFormed(lim, log) && lim.maxFrames >= 0 && log.status == Unavailable
    ensures (forall ops | Calm(lim, log, ops) :: ApplyAll(lim, log, ops).lastSeq < log.lastSeq + 1)
       <==> HasNotice(log)
  {
    forall ops | Calm(lim, log, ops) && HasNotice(log)
      ensures ApplyAll(lim, log, ops).lastSeq < log.lastSeq + 1
    {
      UnavailableIsFinal(lim, log, ops);
      ApplyAllKeeps(lim, log, ops);
    }
    if !HasNotice(log) {
      var late := [Notice(STALLED)];
      assert ApplyAll(lim, log, late) == ApplyAll(lim, Apply(lim, log, late[0]), []);
      assert Calm(lim, log, late);
      assert ApplyAll(lim, log, late).lastSeq == log.lastSeq + 1;
    }
  }

  /** No frame fits any more, however small. */
  predicate IsFull(lim: Limits, log: Log) {
    log.frameCount >= lim.maxFrames || log.byteCount + SMALLEST > lim.maxBytes
  }

  lemma {:induction false} FullAddsNothing(lim: Limits, log: Log, ops: seq<Op>)
    requires WellFormed(lim, log) && lim.maxFrames >= 0 && HasNotice(log) && IsFull(lim, log)
    ensures ApplyAll(lim, log, ops).lastSeq == log.lastSeq
    decreases ops
  {
    if ops != [] {
      ApplyKeeps(lim, log, ops[0]);
      FullAddsNothing(lim, Apply(lim, log, ops[0]), ops[1..]);
    }
  }

  /** Over all futures, late terminal marks included, it stays above them exactly when, besides, no
      frame fits any more. */
  lemma NoticeNumberIsSafe(lim: Limits, log: Log)
    requires WellFormed(lim, log) && lim.maxFrames >= 0 && log.status == Unavailable
    ensures (forall ops :: ApplyAll(lim, log, ops).lastSeq < log.lastSeq + 1) <==> HasNotice(log) && IsFull(lim, log)
  {
    if HasNotice(log) && IsFull(lim, log) {
      forall ops ensures ApplyAll(lim, log, ops).lastSeq < log.lastSeq + 1 {
        FullAddsNothing(lim, log, ops);
      }
    } else {
      var late := if HasNotice(log) then [SetTerminal(false), Append("", Payload("{}", SMALLEST), false)]
                  else [Notice(STALLED), Notice(STALLED)];
      ApplyTwo(lim, log, late[0], late[1]);
      assert late == [late[0], late[1]];
      if !HasNotice(log) {
        ApplyKeeps(lim, log, Notice(STALLED));
        FirstNoticeAppend(log.frames, Frame(log.lastSeq + 1, UNAVAILABLE_KIND, ReasonPayload(STALLED), true));
      }
      assert ApplyAll(lim, log, late).lastSeq == log.lastSeq + 1;
    }
  }

  // ---------------------------------------------------------------- jumps over the announced number

  /** After `i` operations the stream is unavailable, and after `j` the log is longer by two: it has
      gone past the number that was announced. */
  predicate Jumps(lim: Limits, log: Log, ops: seq<Op>, i: nat, j: nat) {
    && i <= j <= |ops| && StatusAfter(lim, log, ops, i) == Unavailable
    && |LogAfter(lim, log, ops, j).frames| >= |LogAfter(lim, log, ops, i).frames| + 2
  }

  ghost predicate NeverJumps(lim: Limits, log: Log, ops: seq<Op>) {
    forall i: nat, j: nat :: !Jumps(lim, log, ops, i, j)
  }

  lemma NeverJumpsEarlier(lim: Limits, log: Log, ops: seq<Op>, all: seq<Op>)
    requires NeverJumps(lim, log, all) && ops <= all
    ensures NeverJumps(lim, log, ops)
  {
    forall i: nat, j: nat ensures !Jumps(lim, log, ops, i, j) {
      if i <= j <= |ops| {
        assert all[..i] == ops[..i] && all[..j] == ops[..j];
        assert !Jumps(lim, log, all, i, j);
      }
    }
  }

  /** Calm histories never jump. */
  lemma CalmNeverJumps(lim: Limits, log: Log, ops: seq<Op>)
    requires WellFormed(lim, log) && lim.maxFrames >= 0 && Calm(lim, log, ops)
    ensures NeverJumps(lim, log, ops)
  {
    forall i: nat, j: nat ensures !Jumps(lim, log, ops, i, j) {
      if i <= j <= |ops| && StatusAfter(lim, log, ops, i) == Unavailable {
        assert ops == ops[..i] + (ops[i..j] + ops[j..]) && ops[..j] == ops[..i] + ops[i..j];
        CalmAppend(lim, log, ops[..i], ops[i..j] + ops[j..]);
        CalmAppend(lim, LogAfter(lim, log, ops, i), ops[i..j], ops[j..]);
        ApplyAllAppend(lim, log, ops[..i], ops[i..j]);
        ApplyAllKeeps(lim, log, ops[..i]);
        UnavailableIsFinal(lim, LogAfter(lim, log, ops, i), ops[i..j]);
      }
    }
  }

  /** What calmness excludes: a terminal mark written late, by a writer whose frame went in before the
      notice, lets the run be reopened, and frames are stored from the announced number on. */
  lemma LateMarkAddsTwo(lim: Limits, log: Log, kind: string, payload: Payload)
    requires WellFormed(lim, log) && lim.maxFrames >= 0 && log.status == Unavailable
    requires log.frameCount + 2 <= lim.maxFrames && log.byteCount + 2 * payload.bytes <= lim.maxBytes
    ensures ApplyAll(lim, log, LateMark(kind, payload)).frames
         == log.frames + [Frame(log.lastSeq + 1, kind, payload, false)] + [Frame(log.lastSeq + 2, kind, payload, false)]
  {
    var frame := Append(kind, payload, false);
    ApplyTwo(lim, log, SetTerminal(false), Reopen);
    var reopened := ApplyAll(lim, log, [SetTerminal(false), Reopen]);
    ApplyTwo(lim, reopened, frame, frame);
    ApplyAllAppend(lim, log, [SetTerminal(false), Reopen], [frame, frame]);
  }

  /** A mark issued after another writer's notice, a resumption and two frames. */
  function LateMark(kind: string, payload: Payload): seq<Op> {
    [SetTerminal(false), Reopen] + [Append(kind, payload, false), Append(kind, payload, false)]
  }
}
