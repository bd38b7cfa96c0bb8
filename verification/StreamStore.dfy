/** The frame store of one run as an object, and the write gateway in front of it. */
module StreamStore {
  import opened Options
  import opened StreamLog

  class RunStream {
    var frames: seq<Frame>
    var lastSeq: nat
    var frameCount: nat
    var byteCount: nat
    var terminal: bool
    var status: Status
    const limits: Limits

    function View(): Log
      reads this
    {
      Log(frames, lastSeq, frameCount, byteCount, terminal, status)
    }

    constructor (limits: Limits)
      ensures View() == EMPTY && this.limits == limits
    {
      this.limits := limits;
      frames, lastSeq, frameCount, byteCount, terminal, status := [], 0, 0, 0, false, Unopened;
    }

    /** Appends a frame unless the stream is unavailable or a limit would be exceeded. */
    method AppendFrame(kind: string, payload: Payload, isTerminal: bool) returns (frame: Option<Frame>)
      modifies this
      ensures View() == Apply(limits, old(View()), Append(kind, payload, isTerminal))
      ensures frame == if Fits(limits, old(View()), payload)
                       then Some(Frame(old(lastSeq) + 1, kind, payload, isTerminal)) else None
    {
      if status == Unopened {
        status := Streaming;
      }
      if status == Unavailable {
        return None;
      }
      if frameCount + 1 > limits.maxFrames || byteCount + payload.bytes > limits.maxBytes {
        return None;
      }
      var appended := Frame(lastSeq + 1, kind, payload, isTerminal);
      lastSeq := lastSeq + 1;
      frameCount := frameCount + 1;
      byteCount := byteCount + payload.bytes;
      frames := frames + [appended];
      frame := Some(appended);
    }

    /** Adds the notice frame past all limits, at most once per run. */
    method AppendUnavailable(reason: string) returns (frame: Frame)
      modifies this
      ensures View() == Apply(limits, old(View()), Notice(reason))
      ensures frame in frames && frame.kind == UNAVAILABLE_KIND
    {
      var existing := FirstNotice(frames);
      FirstNoticeIsStored(frames);
      if existing.Some? {
        status := Unavailable;
        terminal := true;
        return existing.value;
      }
      frame := Frame(lastSeq + 1, UNAVAILABLE_KIND, ReasonPayload(reason), true);
      lastSeq := lastSeq + 1;
      frameCount := frameCount + 1;
      byteCount := byteCount + ReasonPayload(reason).bytes;
      status := Unavailable;
      terminal := true;
      frames := frames + [frame];
    }

    /** Does nothing for a run without a state row. */
    method MarkTerminal(failed: bool)
      modifies this
      ensures View() == Apply(limits, old(View()), SetTerminal(failed))
    {
      if status == Unopened {
        return;
      }
      status := if failed then Failed else Completed;
      terminal := true;
    }

    method MarkUnavailable()
      modifies this
      ensures View() == Apply(limits, old(View()), SetUnavailable)
    {
      status := Unavailable;
      terminal := true;
    }

    method ReopenIfTerminal() returns (reopened: bool)
      modifies this
      ensures View() == Apply(limits, old(View()), Reopen)
      ensures reopened <==> old(terminal) && old(status) != Unavailable
    {
      if !terminal || status == Unavailable {
        return false;
      }
      status := Streaming;
      terminal := false;
      reopened := true;
    }

    /** The sweep for abandoned streams; `idle` says whether the row is older than the cut-off. */
    method MarkStalled(idle: bool) returns (changed: nat)
      modifies this
      ensures View() == Apply(limits, old(View()), Stall(idle))
      ensures changed == if old(status) == Streaming && idle then 1 else 0
    {
      changed := 0;
      if status == Streaming && idle {
        status := Unavailable;
        terminal := true;
        changed := 1;
      }
    }
  }

  lemma {:induction false} FirstNoticeIsStored(frames: seq<Frame>)
    ensures var n := FirstNotice(frames); n.Some? ==> n.value in frames && n.value.kind == UNAVAILABLE_KIND
  {
    if frames != [] {
      FirstNoticeIsStored(frames[1..]);
    }
  }

  /** One write: the frame, or the explicit notice when it cannot be stored, and the terminal mark
      after a terminal frame; what fails on the way is swallowed. */
  method Write(store: RunStream, kind: string, payload: Payload, isTerminal: bool, tr: Trouble)
    returns (frame: Option<Frame>)
    modifies store
    ensures store.View() == ApplyAll(store.limits, old(store.View()),
                                     WriteOps(store.limits, old(store.View()), kind, payload, isTerminal, tr))
    ensures frame.Some? <==> tr.append.Answers? && Fits(store.limits, old(store.View()), payload)
    ensures frame.None? && !tr.noticeFails ==> store.status == Unavailable
  {
    ghost var start := store.View();
    ghost var ops := WriteOps(store.limits, start, kind, payload, isTerminal, tr);
    if ops != [] {
      ApplyTwo(store.limits, start, ops[0], ops[|ops| - 1]);
      assert ops == [ops[0]] || ops == [ops[0], ops[1]];
    }
    frame := None;
    if !tr.append.RaisesBefore? {
      frame := store.AppendFrame(kind, payload, isTerminal);
    }
    if !tr.append.Answers? {
      MarkWriteFailed(store, "write_failed", tr.noticeFails);
      return None;
    }
    if frame.None? {
      var reason := if tr.stateFails || store.frameCount >= store.limits.maxFrames then "frame_limit" else "byte_limit";
      MarkWriteFailed(store, reason, tr.noticeFails);
      return None;
    }
    if isTerminal && !tr.markFails {
      store.MarkTerminal(kind == "run.failed");
    }
  }

  method MarkWriteFailed(store: RunStream, reason: string, fails: bool)
    modifies store
    ensures store.View() == if fails then old(store.View()) else Apply(store.limits, old(store.View()), Notice(reason))
  {
    if !fails {
      var _ := store.AppendUnavailable(reason);
    }
  }
}
