/** The cursor a connection starts from: the larger of the last event number a client presents and
    the `after_seq` parameter. */
module StreamCursor {
  import opened Options
  import opened Text
  import opened Decimals

  datatype Start = At(cursor: nat) | Rejected

  function StartCursor(lastEventId: Option<string>, afterSeq: Option<int>): Start {
    var text := if lastEventId.Some? then RStrip(LStrip(lastEventId.value)) else "0";
    if !IsNumber(text) then Rejected
    else if afterSeq.Some? && afterSeq.value < 0 then Rejected
    else
      var seen := ToNat(text);
      At(if afterSeq.Some? && afterSeq.value > seen then afterSeq.value else seen)
  }

  lemma ZeroIsZero()
    ensures IsNumber("0") && ToNat("0") == 0
  {
    assert "0"[..0] == "";
  }

  /** Without a number the stream starts at its beginning, or behind the parameter. */
  lemma FirstConnectionStartsAtZero(afterSeq: nat)
    ensures StartCursor(None, None) == At(0)
    ensures StartCursor(None, Some(afterSeq)) == At(afterSeq)
  {
    ZeroIsZero();
  }

  /** Exactly these are refused: a presented text that without the blanks around it is empty or has a
      character that is no digit, and a negative parameter. */
  lemma RejectedIff(lastEventId: Option<string>, afterSeq: Option<int>)
    ensures StartCursor(lastEventId, afterSeq) == Rejected
       <==> || (lastEventId.Some?
                && var text := RStrip(LStrip(lastEventId.value));
                   text == "" || exists i :: 0 <= i < |text| && !('0' <= text[i] <= '9'))
            || (afterSeq.Some? && afterSeq.value < 0)
  {
    ZeroIsZero();
  }

  /** Blanks around the number do not matter. */
  lemma {:induction false} StripBlanks(before: string, s: string, after: string)
    requires s != "" && !IsSpace(s[0]) && !IsSpace(s[|s| - 1])
    requires (forall c | c in before :: IsSpace(c)) && (forall c | c in after :: IsSpace(c))
    ensures RStrip(LStrip(before + s + after)) == s
    decreases |before| + |after|
  {
    var text := before + s + after;
    if before != "" {
      assert text[0] == before[0] && before[0] in before && text[1..] == before[1..] + s + after;
      StripBlanks(before[1..], s, after);
    } else if after != "" {
      var shorter := after[..|after| - 1];
      assert LStrip(text) == text && text[|text| - 1] == after[|after| - 1] && after[|after| - 1] in after;
      assert text[..|text| - 1] == "" + s + shorter && LStrip("" + s + shorter) == "" + s + shorter;
      StripBlanks("", s, shorter);
    } else {
      assert text == s;
    }
  }

  lemma StripNumber(before: string, s: string, after: string)
    requires IsNumber(s) && (forall c | c in before :: IsSpace(c)) && (forall c | c in after :: IsSpace(c))
    ensures RStrip(LStrip(before + s + after)) == s
  {
    assert IsDigit(s[0]) && IsDigit(s[|s| - 1]);
    StripBlanks(before, s, after);
  }

  /** The number sent with an event brings the client back right behind that event, and never to an
      earlier place than the parameter asks for. */
  lemma PresentedNumberIsResumed(before: string, n: nat, after: string, afterSeq: Option<int>)
    requires (forall c | c in before :: IsSpace(c)) && (forall c | c in after :: IsSpace(c))
    ensures StartCursor(Some(before + Decimal(n) + after), afterSeq)
         == match afterSeq
            case None => At(n)
            case Some(a) => if a < 0 then Rejected else At(if a > n then a else n)
  {
    ToNatOfDecimal(n);
    StripNumber(before, Decimal(n), after);
  }
}
