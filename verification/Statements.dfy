/** Splitting a dump into statements: lines are collected until the parentheses balance and the
    line ends in a semicolon. */
module Statements {
  import opened Text

  // ---------------------------------------------------------------- parentheses and quotes

  /** The net number of opening parentheses outside single quotes, and whether the text ends inside
      a quote, when every quote character simply toggles. */
  function Balance(s: string, inQuote: bool): (int, bool) {
    if s == [] then (0, inQuote)
    else if s[0] == '\'' then Balance(s[1..], !inQuote)
    else
      var rest := Balance(s[1..], inQuote);
      (rest.0 + (if inQuote then 0 else if s[0] == '(' then 1 else if s[0] == ')' then -1 else 0), rest.1)
  }

  /** The scan of one line, which steps over a doubled quote inside a string. */
  method ParenDelta(line: string, startInQuote: bool) returns (delta: int, inQuote: bool)
    ensures (delta, inQuote) == Balance(line, startInQuote)
  {
    delta, inQuote := 0, startInQuote;
    var index := 0;
    while index < |line|
      invariant 0 <= index <= |line|
      invariant var rest := Balance(line[index..], inQuote);
                Balance(line, startInQuote) == (delta + rest.0, rest.1)
    {
      var c := line[index];
      if inQuote {
        if c == '\'' {
          if index + 1 < |line| && line[index + 1] == '\'' {
            assert line[index..][1..][1..] == line[index + 2..];
            index := index + 2;
            continue;
          }
          inQuote := false;
        }
      } else if c == '\'' {
        inQuote := true;
      } else if c == '(' {
        delta := delta + 1;
      } else if c == ')' {
        delta := delta - 1;
      }
      index := index + 1;
    }
  }

  lemma {:induction false} BalanceAppend(s: string, t: string, inQuote: bool)
    ensures var first := Balance(s, inQuote); var second := Balance(t, first.1);
            Balance(s + t, inQuote) == (first.0 + second.0, second.1)
  {
    if s == [] {
      assert s + t == t;
    } else {
      assert (s + t)[1..] == s[1..] + t;
      BalanceAppend(s[1..], t, if s[0] == '\'' then !inQuote else inQuote);
    }
  }

  /** How many parentheses more are opened than closed. */
  function Opened(s: string): int {
    multiset(s)['('] as int - multiset(s)[')'] as int
  }

  /** Outside a string the balance is that difference, and inside it is nothing, up to the next quote,
      which turns the one into the other. */
  lemma {:induction false} BalanceIs(s: string, rest: string, inQuote: bool)
    requires '\'' !in s
    ensures Balance(s, inQuote) == (if inQuote then 0 else Opened(s), inQuote)
    ensures Balance(s + ['\''] + rest, inQuote)
         == ((if inQuote then 0 else Opened(s)) + Balance(rest, !inQuote).0, Balance(rest, !inQuote).1)
  {
    if s == [] {
      assert s + ['\''] + rest == ['\''] + rest && (['\''] + rest)[1..] == rest;
    } else {
      assert s == [s[0]] + s[1..] && s[0] in s;
      assert (s + ['\''] + rest)[1..] == s[1..] + ['\''] + rest;
      BalanceIs(s[1..], rest, inQuote);
    }
  }

  /** Line after line, as the splitter carries the two values over. */
  function LineBalance(lines: seq<string>, inQuote: bool): (int, bool) {
    if lines == [] then (0, inQuote)
    else
      var first := Balance(lines[0], inQuote);
      var rest := LineBalance(lines[1..], first.1);
      (first.0 + rest.0, rest.1)
  }

  /** Carrying the scan from line to line is the quote-parity scan of the whole text. */
  lemma {:induction false} LineBalanceIsTextBalance(lines: seq<string>, inQuote: bool)
    ensures LineBalance(lines, inQuote) == Balance(Unlines(lines), inQuote)
  {
    if lines != [] {
      var first := Balance(lines[0], inQuote);
      LineBalanceIsTextBalance(lines[1..], first.1);
      BalanceAppend(lines[0], "\n", inQuote);
      BalanceAppend(lines[0] + "\n", Unlines(lines[1..]), inQuote);
      assert "\n"[1..] == "";
    }
  }

  // ---------------------------------------------------------------- grouping lines

  /** Blank lines and comments are skipped wherever they stand. */
  predicate Noise(line: string) {
    var stripped := RStrip(LStrip(line));
    stripped == [] || "--" <= stripped
  }

  predicate EndsInSemicolon(line: string) {
    var stripped := RStrip(line);
    stripped != [] && stripped[|stripped| - 1] == ';'
  }

  lemma {:induction false} RStripEnds(s: string, c: char)
    requires !IsSpace(c)
    ensures (RStrip(s) != [] && RStrip(s)[|RStrip(s)| - 1] == c)
       <==> exists n :: 0 <= n < |s| && s[n] == c && forall i :: n < i < |s| ==> IsSpace(s[i])
    decreases |s|
  {
    if s != [] {
      var init, last := s[..|s| - 1], s[|s| - 1];
      if IsSpace(last) {
        RStripEnds(init, c);
        if n :| 0 <= n < |s| && s[n] == c && forall i :: n < i < |s| ==> IsSpace(s[i]) {
          assert init[n] == c && forall i :: n < i < |init| ==> IsSpace(init[i]);
        }
      }
    }
  }

  /** The last character that is not blank is a semicolon. */
  lemma SemicolonIs(line: string)
    ensures EndsInSemicolon(line)
       <==> exists n :: 0 <= n < |line| && line[n] == ';' && forall i :: n < i < |line| ==> IsSpace(line[i])
  {
    RStripEnds(line, ';');
  }

  /** The characters before the first that is not blank do not matter: the line is blank behind them, or
      two dashes follow. */
  lemma NoiseIs(line: string, n: nat)
    requires n <= |line| && (forall i :: 0 <= i < n ==> IsSpace(line[i])) && (n < |line| ==> !IsSpace(line[n]))
    ensures Noise(line) <==> n == |line| || (n + 1 < |line| && line[n] == '-' && line[n + 1] == '-')
  {
    LStripAt(line, n);
    var rest := line[n..];
    if rest != [] {
      RStripKeepsStart(rest, if n + 1 < |line| && !IsSpace(line[n + 1]) then 2 else 1);
      if n + 1 < |line| && IsSpace(line[n + 1]) {
        assert rest[1] == line[n + 1];
      }
    }
  }

  datatype State = State(done: seq<seq<string>>, current: seq<string>, depth: int, inQuote: bool)

  function Step(st: State, line: string): State {
    if Noise(line) then st
    else
      var current := st.current + [line];
      var (delta, inQuote) := Balance(line, st.inQuote);
      if st.depth + delta <= 0 && EndsInSemicolon(line) then State(st.done + [current], [], 0, false)
      else State(st.done, current, st.depth + delta, inQuote)
  }

  function Fold(lines: seq<string>, st: State): State {
    if lines == [] then st else Fold(lines[1..], Step(st, lines[0]))
  }

  function Flushed(st: State): seq<seq<string>> {
    if st.current == [] then st.done else st.done + [st.current]
  }

  /** The statements of a text, each as its lines. */
  function Groups(lines: seq<string>): seq<seq<string>> {
    Flushed(Fold(lines, State([], [], 0, false)))
  }

  function JoinAll(groups: seq<seq<string>>): (statements: seq<string>)
    ensures |statements| == |groups|
    ensures forall i | 0 <= i < |groups| :: statements[i] == Join(groups[i], "\n")
  {
    seq(|groups|, i requires 0 <= i < |groups| => Join(groups[i], "\n"))
  }

  function Split(text: string): seq<string> {
    JoinAll(Groups(SplitLines(text)))
  }

  method SplitStatements(text: string) returns (statements: seq<string>)
    ensures statements == Split(text)
  {
    var lines := SplitLines(text);
    statements := [];
    var current: seq<string> := [];
    var depth, inQuote := 0, false;
    ghost var done: seq<seq<string>> := [];
    for i := 0 to |lines|
      invariant statements == JoinAll(done)
      invariant Fold(lines, State([], [], 0, false)) == Fold(lines[i..], State(done, current, depth, inQuote))
    {
      assert lines[i..][1..] == lines[i + 1..];
      if Noise(lines[i]) {
        continue;
      }
      current := current + [lines[i]];
      var delta, quoted := ParenDelta(lines[i], inQuote);
      inQuote := quoted;
      depth := depth + delta;
      if depth <= 0 && EndsInSemicolon(lines[i]) {
        statements := statements + [Join(current, "\n")];
        done := done + [current];
        current := [];
        depth := 0;
        inQuote := false;
      }
    }
    if current != [] {
      statements := statements + [Join(current, "\n")];
      done := done + [current];
    }
  }

  // ---------------------------------------------------------------- what the groups are

  function Meaningful(lines: seq<string>): seq<string> {
    if lines == [] then []
    else (if Noise(lines[0]) then [] else [lines[0]]) + Meaningful(lines[1..])
  }

  function Concat(groups: seq<seq<string>>): seq<string> {
    if groups == [] then [] else groups[0] + Concat(groups[1..])
  }

  /** Read from the given depth and quoting, the lines reach a balanced line ending in a semicolon
      at their last line and not before. */
  predicate Closed(lines: seq<string>, depth: int, inQuote: bool) {
    && lines != []
    && var (delta, quoted) := Balance(lines[0], inQuote);
       if depth + delta <= 0 && EndsInSemicolon(lines[0]) then |lines| == 1
       else Closed(lines[1..], depth + delta, quoted)
  }

  /** ... and here they never reach one. */
  predicate Open(lines: seq<string>, depth: int, inQuote: bool) {
    lines == [] ||
    var (delta, quoted) := Balance(lines[0], inQuote);
    !(depth + delta <= 0 && EndsInSemicolon(lines[0])) && Open(lines[1..], depth + delta, quoted)
  }

  predicate NoNoise(lines: seq<string>) {
    forall i | 0 <= i < |lines| :: !Noise(lines[i])
  }

  /** Every group ends where a statement ends, except that the last may be unfinished. */
  predicate WellGrouped(groups: seq<seq<string>>) {
    groups == [] ||
    (&& groups[0] != [] && NoNoise(groups[0])
     && (Closed(groups[0], 0, false) || (|groups| == 1 && Open(groups[0], 0, false)))
     && WellGrouped(groups[1..]))
  }

  /** A statement ends with the first of its lines that ends in a semicolon when the parentheses outside
      strings, from the statement's start, are closed. */
  predicate EndsAt(lines: seq<string>, n: nat, depth: int, inQuote: bool) {
    && 1 <= n <= |lines| && EndsInSemicolon(lines[n - 1])
    && depth + Balance(Unlines(lines[..n]), inQuote).0 <= 0
  }

  lemma EndsAtFirst(lines: seq<string>, depth: int, inQuote: bool)
    requires lines != []
    ensures EndsAt(lines, 1, depth, inQuote)
       <==> depth + Balance(lines[0], inQuote).0 <= 0 && EndsInSemicolon(lines[0])
  {
    assert lines[..1] == [lines[0]];
    LineBalanceIsTextBalance([lines[0]], inQuote);
  }

  lemma EndsAtLater(lines: seq<string>, n: nat, depth: int, inQuote: bool)
    requires 2 <= n <= |lines|
    ensures var (delta, quoted) := Balance(lines[0], inQuote);
            EndsAt(lines, n, depth, inQuote) <==> EndsAt(lines[1..], n - 1, depth + delta, quoted)
  {
    assert lines[..n][0] == lines[0] && lines[..n][1..] == lines[1..][..n - 1];
    LineBalanceIsTextBalance(lines[..n], inQuote);
    LineBalanceIsTextBalance(lines[1..][..n - 1], Balance(lines[0], inQuote).1);
  }

  /** ... and with none of the first lines. */
  predicate NeverEnds(lines: seq<string>, upTo: nat, depth: int, inQuote: bool)
    decreases upTo
  {
    upTo == 0 || (!EndsAt(lines, upTo, depth, inQuote) && NeverEnds(lines, upTo - 1, depth, inQuote))
  }

  lemma {:induction false} NeverEndsTail(lines: seq<string>, upTo: nat, depth: int, inQuote: bool)
    requires 1 <= upTo <= |lines|
    ensures var (delta, quoted) := Balance(lines[0], inQuote);
            NeverEnds(lines, upTo, depth, inQuote)
            <==> !EndsAt(lines, 1, depth, inQuote) && NeverEnds(lines[1..], upTo - 1, depth + delta, quoted)
    decreases upTo
  {
    if upTo > 1 {
      NeverEndsTail(lines, upTo - 1, depth, inQuote);
      EndsAtLater(lines, upTo, depth, inQuote);
    }
  }

  lemma ClosedByFirst(lines: seq<string>, depth: int, inQuote: bool)
    requires lines != [] && EndsAt(lines, 1, depth, inQuote)
    ensures Closed(lines, depth, inQuote) <==> |lines| == 1
    ensures !Open(lines, depth, inQuote)
  {
    EndsAtFirst(lines, depth, inQuote);
  }

  lemma ClosedByRest(lines: seq<string>, depth: int, inQuote: bool)
    requires lines != [] && !EndsAt(lines, 1, depth, inQuote)
    ensures var (delta, quoted) := Balance(lines[0], inQuote);
            && (Closed(lines, depth, inQuote) <==> Closed(lines[1..], depth + delta, quoted))
            && (Open(lines, depth, inQuote) <==> Open(lines[1..], depth + delta, quoted))
  {
    EndsAtFirst(lines, depth, inQuote);
  }

  /** A closed group ends at its last line and not before; an open one never ends. */
  lemma {:induction false} ClosedIs(lines: seq<string>, depth: int, inQuote: bool)
    ensures Closed(lines, depth, inQuote)
       <==> lines != [] && EndsAt(lines, |lines|, depth, inQuote) && NeverEnds(lines, |lines| - 1, depth, inQuote)
    ensures Open(lines, depth, inQuote) <==> NeverEnds(lines, |lines|, depth, inQuote)
  {
    if lines != [] {
      var (delta, quoted) := Balance(lines[0], inQuote);
      NeverEndsTail(lines, |lines|, depth, inQuote);
      if |lines| > 1 {
        NeverEndsTail(lines, |lines| - 1, depth, inQuote);
        EndsAtLater(lines, |lines|, depth, inQuote);
      }
      if EndsAt(lines, 1, depth, inQuote) {
        ClosedByFirst(lines, depth, inQuote);
      } else {
        ClosedByRest(lines, depth, inQuote);
        ClosedIs(lines[1..], depth + delta, quoted);
      }
    }
  }

  lemma {:induction false} FoldSkipsNoise(lines: seq<string>, st: State)
    ensures Fold(lines, st) == Fold(Meaningful(lines), st)
  {
    if lines != [] {
      FoldSkipsNoise(lines[1..], Step(st, lines[0]));
      var kept := Meaningful(lines);
      if Noise(lines[0]) {
        assert kept == Meaningful(lines[1..]);
      } else {
        assert kept == [lines[0]] + Meaningful(lines[1..]);
      }
    }
  }

  lemma {:induction false} FoldAppend(a: seq<string>, b: seq<string>, st: State)
    ensures Fold(a + b, st) == Fold(b, Fold(a, st))
  {
    if a == [] {
      assert a + b == b;
    } else {
      assert (a + b)[1..] == a[1..] + b;
      FoldAppend(a[1..], b, Step(st, a[0]));
    }
  }

  lemma {:induction false} FoldGroup(g: seq<string>, st: State)
    requires NoNoise(g)
    ensures Closed(g, st.depth, st.inQuote) ==> Fold(g, st) == State(st.done + [st.current + g], [], 0, false)
    ensures Open(g, st.depth, st.inQuote) ==> Fold(g, st).done == st.done && Fold(g, st).current == st.current + g
  {
    if g != [] {
      var next := Step(st, g[0]);
      FoldGroup(g[1..], next);
      assert st.current + [g[0]] + g[1..] == st.current + g;
      assert |g| == 1 ==> g[1..] == [] && [g[0]] == g;
    } else {
      assert st.current + g == st.current;
    }
  }

  lemma FoldFirstGroup(g: seq<string>, done: seq<seq<string>>)
    requires NoNoise(g)
    ensures var st := Fold(g, State(done, [], 0, false));
            && (Closed(g, 0, false) ==> st == State(done + [g], [], 0, false))
            && (Open(g, 0, false) ==> st.done == done && st.current == g)
  {
    FoldGroup(g, State(done, [], 0, false));
    assert [] + g == g;
  }

  /** One closed group and the rest behind it. */
  lemma FoldClosedGroup(g: seq<string>, rest: seq<string>, done: seq<seq<string>>)
    requires NoNoise(g) && Closed(g, 0, false)
    ensures Fold(g + rest, State(done, [], 0, false)) == Fold(rest, State(done + [g], [], 0, false))
  {
    FoldAppend(g, rest, State(done, [], 0, false));
    FoldFirstGroup(g, done);
  }

  lemma FoldOpenGroup(g: seq<string>, done: seq<seq<string>>)
    requires g != [] && NoNoise(g) && Open(g, 0, false)
    ensures Flushed(Fold(g, State(done, [], 0, false))) == done + [g]
  {
    FoldFirstGroup(g, done);
  }

  lemma {:induction false} FoldGroups(groups: seq<seq<string>>, done: seq<seq<string>>)
    requires WellGrouped(groups)
    ensures Flushed(Fold(Concat(groups), State(done, [], 0, false))) == done + groups
  {
    if groups == [] {
      assert done + groups == done;
    } else {
      var g, rest := groups[0], groups[1..];
      if Closed(g, 0, false) {
        FoldClosedGroup(g, Concat(rest), done);
        FoldGroups(rest, done + [g]);
        assert done + [g] + rest == done + groups;
      } else {
        FoldOpenGroup(g, done);
        assert groups == [g] && g + Concat(rest) == g;
      }
    }
  }

  /** Either the lines never finish a statement, or a first statement can be cut off. */
  lemma {:induction false} FirstStatement(lines: seq<string>, depth: int, inQuote: bool) returns (n: nat)
    ensures n <= |lines|
    ensures Open(lines, depth, inQuote) || Closed(lines[..n], depth, inQuote)
  {
    n := 0;
    if lines != [] {
      var (delta, quoted) := Balance(lines[0], inQuote);
      if depth + delta <= 0 && EndsInSemicolon(lines[0]) {
        n := 1;
      } else {
        var m := FirstStatement(lines[1..], depth + delta, quoted);
        n := m + 1;
        assert lines[..n][1..] == lines[1..][..m];
      }
    }
  }

  lemma MeaningfulHasNoNoise(lines: seq<string>)
    ensures NoNoise(Meaningful(lines))
  {
  }

  lemma {:induction false} Grouping(lines: seq<string>) returns (groups: seq<seq<string>>)
    requires NoNoise(lines)
    ensures WellGrouped(groups) && Concat(groups) == lines
    decreases |lines|
  {
    if lines == [] {
      groups := [];
    } else {
      var n := FirstStatement(lines, 0, false);
      if Open(lines, 0, false) {
        groups := [lines];
        assert Concat(groups[1..]) == [];
      } else {
        var rest := Grouping(lines[n..]);
        groups := [lines[..n]] + rest;
        assert groups[1..] == rest;
      }
    }
  }

  /** The splitter returns the one well-grouped arrangement of the lines that are neither blank nor
      comments: it loses none of them, keeps their order, and cuts exactly where statements end. */
  lemma GroupsAreTheGrouping(lines: seq<string>, groups: seq<seq<string>>)
    ensures Groups(lines) == groups <==> WellGrouped(groups) && Concat(groups) == Meaningful(lines)
  {
    var start := State([], [], 0, false);
    FoldSkipsNoise(lines, start);
    MeaningfulHasNoNoise(lines);
    var g := Grouping(Meaningful(lines));
    FoldGroups(g, []);
    assert [] + g == g;
    if WellGrouped(groups) && Concat(groups) == Meaningful(lines) {
      FoldGroups(groups, []);
      assert [] + groups == groups;
    }
  }
}
