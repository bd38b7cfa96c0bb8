/** Building the tenant template: statements of the dump are selected, their `public.` references
    rewritten, and the result written below a comment header; later it is split again. */
module Template {
  import opened Text
  import opened References
  import opened Statements

  const PLATFORM_SCHEMA := "${PLATFORM_SCHEMA}"

  function RewriteRef(local: set<string>, platform: set<string>, schema: string, name: string): string {
    if schema != "public" then schema + "." + name
    else if name in platform then PLATFORM_SCHEMA + "." + name
    else if name in local then name
    else schema + "." + name
  }

  function Rewriter(local: set<string>, platform: set<string>): Replacer {
    (a, b) => RewriteRef(local, platform, a, b)
  }

  function RewritePublicRefs(text: string, local: set<string>, platform: set<string>): string {
    Sub(text, Rewriter(local, platform))
  }

  /** The rewritten statements that the classification keeps. */
  function Render(statements: seq<string>, keep: string -> bool, local: set<string>, platform: set<string>): seq<string> {
    if statements == [] then []
    else
      (if keep(statements[0]) then [RewritePublicRefs(statements[0], local, platform)] else [])
      + Render(statements[1..], keep, local, platform)
  }

  /** The template file: the header lines, then the statements separated by blank lines. */
  function TemplateText(header: seq<string>, rendered: seq<string>): string {
    Join(header + [""], "\n") + Join(rendered, "\n\n") + "\n"
  }

  /** What a pass makes of a reference anywhere in a text: platform tables get the placeholder, local
      objects their bare name, and everything else stays as it is written. */
  lemma WhatIsRewritten(before: string, schema: string, name: string, after: string, local: set<string>, platform: set<string>)
    requires before == "" || (!IsIdentChar(before[|before| - 1]) && before[|before| - 1] != '.')
    requires IsIdent(schema) && IsIdent(name) && (after == "" || !IsIdentChar(after[0]))
    ensures RewritePublicRefs(before + (schema + "." + name + after), local, platform)
         == RewritePublicRefs(before, local, platform)
            + ((if schema == "public" && name in platform then "${PLATFORM_SCHEMA}." + name
                else if schema == "public" && name in local then name
                else schema + "." + name)
               + RewritePublicRefs(after, local, platform))
  {
    ReferenceIsReplaced(before, schema, name, after, Rewriter(local, platform));
    assert PLATFORM_SCHEMA + "." == "${PLATFORM_SCHEMA}.";
  }

  // ---------------------------------------------------------------- rewriting one line

  /** A character with no meaning for the splitter. */
  predicate Neutral(c: char) {
    IsIdentChar(c) || c == '.' || c == '$' || c == '{' || c == '}'
  }

  /** The replacer writes neutral text that ends in the object's own name. */
  ghost predicate KeepsNames(f: Replacer) {
    forall a, b | IsIdent(a) && IsIdent(b) ::
      && |b| <= |f(a, b)| && f(a, b)[|f(a, b)| - |b|..] == b
      && forall c | c in f(a, b) :: Neutral(c)
  }

  lemma RewriterKeepsNames(local: set<string>, platform: set<string>)
    ensures KeepsNames(Rewriter(local, platform))
  {
    assert forall c | c in PLATFORM_SCHEMA :: Neutral(c);
    assert forall c | c in "public" :: Neutral(c);
  }

  lemma {:induction false} BalanceOfNeutral(s: string, inQuote: bool)
    requires forall c | c in s :: Neutral(c)
    ensures Balance(s, inQuote) == (0, inQuote)
  {
    if s != [] {
      assert s[0] in s;
      BalanceOfNeutral(s[1..], inQuote);
    }
  }

  lemma BalanceAfterNeutral(s: string, rest: string, inQuote: bool)
    requires forall c | c in s :: Neutral(c)
    ensures Balance(s + rest, inQuote) == Balance(rest, inQuote)
  {
    BalanceOfNeutral(s, inQuote);
    BalanceAppend(s, rest, inQuote);
  }

  lemma BalanceAfterSymbol(c: char, rest: string, written: string, inQuote: bool)
    requires forall quoted :: Balance(written, quoted) == Balance(rest, quoted)
    ensures Balance([c] + written, inQuote) == Balance([c] + rest, inQuote)
  {
    assert ([c] + rest)[1..] == rest && ([c] + written)[1..] == written;
  }

  lemma BalanceAfterReference(a: string, b: string, rest: string, f: Replacer, written: string, inQuote: bool)
    requires IsIdent(a) && IsIdent(b) && KeepsNames(f)
    requires Balance(written, inQuote) == Balance(rest, inQuote)
    ensures Balance(f(a, b) + written, inQuote) == Balance(a + "." + b + rest, inQuote)
  {
    var raw := a + "." + b;
    assert forall c | c in raw :: Neutral(c);
    BalanceAfterNeutral(raw, rest, inQuote);
    BalanceAfterNeutral(f(a, b), written, inQuote);
  }

  /** Rewriting keeps the parenthesis and quote structure. */
  lemma {:induction false} SubKeepsBalance(s: string, f: Replacer, inQuote: bool)
    requires KeepsNames(f)
    ensures Balance(Sub(s, f), inQuote) == Balance(s, inQuote)
    decreases |s|
  {
    match ShapeOf(s)
    case Empty =>
    case Symbol(c, rest) =>
      forall quoted ensures Balance(Sub(rest, f), quoted) == Balance(rest, quoted) {
        SubKeepsBalance(rest, f, quoted);
      }
      BalanceAfterSymbol(c, rest, Sub(rest, f), inQuote);
    case Word(w, rest) =>
      SubKeepsBalance(rest, f, inQuote);
      BalanceAfterNeutral(w, rest, inQuote);
      BalanceAfterNeutral(w, Sub(rest, f), inQuote);
    case Reference(a, b, rest) =>
      SubKeepsBalance(rest, f, inQuote);
      BalanceAfterReference(a, b, rest, f, Sub(rest, f), inQuote);
  }

  /** Both texts are empty, or both end in the same character. */
  predicate SameLast(s: string, t: string) {
    (s == [] <==> t == []) && (s != [] ==> s[|s| - 1] == t[|t| - 1])
  }

  lemma SameLastConcat(a: string, b: string, c: string, d: string)
    requires a != [] && c != [] && SameLast(a, c) && SameLast(b, d)
    ensures SameLast(a + b, c + d)
  {
  }

  lemma {:induction false} SubKeepsLast(s: string, f: Replacer)
    requires KeepsNames(f)
    ensures SameLast(Sub(s, f), s)
    decreases |s|
  {
    var shape := ShapeOf(s);
    if !shape.Empty? {
      var raw, emitted, rest := shape.Raw(), shape.Emit(f), shape.rest;
      SubKeepsLast(rest, f);
      EmitKeepsEnds(shape, f);
      assert s == raw + rest;
      SameLastConcat(emitted, Sub(rest, f), raw, rest);
    }
  }

  lemma EmitKeepsEnds(shape: Shape, f: Replacer)
    requires KeepsNames(f) && shape.Valid() && !shape.Empty?
    ensures var emitted := shape.Emit(f); var raw := shape.Raw();
            && emitted != [] && raw != [] && SameLast(emitted, raw)
            && (emitted[0] == raw[0] || (Neutral(emitted[0]) && Neutral(raw[0])))
  {
    if shape.Reference? {
      var a, b := shape.schema, shape.name;
      var emitted := f(a, b);
      assert emitted[0] in emitted;
      assert emitted[|emitted| - |b|..][|b| - 1] == emitted[|emitted| - 1];
    }
  }

  lemma {:induction false} SubCommutesWithRStrip(s: string, f: Replacer)
    requires KeepsNames(f)
    ensures RStrip(Sub(s, f)) == Sub(RStrip(s), f)
  {
    SubKeepsLast(s, f);
    if s != [] && IsSpace(s[|s| - 1]) {
      var body, c := s[..|s| - 1], s[|s| - 1];
      assert s == body + [c];
      SubOfTrailingSpace(body, c, f);
      RStripSpace(body, c);
      RStripSpace(Sub(body, f), c);
      SubCommutesWithRStrip(body, f);
    }
  }

  lemma RStripSpace(body: string, c: char)
    requires IsSpace(c)
    ensures RStrip(body + [c]) == RStrip(body)
  {
    assert (body + [c])[..|body|] == body;
  }

  lemma SubOfTrailingSpace(body: string, c: char, f: Replacer)
    requires IsSpace(c)
    ensures Sub(body + [c], f) == Sub(body, f) + [c]
  {
    SubAppend(body, [c], f);
    SubSymbol(c, "", f);
    assert [c] + "" == [c] && Sub("", f) == "";
  }

  lemma SubKeepsFirst(s: string, f: Replacer)
    requires KeepsNames(f)
    ensures s == [] <==> Sub(s, f) == []
    ensures s != [] ==> Sub(s, f)[0] == s[0] || (Neutral(Sub(s, f)[0]) && Neutral(s[0]))
  {
    if s != [] {
      EmitKeepsEnds(ShapeOf(s), f);
    }
  }

  lemma {:induction false} SubCommutesWithLStrip(s: string, f: Replacer)
    requires KeepsNames(f)
    ensures LStrip(Sub(s, f)) == Sub(LStrip(s), f)
  {
    SubKeepsFirst(s, f);
    if s != [] && IsSpace(s[0]) {
      assert s == [s[0]] + s[1..];
      SubSymbol(s[0], s[1..], f);
      SubCommutesWithLStrip(s[1..], f);
    }
  }

  lemma SubKeepsDashes(s: string, f: Replacer)
    requires KeepsNames(f)
    ensures "--" <= Sub(s, f) <==> "--" <= s
  {
    SubKeepsFirst(s, f);
    if s != [] && s[0] == '-' {
      var t := s[1..];
      assert s == ['-'] + t;
      SubSymbol('-', t, f);
      SubKeepsFirst(t, f);
      TwoDashes(t);
      TwoDashes(Sub(t, f));
    }
  }

  lemma TwoDashes(t: string)
    ensures "--" <= ['-'] + t <==> t != [] && t[0] == '-'
  {
    var s := ['-'] + t;
    assert s[..1] == "-";
    if t != [] {
      assert s[..2] == ['-'] + [t[0]] && "--" == ['-'] + ['-'];
      if "--" <= s {
        assert "--"[1] == s[1];
      }
    }
  }

  /** Rewriting a line changes nothing the splitter looks at. */
  lemma SubKeepsLineShape(line: string, f: Replacer, inQuote: bool)
    requires KeepsNames(f)
    ensures Noise(Sub(line, f)) == Noise(line)
    ensures EndsInSemicolon(Sub(line, f)) == EndsInSemicolon(line)
    ensures Balance(Sub(line, f), inQuote) == Balance(line, inQuote)
  {
    SubCommutesWithLStrip(line, f);
    SubCommutesWithRStrip(LStrip(line), f);
    var stripped := RStrip(LStrip(line));
    SubKeepsLast(stripped, f);
    SubKeepsDashes(stripped, f);
    SubCommutesWithRStrip(line, f);
    SubKeepsLast(RStrip(line), f);
    SubKeepsBalance(line, f, inQuote);
  }

  lemma EmitHasNoLineBreak(shape: Shape, f: Replacer)
    requires KeepsNames(f) && shape.Valid() && !shape.Empty? && NoLineBreak(shape.Text())
    ensures NoLineBreak(shape.Emit(f)) && NoLineBreak(shape.rest)
  {
    var emitted, text, rest := shape.Emit(f), shape.Text(), shape.rest;
    var n := |text| - |rest|;
    assert forall i | 0 <= i < |rest| :: rest[i] == text[n + i];
    if shape.Reference? {
      assert forall i | 0 <= i < |emitted| :: emitted[i] in emitted;
    } else {
      assert forall i | 0 <= i < |emitted| :: emitted[i] == text[i];
    }
  }

  lemma {:induction false} SubKeepsNoLineBreak(s: string, f: Replacer)
    requires KeepsNames(f) && NoLineBreak(s)
    ensures NoLineBreak(Sub(s, f))
    decreases |s|
  {
    var shape := ShapeOf(s);
    if !shape.Empty? {
      EmitHasNoLineBreak(shape, f);
      SubKeepsNoLineBreak(shape.rest, f);
    }
  }

  // ---------------------------------------------------------------- rewriting a statement

  function SubLines(lines: seq<string>, f: Replacer): (r: seq<string>)
    ensures |r| == |lines| && forall i | 0 <= i < |lines| :: r[i] == Sub(lines[i], f)
  {
    seq(|lines|, i requires 0 <= i < |lines| => Sub(lines[i], f))
  }

  /** No reference reaches over the end of a line. */
  lemma {:induction false} SubOfJoin(lines: seq<string>, f: Replacer)
    ensures Sub(Join(lines, "\n"), f) == Join(SubLines(lines, f), "\n")
  {
    if |lines| > 1 {
      var rest := Join(lines[1..], "\n");
      SubOfJoin(lines[1..], f);
      assert SubLines(lines, f)[1..] == SubLines(lines[1..], f);
      SubOfTwoLines(lines[0], rest, f);
    }
  }

  lemma SubOfTwoLines(line: string, rest: string, f: Replacer)
    ensures Sub(line + "\n" + rest, f) == Sub(line, f) + "\n" + Sub(rest, f)
  {
    var tail := ['\n'] + rest;
    assert line + "\n" + rest == line + tail;
    SubAppend(line, tail, f);
    SubSymbol('\n', rest, f);
    assert Sub(line, f) + "\n" + Sub(rest, f) == Sub(line, f) + (['\n'] + Sub(rest, f));
  }

  /** The splitter cannot tell the lines apart. */
  predicate Alike(line: string, other: string) {
    && EndsInSemicolon(line) == EndsInSemicolon(other)
    && Balance(line, false) == Balance(other, false) && Balance(line, true) == Balance(other, true)
  }

  lemma {:induction false} AlikeGroups(lines: seq<string>, others: seq<string>, depth: int, inQuote: bool)
    requires |lines| == |others| && forall i | 0 <= i < |lines| :: Alike(lines[i], others[i])
    ensures Closed(lines, depth, inQuote) == Closed(others, depth, inQuote)
    ensures Open(lines, depth, inQuote) == Open(others, depth, inQuote)
  {
    if lines != [] {
      assert Alike(lines[0], others[0]);
      var (delta, quoted) := Balance(lines[0], inQuote);
      AlikeGroups(lines[1..], others[1..], depth + delta, quoted);
    }
  }

  lemma SubKeepsGroup(lines: seq<string>, f: Replacer)
    requires KeepsNames(f)
    ensures Closed(SubLines(lines, f), 0, false) == Closed(lines, 0, false)
    ensures Open(SubLines(lines, f), 0, false) == Open(lines, 0, false)
  {
    forall i | 0 <= i < |lines|
      ensures Alike(SubLines(lines, f)[i], lines[i])
    {
      SubKeepsLineShape(lines[i], f, false);
      SubKeepsLineShape(lines[i], f, true);
    }
    AlikeGroups(SubLines(lines, f), lines, 0, false);
  }

  lemma SubKeepsNoNoise(lines: seq<string>, f: Replacer)
    requires KeepsNames(f) && NoNoise(lines)
    ensures NoNoise(SubLines(lines, f))
  {
    forall i | 0 <= i < |lines|
      ensures !Noise(SubLines(lines, f)[i])
    {
      SubKeepsLineShape(lines[i], f, false);
    }
  }

  /** The lines of the rewritten statements that are kept. */
  function RenderGroups(groups: seq<seq<string>>, keep: string -> bool, f: Replacer): seq<seq<string>> {
    if groups == [] then []
    else
      (if keep(Join(groups[0], "\n")) then [SubLines(groups[0], f)] else []) + RenderGroups(groups[1..], keep, f)
  }

  predicate GroupsOfLines(groups: seq<seq<string>>) {
    forall i | 0 <= i < |groups| :: OneLineEach(groups[i])
  }

  lemma {:induction false} RenderGroupsWellGrouped(groups: seq<seq<string>>, keep: string -> bool, f: Replacer)
    requires KeepsNames(f) && WellGrouped(groups)
    ensures WellGrouped(RenderGroups(groups, keep, f))
    ensures |RenderGroups(groups, keep, f)| <= |groups|
  {
    if groups != [] {
      var g := groups[0];
      var rest := RenderGroups(groups[1..], keep, f);
      RenderGroupsWellGrouped(groups[1..], keep, f);
      if keep(Join(g, "\n")) {
        SubKeepsGroup(g, f);
        SubKeepsNoNoise(g, f);
        var all := [SubLines(g, f)] + rest;
        assert all[1..] == rest && RenderGroups(groups, keep, f) == all;
      } else {
        assert RenderGroups(groups, keep, f) == rest;
      }
    }
  }

  lemma {:induction false} RenderGroupsAreLines(groups: seq<seq<string>>, keep: string -> bool, f: Replacer)
    requires KeepsNames(f) && GroupsOfLines(groups)
    ensures GroupsOfLines(RenderGroups(groups, keep, f))
  {
    if groups != [] {
      var g := groups[0];
      forall i | 0 <= i < |g|
        ensures NoLineBreak(SubLines(g, f)[i])
      {
        SubKeepsNoLineBreak(g[i], f);
      }
      RenderGroupsAreLines(groups[1..], keep, f);
    }
  }

  lemma {:induction false} RenderJoined(groups: seq<seq<string>>, keep: string -> bool,
                                        local: set<string>, platform: set<string>)
    ensures Render(JoinAll(groups), keep, local, platform)
         == JoinAll(RenderGroups(groups, keep, Rewriter(local, platform)))
  {
    if groups != [] {
      var f := Rewriter(local, platform);
      RenderJoined(groups[1..], keep, local, platform);
      assert JoinAll(groups)[1..] == JoinAll(groups[1..]);
      SubOfJoin(groups[0], f);
    }
  }

  // ---------------------------------------------------------------- the file and back

  /** The lines of the file below the header. */
  function Blocks(groups: seq<seq<string>>): seq<string> {
    if groups == [] then [""]
    else if |groups| == 1 then groups[0]
    else groups[0] + [""] + Blocks(groups[1..])
  }

  lemma {:induction false} BlocksText(groups: seq<seq<string>>)
    requires forall i | 0 <= i < |groups| :: groups[i] != []
    ensures Join(JoinAll(groups), "\n\n") + "\n" == Unlines(Blocks(groups))
  {
    if groups == [] {
      assert Unlines([""]) == "" + "\n" + Unlines([]);
    } else {
      JoinIsUnlines(groups[0]);
      if |groups| > 1 {
        var rest := Blocks(groups[1..]);
        assert JoinAll(groups)[1..] == JoinAll(groups[1..]);
        BlocksText(groups[1..]);
        UnlinesAppend(groups[0], [""] + rest);
        assert groups[0] + [""] + rest == groups[0] + ([""] + rest);
        assert ([""] + rest)[1..] == rest;
        var first, tail := Join(groups[0], "\n"), Join(JoinAll(groups[1..]), "\n\n");
        assert first + "\n\n" + tail + "\n" == (first + "\n") + ("" + "\n" + (tail + "\n"));
      }
    }
  }

  lemma {:induction false} MeaningfulAppend(a: seq<string>, b: seq<string>)
    ensures Meaningful(a + b) == Meaningful(a) + Meaningful(b)
  {
    if a == [] {
      assert a + b == b;
    } else {
      assert (a + b)[1..] == a[1..] + b;
      MeaningfulAppend(a[1..], b);
    }
  }

  lemma {:induction false} MeaningfulOfNoNoise(lines: seq<string>)
    requires NoNoise(lines)
    ensures Meaningful(lines) == lines
  {
    if lines != [] {
      MeaningfulOfNoNoise(lines[1..]);
    }
  }

  lemma {:induction false} MeaningfulOfNoise(lines: seq<string>)
    requires forall i | 0 <= i < |lines| :: Noise(lines[i])
    ensures Meaningful(lines) == []
  {
    if lines != [] {
      MeaningfulOfNoise(lines[1..]);
    }
  }

  lemma {:induction false} MeaningfulOfBlocks(groups: seq<seq<string>>)
    requires WellGrouped(groups)
    ensures Meaningful(Blocks(groups)) == Concat(groups)
  {
    var blank := [""];
    MeaningfulOfNoise(blank);
    if groups != [] {
      MeaningfulOfNoNoise(groups[0]);
      if |groups| == 1 {
        assert Concat(groups[1..]) == [];
      } else {
        MeaningfulOfBlocks(groups[1..]);
        MeaningfulAppend(groups[0] + blank, Blocks(groups[1..]));
        MeaningfulAppend(groups[0], blank);
      }
    }
  }

  lemma {:induction false} WellGroupedNonempty(groups: seq<seq<string>>)
    requires WellGrouped(groups)
    ensures forall i | 0 <= i < |groups| :: groups[i] != []
  {
    if groups != [] {
      WellGroupedNonempty(groups[1..]);
    }
  }

  lemma {:induction false} BlocksHaveNoBreak(groups: seq<seq<string>>)
    requires GroupsOfLines(groups)
    ensures OneLineEach(Blocks(groups))
  {
    if groups != [] {
      if |groups| > 1 {
        BlocksHaveNoBreak(groups[1..]);
      }
    }
  }

  /** Statements written below a comment header are split into the same statements again. */
  lemma WrittenStatementsReadBack(header: seq<string>, groups: seq<seq<string>>)
    requires OneLineEach(header) && forall i | 0 <= i < |header| :: Noise(header[i])
    requires WellGrouped(groups) && GroupsOfLines(groups)
    ensures Split(TemplateText(header, JoinAll(groups))) == JoinAll(groups)
  {
    var lines := header + Blocks(groups);
    HeaderText(header);
    WellGroupedNonempty(groups);
    BlocksText(groups);
    UnlinesAppend(header, Blocks(groups));
    var text := TemplateText(header, JoinAll(groups));
    assert text == Unlines(header) + (Join(JoinAll(groups), "\n\n") + "\n");
    BlocksHaveNoBreak(groups);
    SplitLinesUnlines(lines);
    MeaningfulAppend(header, Blocks(groups));
    MeaningfulOfNoise(header);
    MeaningfulOfBlocks(groups);
    GroupsAreTheGrouping(lines, groups);
  }

  lemma {:induction false} HeaderText(header: seq<string>)
    ensures Join(header + [""], "\n") == Unlines(header)
  {
    if header != [] {
      HeaderText(header[1..]);
      assert (header + [""])[1..] == header[1..] + [""];
    }
  }

  lemma GroupsAreOneLineEach(text: string)
    ensures WellGrouped(Groups(SplitLines(text))) && GroupsOfLines(Groups(SplitLines(text)))
  {
    var lines := SplitLines(text);
    var groups := Groups(lines);
    GroupsAreTheGrouping(lines, groups);
    SplitLinesHaveNoBreak(text);
    MeaningfulIsPart(lines);
    ConcatMembers(groups);
    assert forall i, k | 0 <= i < |groups| && 0 <= k < |groups[i]| :: groups[i][k] in Concat(groups);
  }

  lemma {:induction false} MeaningfulIsPart(lines: seq<string>)
    ensures forall line | line in Meaningful(lines) :: line in lines
  {
    if lines != [] {
      MeaningfulIsPart(lines[1..]);
    }
  }

  lemma {:induction false} ConcatMembers(groups: seq<seq<string>>)
    ensures forall i, k | 0 <= i < |groups| && 0 <= k < |groups[i]| :: groups[i][k] in Concat(groups)
  {
    if groups != [] {
      ConcatMembers(groups[1..]);
    }
  }

  /** Building the template from any dump, with any selection of its statements, and reading the
      template back returns exactly the rewritten statements. */
  lemma TemplateReadsBack(dump: string, keep: string -> bool, local: set<string>, platform: set<string>, header: seq<string>)
    requires OneLineEach(header) && forall i | 0 <= i < |header| :: Noise(header[i])
    ensures var rendered := Render(Split(dump), keep, local, platform);
            Split(TemplateText(header, rendered)) == rendered
  {
    var groups := Groups(SplitLines(dump));
    var f := Rewriter(local, platform);
    var kept := RenderGroups(groups, keep, f);
    GroupsAreOneLineEach(dump);
    RewriterKeepsNames(local, platform);
    RenderGroupsWellGrouped(groups, keep, f);
    RenderGroupsAreLines(groups, keep, f);
    RenderJoined(groups, keep, local, platform);
    WrittenStatementsReadBack(header, kept);
  }

  /** Splitting is a fixed point: writing out the statements of a text and splitting again changes
      nothing. */
  lemma ResplittingIsStable(text: string)
    ensures Split(TemplateText([], Split(text))) == Split(text)
  {
    GroupsAreOneLineEach(text);
    WrittenStatementsReadBack([], Groups(SplitLines(text)));
  }
}
