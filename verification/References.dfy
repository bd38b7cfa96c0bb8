/** The regular expression for `schema.name` references, and substitution over all its matches.
    A pass over the text is read token by token; `SubIsScan` shows that this is the
    left-to-right, non-overlapping scan that `re.sub` performs character by character. */
module References {
  import opened Text

  type Replacer = (string, string) -> string

  /** The length of the longest prefix of `s` made of identifier characters. */
  function Run(s: string): (n: nat)
    ensures n <= |s| && forall i | 0 <= i < n :: IsIdentChar(s[i])
    ensures n < |s| ==> !IsIdentChar(s[n])
  {
    if s == [] || !IsIdentChar(s[0]) then 0 else 1 + Run(s[1..])
  }

  datatype Match = NoMatch | Match(schema: string, name: string)

  /** What the compiled pattern matches at the head of `s`. */
  function MatchHere(s: string): (m: Match)
    ensures m.Match? ==> IsIdent(m.schema) && IsIdent(m.name) && m.schema + "." + m.name <= s
  {
    if s == [] || !IsIdentStart(s[0]) then NoMatch
    else
      var n := Run(s);
      if n + 1 < |s| && s[n] == '.' && IsIdentStart(s[n + 1]) then
        var tail := s[n + 1..];
        assert s == s[..n] + "." + tail;
        Match(s[..n], tail[..Run(tail)])
      else NoMatch
  }

  /** `re.sub`: try a match at each position, take it when there is one, else keep one character. */
  function Scan(s: string, f: Replacer): string
    decreases |s|
  {
    if s == [] then []
    else match MatchHere(s)
      case NoMatch => [s[0]] + Scan(s[1..], f)
      case Match(a, b) => f(a, b) + Scan(s[|a| + 1 + |b|..], f)
  }

  /** The pattern as a declarative specification: an identifier, a dot, an identifier. */
  ghost predicate Matches(s: string, schema: string, name: string) {
    IsIdent(schema) && IsIdent(name) && schema + "." + name <= s
  }

  lemma MatchCovers(s: string, a: string, b: string)
    requires Matches(s, a, b)
    ensures MatchHere(s).Match? && MatchHere(s).schema == a && b <= MatchHere(s).name
  {
    var rest := s[|a| + 1 + |b|..];
    var tail := b + rest;
    assert s == a + ("." + tail);
    RunOfWord(a, "." + tail);
    assert s[|a| + 1..] == tail;
    RunOfPrefix(b, rest);
    assert b == tail[..|b|];
  }

  /** The matcher finds a match exactly when the pattern has one, and it is the longest. */
  lemma MatchHereIsThePattern(s: string)
    ensures MatchHere(s) == NoMatch <==> forall a, b :: !Matches(s, a, b)
    ensures forall a, b | Matches(s, a, b) ::
              MatchHere(s).Match? && MatchHere(s).schema == a && b <= MatchHere(s).name
  {
    forall a, b | Matches(s, a, b)
      ensures MatchHere(s).Match? && MatchHere(s).schema == a && b <= MatchHere(s).name
    {
      MatchCovers(s, a, b);
    }
    if MatchHere(s).Match? {
      assert Matches(s, MatchHere(s).schema, MatchHere(s).name);
    }
  }

  lemma {:induction false} RunOfPrefix(w: string, rest: string)
    requires forall c | c in w :: IsIdentChar(c)
    ensures |w| <= Run(w + rest)
  {
    if w != [] {
      assert (w + rest)[1..] == w[1..] + rest && w[0] in w;
      RunOfPrefix(w[1..], rest);
    }
  }

  /** The text cannot continue an identifier. */
  predicate WordEnds(rest: string) {
    rest == [] || !IsIdentChar(rest[0])
  }

  /** The text goes on with a dot and another identifier. */
  predicate DotIdent(rest: string) {
    |rest| >= 2 && rest[0] == '.' && IsIdentStart(rest[1])
  }

  lemma RunOfWord(w: string, rest: string)
    requires forall c | c in w :: IsIdentChar(c)
    requires WordEnds(rest)
    ensures Run(w + rest) == |w|
  {
    RunOfPrefix(w, rest);
    assert rest != [] ==> (w + rest)[|w|] == rest[0];
  }

  lemma MatchOfReference(a: string, b: string, rest: string)
    requires IsIdent(a) && IsIdent(b) && WordEnds(rest)
    ensures MatchHere(a + "." + b + rest) == Match(a, b)
  {
    var s, tail := a + "." + b + rest, b + rest;
    assert s == a + ("." + tail) && s[..|a|] == a;
    RunOfWord(a, "." + tail);
    assert s[|a| + 1..] == tail && s[|a| + 1] == b[0];
    RunOfWord(b, rest);
    assert tail[..|b|] == b;
  }

  // ---------------------------------------------------------------- the three shapes of a text

  lemma ScanSymbol(c: char, rest: string, f: Replacer)
    requires !IsIdentStart(c)
    ensures Scan([c] + rest, f) == [c] + Scan(rest, f)
  {
    assert ([c] + rest)[1..] == rest;
  }

  lemma ScanReference(a: string, b: string, rest: string, f: Replacer)
    requires IsIdent(a) && IsIdent(b) && WordEnds(rest)
    ensures Scan(a + "." + b + rest, f) == f(a, b) + Scan(rest, f)
  {
    MatchOfReference(a, b, rest);
    assert (a + "." + b + rest)[|a| + 1 + |b|..] == rest;
  }

  lemma NoMatchInWord(w: string, rest: string)
    requires w != [] && forall c | c in w :: IsIdentChar(c)
    requires WordEnds(rest) && !DotIdent(rest)
    ensures MatchHere(w + rest) == NoMatch
  {
    RunOfWord(w, rest);
    assert (w + rest)[|w|..] == rest;
  }

  lemma ScanNoMatch(s: string, f: Replacer)
    requires s != [] && MatchHere(s) == NoMatch
    ensures Scan(s, f) == [s[0]] + Scan(s[1..], f)
  {
  }

  /** A run of identifier characters that no dot and identifier follow is kept, and no match
      starts inside it. */
  lemma {:induction false} ScanWord(w: string, rest: string, f: Replacer)
    requires forall c | c in w :: IsIdentChar(c)
    requires WordEnds(rest) && !DotIdent(rest)
    ensures Scan(w + rest, f) == w + Scan(rest, f)
  {
    if w == [] {
      assert w + rest == rest;
    } else {
      ScanWord(w[1..], rest, f);
      NoMatchInWord(w, rest);
      ScanNoMatch(w + rest, f);
      FirstApart(w, rest);
      FirstApart(w, Scan(rest, f));
    }
  }

  lemma FirstApart(w: string, rest: string)
    requires w != []
    ensures (w + rest)[0] == w[0] && (w + rest)[1..] == w[1..] + rest
    ensures [w[0]] + (w[1..] + rest) == w + rest
  {
  }

  datatype Shape =
    | Empty
    | Symbol(c: char, rest: string)
    | Word(w: string, rest: string)
    | Reference(schema: string, name: string, rest: string)
  {
    predicate Valid() {
      match this
      case Empty => true
      case Symbol(c, rest) => !IsIdentStart(c)
      case Word(w, rest) => IsIdent(w) && WordEnds(rest) && !DotIdent(rest)
      case Reference(a, b, rest) => IsIdent(a) && IsIdent(b) && WordEnds(rest)
    }

    /** The first token as it is written. */
    function Raw(): string
      requires !Empty?
    {
      match this
      case Symbol(c, rest) => [c]
      case Word(w, rest) => w
      case Reference(a, b, rest) => a + "." + b
    }

    function Text(): string {
      match this
      case Empty => []
      case Symbol(c, rest) => [c] + rest
      case Word(w, rest) => w + rest
      case Reference(a, b, rest) => a + "." + b + rest
    }

    /** The same first token before a longer text. */
    function Extend(t: string): (longer: Shape)
      requires Valid() && !Empty? && (t == [] || (!IsIdentChar(t[0]) && t[0] != '.'))
      ensures longer.Valid() && !longer.Empty? && longer.Text() == Text() + t && longer.rest == rest + t
    {
      match this
      case Symbol(c, rest) => Symbol(c, rest + t)
      case Word(w, rest) => Word(w, rest + t)
      case Reference(a, b, rest) => Reference(a, b, rest + t)
    }

    /** What a pass writes for the first token. */
    function Emit(f: Replacer): string
      requires !Empty?
    {
      match this
      case Symbol(c, rest) => [c]
      case Word(w, rest) => w
      case Reference(a, b, rest) => f(a, b)
    }
  }

  /** Every text is empty, or a symbol, a lone word or a reference followed by a shorter text. */
  function ShapeOf(s: string): (shape: Shape)
    ensures shape.Valid() && shape.Text() == s
    ensures shape.Symbol? ==> |shape.rest| < |s|
    ensures shape.Word? ==> |shape.rest| < |s|
    ensures shape.Reference? ==> |shape.rest| < |s|
    ensures shape.Empty? <==> s == []
  {
    if s == [] then Empty
    else if !IsIdentStart(s[0]) then Symbol(s[0], s[1..])
    else
      var n := Run(s);
      match MatchHere(s)
      case NoMatch =>
        assert s == s[..n] + s[n..];
        Word(s[..n], s[n..])
      case Match(a, b) =>
        var rest := s[|a| + 1 + |b|..];
        assert s == a + "." + b + rest;
        Reference(a, b, rest)
  }

  /** The substitution token by token. */
  function Sub(s: string, f: Replacer): string
    decreases |s|
  {
    var shape := ShapeOf(s);
    if shape.Empty? then [] else shape.Emit(f) + Sub(shape.rest, f)
  }

  /** The token-wise substitution is the character-wise scan. */
  lemma {:induction false} SubIsScan(s: string, f: Replacer)
    ensures Sub(s, f) == Scan(s, f)
    decreases |s|
  {
    match ShapeOf(s)
    case Empty =>
    case Symbol(c, rest) =>
      ScanSymbol(c, rest, f);
      SubIsScan(rest, f);
    case Word(w, rest) =>
      ScanWord(w, rest, f);
      SubIsScan(rest, f);
    case Reference(a, b, rest) =>
      ScanReference(a, b, rest, f);
      SubIsScan(rest, f);
  }

  lemma SubSymbol(c: char, rest: string, f: Replacer)
    requires !IsIdentStart(c)
    ensures Sub([c] + rest, f) == [c] + Sub(rest, f)
  {
    SubIsScan([c] + rest, f);
    SubIsScan(rest, f);
    ScanSymbol(c, rest, f);
  }

  lemma SubWord(w: string, rest: string, f: Replacer)
    requires forall c | c in w :: IsIdentChar(c)
    requires WordEnds(rest) && !DotIdent(rest)
    ensures Sub(w + rest, f) == w + Sub(rest, f)
  {
    SubIsScan(w + rest, f);
    SubIsScan(rest, f);
    ScanWord(w, rest, f);
  }

  lemma SubReference(a: string, b: string, rest: string, f: Replacer)
    requires IsIdent(a) && IsIdent(b) && WordEnds(rest)
    ensures Sub(a + "." + b + rest, f) == f(a, b) + Sub(rest, f)
  {
    SubIsScan(a + "." + b + rest, f);
    SubIsScan(rest, f);
    ScanReference(a, b, rest, f);
  }

  lemma SubOfShape(shape: Shape, f: Replacer)
    requires shape.Valid() && !shape.Empty?
    ensures Sub(shape.Text(), f) == shape.Emit(f) + Sub(shape.rest, f)
  {
    match shape
    case Symbol(c, rest) => SubSymbol(c, rest, f);
    case Word(w, rest) => SubWord(w, rest, f);
    case Reference(a, b, rest) => SubReference(a, b, rest, f);
  }

  // ---------------------------------------------------------------- what a pass leaves in place

  /** The references a pass over `s` sees, in order. */
  function Refs(s: string): seq<(string, string)>
    decreases |s|
  {
    match ShapeOf(s)
    case Empty => []
    case Symbol(c, rest) => Refs(rest)
    case Word(w, rest) => Refs(rest)
    case Reference(a, b, rest) => [(a, b)] + Refs(rest)
  }

  /** A text is read as the one shape it is written as. */
  lemma ShapeOfText(shape: Shape)
    requires shape.Valid()
    ensures ShapeOf(shape.Text()) == shape
  {
    match shape
    case Empty =>
    case Symbol(c, rest) =>
    case Word(w, rest) =>
      RunOfWord(w, rest);
      NoMatchInWord(w, rest);
    case Reference(a, b, rest) =>
      MatchOfReference(a, b, rest);
      assert (a + "." + b + rest)[|a| + 1 + |b|..] == rest;
  }

  lemma RefsOfSymbol(c: char, rest: string)
    requires !IsIdentStart(c)
    ensures Refs([c] + rest) == Refs(rest)
  {
    ShapeOfText(Symbol(c, rest));
  }

  lemma RefsOfWord(w: string, rest: string)
    requires IsIdent(w) && WordEnds(rest) && !DotIdent(rest)
    ensures Refs(w + rest) == Refs(rest)
  {
    ShapeOfText(Word(w, rest));
  }

  lemma RefsOfReference(a: string, b: string, rest: string)
    requires IsIdent(a) && IsIdent(b) && WordEnds(rest)
    ensures Refs(a + "." + b + rest) == [(a, b)] + Refs(rest)
  {
    ShapeOfText(Reference(a, b, rest));
  }

  lemma {:induction false} RefsAreIdents(s: string)
    ensures forall r | r in Refs(s) :: IsIdent(r.0) && IsIdent(r.1)
    decreases |s|
  {
    var shape := ShapeOf(s);
    if !shape.Empty? {
      RefsAreIdents(shape.rest);
    }
  }

  /** Writing every reference back as it is leaves the text as it is. */
  lemma {:induction false} SubSame(s: string)
    ensures Sub(s, (a, b) => a + "." + b) == s
    decreases |s|
  {
    var shape := ShapeOf(s);
    if !shape.Empty? {
      SubSame(shape.rest);
    }
  }

  /** A text that ends a word still ends it after a pass, and a dot and identifier after it do not
      appear by themselves. */
  lemma HeadKept(rest: string, f: Replacer)
    requires WordEnds(rest)
    ensures WordEnds(Sub(rest, f)) && (Sub(rest, f) == [] <==> rest == [])
    ensures rest != [] ==> Sub(rest, f)[0] == rest[0]
    ensures !DotIdent(rest) ==> !DotIdent(Sub(rest, f))
  {
    if rest != [] {
      SubSymbol(rest[0], rest[1..], f);
      assert rest == [rest[0]] + rest[1..];
      if rest[0] == '.' && !DotIdent(rest) && rest[1..] != [] {
        SubSymbol(rest[1], rest[2..], f);
        assert rest[1..] == [rest[1]] + rest[2..];
      }
    }
  }

  /** Substitution sees each side of a separator by itself. */
  lemma {:induction false} SubAppend(s: string, t: string, f: Replacer)
    requires t == [] || (!IsIdentChar(t[0]) && t[0] != '.')
    ensures Sub(s + t, f) == Sub(s, f) + Sub(t, f)
    decreases |s|
  {
    var shape := ShapeOf(s);
    if shape.Empty? {
      assert s + t == t;
    } else {
      var joined := shape.Extend(t);
      SubAppend(shape.rest, t, f);
      SubOfShape(joined, f);
      assert joined.Emit(f) == shape.Emit(f);
      Associative(shape.Emit(f), Sub(shape.rest, f), Sub(t, f));
    }
  }

  /** No name and no reference goes on behind the text. */
  predicate EndsName(s: string) {
    s == [] || (!IsIdentChar(s[|s| - 1]) && s[|s| - 1] != '.')
  }

  /** The same first token of a text that goes on behind a place where no name is cut. */
  lemma ShapeGoesOn(shape: Shape, t: string) returns (longer: Shape)
    requires shape.Valid() && !shape.Empty? && EndsName(shape.Text())
    ensures longer.Valid() && !longer.Empty? && longer.Text() == shape.Text() + t && longer.rest == shape.rest + t
    ensures EndsName(shape.rest)
    ensures forall f: Replacer :: longer.Emit(f) == shape.Emit(f)
  {
    var text, rest := shape.Text(), shape.rest;
    assert rest != [] ==> text[|text| - 1] == rest[|rest| - 1];
    match shape
    case Symbol(c, _) =>
      longer := Symbol(c, rest + t);
    case Word(w, _) =>
      assert w[|w| - 1] in w;
      NameDoesNotEnd(w, rest);
      longer := Word(w, rest + t);
    case Reference(a, b, _) =>
      assert b[|b| - 1] in b;
      NameDoesNotEnd(a + "." + b, rest);
      longer := Reference(a, b, rest + t);
  }

  lemma NameDoesNotEnd(s: string, rest: string)
    requires s != [] && IsIdentChar(s[|s| - 1]) && EndsName(s + rest)
    ensures rest != []
  {
    assert (s + rest)[|s| - 1] == s[|s| - 1];
  }

  /** Substitution sees what follows such a place by itself. */
  lemma {:induction false} SubCut(s: string, t: string, f: Replacer)
    requires EndsName(s)
    ensures Sub(s + t, f) == Sub(s, f) + Sub(t, f)
    decreases |s|
  {
    var shape := ShapeOf(s);
    if shape.Empty? {
      assert s + t == t;
    } else {
      var longer := ShapeGoesOn(shape, t);
      SubCut(shape.rest, t, f);
      SubOfShape(longer, f);
      Associative(shape.Emit(f), Sub(shape.rest, f), Sub(t, f));
    }
  }

  /** A whole reference anywhere in a text is replaced by what the replacer makes of it, and the text
      around it is treated by itself. */
  lemma ReferenceIsReplaced(before: string, schema: string, name: string, after: string, f: Replacer)
    requires EndsName(before) && IsIdent(schema) && IsIdent(name) && WordEnds(after)
    ensures Sub(before + (schema + "." + name + after), f) == Sub(before, f) + (f(schema, name) + Sub(after, f))
  {
    SubCut(before, schema + "." + name + after, f);
    SubReference(schema, name, after, f);
  }

  lemma Associative(a: string, b: string, c: string)
    ensures (a + b) + c == a + (b + c)
  {
  }

  /** Two passes that treat every reference of the text alike give the same text. */
  lemma {:induction false} SubAgree(s: string, f: Replacer, g: Replacer)
    requires forall r | r in Refs(s) :: f(r.0, r.1) == g(r.0, r.1)
    ensures Sub(s, f) == Sub(s, g)
    decreases |s|
  {
    match ShapeOf(s)
    case Empty =>
    case Symbol(c, rest) => SubAgree(rest, f, g);
    case Word(w, rest) => SubAgree(rest, f, g);
    case Reference(a, b, rest) =>
      assert (a, b) in Refs(s);
      SubAgree(rest, f, g);
  }

  /** If, wherever two passes treat a reference differently, their replacements differ in the
      first character, then one such reference is enough to make the results differ. */
  lemma {:induction false} SubDiffer(s: string, f: Replacer, g: Replacer)
    requires forall r | r in Refs(s) && f(r.0, r.1) != g(r.0, r.1) ::
               f(r.0, r.1) != [] && g(r.0, r.1) != [] && f(r.0, r.1)[0] != g(r.0, r.1)[0]
    requires exists r :: r in Refs(s) && f(r.0, r.1) != g(r.0, r.1)
    ensures Sub(s, f) != Sub(s, g)
    decreases |s|
  {
    match ShapeOf(s)
    case Empty =>
    case Symbol(c, rest) =>
      SubDiffer(rest, f, g);
      assert Sub(s, f)[1..] == Sub(rest, f) && Sub(s, g)[1..] == Sub(rest, g);
    case Word(w, rest) =>
      SubDiffer(rest, f, g);
      assert Sub(s, f)[|w|..] == Sub(rest, f) && Sub(s, g)[|w|..] == Sub(rest, g);
    case Reference(a, b, rest) =>
      assert (a, b) in Refs(s);
      if f(a, b) == g(a, b) {
        SubDiffer(rest, f, g);
        var n := |f(a, b)|;
        assert Sub(s, f)[n..] == Sub(rest, f) && Sub(s, g)[n..] == Sub(rest, g);
      } else {
        assert Sub(s, f)[0] == f(a, b)[0] && Sub(s, g)[0] == g(a, b)[0];
      }
  }

  /** Renaming schemas keeps the token structure: a second pass over the renamed text finds the
      renamed references exactly where the first pass found the old ones. */
  lemma {:induction false} SubAfterRename(s: string, rename: Replacer, f: Replacer)
    requires forall a, b | IsIdent(a) && IsIdent(b) :: IsIdent(rename(a, b))
    ensures Sub(Sub(s, (a, b) => rename(a, b) + "." + b), f) == Sub(s, (a, b) => f(rename(a, b), b))
    decreases |s|
  {
    var r := (a, b) => rename(a, b) + "." + b;
    var g := (a, b) => f(rename(a, b), b);
    match ShapeOf(s)
    case Empty =>
    case Symbol(c, rest) =>
      SubSymbol(c, Sub(rest, r), f);
      SubAfterRename(rest, rename, f);
    case Word(w, rest) =>
      HeadKept(rest, r);
      SubWord(w, Sub(rest, r), f);
      SubAfterRename(rest, rename, f);
    case Reference(a, b, rest) =>
      HeadKept(rest, r);
      assert Sub(s, r) == rename(a, b) + "." + b + Sub(rest, r);
      SubReference(rename(a, b), b, Sub(rest, r), f);
      SubAfterRename(rest, rename, f);
  }
}
