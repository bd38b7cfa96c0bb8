/** Normalising the schema prefix of object references so that the definitions of one table in two
    schemas can be compared as texts. */
module Canonical {
  import opened Text
  import opened References

  function Mark(word: string): string {
    ['<'] + word + ['>']
  }

  const SELF_MARK := Mark("SELF")
  const PLATFORM_MARK := Mark("PLATFORM")

  function CanonRef(self: string, local: set<string>, platform: set<string>, schema: string, name: string): string {
    if schema == self && name in local then SELF_MARK + "." + name
    else if schema == self && name in platform then PLATFORM_MARK + "." + name
    else if schema == "public" && name in platform then PLATFORM_MARK + "." + name
    else schema + "." + name
  }

  /** The replacement as a function of the reference, for one schema and its known objects. */
  function Canon(self: string, local: set<string>, platform: set<string>): Replacer {
    (a, b) => CanonRef(self, local, platform, a, b)
  }

  function Canonicalize(text: string, self: string, local: set<string>, platform: set<string>): string {
    Sub(text, Canon(self, local, platform))
  }

  lemma CanonIs(self: string, local: set<string>, platform: set<string>, schema: string, name: string)
    ensures CanonRef(self, local, platform, schema, name)
         == if schema == self && name in local then "<SELF>." + name
            else if (schema == self || schema == "public") && name in platform then "<PLATFORM>." + name
            else schema + "." + name
  {
    assert SELF_MARK + "." == "<SELF>.";
    assert PLATFORM_MARK + "." == "<PLATFORM>.";
  }

  /** What a pass makes of a reference anywhere in a text: the schema's own objects and the platform's
      get their marks, and everything else stays as it is written. */
  lemma WhatIsMarked(before: string, schema: string, name: string, after: string, self: string,
                     local: set<string>, platform: set<string>)
    requires before == "" || (!IsIdentChar(before[|before| - 1]) && before[|before| - 1] != '.')
    requires IsIdent(schema) && IsIdent(name) && (after == "" || !IsIdentChar(after[0]))
    ensures Canonicalize(before + (schema + "." + name + after), self, local, platform)
         == Canonicalize(before, self, local, platform)
            + ((if schema == self && name in local then "<SELF>." + name
                else if (schema == self || schema == "public") && name in platform then "<PLATFORM>." + name
                else schema + "." + name)
               + Canonicalize(after, self, local, platform))
  {
    ReferenceIsReplaced(before, schema, name, after, Canon(self, local, platform));
    CanonIs(self, local, platform, schema, name);
  }

  /** The normalisation leaves this reference as it is written. */
  predicate Kept(self: string, local: set<string>, platform: set<string>, schema: string, name: string) {
    && !(schema == self && (name in local || name in platform))
    && !(schema == "public" && name in platform)
  }

  // ---------------------------------------------------------------- renaming the schema

  function MovedSchema(schemaTo: string, local: set<string>, schema: string, name: string): string {
    if schema == "public" && name in local then schemaTo else schema
  }

  /** The same definitions with the local objects living in `schemaTo` instead of `public`. */
  function MoveTo(text: string, schemaTo: string, local: set<string>): string {
    Sub(text, (a, b) => MovedSchema(schemaTo, local, a, b) + "." + b)
  }

  predicate InUse(schemaTo: string, local: set<string>, platform: set<string>, schema: string, name: string) {
    schema == schemaTo && (name in local || name in platform)
  }

  /** No reference of the text already uses the schema for one of the known objects. */
  predicate Unused(text: string, schemaTo: string, local: set<string>, platform: set<string>) {
    forall r | r in Refs(text) :: !InUse(schemaTo, local, platform, r.0, r.1)
  }

  lemma CanonicalizeAfterMove(text: string, schemaTo: string, local: set<string>, platform: set<string>)
    requires IsIdent(schemaTo)
    ensures Canonicalize(MoveTo(text, schemaTo, local), schemaTo, local, platform)
         == Sub(text, (a, b) => CanonRef(schemaTo, local, platform, MovedSchema(schemaTo, local, a, b), b))
  {
    var rename := (a, b) => MovedSchema(schemaTo, local, a, b);
    var canon := Canon(schemaTo, local, platform);
    SubAfterRename(text, rename, canon);
    SubAgree(text, (a, b) => rename(a, b) + "." + b, (a, b) => MovedSchema(schemaTo, local, a, b) + "." + b);
    SubAgree(text, (a, b) => canon(rename(a, b), b),
             (a, b) => CanonRef(schemaTo, local, platform, MovedSchema(schemaTo, local, a, b), b));
  }

  /** Comparing under a renamed schema gives the same text as comparing in `public`, exactly when
      the new schema name was not already in use for one of the known objects. */
  lemma RenamingIsInvisible(text: string, schemaTo: string, local: set<string>, platform: set<string>)
    requires IsIdent(schemaTo)
    ensures Canonicalize(MoveTo(text, schemaTo, local), schemaTo, local, platform)
            == Canonicalize(text, "public", local, platform)
       <==> schemaTo == "public" || Unused(text, schemaTo, local, platform)
  {
    CanonicalizeAfterMove(text, schemaTo, local, platform);
    var f := (a, b) => CanonRef(schemaTo, local, platform, MovedSchema(schemaTo, local, a, b), b);
    var g := Canon("public", local, platform);
    forall a, b
      ensures f(a, b) == g(a, b) <==> schemaTo == "public" || !InUse(schemaTo, local, platform, a, b)
      ensures f(a, b) != g(a, b) ==> f(a, b) != [] && g(a, b) != [] && f(a, b)[0] != g(a, b)[0]
    {
      MovedReference(schemaTo, local, platform, a, b);
    }
    if schemaTo == "public" || Unused(text, schemaTo, local, platform) {
      SubAgree(text, f, g);
    } else {
      var r :| r in Refs(text) && InUse(schemaTo, local, platform, r.0, r.1);
      SubDiffer(text, f, g);
    }
  }

  /** The two ways of reading one reference differ only for a known object already written with the
      new schema, and then in their first character. */
  lemma MovedReference(schemaTo: string, local: set<string>, platform: set<string>, a: string, b: string)
    requires IsIdent(schemaTo)
    ensures var moved := CanonRef(schemaTo, local, platform, MovedSchema(schemaTo, local, a, b), b);
            var original := CanonRef("public", local, platform, a, b);
            && (moved == original <==> schemaTo == "public" || !InUse(schemaTo, local, platform, a, b))
            && (moved != original ==> moved != [] && original != [] && moved[0] != original[0])
  {
    if schemaTo != "public" && InUse(schemaTo, local, platform, a, b) {
      assert CanonRef(schemaTo, local, platform, a, b)[0] == '<';
      assert CanonRef("public", local, platform, a, b)[0] == a[0];
    }
  }

  // ---------------------------------------------------------------- normalising twice

  /** The references a second pass sees that the first one did not: behind a replaced reference the
      identifiers are paired anew, shifted by one, until something else than a dotted identifier
      follows. */
  function Shifted(s: string, self: string, local: set<string>, platform: set<string>): seq<(string, string)>
    decreases |s|, 0
  {
    match ShapeOf(s)
    case Empty => []
    case Symbol(_, rest) => Shifted(rest, self, local, platform)
    case Word(_, rest) => Shifted(rest, self, local, platform)
    case Reference(a, b, rest) =>
      if Kept(self, local, platform, a, b) then Shifted(rest, self, local, platform)
      else ShiftedBehind(b, rest, self, local, platform)
  }

  /** The same for the text behind the object name `b`, which the second pass reads as the start of
      an identifier chain of its own. */
  function ShiftedBehind(b: string, rest: string, self: string, local: set<string>, platform: set<string>)
    : seq<(string, string)>
    decreases |rest|, 1
  {
    if !DotIdent(rest) then Shifted(rest, self, local, platform)
    else
      match ShapeOf(rest[1..])
      case Word(c, tail) => [(b, c)] + Shifted(tail, self, local, platform)
      case Reference(c, d, tail) =>
        (if Kept(self, local, platform, c, d) then [(b, c)] else []) + ShiftedBehind(d, tail, self, local, platform)
  }

  predicate AllKept(refs: seq<(string, string)>, self: string, local: set<string>, platform: set<string>) {
    forall r | r in refs :: Kept(self, local, platform, r.0, r.1)
  }

  function MarkOf(self: string, local: set<string>, schema: string, name: string): (word: string)
    ensures IsIdent(word)
  {
    if schema == self && name in local then "SELF" else "PLATFORM"
  }

  lemma CanonOfUnkept(self: string, local: set<string>, platform: set<string>, a: string, b: string)
    ensures CanonRef(self, local, platform, a, b)
         == if Kept(self, local, platform, a, b) then a + "." + b else Mark(MarkOf(self, local, a, b)) + "." + b
  {
  }

  lemma Glue(a: string, b: string, rest: string)
    ensures a + (['.'] + (b + rest)) == a + "." + b + rest
    ensures (a + "." + b) + rest == a + "." + (b + rest)
  {
  }

  lemma MarkText(word: string, rest: string)
    ensures Mark(word) + "." + rest == ['<'] + (word + (['>'] + (['.'] + rest)))
  {
  }

  /** A mark is not an identifier: a pass sees only what is behind it. */
  lemma RefsOfMark(word: string, rest: string)
    requires IsIdent(word)
    ensures Refs(Mark(word) + "." + rest) == Refs(rest)
  {
    MarkText(word, rest);
    RefsOfSymbol('.', rest);
    RefsOfSymbol('>', ['.'] + rest);
    RefsOfWord(word, ['>'] + (['.'] + rest));
    RefsOfSymbol('<', word + (['>'] + (['.'] + rest)));
  }

  /** b.c.d, the last two written as they were. */
  lemma RefsOfKeptPair(b: string, c: string, d: string, done: string)
    requires IsIdent(b) && IsIdent(c) && IsIdent(d) && WordEnds(done)
    ensures Refs(b + (['.'] + ((c + "." + d) + done))) == [(b, c)] + Refs(d + done)
  {
    var tail := ['.'] + (d + done);
    Glue(c, d, done);
    Glue(b, c, tail);
    RefsOfReference(b, c, tail);
    RefsOfSymbol('.', d + done);
  }

  /** b.<mark>.d: nothing is paired with `b`. */
  lemma RefsOfMarkedPair(b: string, word: string, d: string, done: string)
    requires IsIdent(b) && IsIdent(word)
    ensures Refs(b + (['.'] + ((Mark(word) + "." + d) + done))) == Refs(d + done)
  {
    Glue(Mark(word), d, done);
    var marked := Mark(word) + "." + (d + done);
    RefsOfMark(word, d + done);
    RefsOfSymbol('.', marked);
    RefsOfWord(b, ['.'] + marked);
  }

  /** The second pass finds something to replace exactly when a shifted pair is to be replaced. */
  lemma SecondPassSees(s: string, self: string, local: set<string>, platform: set<string>)
    ensures AllKept(Refs(Canonicalize(s, self, local, platform)), self, local, platform)
       <==> AllKept(Shifted(s, self, local, platform), self, local, platform)
    decreases |s|, 0
  {
    var f := Canon(self, local, platform);
    match ShapeOf(s)
    case Empty =>
    case Symbol(c, rest) =>
      SecondPassSees(rest, self, local, platform);
      RefsOfSymbol(c, Sub(rest, f));
    case Word(w, rest) =>
      SecondPassSees(rest, self, local, platform);
      HeadKept(rest, f);
      RefsOfWord(w, Sub(rest, f));
    case Reference(a, b, rest) =>
      CanonOfUnkept(self, local, platform, a, b);
      if Kept(self, local, platform, a, b) {
        SecondPassSees(rest, self, local, platform);
        HeadKept(rest, f);
        RefsOfReference(a, b, Sub(rest, f));
      } else {
        SecondPassSeesBehind(b, rest, self, local, platform);
        Glue(Mark(MarkOf(self, local, a, b)), b, Sub(rest, f));
        RefsOfMark(MarkOf(self, local, a, b), b + Sub(rest, f));
      }
  }

  lemma SecondPassSeesBehind(b: string, rest: string, self: string, local: set<string>, platform: set<string>)
    requires IsIdent(b) && WordEnds(rest)
    ensures AllKept(Refs(b + Canonicalize(rest, self, local, platform)), self, local, platform)
       <==> AllKept(ShiftedBehind(b, rest, self, local, platform), self, local, platform)
    decreases |rest|, 1
  {
    var f := Canon(self, local, platform);
    if !DotIdent(rest) {
      SecondPassSees(rest, self, local, platform);
      HeadKept(rest, f);
      RefsOfWord(b, Sub(rest, f));
    } else {
      var next := rest[1..];
      assert rest == ['.'] + next;
      SubSymbol('.', next, f);
      match ShapeOf(next)
      case Word(c, tail) =>
        SecondPassSees(tail, self, local, platform);
        HeadKept(tail, f);
        Glue(b, c, Sub(tail, f));
        RefsOfReference(b, c, Sub(tail, f));
      case Reference(c, d, tail) =>
        SecondPassSeesBehind(d, tail, self, local, platform);
        CanonOfUnkept(self, local, platform, c, d);
        HeadKept(tail, f);
        if Kept(self, local, platform, c, d) {
          RefsOfKeptPair(b, c, d, Sub(tail, f));
        } else {
          RefsOfMarkedPair(b, MarkOf(self, local, c, d), d, Sub(tail, f));
        }
    }
  }

  /** A pass leaves a text alone exactly when it keeps every reference it sees. */
  lemma UnchangedIff(t: string, self: string, local: set<string>, platform: set<string>)
    ensures Canonicalize(t, self, local, platform) == t <==> AllKept(Refs(t), self, local, platform)
  {
    var f: Replacer := Canon(self, local, platform);
    var same: Replacer := (a, b) => a + "." + b;
    SubSame(t);
    RefsAreIdents(t);
    forall r | r in Refs(t) ensures f(r.0, r.1) == same(r.0, r.1) <==> Kept(self, local, platform, r.0, r.1)
      ensures f(r.0, r.1) != same(r.0, r.1) ==> f(r.0, r.1)[0] != same(r.0, r.1)[0]
    {
      CanonOfUnkept(self, local, platform, r.0, r.1);
      assert same(r.0, r.1)[0] == r.0[0];
      assert !Kept(self, local, platform, r.0, r.1) ==> f(r.0, r.1)[0] == '<';
    }
    if AllKept(Refs(t), self, local, platform) {
      SubAgree(t, f, same);
    } else {
      SubDiffer(t, f, same);
    }
  }

  /** Normalising a text twice is the same as once exactly when no pair shifted by one behind a
      replaced reference is itself to be replaced. */
  lemma TwiceIsOnceIff(s: string, self: string, local: set<string>, platform: set<string>)
    ensures Canonicalize(Canonicalize(s, self, local, platform), self, local, platform)
            == Canonicalize(s, self, local, platform)
       <==> AllKept(Shifted(s, self, local, platform), self, local, platform)
  {
    UnchangedIff(Canonicalize(s, self, local, platform), self, local, platform);
    SecondPassSees(s, self, local, platform);
  }

  // ---------------------------------------------------------------- how long a chain may be

  /** The number of identifiers, joined by dots, that start at the head of the text. */
  function Chain(s: string): nat
    decreases |s|
  {
    if s == [] || !IsIdentStart(s[0]) then 0
    else
      var n := Run(s);
      if DotIdent(s[n..]) then 1 + Chain(s[n + 1..]) else 1
  }

  ghost predicate ChainsAtMost(s: string, n: nat) {
    forall i | 0 <= i <= |s| :: Chain(s[i..]) <= n
  }

  /** No known object can be taken for the schema being compared, nor for `public` in front of a
      platform object. */
  ghost predicate ObjectsAreNoSchemas(self: string, local: set<string>, platform: set<string>) {
    && self !in local + platform
    && ("public" in local + platform ==> forall c | c in platform :: !IsIdent(c))
  }

  /** The longest chains for which one pass is always enough. */
  ghost predicate ShortEnough(n: nat, self: string, local: set<string>, platform: set<string>) {
    n <= 2 || (n <= 4 && ObjectsAreNoSchemas(self, local, platform))
  }

  lemma ChainsOfSuffix(s: string, n: nat, suffix: string)
    requires ChainsAtMost(s, n) && |suffix| <= |s| && s[|s| - |suffix|..] == suffix
    ensures ChainsAtMost(suffix, n)
  {
    forall i | 0 <= i <= |suffix|
      ensures Chain(suffix[i..]) <= n
    {
      assert suffix[i..] == s[|s| - |suffix| + i..];
    }
  }

  lemma ChainOfWord(w: string, rest: string)
    requires IsIdent(w) && WordEnds(rest)
    ensures Chain(w + rest) == if DotIdent(rest) then 1 + Chain(rest[1..]) else 1
  {
    RunOfWord(w, rest);
    assert (w + rest)[|w|..] == rest;
    if DotIdent(rest) {
      assert (w + rest)[|w| + 1..] == rest[1..];
    }
  }

  lemma ChainOfReference(a: string, b: string, rest: string)
    requires IsIdent(a) && IsIdent(b) && WordEnds(rest)
    ensures Chain(a + "." + b + rest) == 1 + Chain(b + rest)
  {
    var tail := "." + b + rest;
    assert tail[1..] == b + rest && tail[1] == b[0];
    assert a + "." + b + rest == a + tail;
    ChainOfWord(a, tail);
  }

  /** An object name after a mark, read as a schema name, is kept. */
  lemma ObjectIsKept(b: string, c: string, self: string, local: set<string>, platform: set<string>)
    requires ObjectsAreNoSchemas(self, local, platform) && b in local + platform && IsIdent(c)
    ensures Kept(self, local, platform, b, c)
  {
  }

  lemma ChainsOfRest(s: string, n: nat)
    requires s != [] && ChainsAtMost(s, n)
    ensures ChainsAtMost(ShapeOf(s).rest, n)
  {
    ChainsOfSuffix(s, n, ShapeOf(s).rest);
  }

  /** Behind an object name, the chain goes on with a dot and an identifier. */
  lemma LinkBehind(n: nat, b: string, rest: string)
    requires IsIdent(b) && DotIdent(rest) && ChainsAtMost(rest, n)
    ensures rest == ['.'] + rest[1..] && Chain(b + rest) == 1 + Chain(rest[1..]) && Chain(rest[1..]) >= 1
    ensures ChainsAtMost(rest[1..], n)
  {
    ChainOfWord(b, rest);
    ChainsOfSuffix(rest, n, rest[1..]);
  }

  /** After c.d, at the end of a chain of at most two links, no dotted identifier follows. */
  lemma RoomBehind(c: string, d: string, tail: string)
    requires IsIdent(c) && IsIdent(d) && WordEnds(tail)
    requires Chain(c + "." + d + tail) <= 2
    ensures !DotIdent(tail)
  {
    ChainOfReference(c, d, tail);
    ChainOfWord(d, tail);
  }

  /** No chain joins more than four identifiers, as in database.schema.table.column, and no object
      can be taken for a schema: then every shifted pair is kept. */
  lemma ShiftedOfShort(n: nat, s: string, self: string, local: set<string>, platform: set<string>)
    requires ShortEnough(n, self, local, platform) && ChainsAtMost(s, n)
    ensures AllKept(Shifted(s, self, local, platform), self, local, platform)
    decreases |s|, 0
  {
    var shape := ShapeOf(s);
    if !shape.Empty? {
      ChainsOfRest(s, n);
      if shape.Reference? && !Kept(self, local, platform, shape.schema, shape.name) {
        assert s[0..] == s;
        ChainOfReference(shape.schema, shape.name, shape.rest);
        ShiftedOfShortBehind(n, shape.name, shape.rest, self, local, platform);
      } else {
        ShiftedOfShort(n, shape.rest, self, local, platform);
      }
    }
  }

  lemma ShiftedOfShortBehind(n: nat, b: string, rest: string, self: string, local: set<string>, platform: set<string>)
    requires ShortEnough(n, self, local, platform)
    requires IsIdent(b) && WordEnds(rest) && b in local + platform
    requires ChainsAtMost(rest, n) && Chain(b + rest) < n
    ensures AllKept(ShiftedBehind(b, rest, self, local, platform), self, local, platform)
    decreases |rest|, 1
  {
    if !DotIdent(rest) {
      ShiftedOfShort(n, rest, self, local, platform);
    } else {
      LinkBehind(n, b, rest);
      var next := rest[1..];
      ChainsOfRest(next, n);
      ShiftedOfShort(n, ShapeOf(next).rest, self, local, platform);
      OnePairBehind(b, rest, self, local, platform);
    }
  }

  /** Two links at most behind the object name pair it with the first of them, and nothing else. */
  lemma OnePairBehind(b: string, rest: string, self: string, local: set<string>, platform: set<string>)
    requires DotIdent(rest) && Chain(rest[1..]) <= 2
    requires ObjectsAreNoSchemas(self, local, platform) && b in local + platform
    requires AllKept(Shifted(ShapeOf(rest[1..]).rest, self, local, platform), self, local, platform)
    ensures AllKept(ShiftedBehind(b, rest, self, local, platform), self, local, platform)
  {
    match ShapeOf(rest[1..])
    case Word(c, tail) =>
      ObjectIsKept(b, c, self, local, platform);
    case Reference(c, d, tail) =>
      ObjectIsKept(b, c, self, local, platform);
      RoomBehind(c, d, tail);
  }

  /** One pass is enough for every text whose chains are short enough. */
  lemma StableOnShortChains(n: nat, s: string, self: string, local: set<string>, platform: set<string>)
    requires ShortEnough(n, self, local, platform) && ChainsAtMost(s, n)
    ensures Canonicalize(Canonicalize(s, self, local, platform), self, local, platform)
         == Canonicalize(s, self, local, platform)
  {
    ShiftedOfShort(n, s, self, local, platform);
    TwiceIsOnceIff(s, self, local, platform);
  }

  lemma {:induction false} ChainCountsDots(s: string)
    ensures Chain(s) <= 1 + multiset(s)['.']
    decreases |s|
  {
    if s != [] && IsIdentStart(s[0]) {
      var n := Run(s);
      if DotIdent(s[n..]) {
        assert s == s[..n] + (['.'] + s[n + 1..]);
        ChainCountsDots(s[n + 1..]);
      }
    }
  }

  lemma ChainsCountDots(s: string)
    ensures ChainsAtMost(s, 1 + multiset(s)['.'])
  {
    forall i | 0 <= i <= |s|
      ensures Chain(s[i..]) <= 1 + multiset(s)['.']
    {
      ChainCountsDots(s[i..]);
      assert s == s[..i] + s[i..];
    }
  }

  lemma NoDotInIdent(w: string)
    requires IsIdent(w)
    ensures multiset(w)['.'] == 0
  {
    assert '.' !in w;
  }

  /** .c at the end of a text, behind `b`. */
  lemma ShiftedLastLink(b: string, c: string, self: string, local: set<string>, platform: set<string>)
    requires IsIdent(c)
    ensures ShiftedBehind(b, ['.'] + c, self, local, platform) == [(b, c)]
  {
    assert (['.'] + c)[1..] == c && c + "" == c;
    ShapeOfText(Word(c, ""));
  }

  /** a.b.c, where the first two are replaced and then b.c would be. */
  lemma ThreeLinks(a: string, b: string, c: string, self: string, local: set<string>, platform: set<string>)
    requires IsIdent(a) && IsIdent(b) && IsIdent(c)
    requires !Kept(self, local, platform, a, b) && !Kept(self, local, platform, b, c)
    ensures var s := a + "." + b + (['.'] + c);
            ChainsAtMost(s, 3) && !AllKept(Shifted(s, self, local, platform), self, local, platform)
  {
    NoDotInIdent(a);
    NoDotInIdent(b);
    NoDotInIdent(c);
    ChainsCountDots(a + "." + b + (['.'] + c));
    ShapeOfText(Reference(a, b, ['.'] + c));
    ShiftedLastLink(b, c, self, local, platform);
    assert (b, c) in [(b, c)];
  }

  lemma FiveLinksAreFive(s: string, b: string)
    requires IsIdent(b) && IsIdent(s)
    ensures ChainsAtMost(s + "." + b + (['.'] + (b + "." + s + (['.'] + b))), 5)
  {
    NoDotInIdent(s);
    NoDotInIdent(b);
    ChainsCountDots(s + "." + b + (['.'] + (b + "." + s + (['.'] + b))));
  }

  /** s.b.b.s.b: the first pass pairs it from the left, the second from the second link on. */
  lemma FiveLinks(s: string, b: string, self: string, local: set<string>, platform: set<string>)
    requires IsIdent(b) && IsIdent(s)
    requires !Kept(self, local, platform, s, b) && Kept(self, local, platform, b, s)
    ensures var text := s + "." + b + (['.'] + (b + "." + s + (['.'] + b)));
            ChainsAtMost(text, 5) && !AllKept(Shifted(text, self, local, platform), self, local, platform)
  {
    var next := b + "." + s + (['.'] + b);
    FiveLinksAreFive(s, b);
    ShapeOfText(Reference(s, b, ['.'] + next));
    assert (['.'] + next)[1..] == next && next[0] == b[0];
    ShapeOfText(Reference(b, s, ['.'] + b));
    ShiftedLastLink(s, b, self, local, platform);
    assert (s, b) in [(b, b)] + [(s, b)];
  }

  /** Normalising twice changes nothing on every text whose chains are short enough, and for longer
      chains some text shows the opposite: the limit is exact. */
  lemma IdempotenceLimit(n: nat, self: string, local: set<string>, platform: set<string>, b: string)
    requires IsIdent(self) && IsIdent(b) && b in local + platform
    ensures (forall s | ChainsAtMost(s, n) ::
               Canonicalize(Canonicalize(s, self, local, platform), self, local, platform)
               == Canonicalize(s, self, local, platform))
       <==> ShortEnough(n, self, local, platform)
  {
    if ShortEnough(n, self, local, platform) {
      forall s | ChainsAtMost(s, n)
        ensures Canonicalize(Canonicalize(s, self, local, platform), self, local, platform)
             == Canonicalize(s, self, local, platform)
      {
        StableOnShortChains(n, s, self, local, platform);
      }
    } else {
      var s := Unstable(self, local, platform, b);
      TwiceIsOnceIff(s, self, local, platform);
      ChainsMonotone(s, if ObjectsAreNoSchemas(self, local, platform) then 5 else 3, n);
    }
  }

  lemma ChainsMonotone(s: string, m: nat, n: nat)
    requires ChainsAtMost(s, m) && m <= n
    ensures ChainsAtMost(s, n)
  {
  }

  lemma Unstable(self: string, local: set<string>, platform: set<string>, b: string) returns (s: string)
    requires IsIdent(self) && IsIdent(b) && b in local + platform
    ensures !AllKept(Shifted(s, self, local, platform), self, local, platform)
    ensures ChainsAtMost(s, if ObjectsAreNoSchemas(self, local, platform) then 5 else 3)
  {
    if ObjectsAreNoSchemas(self, local, platform) {
      FiveLinks(self, b, self, local, platform);
      s := self + "." + b + (['.'] + (b + "." + self + (['.'] + b)));
    } else if self in local + platform {
      ThreeLinks(self, self, self, self, local, platform);
      s := self + "." + self + (['.'] + self);
    } else {
      var c :| c in platform && IsIdent(c);
      ThreeLinks(self, "public", c, self, local, platform);
      s := self + "." + "public" + (['.'] + c);
    }
  }
}
