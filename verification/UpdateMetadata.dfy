/** Update metadata as electron-builder writes it: top-level fields and one list of files. */
module UpdateMetadata {
  import opened Options
  import opened Text
  import opened Decimals

  datatype Scalar = Str(text: string) | Num(n: nat)

  type Fields = map<string, Scalar>

  const NO_FIELDS: Fields := map[]

  datatype Meta = Meta(fields: Fields, files: Option<seq<Fields>>)

  // ---------------------------------------------------------------- parsing

  predicate IsQuote(c: char) {
    c == '\'' || c == '"'
  }

  predicate IsQuoted(s: string) {
    |s| >= 2 && s[0] == s[|s| - 1] && IsQuote(s[0])
  }

  function Unquote(s: string): string {
    if IsQuoted(s) then s[1..|s| - 1] else s
  }

  function Coerce(s: string): Scalar {
    if IsNumber(s) then Num(ToNat(s)) else Str(s)
  }

  /** The parts before and after the first colon. */
  function Partition(s: string): Option<(string, string)> {
    if s == "" then None
    else if s[0] == ':' then Some(("", s[1..]))
    else match Partition(s[1..])
      case None => None
      case Some(parts) => Some(([s[0]] + parts.0, parts.1))
  }

  /** A key that is not blank, and its value. */
  function Pair(s: string): Option<(string, Scalar)> {
    match Partition(s)
    case None => None
    case Some(parts) =>
      if Strip(parts.0) == "" then None else Some((Strip(parts.0), Coerce(Unquote(Strip(parts.1)))))
  }

  /** The result so far, whether the file list is open, and whether it has a current item. */
  datatype State = State(meta: Meta, inFiles: bool, hasItem: bool)

  const EMPTY := State(Meta(NO_FIELDS, None), false, false)

  predicate IsIgnored(line: string) {
    Strip(line) == "" || (LStrip(line) != "" && LStrip(line)[0] == '#')
  }

  predicate StartsItem(s: string) {
    |s| >= 2 && s[0] == '-' && s[1] == ' '
  }

  function FilesOf(meta: Meta): seq<Fields> {
    if meta.files.Some? then meta.files.value else []
  }

  /** A pair goes to the current item, the last one of the list. */
  function Attach(st: State, s: string): Option<State> {
    var files := FilesOf(st.meta);
    if !st.hasItem || files == [] then None
    else match Pair(s)
      case None => None
      case Some(pair) =>
        Some(st.(meta := st.meta.(files := Some(WithLast(files, files[|files| - 1][pair.0 := pair.1])))))
  }

  function WithLast(files: seq<Fields>, item: Fields): seq<Fields>
    requires files != []
  {
    files[|files| - 1 := item]
  }

  predicate IsIndented(line: string) {
    line != "" && (line[0] == ' ' || line[0] == '\t')
  }

  function ReadIndented(st: State, text: string): Option<State> {
    if !st.inFiles then None
    else if StartsItem(text) then
      var rest := Strip(text[2..]);
      if rest == "" then None
      else Attach(State(st.meta.(files := Some(FilesOf(st.meta) + [NO_FIELDS])), true, true), rest)
    else Attach(st, text)
  }

  function ReadTop(st: State, text: string): Option<State> {
    match Pair(text)
    case None => None
    case Some(pair) =>
      if pair.0 == "files" then Some(State(st.meta.(files := Some([])), true, false))
      else Some(State(st.meta.(fields := st.meta.fields[pair.0 := pair.1]), false, false))
  }

  function ReadLine(st: State, line: string): Option<State> {
    if IsIgnored(line) then Some(st)
    else if IsIndented(line) then ReadIndented(st, Strip(line))
    else ReadTop(st, Strip(line))
  }

  function ReadLines(st: State, lines: seq<string>): Option<State>
    decreases lines
  {
    if lines == [] then Some(st)
    else match ReadLine(st, lines[0])
      case None => None
      case Some(next) => ReadLines(next, lines[1..])
  }

  /** What `str` makes of a field; the empty text when it is missing. */
  function TextOf(fields: Fields, key: string): string {
    if key !in fields then "" else match fields[key] case Str(text) => text case Num(n) => Decimal(n)
  }

  predicate HasText(fields: Fields, key: string) {
    key in fields && fields[key].Str? && Strip(fields[key].text) != ""
  }

  /** The final checks, given the ones for versions and digests. */
  predicate IsValid(meta: Meta, isVersion: string -> bool, isDigest: string -> bool) {
    && isVersion(TextOf(meta.fields, "version"))
    && HasText(meta.fields, "path")
    && isDigest(TextOf(meta.fields, "sha512"))
    && FilesOf(meta) != []
    && forall i :: 0 <= i < |FilesOf(meta)| ==>
         HasText(FilesOf(meta)[i], "url") && isDigest(TextOf(FilesOf(meta)[i], "sha512"))
  }

  function Parsed(text: string, isVersion: string -> bool, isDigest: string -> bool): Option<Meta> {
    match ReadLines(EMPTY, SplitLines(text))
    case None => None
    case Some(st) => if IsValid(st.meta, isVersion, isDigest) then Some(st.meta) else None
  }

  lemma ReadFrom(st: State, lines: seq<string>, i: nat)
    requires i < |lines|
    ensures ReadLines(st, lines[i..])
         == match ReadLine(st, lines[i]) case None => None case Some(next) => ReadLines(next, lines[i + 1..])
  {
    assert lines[i..][0] == lines[i] && lines[i..][1..] == lines[i + 1..];
  }

  /** The indented lines: a new item, or a pair for the current one. */
  method TakeIndented(st: State, text: string) returns (next: Option<State>)
    ensures next == ReadIndented(st, text)
  {
    if !st.inFiles {
      return None;
    }
    var files, hasItem, pairText := FilesOf(st.meta), st.hasItem, text;
    if StartsItem(text) {
      hasItem := true;
      files := files + [NO_FIELDS];
      pairText := Strip(text[2..]);
      if pairText == "" {
        return None;
      }
    }
    var pair := Pair(pairText);
    if !hasItem || files == [] || pair.None? {
      return None;
    }
    var last := |files| - 1;
    files := files[last := files[last][pair.value.0 := pair.value.1]];
    next := Some(State(st.meta.(files := Some(files)), true, hasItem));
  }

  /** `None` is the configuration error. */
  method ParseUpdateMetadata(text: string, isVersion: string -> bool, isDigest: string -> bool) returns (meta: Option<Meta>)
    ensures meta == Parsed(text, isVersion, isDigest)
  {
    var lines := SplitLines(text);
    var st := EMPTY;
    ghost var whole := ReadLines(EMPTY, lines);
    for i := 0 to |lines|
      invariant whole == ReadLines(st, lines[i..])
    {
      ReadFrom(st, lines, i);
      var line := lines[i];
      var text := Strip(line);
      if text == "" || (LStrip(line) != "" && LStrip(line)[0] == '#') {
        continue;
      }
      if line[0] == ' ' || line[0] == '\t' {
        var next := TakeIndented(st, text);
        if next.None? {
          return None;
        }
        st := next.value;
        continue;
      }
      var pair := Pair(text);
      if pair.None? {
        return None;
      }
      st := if pair.value.0 == "files" then State(st.meta.(files := Some([])), true, false)
            else State(st.meta.(fields := st.meta.fields[pair.value.0 := pair.value.1]), false, false);
    }
    meta := if IsValid(st.meta, isVersion, isDigest) then Some(st.meta) else None;
  }

  // ---------------------------------------------------------------- printing

  type Pairs = seq<(string, Scalar)>

  datatype Entry = Field(key: string, value: Scalar) | FileList(items: seq<Pairs>)

  /** Text stands for itself unless it would lose blanks or quotes; then it is quoted. */
  function PrintScalar(s: Scalar): string {
    match s
    case Num(n) => Decimal(n)
    case Str(text) => if Strip(text) == text && !IsQuoted(text) then text else "'" + text + "'"
  }

  function PrintPair(indent: string, key: string, value: Scalar): string {
    indent + key + ": " + PrintScalar(value)
  }

  function PrintRest(item: Pairs): seq<string> {
    if item == [] then [] else [PrintPair("    ", item[0].0, item[0].1)] + PrintRest(item[1..])
  }

  function PrintItem(item: Pairs): seq<string>
    requires item != []
  {
    [PrintPair("  - ", item[0].0, item[0].1)] + PrintRest(item[1..])
  }

  function PrintItems(items: seq<Pairs>): seq<string> {
    if items == [] then []
    else if items[0] == [] then PrintItems(items[1..])
    else PrintItem(items[0]) + PrintItems(items[1..])
  }

  function PrintEntry(e: Entry): seq<string> {
    match e
    case Field(key, value) => [PrintPair("", key, value)]
    case FileList(items) => ["files:"] + PrintItems(items)
  }

  function PrintLines(doc: seq<Entry>): seq<string> {
    if doc == [] then [] else PrintEntry(doc[0]) + PrintLines(doc[1..])
  }

  /** The record a document stands for: later entries win, as in a dictionary. */
  function FieldsOf(item: Pairs, fields: Fields): Fields {
    if item == [] then fields else FieldsOf(item[1..], fields[item[0].0 := item[0].1])
  }

  function ItemsOf(items: seq<Pairs>): seq<Fields> {
    if items == [] then [] else [FieldsOf(items[0], NO_FIELDS)] + ItemsOf(items[1..])
  }

  function MetaOf(doc: seq<Entry>, meta: Meta): Meta {
    if doc == [] then meta
    else match doc[0]
      case Field(key, value) => MetaOf(doc[1..], meta.(fields := meta.fields[key := value]))
      case FileList(items) => MetaOf(doc[1..], meta.(files := Some(ItemsOf(items))))
  }

  predicate IsKey(key: string) {
    && key != "" && Strip(key) == key && NoLineBreak(key) && ':' !in key
    && key[0] != '#' && !("- " <= key)
  }

  /** A text of digits is a number to the parser, quoted or not. */
  predicate IsPrintable(s: Scalar) {
    s.Str? ==> NoLineBreak(s.text) && !IsNumber(s.text)
  }

  predicate AreWritable(item: Pairs) {
    forall i :: 0 <= i < |item| ==> IsKey(item[i].0) && IsPrintable(item[i].1)
  }

  predicate IsWritable(e: Entry) {
    match e
    case Field(key, value) => IsKey(key) && key != "files" && IsPrintable(value)
    case FileList(items) => AreItems(items)
  }

  // ---------------------------------------------------------------- one line

  lemma StrippedIsTight(s: string)
    requires Strip(s) == s && s != ""
    ensures IsTight(s)
  {
    LengthOfStrip(s);
    LengthOfStrip(s[1..]);
    assert LStrip(s) == s;
    LengthOfRStrip(s[..|s| - 1]);
  }

  lemma {:induction false} LengthOfStrip(s: string)
    ensures |LStrip(s)| <= |s| && |RStrip(s)| <= |s| && |Strip(s)| <= |LStrip(s)|
    decreases |s|
  {
    if s != "" {
      LengthOfStrip(s[1..]);
      LengthOfRStrip(s);
      LengthOfRStrip(LStrip(s));
    }
  }

  lemma {:induction false} LengthOfRStrip(s: string)
    ensures |RStrip(s)| <= |s|
    decreases |s|
  {
    if s != "" {
      LengthOfRStrip(s[..|s| - 1]);
    }
  }

  lemma {:induction false} PartitionAt(key: string, rest: string)
    requires ':' !in key
    ensures Partition(key + ":" + rest) == Some((key, rest))
  {
    var s := key + ":" + rest;
    if key == "" {
      assert s[1..] == rest;
    } else {
      assert s[1..] == key[1..] + ":" + rest;
      PartitionAt(key[1..], rest);
      assert [key[0]] + key[1..] == key;
    }
  }

  lemma PrintedNumber(n: nat)
    ensures var d := Decimal(n);
            IsTight(d) && NoLineBreak(d) && !IsQuoted(d) && Coerce(d) == Num(n)
  {
    ToNatOfDecimal(n);
    var d := Decimal(n);
    assert IsDigit(d[0]) && IsDigit(d[|d| - 1]);
  }

  lemma PrintedText(text: string)
    requires IsPrintable(Str(text))
    ensures var p := PrintScalar(Str(text));
            (p == "" || IsTight(p)) && NoLineBreak(p) && Unquote(p) == text
  {
    if Strip(text) == text && !IsQuoted(text) {
      if text != "" {
        StrippedIsTight(text);
      }
    } else {
      var q := "'" + text + "'";
      assert q[0] == '\'' == q[|q| - 1] && q[1..|q| - 1] == text;
    }
  }

  /** A printed value is tight or empty and is read back. */
  lemma PrintedScalar(s: Scalar)
    requires IsPrintable(s)
    ensures PrintScalar(s) == "" || IsTight(PrintScalar(s))
    ensures Coerce(Unquote(PrintScalar(s))) == s
    ensures NoLineBreak(PrintScalar(s))
  {
    match s
    case Num(n) => PrintedNumber(n);
    case Str(text) => PrintedText(text);
  }

  /** The text of a pair without the blank left behind by an empty value. */
  function Core(key: string, value: Scalar): string {
    if PrintScalar(value) == "" then key + ":" else key + ": " + PrintScalar(value)
  }

  lemma PairAt(key: string, rest: string, value: Scalar)
    requires IsKey(key) && Coerce(Unquote(Strip(rest))) == value
    ensures Pair(key + ":" + rest) == Some((key, value))
  {
    PartitionAt(key, rest);
  }

  lemma PairWithValue(key: string, v: string, value: Scalar)
    requires IsKey(key) && IsTight(v) && Coerce(Unquote(v)) == value
    ensures Pair(key + ": " + v) == Some((key, value))
  {
    StripTight(" ", v, "");
    assert " " + v + "" == " " + v;
    PairAt(key, " " + v, value);
    assert key + ": " + v == key + ":" + (" " + v);
  }

  lemma PairWithNothing(key: string, value: Scalar)
    requires IsKey(key) && Coerce(Unquote("")) == value
    ensures Pair(key + ":") == Some((key, value))
  {
    PairAt(key, "", value);
    assert key + ":" == key + ":" + "";
  }

  lemma CorePair(key: string, value: Scalar)
    requires IsKey(key) && IsPrintable(value)
    ensures Pair(Core(key, value)) == Some((key, value))
  {
    PrintedScalar(value);
    if PrintScalar(value) == "" {
      PairWithNothing(key, value);
    } else {
      PairWithValue(key, PrintScalar(value), value);
    }
  }

  lemma CoreShape(key: string, value: Scalar)
    requires IsKey(key) && IsPrintable(value)
    ensures IsTight(Core(key, value)) && |Core(key, value)| >= 2
    ensures Core(key, value)[0] == key[0] && !StartsItem(Core(key, value))
  {
    var v, core := PrintScalar(value), Core(key, value);
    PrintedScalar(value);
    StrippedIsTight(key);
    assert core[..|key|] == key && core[|key|] == ':';
    if v != "" {
      assert core[|core| - 1] == v[|v| - 1];
    }
  }

  /** A printed pair is its core between the indent and at most one blank. */
  lemma PairLine(indent: string, key: string, value: Scalar)
    requires IsKey(key) && IsPrintable(value)
    ensures PrintPair(indent, key, value) == indent + Core(key, value) + (if PrintScalar(value) == "" then " " else "")
  {
    var v := PrintScalar(value);
    if v == "" {
      assert ": " + v == ":" + " ";
      assert indent + key + ": " + v == indent + (key + ":") + " ";
    } else {
      assert indent + key + ": " + v == indent + (key + ": " + v) + "";
    }
  }

  // ---------------------------------------------------------------- the three kinds of lines

  lemma FieldLine(st: State, key: string, value: Scalar)
    requires IsKey(key) && key != "files" && IsPrintable(value)
    ensures ReadLine(st, PrintPair("", key, value))
         == Some(State(st.meta.(fields := st.meta.fields[key := value]), false, false))
  {
    var core, tail := Core(key, value), if PrintScalar(value) == "" then " " else "";
    PairLine("", key, value);
    CorePair(key, value);
    CoreShape(key, value);
    StripTight("", core, tail);
    assert "" + core + tail == core + tail;
    assert (core + tail)[0] == core[0];
  }

  lemma FilesKey()
    ensures Partition("files:") == Some(("files", ""))
    ensures Strip("files:") == "files:" && Strip("files") == "files"
  {
    PartitionAt("files", "");
    assert "files" + ":" + "" == "files:";
    TightIsStripped("files:");
    TightIsStripped("files");
  }

  lemma TightIsStripped(s: string)
    requires IsTight(s)
    ensures Strip(s) == s
  {
    StripTight("", s, "");
    assert "" + s + "" == s;
  }

  lemma FilesLine(st: State)
    ensures ReadLine(st, "files:") == Some(State(st.meta.(files := Some([])), true, false))
  {
    FilesKey();
    assert "files:"[0] == 'f';
  }

  predicate IsOpen(st: State) {
    st.inFiles && st.meta.files.Some? && (st.hasItem ==> st.meta.files.value != [])
  }

  /** The state after a pair for the current item. */
  function WithPair(st: State, key: string, value: Scalar): State
    requires IsOpen(st) && st.hasItem
  {
    var files := st.meta.files.value;
    st.(meta := st.meta.(files := Some(WithLast(files, files[|files| - 1][key := value]))))
  }

  /** The state after a new item. */
  function WithItem(st: State, item: Fields): State
    requires IsOpen(st)
  {
    State(st.meta.(files := Some(st.meta.files.value + [item])), true, true)
  }

  lemma RestLine(st: State, key: string, value: Scalar)
    requires IsKey(key) && IsPrintable(value) && IsOpen(st) && st.hasItem
    ensures ReadLine(st, PrintPair("    ", key, value)) == Some(WithPair(st, key, value))
  {
    var core, tail := Core(key, value), if PrintScalar(value) == "" then " " else "";
    PairLine("    ", key, value);
    CorePair(key, value);
    CoreShape(key, value);
    StripTight("    ", core, tail);
    assert ("    " + core + tail)[0] == ' ';
    assert (core + tail)[0] == core[0];
  }

  lemma DashedLine(core: string, tail: string)
    requires IsTight(core) && forall i :: 0 <= i < |tail| ==> IsSpace(tail[i])
    ensures var line := "  - " + core + tail;
            line[0] == ' ' && !IsIgnored(line) && StartsItem(Strip(line)) && Strip(Strip(line)[2..]) == core
  {
    var dashed := "- " + core;
    assert "  - " + core + tail == "  " + dashed + tail;
    assert dashed[2..] == core && dashed[|dashed| - 1] == core[|core| - 1];
    StripTight("  ", dashed, tail);
    StripTight("", core, "");
    assert "" + core + "" == core;
    assert (dashed + tail)[0] == '-';
  }

  lemma ItemLine(st: State, key: string, value: Scalar)
    requires IsKey(key) && IsPrintable(value) && IsOpen(st)
    ensures ReadLine(st, PrintPair("  - ", key, value)) == Some(WithItem(st, NO_FIELDS[key := value]))
  {
    var core, tail := Core(key, value), if PrintScalar(value) == "" then " " else "";
    PairLine("  - ", key, value);
    CorePair(key, value);
    CoreShape(key, value);
    DashedLine(core, tail);
    var files := st.meta.files.value;
    assert WithLast(files + [NO_FIELDS], NO_FIELDS[key := value]) == files + [NO_FIELDS[key := value]];
  }

  // ---------------------------------------------------------------- whole documents

  lemma {:induction false} ReadAppend(st: State, a: seq<string>, b: seq<string>)
    ensures ReadLines(st, a + b)
         == match ReadLines(st, a) case None => None case Some(mid) => ReadLines(mid, b)
    decreases a
  {
    if a == [] {
      assert a + b == b;
    } else {
      assert (a + b)[1..] == a[1..] + b;
      match ReadLine(st, a[0])
      case None =>
      case Some(next) => ReadAppend(next, a[1..], b);
    }
  }

  lemma {:induction false} ReadRest(st: State, item: Pairs)
    requires AreWritable(item) && IsOpen(st) && st.hasItem
    ensures var files := st.meta.files.value;
            ReadLines(st, PrintRest(item))
            == Some(st.(meta := st.meta.(files := Some(WithLast(files, FieldsOf(item, files[|files| - 1]))))))
    decreases item
  {
    var files := st.meta.files.value;
    if item == [] {
      assert WithLast(files, files[|files| - 1]) == files;
    } else {
      var next := WithPair(st, item[0].0, item[0].1);
      var after := next.meta.files.value;
      RestLine(st, item[0].0, item[0].1);
      ReadRest(next, item[1..]);
      LastAgain(files, after[|after| - 1], FieldsOf(item, files[|files| - 1]));
      assert PrintRest(item)[0] == PrintPair("    ", item[0].0, item[0].1) && PrintRest(item)[1..] == PrintRest(item[1..]);
    }
  }

  lemma LastAgain(files: seq<Fields>, a: Fields, b: Fields)
    requires files != []
    ensures WithLast(WithLast(files, a), b) == WithLast(files, b)
    ensures WithLast(files + [a], b) == files + [b]
  {
  }

  /** Every line of an item goes to that item. */
  lemma ReadItem(st: State, item: Pairs)
    requires item != [] && AreWritable(item) && IsOpen(st)
    ensures ReadLines(st, PrintItem(item)) == Some(WithItem(st, FieldsOf(item, NO_FIELDS)))
  {
    var next := WithItem(st, NO_FIELDS[item[0].0 := item[0].1]);
    var files := st.meta.files.value;
    ItemLine(st, item[0].0, item[0].1);
    ReadRest(next, item[1..]);
    var whole := FieldsOf(item, NO_FIELDS);
    assert WithLast(files + [NO_FIELDS[item[0].0 := item[0].1]], whole) == files + [whole];
    assert PrintItem(item)[0] == PrintPair("  - ", item[0].0, item[0].1) && PrintItem(item)[1..] == PrintRest(item[1..]);
  }

  predicate AreItems(items: seq<Pairs>) {
    forall i :: 0 <= i < |items| ==> items[i] != [] && AreWritable(items[i])
  }

  /** The state after several items. */
  function WithItems(st: State, items: seq<Pairs>): State
    requires IsOpen(st)
  {
    State(st.meta.(files := Some(st.meta.files.value + ItemsOf(items))), true, st.hasItem || items != [])
  }

  lemma ItemThenItems(st: State, items: seq<Pairs>)
    requires IsOpen(st) && items != []
    ensures WithItems(WithItem(st, FieldsOf(items[0], NO_FIELDS)), items[1..]) == WithItems(st, items)
  {
    var files := st.meta.files.value;
    assert files + [FieldsOf(items[0], NO_FIELDS)] + ItemsOf(items[1..]) == files + ItemsOf(items);
  }

  lemma {:induction false} ReadItems(st: State, items: seq<Pairs>)
    requires AreItems(items) && IsOpen(st)
    ensures ReadLines(st, PrintItems(items)) == Some(WithItems(st, items))
    decreases items
  {
    if items == [] {
      assert st.meta.files.value + ItemsOf(items) == st.meta.files.value;
    } else {
      ReadItem(st, items[0]);
      ReadItems(WithItem(st, FieldsOf(items[0], NO_FIELDS)), items[1..]);
      ReadAppend(st, PrintItem(items[0]), PrintItems(items[1..]));
      ItemThenItems(st, items);
    }
  }

  lemma ReadEntry(st: State, e: Entry)
    requires IsWritable(e)
    ensures ReadLines(st, PrintEntry(e)).Some?
    ensures ReadLines(st, PrintEntry(e)).value.meta == MetaOf([e], st.meta)
  {
    match e
    case Field(key, value) =>
      FieldLine(st, key, value);
      assert PrintEntry(e)[1..] == [] && [e][1..] == [];
    case FileList(items) =>
      var next := State(st.meta.(files := Some([])), true, false);
      FilesLine(st);
      ReadItems(next, items);
      assert PrintEntry(e)[0] == "files:" && PrintEntry(e)[1..] == PrintItems(items) && [e][1..] == [];
      assert [] + ItemsOf(items) == ItemsOf(items);
  }

  lemma {:induction false} ReadDocument(st: State, doc: seq<Entry>)
    requires forall i :: 0 <= i < |doc| ==> IsWritable(doc[i])
    ensures ReadLines(st, PrintLines(doc)).Some?
    ensures ReadLines(st, PrintLines(doc)).value.meta == MetaOf(doc, st.meta)
    decreases doc
  {
    if doc != [] {
      ReadEntry(st, doc[0]);
      var next := ReadLines(st, PrintEntry(doc[0])).value;
      ReadDocument(next, doc[1..]);
      ReadAppend(st, PrintEntry(doc[0]), PrintLines(doc[1..]));
      assert [doc[0]][1..] == [];
    }
  }

  lemma PairHasNoBreak(indent: string, key: string, value: Scalar)
    requires IsKey(key) && IsPrintable(value) && NoLineBreak(indent)
    ensures NoLineBreak(PrintPair(indent, key, value))
  {
    PrintedScalar(value);
  }

  lemma {:induction false} RestHasNoBreak(item: Pairs)
    requires AreWritable(item)
    ensures OneLineEach(PrintRest(item))
  {
    if item != [] {
      PairHasNoBreak("    ", item[0].0, item[0].1);
      RestHasNoBreak(item[1..]);
    }
  }

  lemma OneLineAppend(a: seq<string>, b: seq<string>)
    requires OneLineEach(a) && OneLineEach(b)
    ensures OneLineEach(a + b)
  {
  }

  lemma {:induction false} ItemsHaveNoBreak(items: seq<Pairs>)
    requires AreItems(items)
    ensures OneLineEach(PrintItems(items))
  {
    if items != [] {
      var item := items[0];
      PairHasNoBreak("  - ", item[0].0, item[0].1);
      RestHasNoBreak(item[1..]);
      OneLineAppend([PrintPair("  - ", item[0].0, item[0].1)], PrintRest(item[1..]));
      ItemsHaveNoBreak(items[1..]);
      OneLineAppend(PrintItem(item), PrintItems(items[1..]));
    }
  }

  lemma EntryHasNoBreak(e: Entry)
    requires IsWritable(e)
    ensures OneLineEach(PrintEntry(e))
  {
    match e
    case Field(key, value) => PairHasNoBreak("", key, value);
    case FileList(items) =>
      ItemsHaveNoBreak(items);
      OneLineAppend(["files:"], PrintItems(items));
  }

  lemma {:induction false} LinesHaveNoBreak(doc: seq<Entry>)
    requires forall i :: 0 <= i < |doc| ==> IsWritable(doc[i])
    ensures OneLineEach(PrintLines(doc))
  {
    if doc != [] {
      EntryHasNoBreak(doc[0]);
      LinesHaveNoBreak(doc[1..]);
      OneLineAppend(PrintEntry(doc[0]), PrintLines(doc[1..]));
    }
  }

  /** A printed document, whatever its entries, is read back as the record it stands for, and accepted
      exactly when that record is valid. */
  lemma PrintedDocumentIsRead(doc: seq<Entry>, isVersion: string -> bool, isDigest: string -> bool)
    requires forall i :: 0 <= i < |doc| ==> IsWritable(doc[i])
    ensures var meta := MetaOf(doc, EMPTY.meta);
            Parsed(Unlines(PrintLines(doc)), isVersion, isDigest)
            == if IsValid(meta, isVersion, isDigest) then Some(meta) else None
  {
    LinesHaveNoBreak(doc);
    SplitLinesUnlines(PrintLines(doc));
    ReadDocument(EMPTY, doc);
  }

  // ---------------------------------------------------------------- what is ignored, and what is valid

  lemma {:induction false} ReadLinesAppend(st: State, a: seq<string>, b: seq<string>)
    ensures ReadLines(st, a + b) == match ReadLines(st, a) case None => None case Some(next) => ReadLines(next, b)
    decreases a
  {
    if a == [] {
      assert a + b == b;
    } else {
      assert (a + b)[1..] == a[1..] + b;
      match ReadLine(st, a[0])
      case None =>
      case Some(next) => ReadLinesAppend(next, a[1..], b);
    }
  }

  /** A line of blanks only, or one whose first other character is `#`, says nothing, wherever it stands. */
  lemma CommentsSayNothing(st: State, a: seq<string>, line: string, n: nat, b: seq<string>)
    requires n <= |line| && (forall i :: 0 <= i < n ==> IsSpace(line[i])) && (n < |line| ==> line[n] == '#')
    ensures ReadLines(st, a + [line] + b) == ReadLines(st, a + b)
  {
    LStripPad(line[..n], line[n..]);
    assert line == line[..n] + line[n..];
    if n == |line| {
      assert LStrip(line) == "" && Strip(line) == "";
    } else {
      assert LStrip(line)[0] == '#';
    }
    assert IsIgnored(line);
    ReadLinesAppend(st, a + [line], b);
    ReadLinesAppend(st, a, [line]);
    ReadLinesAppend(st, a, b);
    assert forall next: State :: ReadLines(next, [line]) == Some(next) by {
      assert [line][1..] == [];
    }
  }

  /** Both kinds of quotes are taken off, also around nothing, but only in pairs. */
  lemma QuotesComeOff(s: string)
    ensures Unquote("'" + s + "'") == s && Unquote("\"" + s + "\"") == s
    ensures Unquote("'" + s + "\"") == "'" + s + "\"" && Unquote("'") == "'"
  {
    assert ("'" + s + "'")[1..|s| + 1] == s && ("\"" + s + "\"")[1..|s| + 1] == s;
    assert ("'" + s + "'")[|s| + 1] == '\'' && ("\"" + s + "\"")[|s| + 1] == '"' && ("'" + s + "\"")[|s| + 1] == '"';
  }

  /** The text of a field that is printed as a text, and not blank. */
  predicate HasField(fields: Fields, key: string) {
    key in fields && fields[key].Str? && exists i :: 0 <= i < |fields[key].text| && !IsSpace(fields[key].text[i])
  }

  lemma {:induction false} StripIsEmpty(s: string)
    ensures Strip(s) == "" <==> forall i :: 0 <= i < |s| ==> IsSpace(s[i])
    decreases |s|
  {
    if s != "" {
      if IsSpace(s[0]) {
        StripIsEmpty(s[1..]);
        if forall i :: 0 <= i < |s[1..]| ==> IsSpace(s[1..][i]) {
          forall i | 0 <= i < |s| ensures IsSpace(s[i]) {
            assert i > 0 ==> s[i] == s[1..][i - 1];
          }
        }
      } else {
        RStripKeepsStart(s, 1);
      }
    }
  }

  /** A record is valid when version and digest pass their checks, there is a path, and there are files,
      each with a url and a digest that passes. */
  lemma ValidIs(fields: Fields, files: seq<Fields>, isVersion: string -> bool, isDigest: string -> bool)
    ensures IsValid(Meta(fields, Some(files)), isVersion, isDigest)
       <==> && isVersion(TextOf(fields, "version")) && HasField(fields, "path") && isDigest(TextOf(fields, "sha512"))
            && files != []
            && forall i :: 0 <= i < |files| ==> HasField(files[i], "url") && isDigest(TextOf(files[i], "sha512"))
    ensures !IsValid(Meta(fields, None), isVersion, isDigest)
  {
    FieldIs(fields, "path");
    forall i | 0 <= i < |files| ensures HasText(files[i], "url") <==> HasField(files[i], "url") {
      FieldIs(files[i], "url");
    }
  }

  lemma FieldIs(fields: Fields, key: string)
    ensures HasText(fields, key) <==> HasField(fields, key)
  {
    if key in fields && fields[key].Str? {
      StripIsEmpty(fields[key].text);
    }
  }

  /** A pair needs a colon and something other than blanks before its first one. */
  lemma NoPair(s: string, n: nat)
    requires n <= |s| && ':' !in s[..n] && (n < |s| ==> s[n] == ':')
    ensures Pair(s) == None <==> n == |s| || forall i :: 0 <= i < n ==> IsSpace(s[i])
  {
    if n == |s| {
      assert s[..n] == s;
      NoColon(s);
    } else {
      assert s[..n] + ":" + s[n + 1..] == s;
      PartitionAt(s[..n], s[n + 1..]);
      StripIsEmpty(s[..n]);
    }
  }

  lemma {:induction false} NoColon(s: string)
    requires ':' !in s
    ensures Partition(s) == None
  {
    if s != "" {
      assert s[0] in s && forall c :: c in s[1..] ==> c in s;
      NoColon(s[1..]);
    }
  }

  /** An indented line is refused outside the file list, and inside it before the first item unless it
      begins one; `n` is where its first character stands. */
  lemma IndentedIsRefused(st: State, line: string, n: nat)
    requires n < |line| && (forall i :: 0 <= i < n ==> IsSpace(line[i])) && !IsSpace(line[n]) && line[n] != '#'
    requires line[0] == ' ' || line[0] == '\t'
    requires !st.inFiles || (!st.hasItem && !(n + 1 < |line| && line[n] == '-' && line[n + 1] == ' '))
    ensures ReadLine(st, line) == None
  {
    assert line[..n] + line[n..] == line;
    LStripPad(line[..n], line[n..]);
    assert LStrip(line) == line[n..];
    RStripKeepsStart(line[n..], 1);
  }

  /** A field as a text: its own, its digits, or the empty one when it is missing. */
  lemma FieldReads(fields: Fields, key: string, text: string, n: nat)
    ensures TextOf(fields[key := Str(text)], key) == text
    ensures TextOf(fields[key := Num(n)], key) == Decimal(n)
    ensures key !in fields ==> TextOf(fields, key) == ""
  {
  }
}
