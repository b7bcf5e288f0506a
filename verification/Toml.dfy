// TOML documents: the text that dump_toml prints, and reading it back.
module Toml {
  import opened TomlValues
  import opened TomlNested
  import opened TomlTables
  import opened PythonText
  import opened Wrappers

  // -------------------------------------------------------------------------- printing

  // ".".join over the quoted or bare keys.
  function Dotted(path: seq<string>): string
    decreases |path|
  {
    if |path| == 0 then ""
    else if |path| == 1 then TomlKey(path[0])
    else TomlKey(path[0]) + (['.'] + Dotted(path[1..]))
  }

  function Line(item: Item): string {
    match item
    case Blank => ""
    case Header(path) => ['['] + Dotted(path) + [']']
    case KeyVal(entry) => ShowPair(entry)
  }

  function Lines(items: seq<Item>): seq<string>
    decreases |items|
  {
    if |items| == 0 then [] else [Line(items[0])] + Lines(items[1..])
  }

  // "\n".join over the lines.
  function Joined(lines: seq<string>): string
    decreases |lines|
  {
    if |lines| == 0 then ""
    else if |lines| == 1 then lines[0]
    else lines[0] + (['\n'] + Joined(lines[1..]))
  }

  function Dump(data: seq<Entry>): string { Rstrip(Joined(Lines(TableItems(data, [])))) + ['\n'] }

  // -------------------------------------------------------------------------- reading

  datatype Stated = Opens(path: seq<string>) | Sets(key: string, value: Tree)

  // The keys of a header, and its closing bracket.
  function ReadPath(s: string): (p: Parsed<seq<string>>)
    ensures p.Ok? ==> |p.rest| < |s|
    decreases |s|
  {
    var key := ReadKey(s);
    if key.Bad? then Bad
    else if StartsWith(key.rest, ']') then Ok([key.value], key.rest[1..])
    else if StartsWith(key.rest, '.') then
      var more := ReadPath(key.rest[1..]);
      if more.Ok? then Ok([key.value] + more.value, more.rest) else Bad
    else Bad
  }

  function ReadLine(s: string): (p: Parsed<Stated>)
    ensures p.Ok? ==> |p.rest| < |s|
  {
    if StartsWith(s, '[') then
      var p := ReadPath(s[1..]);
      if p.Ok? then Ok(Opens(p.value), p.rest) else Bad
    else
      var p := ReadPair(s);
      if p.Ok? then Ok(Sets(p.value.0, p.value.1), p.rest) else Bad
  }

  function Take(d: Doc, stated: Stated): Option<Doc> {
    match stated
    case Opens(path) => Open(d, path)
    case Sets(key, value) => Set(d, key, value)
  }

  // Every line that is not empty states something, and nothing follows it on the line.
  function ReadDoc(s: string, d: Doc): Option<Doc>
    decreases |s|
  {
    if |s| == 0 then Some(d)
    else if s[0] == '\n' then ReadDoc(s[1..], d)
    else
      var p := ReadLine(s);
      if p.Bad? || !StartsWith(p.rest, '\n') || Take(d, p.value).None? then None
      else ReadDoc(p.rest[1..], Take(d, p.value).value)
  }

  function Read(s: string): Option<Branches> {
    var d := ReadDoc(s, EMPTY);
    if d.Some? then Some(d.value.root) else None
  }

  // ------------------------------------------------------------------ reading one line

  predicate CleanPath(path: seq<string>)
    decreases |path|
  {
    |path| > 0 ==> CleanText(path[0], true) && CleanPath(path[1..])
  }

  predicate CleanItem(item: Item) {
    match item
    case Blank => true
    case Header(path) => CleanPath(path)
    case KeyVal(entry) => CleanText(entry.key, true) && Clean(entry.value)
  }

  predicate Wellformed(item: Item) {
    match item
    case Blank => true
    case Header(path) => |path| > 0
    case KeyVal(entry) => IsDict(entry.value)
  }

  function StatedBy(item: Item): Stated
    requires !item.Blank?
  {
    match item
    case Header(path) => Opens(path)
    case KeyVal(entry) => Sets(entry.key, Meaning(entry.value))
  }

  lemma PathAfterKey(s: string, r: string)
    ensures ReadKey(s).Bad? ==> ReadPath(s).Bad?
    ensures ReadKey(s).Ok? && |ReadKey(s).rest| > 0 && ReadKey(s).rest[0] == '\n' ==> ReadPath(s).Bad?
    ensures ReadKey(s).Ok? && ReadKey(s).rest == [']'] + r ==> ReadPath(s) == Ok([ReadKey(s).value], r)
    ensures ReadKey(s).Ok? && ReadKey(s).rest == ['.'] + r ==>
              ReadPath(s) == var more := ReadPath(r);
                             if more.Ok? then Ok([ReadKey(s).value] + more.value, more.rest) else Bad
  {
    hide ReadKey;
    assert ([']'] + r)[1..] == r && (['.'] + r)[1..] == r;
  }

  lemma {:induction false} PathRoundTrip(path: seq<string>, r: string)
    requires |path| > 0
    ensures ReadPath(Dotted(path) + ([']'] + r)) == if CleanPath(path) then Ok(path, r) else Bad
    decreases |path|
  {
    hide ReadKey, ReadPath, TomlKey, CleanText;
    var s := Dotted(path) + ([']'] + r);
    if |path| == 1 {
      KeyRoundTrip(path[0], [']'] + r);
      PathAfterKey(s, r);
      assert path == [path[0]] && CleanPath(path[1..]);
    } else {
      var more := Dotted(path[1..]) + ([']'] + r);
      assert s == TomlKey(path[0]) + (['.'] + more);
      KeyRoundTrip(path[0], ['.'] + more);
      PathAfterKey(s, more);
      PathRoundTrip(path[1..], r);
      assert path == [path[0]] + path[1..];
    }
  }

  // A printed line is read back when it is clean, and not at all otherwise.
  lemma {:induction false} LineRoundTrip(item: Item, r: string)
    requires !item.Blank? && Wellformed(item) && StartsWith(r, '\n')
    ensures ReadLine(Line(item) + r) == if CleanItem(item) then Ok(StatedBy(item), r) else Bad
    ensures |Line(item)| > 0 && Line(item)[0] != '\n'
  {
    hide ReadPath, ReadPair, Dotted, ShowPair, CleanPath, CleanText, Clean;
    var s := Line(item) + r;
    match item {
      case Header(path) =>
        assert s[1..] == Dotted(path) + ([']'] + r);
        PathRoundTrip(path, r);
      case KeyVal(entry) =>
        PairIsSolid(entry, r);
        PairRoundTrip(entry, r);
    }
  }

  // The line of a pair does not look like a header or an empty line.
  lemma PairIsSolid(e: Entry, r: string)
    ensures |ShowPair(e)| > 0 && (ShowPair(e) + r)[0] == ShowPair(e)[0] != '[' && ShowPair(e)[0] != '\n'
  {
    hide TomlValue, EscapeKey;
    var value := [' ', '=', ' '] + TomlValue(e.value);
    KeyIsSolid(e.key, value + r);
    assert BareMatch(e.key) ==> BareChar(e.key[0]) by {
      if BareMatch(e.key) && !Bare(e.key) {
        assert e.key[0] == e.key[..|e.key| - 1][0];
      }
    }
  }

  // ----------------------------------------------------------------- reading all lines

  function Text(items: seq<Item>): string
    decreases |items|
  {
    if |items| == 0 then "" else Line(items[0]) + (['\n'] + Text(items[1..]))
  }

  predicate AllCleanItems(items: seq<Item>)
    decreases |items|
  {
    |items| > 0 ==> CleanItem(items[0]) && AllCleanItems(items[1..])
  }

  predicate AllWellformed(items: seq<Item>)
    decreases |items|
  {
    |items| > 0 ==> Wellformed(items[0]) && AllWellformed(items[1..])
  }

  lemma ReadEmptyLine(s: string, d: Doc)
    ensures ReadDoc(['\n'] + s, d) == ReadDoc(s, d)
    ensures ReadDoc("", d) == Some(d)
  {
    assert (['\n'] + s)[1..] == s;
  }

  lemma {:induction false} ReadStatedLine(item: Item, s: string, d: Doc)
    requires !item.Blank? && Wellformed(item)
    ensures ReadDoc(Line(item) + (['\n'] + s), d) ==
            if CleanItem(item) && Build(d, item).Some? then ReadDoc(s, Build(d, item).value) else None
  {
    hide ReadLine, Line, CleanItem, Open, Set;
    var r := ['\n'] + s;
    LineRoundTrip(item, r);
    assert r[1..] == s && (Line(item) + r)[0] == Line(item)[0];
  }

  // Reading the printed lines builds what they say if they are clean, and fails otherwise.
  lemma {:induction false} TextRoundTrip(items: seq<Item>, d: Doc)
    requires AllWellformed(items)
    ensures ReadDoc(Text(items), d) == if AllCleanItems(items) then BuildAll(d, items) else None
    decreases |items|
  {
    hide ReadDoc, Line, CleanItem, Wellformed, Build;
    if |items| == 0 {
      ReadEmptyLine("", d);
    } else {
      var item, rest := items[0], items[1..];
      if item.Blank? {
        ReadBlankLine(Text(rest), d);
        TextRoundTrip(rest, d);
      } else {
        ReadStatedLine(item, Text(rest), d);
        if Build(d, item).Some? {
          TextRoundTrip(rest, Build(d, item).value);
        }
      }
    }
  }

  lemma ReadBlankLine(s: string, d: Doc)
    ensures ReadDoc(Line(Blank) + (['\n'] + s), d) == ReadDoc(s, d)
    ensures CleanItem(Blank) && Build(d, Blank) == Some(d)
  {
    hide ReadDoc;
    assert Line(Blank) + (['\n'] + s) == ['\n'] + s;
    ReadEmptyLine(s, d);
  }

  // -------------------------------------------------------------- cleanliness, line by line

  lemma {:induction false} CleanConcat(a: seq<Item>, b: seq<Item>)
    ensures AllCleanItems(a + b) <==> AllCleanItems(a) && AllCleanItems(b)
    ensures AllWellformed(a + b) <==> AllWellformed(a) && AllWellformed(b)
    decreases |a|
  {
    hide CleanItem, Wellformed;
    if |a| == 0 {
      assert a + b == b;
    } else {
      assert (a + b)[1..] == a[1..] + b;
      CleanConcat(a[1..], b);
    }
  }

  lemma {:induction false} CleanSnoc(path: seq<string>, key: string)
    ensures CleanPath(path + [key]) <==> CleanPath(path) && CleanText(key, true)
    decreases |path|
  {
    hide CleanText;
    if |path| == 0 {
      assert path + [key] == [key] && CleanPath([key][1..]);
    } else {
      assert (path + [key])[1..] == path[1..] + [key];
      CleanSnoc(path[1..], key);
    }
  }

  predicate CleanScalars(entries: seq<Entry>) {
    |entries| > 0 ==>
      && (!entries[0].value.Table? ==> CleanText(entries[0].key, true) && Clean(entries[0].value))
      && CleanScalars(entries[1..])
  }

  predicate CleanTables(entries: seq<Entry>) {
    |entries| > 0 ==>
      && (entries[0].value.Table? ==> CleanText(entries[0].key, true) && Clean(entries[0].value))
      && CleanTables(entries[1..])
  }

  lemma {:induction false} CleanBothWays(entries: seq<Entry>)
    ensures CleanEntries(entries) <==> CleanScalars(entries) && CleanTables(entries)
    decreases |entries|
  {
    hide CleanText, Clean;
    if |entries| > 0 {
      CleanBothWays(entries[1..]);
    }
  }

  lemma {:induction false} KeyValsClean(entries: seq<Entry>)
    requires AreEntries(entries)
    ensures AllCleanItems(KeyVals(entries)) <==> CleanScalars(entries)
    ensures AllWellformed(KeyVals(entries))
    decreases |entries|
  {
    hide CleanText, Clean, IsDict;
    if |entries| > 0 {
      KeyValsClean(entries[1..]);
      assert !entries[0].value.Table? ==> KeyVals(entries)[1..] == KeyVals(entries[1..]);
    }
  }

  lemma HeaderClean(path: seq<string>)
    ensures AllCleanItems(HeaderOf(path)) <==> CleanPath(path)
    ensures AllWellformed(HeaderOf(path))
  {
    hide CleanText;
    assert |path| > 0 ==> HeaderOf(path)[1..] == [];
  }

  lemma BlankClean(b: bool)
    ensures var blanks := if b then [Blank] else []; AllCleanItems(blanks) && AllWellformed(blanks)
  {
    assert [Blank][1..] == [];
  }

  lemma {:induction false} TableClean(entries: seq<Entry>, path: seq<string>)
    requires AreEntries(entries)
    ensures AllCleanItems(TableItems(entries, path)) <==> CleanPath(path) && CleanEntries(entries)
    ensures AllWellformed(TableItems(entries, path))
    decreases entries, 1
  {
    hide AllCleanItems, AllWellformed, CleanPath, CleanEntries, CleanScalars, CleanTables, SubTables, KeyVals;
    hide HeaderOf, AreEntries;
    var blank := |KeyVals(entries)| > 0 && HasTable(entries);
    var blanks := if blank then [Blank] else [];
    HeaderClean(path);
    KeyValsClean(entries);
    BlankClean(blank);
    CleanBothWays(entries);
    CleanConcat(HeaderOf(path), KeyVals(entries));
    CleanConcat(HeaderOf(path) + KeyVals(entries), blanks);
    CleanConcat(HeaderOf(path) + KeyVals(entries) + blanks, SubTables(entries, path));
    if CleanPath(path) {
      SubTablesClean(entries, path);
    } else {
      SubTablesWellformed(entries, path);
    }
  }

  lemma {:induction false} SubTablesClean(entries: seq<Entry>, path: seq<string>)
    requires AreEntries(entries) && CleanPath(path)
    ensures AllCleanItems(SubTables(entries, path)) <==> CleanTables(entries)
    ensures AllWellformed(SubTables(entries, path))
    decreases entries, 0
  {
    hide AllCleanItems, AllWellformed, CleanPath, CleanText, TableItems;
    if |entries| == 0 {
      BlankClean(false);
    } else {
      var e, rest := entries[0], entries[1..];
      SubTablesClean(rest, path);
      if e.value.Table? {
        var blanks := if HasTable(rest) then [Blank] else [];
        CleanSnoc(path, e.key);
        TableClean(e.value.entries, path + [e.key]);
        BlankClean(HasTable(rest));
        CleanConcat(TableItems(e.value.entries, path + [e.key]), blanks);
        CleanConcat(TableItems(e.value.entries, path + [e.key]) + blanks, SubTables(rest, path));
      }
    }
  }

  lemma {:induction false} SubTablesWellformed(entries: seq<Entry>, path: seq<string>)
    requires AreEntries(entries)
    ensures AllWellformed(SubTables(entries, path))
    decreases entries, 0
  {
    hide AllCleanItems, AllWellformed, CleanPath, CleanText, TableItems;
    if |entries| == 0 {
      BlankClean(false);
    } else {
      var e, rest := entries[0], entries[1..];
      SubTablesWellformed(rest, path);
      if e.value.Table? {
        var blanks := if HasTable(rest) then [Blank] else [];
        TableClean(e.value.entries, path + [e.key]);
        BlankClean(HasTable(rest));
        CleanConcat(TableItems(e.value.entries, path + [e.key]), blanks);
        CleanConcat(TableItems(e.value.entries, path + [e.key]) + blanks, SubTables(rest, path));
      }
    }
  }

  // ------------------------------------------------------------ the text as it is printed

  predicate EndsSolid(s: string) { |s| > 0 && !Space(s[|s| - 1]) }

  lemma ValueEndsSolid(v: Value)
    ensures EndsSolid(TomlValue(v))
  {
    hide EscapeValue, ShowItems, ShowPairs, ShowInt;
    if v.Int? {
      IntEndsSolid(v.number);
    }
  }

  lemma IntEndsSolid(i: int)
    ensures EndsSolid(ShowInt(i))
  {
  }

  lemma LineEndsSolid(item: Item)
    requires !item.Blank?
    ensures EndsSolid(Line(item))
  {
    hide TomlValue, TomlKey, Dotted, EndsSolid;
    match item {
      case Header(path) => BracketEndsSolid(['['] + Dotted(path));
      case KeyVal(entry) =>
        ValueEndsSolid(entry.value);
        EndsLikeItsEnd(TomlKey(entry.key) + [' ', '=', ' '], TomlValue(entry.value));
        assert Line(item) == (TomlKey(entry.key) + [' ', '=', ' ']) + TomlValue(entry.value);
    }
  }

  lemma BracketEndsSolid(s: string)
    ensures EndsSolid(s + [']'])
  {
  }

  lemma EndsLikeItsEnd(a: string, b: string)
    requires EndsSolid(b)
    ensures EndsSolid(a + b)
  {
    hide Space;
  }

  predicate LastIsBlank(items: seq<Item>) { |items| > 0 && items[|items| - 1].Blank? }

  lemma OneLine(item: Item)
    requires !item.Blank?
    ensures EndsSolid(Joined(Lines([item])))
    ensures Joined(Lines([item])) + ['\n'] == Text([item])
  {
    hide Line, EndsSolid;
    LineEndsSolid(item);
    assert [item][1..] == [];
    assert Lines([item]) == [Line(item)];
    assert Text([]) == [];
    assert Line(item) + (['\n'] + []) == Line(item) + ['\n'];
  }

  lemma {:induction false} JoinedIsText(items: seq<Item>)
    requires |items| > 0 && !LastIsBlank(items)
    ensures EndsSolid(Joined(Lines(items)))
    ensures Joined(Lines(items)) + ['\n'] == Text(items)
    decreases |items|
  {
    hide Line, EndsSolid;
    var rest := items[1..];
    if |rest| == 0 {
      OneLine(items[0]);
      assert items == [items[0]];
    } else {
      JoinedIsText(rest);
      var lines := Lines(items);
      assert lines[1..] == Lines(rest) && |Lines(rest)| > 0;
      EndsLikeItsEnd(lines[0] + ['\n'], Joined(lines[1..]));
      assert Joined(lines) == (lines[0] + ['\n']) + Joined(lines[1..]);
      assert Joined(lines) + ['\n'] == lines[0] + (['\n'] + (Joined(lines[1..]) + ['\n']));
    }
  }

  lemma {:induction false} NoBlankAtTheEnd(entries: seq<Entry>, path: seq<string>)
    ensures !LastIsBlank(TableItems(entries, path))
    ensures |path| > 0 || |entries| > 0 ==> |TableItems(entries, path)| > 0
    decreases entries, 1
  {
    NoBlankAfterKeyVals(entries);
    NoBlankAfterTables(entries, path);
  }

  lemma {:induction false} NoBlankAfterKeyVals(entries: seq<Entry>)
    ensures !LastIsBlank(KeyVals(entries))
    ensures |entries| > 0 && !HasTable(entries) ==> |KeyVals(entries)| > 0
    decreases |entries|
  {
    if |entries| > 0 {
      NoBlankAfterKeyVals(entries[1..]);
    }
  }

  lemma {:induction false} NoBlankAfterTables(entries: seq<Entry>, path: seq<string>)
    ensures !LastIsBlank(SubTables(entries, path))
    ensures |SubTables(entries, path)| > 0 <==> HasTable(entries)
    decreases entries, 0
  {
    hide TableItems;
    if |entries| > 0 {
      NoBlankAfterTables(entries[1..], path);
      if entries[0].value.Table? {
        NoBlankAtTheEnd(entries[0].value.entries, path + [entries[0].key]);
      }
    }
  }

  // rstrip has nothing to strip.
  lemma {:induction false} DumpIsText(data: seq<Entry>)
    ensures |data| > 0 ==> Dump(data) == Text(TableItems(data, []))
    ensures |data| == 0 ==> Dump(data) == ['\n']
  {
    hide TableItems, Text, Space;
    NoBlankAtTheEnd(data, []);
    if |data| > 0 {
      JoinedIsText(TableItems(data, []));
    } else {
      assert TableItems(data, []) == [] by { EmptyTable(); }
    }
  }

  lemma EmptyTable()
    ensures TableItems([], []) == []
  {
  }

  // ------------------------------------------------------------------ what it looks like

  lemma EscapesLookLike()
    ensures EscapeValue(['\\']) == "\\\\" && EscapeValue(['"']) == "\\\"" && EscapeValue(['\n']) == "\\n"
    ensures EscapeValue(['\t']) == "\\t" && EscapeValue(['\r']) == "\\r"
    ensures EscapeKey(['\\']) == "\\\\" && EscapeKey(['"']) == "\\\""
    ensures EscapeKey(['\n']) == "\n" && EscapeKey(['\t']) == "\t" && EscapeKey(['\r']) == "\r"
  {
    hide EscapeValue, EscapeKey;
    EscapeOne('\\');
    EscapeOne('"');
    EscapeOne('\n');
    EscapeOne('\t');
    EscapeOne('\r');
  }

  // What TOML does not allow outside of escapes: the controls but tab, and DEL.
  lemma CleanLooksLike(c: char, inKey: bool)
    ensures CleanChar(c, inKey) <==>
              || c as int == 9 || (c as int >= 32 && c as int != 127)
              || (!inKey && (c as int == 10 || c as int == 13))
  {
  }

  lemma BareLooksLike(c: char)
    ensures Digit(c) <==> 48 <= c as int <= 57
    ensures BareChar(c) <==>
              || 65 <= c as int <= 90 || 97 <= c as int <= 122 || 48 <= c as int <= 57
              || c == '_' || c == '-'
  {
  }

  lemma BoolsLookLike()
    ensures TomlValue(Bool(true)) == "true" && TomlValue(Bool(false)) == "false"
  {
  }

  lemma ListsLookLike(v: Value, w: Value)
    ensures TomlValue(List([v, w])) == "[" + TomlValue(v) + ", " + TomlValue(w) + "]"
    ensures TomlValue(List([])) == "[]"
  {
    hide ShowString, ShowInt, ShowPairs;
    assert [v, w][1..] == [w] && |[w]| == 1;
    assert ShowItems([w]) == TomlValue(w);
    assert ShowItems([v, w]) == TomlValue(v) + ([',', ' '] + TomlValue(w));
  }

  lemma IntsLookLike()
    ensures ShowInt(120) == "120" && ShowInt(-7) == "-7" && ShowInt(0) == "0"
  {
    assert Digits(1) == "1";
    assert Digits(12) == "12";
    assert Digits(120) == "120";
  }

  lemma InlineTablesLookLike(e: Entry, f: Entry)
    ensures TomlValue(Table([e, f]))
            == "{ " + TomlKey(e.key) + " = " + TomlValue(e.value) + ", "
               + TomlKey(f.key) + " = " + TomlValue(f.value) + " }"
  {
    hide TomlKey, ShowString, ShowInt, ShowItems;
    assert [e, f][1..] == [f] && |[f]| == 1;
    assert ShowPairs([f]) == ShowPair(f);
    assert ShowPairs([e, f]) == ShowPair(e) + ([',', ' '] + ShowPair(f));
  }

  lemma KeysLookLike()
    ensures TomlKey(['b', '-', '1']) == ['b', '-', '1'] && TomlKey(['b', ' ']) == ['"', 'b', ' ', '"']
  {
    hide EscapeKey, BareMatch;
    BareAndNot();
    PairIsEscaped();
  }

  lemma BareAndNot()
    ensures BareMatch(['b', '-', '1']) && !BareMatch(['b', ' '])
  {
    assert !BareChar(['b', ' '][1]);
  }

  lemma PairIsEscaped()
    ensures EscapeKey(['b', ' ']) == ['b', ' ']
  {
    hide EscapeKey;
    EscapeConcat(['b'], [' ']);
    assert ['b'] + [' '] == ['b', ' '];
    EscapeOne('b');
    EscapeOne(' ');
  }

  lemma HeadersLookLike(a: string, b: string)
    ensures Line(Header([a, b])) == "[" + TomlKey(a) + "." + TomlKey(b) + "]"
    ensures Joined([a, b]) == a + "\n" + b
  {
    hide TomlKey;
    assert [a, b][1..] == [b] && |[b]| == 1;
    assert Dotted([b]) == TomlKey(b) && Joined([b]) == b;
  }

  lemma NothingToShow(path: seq<string>)
    ensures SubTables([], path) == [] && KeyVals([]) == [] && !HasTable([])
  {
  }

  // Scalars first, then the tables, each under its header, with a blank line between.
  lemma TablesLookLike(k: Entry, b: Entry)
    requires !k.value.Table? && !b.value.Table?
    ensures TableItems([Entry("t", Table([b])), k], []) == [KeyVal(k), Blank, Header(["t"]), KeyVal(b)]
  {
    var t := Entry("t", Table([b]));
    assert [t, k][1..] == [k] && [k][1..] == [] && [b][1..] == [] && [t][1..] == [];
    assert [] + ["t"] == ["t"];
    NothingToShow(["t"]);
    NothingToShow([]);
    assert KeyVals([b]) == [KeyVal(b)] && !HasTable([b]) && !HasTable([k]);
    assert SubTables([b], ["t"]) == SubTables([b][1..], ["t"]);
    assert TableItems([b], ["t"]) == [Header(["t"]), KeyVal(b)];
    assert KeyVals([t, k]) == [KeyVal(k)];
    assert SubTables([k], []) == SubTables([k][1..], []);
  }

  // -------------------------------------------------------------------- the main results

  // Reading what was printed gives back the very same tables, exactly when no key holds a
  // control character other than tab and no string one other than tab, newline and CR. For
  // all other data the text is no TOML at all.
  lemma TomlRoundTrip(data: seq<Entry>)
    requires AreEntries(data)
    ensures Read(Dump(data)) == if CleanEntries(data) then Some(Children(data)) else None
  {
    hide ReadDoc, Dump, TableItems, Text, Children, AreEntries, BuildAll, CleanEntries;
    DumpIsText(data);
    var items := TableItems(data, []);
    if |data| == 0 {
      ReadEmptyLine("", EMPTY);
      assert ['\n'] + "" == ['\n'];
      EmptyIsClean();
    } else {
      TableClean(data, []);
      TextRoundTrip(items, EMPTY);
      TableBuilds(EMPTY, data, []);
    }
  }

  lemma EmptyIsClean()
    ensures CleanEntries([]) && Children([]) == map[]
  {
  }

  // A key that ends in a newline passes for a bare one.
  lemma {:induction false} NewlineKeyExample()
    ensures TomlKey(['a', '\n']) == ['a', '\n'] && Read(Dump([Entry(['a', '\n'], Bool(true))])) == None
  {
    hide Dump, Read;
    var key := ['a', '\n'];
    assert key[..1] == ['a'];
    NewlineIsUnclean(key);
    TomlRoundTrip([Entry(key, Bool(true))]);
  }

  // Every header is printed once, and after that of its parent.
  lemma HeadersOnceAndInOrder(data: seq<Entry>, j: nat, path: seq<string>) returns (i: nat)
    requires AreEntries(data) && HeaderAt(TableItems(data, []), j, path)
    ensures forall k: nat :: HeaderAt(TableItems(data, []), k, path) ==> k == j
    ensures |path| > 0
    ensures |path| > 1 ==> i < j && HeaderAt(TableItems(data, []), i, path[..|path| - 1])
  {
    hide TableItems, AreEntries, BuildAll, HeaderAt, Get, Children;
    var items := TableItems(data, []);
    TableBuilds(EMPTY, data, []);
    i := HeaderFindsParent(EMPTY, items, j, path);
    NothingOpen(path[..|path| - 1]);
    forall k: nat | HeaderAt(items, k, path) ensures k == j {
      HeaderOnce(EMPTY, items, j, k, path);
      HeaderOnce(EMPTY, items, k, j, path);
    }
  }

  // --------------------------------------------------------------------- the printer itself

  // The list of lines that all the calls append to.
  class LineList {
    var lines: seq<string>

    constructor ()
      ensures lines == []
    {
      lines := [];
    }

    method Append(line: string)
      modifies this
      ensures lines == old(lines) + [line]
    {
      lines := lines + [line];
    }
  }

  function Scalars(entries: seq<Entry>): seq<Entry> {
    if |entries| == 0 then []
    else if entries[0].value.Table? then Scalars(entries[1..])
    else [entries[0]] + Scalars(entries[1..])
  }

  function Tables(entries: seq<Entry>): (r: seq<Entry>)
    ensures forall e :: e in r ==> e.value.Table?
  {
    if |entries| == 0 then []
    else if entries[0].value.Table? then [entries[0]] + Tables(entries[1..])
    else Tables(entries[1..])
  }

  function Depth(entries: seq<Entry>): nat
    decreases entries
  {
    if |entries| == 0 then 0
    else
      var rest := Depth(entries[1..]);
      if entries[0].value.Table? && Depth(entries[0].value.entries) >= rest
      then Depth(entries[0].value.entries) + 1
      else rest
  }

  lemma {:induction false} ScalarsAre(data: seq<Entry>)
    ensures KeyVals(Scalars(data)) == KeyVals(data) && |KeyVals(data)| == |Scalars(data)|
    ensures forall e :: e in Scalars(data) ==> !e.value.Table?
    decreases |data|
  {
    if |data| > 0 {
      ScalarsAre(data[1..]);
      if !data[0].value.Table? {
        assert Scalars(data)[1..] == Scalars(data[1..]);
      }
    }
  }

  lemma {:induction false} TablesAre(data: seq<Entry>, path: seq<string>)
    ensures SubTables(Tables(data), path) == SubTables(data, path) && (HasTable(data) <==> |Tables(data)| > 0)
    decreases |data|
  {
    hide TableItems;
    if |data| > 0 {
      TablesAre(data[1..], path);
      if data[0].value.Table? {
        assert Tables(data)[1..] == Tables(data[1..]);
        TablesOnly(Tables(data[1..]));
      }
    }
  }

  lemma {:induction false} TablesAreShallower(data: seq<Entry>)
    ensures forall e :: e in Tables(data) ==> Depth(e.value.entries) < Depth(data)
    decreases |data|
  {
    if |data| > 0 {
      TablesAreShallower(data[1..]);
    }
  }

  lemma TablesOnly(tables: seq<Entry>)
    requires forall e :: e in tables ==> e.value.Table?
    ensures HasTable(tables) <==> |tables| > 0
  {
    assert |tables| > 0 ==> tables[0] in tables;
  }

  lemma {:induction false} LinesConcat(a: seq<Item>, b: seq<Item>)
    ensures Lines(a + b) == Lines(a) + Lines(b)
    decreases |a|
  {
    hide Line;
    if |a| == 0 {
      assert a + b == b;
    } else {
      assert (a + b)[1..] == a[1..] + b;
      LinesConcat(a[1..], b);
    }
  }

  lemma LinesOne(item: Item)
    ensures Lines([item]) == [Line(item)] && Lines([]) == []
  {
    hide Line;
    assert [item][1..] == [];
  }

  lemma {:induction false} TableLines(data: seq<Entry>, path: seq<string>)
    ensures Lines(TableItems(data, path)) ==
            (if |path| > 0 then [Line(Header(path))] else []) + Lines(KeyVals(data))
            + (if |Scalars(data)| > 0 && |Tables(data)| > 0 then [""] else []) + Lines(SubTables(data, path))
  {
    hide KeyVals, SubTables, Scalars, Tables, Lines, HasTable;
    ScalarsAre(data);
    TablesAre(data, path);
    var blanks := if |KeyVals(data)| > 0 && HasTable(data) then [Blank] else [];
    LinesConcat(HeaderOf(path), KeyVals(data));
    LinesConcat(HeaderOf(path) + KeyVals(data), blanks);
    LinesConcat(HeaderOf(path) + KeyVals(data) + blanks, SubTables(data, path));
    LinesOne(Blank);
    LinesOne(Header(path));
  }

  lemma KeyValLines(entries: seq<Entry>, i: nat)
    requires i < |entries| && !entries[i].value.Table?
    ensures Lines(KeyVals(entries[i..])) == [ShowPair(entries[i])] + Lines(KeyVals(entries[i + 1..]))
  {
    hide ShowPair;
    assert entries[i..][1..] == entries[i + 1..];
    LinesConcat([KeyVal(entries[i])], KeyVals(entries[i + 1..]));
    LinesOne(KeyVal(entries[i]));
  }

  lemma SubTableLines(tables: seq<Entry>, path: seq<string>, i: nat)
    requires i < |tables| && forall e :: e in tables ==> e.value.Table?
    ensures tables[i].value.Table?
    ensures Lines(SubTables(tables[i..], path)) ==
            Lines(TableItems(tables[i].value.entries, path + [tables[i].key]))
            + (if i < |tables| - 1 then [""] else []) + Lines(SubTables(tables[i + 1..], path))
  {
    hide TableItems, Lines;
    assert tables[i] in tables && tables[i..][1..] == tables[i + 1..];
    TablesOnly(tables[i + 1..]);
    var own := TableItems(tables[i].value.entries, path + [tables[i].key]);
    var blanks := if i < |tables| - 1 then [Blank] else [];
    LinesConcat(own, blanks);
    LinesConcat(own + blanks, SubTables(tables[i + 1..], path));
    LinesOne(Blank);
  }

  lemma NoMoreLines(path: seq<string>)
    ensures Lines(KeyVals([])) == [] && Lines(SubTables([], path)) == []
  {
  }

  method DumpTomlTable(lines: LineList, data: seq<Entry>, path: seq<string>)
    modifies lines
    ensures lines.lines == old(lines.lines) + Lines(TableItems(data, path))
    decreases Depth(data), |data| + 1
  {
    hide Lines, TableItems, KeyVals, SubTables, Scalars, Tables, Dotted, Depth;
    TableLines(data, path);
    ScalarsAre(data);
    TablesAre(data, path);
    TablesAreShallower(data);
    var scalarItems, tableItems := SplitItems(data);
    if |path| > 0 {
      lines.Append(['['] + Dotted(path) + [']']);
    }
    AppendScalars(lines, scalarItems);
    if |scalarItems| > 0 && |tableItems| > 0 {
      lines.Append("");
    }
    AppendTables(lines, tableItems, path, Depth(data));
  }

  method AppendScalars(lines: LineList, scalarItems: seq<Entry>)
    requires forall e :: e in scalarItems ==> !e.value.Table?
    modifies lines
    ensures lines.lines == old(lines.lines) + Lines(KeyVals(scalarItems))
  {
    hide Lines, KeyVals, ShowPair;
    NoMoreLines([]);
    ghost var l0 := lines.lines;
    assert scalarItems[0..] == scalarItems;
    for i := 0 to |scalarItems|
      invariant lines.lines + Lines(KeyVals(scalarItems[i..])) == l0 + Lines(KeyVals(scalarItems))
    {
      assert scalarItems[i] in scalarItems;
      KeyValLines(scalarItems, i);
      lines.Append(ShowPair(scalarItems[i]));
    }
    assert scalarItems[|scalarItems|..] == [];
  }

  method AppendTables(lines: LineList, tableItems: seq<Entry>, path: seq<string>, ghost depth: nat)
    requires forall e :: e in tableItems ==> e.value.Table? && Depth(e.value.entries) < depth
    modifies lines
    ensures lines.lines == old(lines.lines) + Lines(SubTables(tableItems, path))
    decreases depth, 0
  {
    hide Lines, TableItems, SubTables, Depth;
    NoMoreLines(path);
    ghost var l0 := lines.lines;
    assert tableItems[0..] == tableItems;
    for i := 0 to |tableItems|
      invariant lines.lines + Lines(SubTables(tableItems[i..], path)) == l0 + Lines(SubTables(tableItems, path))
    {
      assert tableItems[i] in tableItems;
      SubTableLines(tableItems, path, i);
      DumpTomlTable(lines, tableItems[i].value.entries, path + [tableItems[i].key]);
      if i != |tableItems| - 1 {
        lines.Append("");
      }
    }
    assert tableItems[|tableItems|..] == [];
  }

  method SplitItems(data: seq<Entry>) returns (scalarItems: seq<Entry>, tableItems: seq<Entry>)
    ensures scalarItems == Scalars(data) && tableItems == Tables(data)
  {
    hide Scalars, Tables;
    scalarItems, tableItems := [], [];
    assert data[0..] == data;
    for i := 0 to |data|
      invariant scalarItems + Scalars(data[i..]) == Scalars(data)
      invariant tableItems + Tables(data[i..]) == Tables(data)
    {
      SplitOne(data, i);
      if data[i].value.Table? {
        tableItems := tableItems + [data[i]];
      } else {
        scalarItems := scalarItems + [data[i]];
      }
    }
    assert data[|data|..] == [];
    SplitNone();
  }

  lemma SplitNone()
    ensures Scalars([]) == [] && Tables([]) == []
  {
  }

  lemma SplitOne(data: seq<Entry>, i: nat)
    requires i < |data|
    ensures Scalars(data[i..]) == (if data[i].value.Table? then [] else [data[i]]) + Scalars(data[i + 1..])
    ensures Tables(data[i..]) == (if data[i].value.Table? then [data[i]] else []) + Tables(data[i + 1..])
  {
    assert data[i..][1..] == data[i + 1..];
  }

  method DumpToml(data: seq<Entry>) returns (text: string)
    ensures text == Dump(data)
    ensures AreEntries(data) ==> Read(text) == if CleanEntries(data) then Some(Children(data)) else None
  {
    hide Lines, TableItems, Joined, Rstrip, Read, Children, CleanEntries, AreEntries;
    var lines := new LineList();
    DumpTomlTable(lines, data, []);
    assert lines.lines == Lines(TableItems(data, []));
    text := Rstrip(Joined(lines.lines)) + ['\n'];
    if AreEntries(data) {
      TomlRoundTrip(data);
    }
  }
}
