// Lists and inline tables: the recursive part of the printer of TOML values, and its reader.
module TomlNested {
  import opened TomlValues

  // -------------------------------------------------------------------------- printing

  function ShowString(text: string): string { ['"'] + EscapeValue(text) + ['"'] }

  function TomlValue(v: Value): string
    decreases v
  {
    match v
    case Str(text) => ShowString(text)
    case Bool(flag) => if flag then ['t', 'r', 'u', 'e'] else ['f', 'a', 'l', 's', 'e']
    case Int(number) => ShowInt(number)
    case List(items) => ['['] + ShowItems(items) + [']']
    case Table(entries) => ['{', ' '] + ShowPairs(entries) + [' ', '}']
  }

  // ", ".join over the items.
  function ShowItems(items: seq<Value>): string
    decreases items
  {
    if |items| == 0 then ""
    else if |items| == 1 then TomlValue(items[0])
    else TomlValue(items[0]) + ([',', ' '] + ShowItems(items[1..]))
  }

  function ShowPairs(entries: seq<Entry>): string
    decreases entries
  {
    if |entries| == 0 then ""
    else if |entries| == 1 then ShowPair(entries[0])
    else ShowPair(entries[0]) + ([',', ' '] + ShowPairs(entries[1..]))
  }

  function ShowPair(e: Entry): string
    decreases e
  {
    TomlKey(e.key) + ([' ', '=', ' '] + TomlValue(e.value))
  }

  // --------------------------------------------------------------------------- meaning

  function Meaning(v: Value): Tree
    decreases v
  {
    match v
    case Str(text) => StrLeaf(text)
    case Bool(flag) => BoolLeaf(flag)
    case Int(number) => IntLeaf(number)
    case List(items) => Array(Meanings(items))
    case Table(entries) => Node(Children(entries))
  }

  function Meanings(items: seq<Value>): seq<Tree>
    decreases items
  {
    if |items| == 0 then [] else [Meaning(items[0])] + Meanings(items[1..])
  }

  function Children(entries: seq<Entry>): map<string, Tree>
    decreases entries
  {
    if |entries| == 0 then map[] else Children(entries[1..])[entries[0].key := Meaning(entries[0].value)]
  }

  // A value of Python: the keys of every dict in it are distinct.
  predicate IsDict(v: Value)
    decreases v
  {
    match v
    case List(items) => AreDicts(items)
    case Table(entries) => AreEntries(entries)
    case _ => true
  }

  predicate AreDicts(items: seq<Value>)
    decreases items
  {
    |items| > 0 ==> IsDict(items[0]) && AreDicts(items[1..])
  }

  predicate AreEntries(entries: seq<Entry>)
    decreases entries
  {
    |entries| > 0 ==>
      IsDict(entries[0].value) && entries[0].key !in Children(entries[1..]) && AreEntries(entries[1..])
  }

  // Clean of the control characters that the printer lets through.
  predicate Clean(v: Value)
    decreases v
  {
    match v
    case Str(text) => CleanText(text, false)
    case List(items) => AllClean(items)
    case Table(entries) => CleanEntries(entries)
    case _ => true
  }

  predicate AllClean(items: seq<Value>)
    decreases items
  {
    |items| > 0 ==> Clean(items[0]) && AllClean(items[1..])
  }

  predicate CleanEntries(entries: seq<Entry>)
    decreases entries
  {
    |entries| > 0 ==> CleanText(entries[0].key, true) && Clean(entries[0].value) && CleanEntries(entries[1..])
  }

  // --------------------------------------------------------------------------- reading

  function Skip(s: string): (r: string)
    ensures |r| <= |s|
  {
    if |s| > 0 && (s[0] == ' ' || s[0] == '\t') then Skip(s[1..]) else s
  }

  predicate StartsWith(s: string, c: char) { |s| > 0 && s[0] == c }

  function ReadValue(s: string): (p: Parsed<Tree>)
    ensures p.Ok? ==> |p.rest| < |s|
    decreases |s|, 0
  {
    if |s| == 0 then Bad
    else if s[0] == '"' then
      var p := ReadChars(s[1..]);
      if p.Ok? then Ok(StrLeaf(p.value), p.rest) else Bad
    else if s[0] == '[' then
      if StartsWith(Skip(s[1..]), ']') then Ok(Array([]), Skip(s[1..])[1..])
      else
        var p := ReadItems(Skip(s[1..]));
        if p.Ok? then Ok(Array(p.value), p.rest) else Bad
    else if s[0] == '{' then
      if StartsWith(Skip(s[1..]), '}') then Ok(Node(map[]), Skip(s[1..])[1..])
      else
        var p := ReadPairs(Skip(s[1..]));
        if p.Ok? then Ok(Node(p.value), p.rest) else Bad
    else if ['t', 'r', 'u', 'e'] <= s then Ok(BoolLeaf(true), s[4..])
    else if ['f', 'a', 'l', 's', 'e'] <= s then Ok(BoolLeaf(false), s[5..])
    else
      var p := ReadInt(s);
      if p.Ok? then Ok(IntLeaf(p.value), p.rest) else Bad
  }

  // The items of an array that is not empty, and its closing bracket.
  function ReadItems(s: string): (p: Parsed<seq<Tree>>)
    ensures p.Ok? ==> |p.rest| < |s|
    decreases |s|, 1
  {
    var first := ReadValue(s);
    if first.Bad? then Bad
    else
      var t := Skip(first.rest);
      if StartsWith(t, ']') then Ok([first.value], t[1..])
      else if StartsWith(t, ',') then
        var more := ReadItems(Skip(t[1..]));
        if more.Ok? then Ok([first.value] + more.value, more.rest) else Bad
      else Bad
  }

  // A key, an equals sign and a value.
  function ReadPair(s: string): (p: Parsed<(string, Tree)>)
    ensures p.Ok? ==> |p.rest| < |s|
    decreases |s|, 1
  {
    var key := ReadKey(s);
    if key.Bad? || !StartsWith(Skip(key.rest), '=') then Bad
    else
      var value := ReadValue(Skip(Skip(key.rest)[1..]));
      if value.Ok? then Ok((key.value, value.value), value.rest) else Bad
  }

  // The pairs of an inline table that is not empty, and its closing brace. No key twice.
  function ReadPairs(s: string): (p: Parsed<map<string, Tree>>)
    ensures p.Ok? ==> |p.rest| < |s|
    decreases |s|, 2
  {
    var first := ReadPair(s);
    if first.Bad? then Bad
    else
      var t := Skip(first.rest);
      if StartsWith(t, '}') then Ok(map[first.value.0 := first.value.1], t[1..])
      else if StartsWith(t, ',') then
        var more := ReadPairs(Skip(t[1..]));
        if more.Ok? && first.value.0 !in more.value
        then Ok(more.value[first.value.0 := first.value.1], more.rest)
        else Bad
      else Bad
  }

  // ------------------------------------------------------------------------ round trip

  predicate Ends(r: string) {
    |r| > 0 && (r[0] == '\n' || r[0] == ',' || r[0] == ']' || r[0] == ' ' || r[0] == '}')
  }

  predicate Solid(s: string) { |s| > 0 && s[0] != ' ' && s[0] != '\t' && s[0] != ']' && s[0] != '}' && s[0] != '\n' }

  lemma SkipNothing(s: string)
    ensures |s| > 0 && s[0] != ' ' && s[0] != '\t' ==> Skip(s) == s
    ensures Skip([' '] + s) == Skip(s)
  {
    assert ([' '] + s)[1..] == s;
  }

  lemma ValueIsSolid(v: Value, r: string)
    ensures Solid(TomlValue(v)) && Solid(TomlValue(v) + r)
  {
    hide EscapeValue, ShowItems, ShowPairs, Digits, Digit;
    if v.Int? {
      DigitsStart(if v.number < 0 then -v.number else v.number, r);
      IntIsSolid(v.number);
    }
  }

  lemma IntIsSolid(i: int)
    ensures Solid(ShowInt(i))
  {
  }

  lemma KeyIsSolid(key: string, r: string)
    ensures Solid(TomlKey(key)) && Solid(TomlKey(key) + r)
  {
    hide EscapeKey;
    if BareMatch(key) {
      assert BareChar(key[0]) by {
        if !Bare(key) {
          assert key[0] == key[..|key| - 1][0];
        }
      }
    }
  }

  lemma {:induction false} ItemsAreSolid(items: seq<Value>, r: string)
    requires |items| > 0
    ensures Solid(ShowItems(items) + r)
  {
    hide TomlValue, Solid;
    ValueIsSolid(items[0], r);
    if |items| > 1 {
      var more := ([',', ' '] + ShowItems(items[1..])) + r;
      assert ShowItems(items) + r == TomlValue(items[0]) + more;
      ValueIsSolid(items[0], more);
    }
  }

  lemma {:induction false} PairsAreSolid(entries: seq<Entry>, r: string)
    requires |entries| > 0
    ensures Solid(ShowPairs(entries) + r)
  {
    hide TomlKey, TomlValue, Solid;
    var e := entries[0];
    var value := [' ', '=', ' '] + TomlValue(e.value);
    KeyIsSolid(e.key, value + r);
    assert ShowPair(e) + r == TomlKey(e.key) + (value + r);
    if |entries| > 1 {
      var more := ([',', ' '] + ShowPairs(entries[1..])) + r;
      assert ShowPairs(entries) + r == TomlKey(e.key) + (value + more);
      KeyIsSolid(e.key, value + more);
    }
  }

  lemma StringRoundTrip(text: string, r: string)
    ensures ReadValue(ShowString(text) + r) == if CleanText(text, false) then Ok(StrLeaf(text), r) else Bad
  {
    hide EscapeValue, CleanText, ReadChars;
    var s := ShowString(text) + r;
    assert s[1..] == EscapeValue(text) + (['"'] + r);
    ChainIsOnePass(text);
    EscapedRoundTrip(text, false, r);
  }

  lemma BoolRoundTrip(flag: bool, r: string)
    ensures ReadValue(TomlValue(Bool(flag)) + r) == Ok(BoolLeaf(flag), r)
  {
    var s := TomlValue(Bool(flag)) + r;
    if flag {
      assert ['t', 'r', 'u', 'e'] <= s && s[4..] == r;
    } else {
      assert s[0] == 'f' && ['f', 'a', 'l', 's', 'e'] <= s && s[5..] == r;
    }
  }

  lemma NumberRoundTrip(i: int, r: string)
    requires Ends(r)
    ensures ReadValue(ShowInt(i) + r) == Ok(IntLeaf(i), r)
  {
    hide ShowInt, ReadInt;
    IntRoundTrip(i, r);
    assert (ShowInt(i) + r)[0] == ShowInt(i)[0];
  }

  lemma ReadArray(s: string)
    requires Solid(s)
    ensures ReadValue(['['] + s) == var p := ReadItems(s); if p.Ok? then Ok(Array(p.value), p.rest) else Bad
  {
    hide ReadItems;
    assert (['['] + s)[1..] == s;
    SkipNothing(s);
  }

  lemma ReadEmptyArray(r: string)
    ensures ReadValue(['['] + ([']'] + r)) == Ok(Array([]), r)
  {
    var s := ['['] + ([']'] + r);
    assert s[1..] == [']'] + r && ([']'] + r)[1..] == r;
    SkipNothing([']'] + r);
  }

  lemma ReadInline(s: string)
    requires Solid(s)
    ensures ReadValue(['{', ' '] + s) == var p := ReadPairs(s); if p.Ok? then Ok(Node(p.value), p.rest) else Bad
  {
    hide ReadPairs;
    assert (['{', ' '] + s)[1..] == [' '] + s;
    SkipNothing(s);
  }

  lemma ReadEmptyInline(r: string)
    ensures ReadValue(['{', ' '] + ([' ', '}'] + r)) == Ok(Node(map[]), r)
  {
    var s := ['{', ' '] + ([' ', '}'] + r);
    assert s[1..] == [' '] + ([' '] + (['}'] + r)) && (['}'] + r)[1..] == r;
    SkipNothing([' '] + (['}'] + r));
    SkipNothing(['}'] + r);
  }

  // What ReadItems does after an item.
  lemma {:induction false} ReadOneItem(s: string, r: string)
    ensures ReadValue(s).Bad? ==> ReadItems(s).Bad?
    ensures ReadValue(s).Ok? && ReadValue(s).rest == [']'] + r ==> ReadItems(s) == Ok([ReadValue(s).value], r)
    ensures ReadValue(s).Ok? && Solid(r) && ReadValue(s).rest == [',', ' '] + r ==>
              ReadItems(s) == var more := ReadItems(r);
                              if more.Ok? then Ok([ReadValue(s).value] + more.value, more.rest) else Bad
  {
    hide ReadValue;
    SkipNothing([']'] + r);
    SkipNothing([',', ' '] + r);
    SkipNothing(r);
    assert ([']'] + r)[1..] == r && ([',', ' '] + r)[1..] == [' '] + r;
  }

  lemma {:induction false} ReadOnePair(s: string, r: string)
    ensures ReadPair(s).Bad? ==> ReadPairs(s).Bad?
    ensures ReadPair(s).Ok? && ReadPair(s).rest == [' ', '}'] + r ==>
              ReadPairs(s) == Ok(map[ReadPair(s).value.0 := ReadPair(s).value.1], r)
    ensures ReadPair(s).Ok? && Solid(r) && ReadPair(s).rest == [',', ' '] + r ==>
              ReadPairs(s) == var more := ReadPairs(r);
                              if more.Ok? && ReadPair(s).value.0 !in more.value
                              then Ok(more.value[ReadPair(s).value.0 := ReadPair(s).value.1], more.rest)
                              else Bad
  {
    hide ReadPair;
    assert [' ', '}'] + r == [' '] + (['}'] + r) && (['}'] + r)[1..] == r;
    SkipNothing(['}'] + r);
    SkipNothing([',', ' '] + r);
    SkipNothing(r);
    assert ([',', ' '] + r)[1..] == [' '] + r;
  }

  // What ReadPair does after the key.
  lemma ReadPairAfterKey(s: string, r: string)
    ensures ReadKey(s).Bad? ==> ReadPair(s).Bad?
    ensures ReadKey(s).Ok? && |ReadKey(s).rest| > 0 && ReadKey(s).rest[0] == '\n' ==> ReadPair(s).Bad?
    ensures ReadKey(s).Ok? && Solid(r) && ReadKey(s).rest == [' ', '=', ' '] + r ==>
              ReadPair(s)
              == if ReadValue(r).Ok? then Ok((ReadKey(s).value, ReadValue(r).value), ReadValue(r).rest) else Bad
  {
    hide ReadKey, ReadValue;
    if ReadKey(s).Ok? {
      SkipNothing(ReadKey(s).rest);
    }
    assert [' ', '=', ' '] + r == [' '] + (['=', ' '] + r) && (['=', ' '] + r)[1..] == [' '] + r;
    SkipNothing(['=', ' '] + r);
    SkipNothing(r);
  }

  // A printed value is read back as what it means when it is clean, and not at all otherwise.
  lemma {:induction false} ValueRoundTrip(v: Value, r: string)
    requires IsDict(v) && Ends(r)
    ensures ReadValue(TomlValue(v) + r) == if Clean(v) then Ok(Meaning(v), r) else Bad
    decreases v, 0
  {
    hide ReadValue, ReadItems, ReadPairs, ShowString, ShowInt, ShowItems, ShowPairs, AllClean, CleanEntries;
    hide Solid, CleanText;
    match v {
      case Str(text) => StringRoundTrip(text, r);
      case Bool(flag) => BoolRoundTrip(flag, r);
      case Int(number) => NumberRoundTrip(number, r);
      case List(items) =>
        if |items| == 0 {
          EmptyListRoundTrip(r);
        } else {
          var s := ShowItems(items) + ([']'] + r);
          assert TomlValue(v) + r == ['['] + s;
          ItemsAreSolid(items, [']'] + r);
          ReadArray(s);
          ItemsRoundTrip(items, r);
        }
      case Table(entries) =>
        if |entries| == 0 {
          EmptyTableRoundTrip(r);
        } else {
          var s := ShowPairs(entries) + ([' ', '}'] + r);
          assert TomlValue(v) + r == ['{', ' '] + s;
          PairsAreSolid(entries, [' ', '}'] + r);
          ReadInline(s);
          PairsRoundTrip(entries, r);
        }
    }
  }

  lemma EmptyListRoundTrip(r: string)
    ensures ReadValue(TomlValue(List([])) + r) == Ok(Meaning(List([])), r) && Clean(List([]))
  {
    hide ReadValue;
    assert TomlValue(List([])) + r == ['['] + ([']'] + r);
    ReadEmptyArray(r);
  }

  lemma EmptyTableRoundTrip(r: string)
    ensures ReadValue(TomlValue(Table([])) + r) == Ok(Meaning(Table([])), r) && Clean(Table([]))
  {
    hide ReadValue;
    assert TomlValue(Table([])) + r == ['{', ' '] + ([' ', '}'] + r);
    ReadEmptyInline(r);
  }

  lemma {:induction false} ItemsRoundTrip(items: seq<Value>, r: string)
    requires |items| > 0 && AreDicts(items)
    ensures ReadItems(ShowItems(items) + ([']'] + r)) == if AllClean(items) then Ok(Meanings(items), r) else Bad
    decreases items, 1
  {
    hide ReadValue, ReadItems, TomlValue, Meaning, Clean, Solid;
    var s := ShowItems(items) + ([']'] + r);
    if |items| == 1 {
      ValueRoundTrip(items[0], [']'] + r);
      ReadOneItem(s, r);
      assert Meanings(items) == [Meaning(items[0])];
    } else {
      var more := ShowItems(items[1..]) + ([']'] + r);
      assert s == TomlValue(items[0]) + ([',', ' '] + more);
      ValueRoundTrip(items[0], [',', ' '] + more);
      ItemsAreSolid(items[1..], [']'] + r);
      ReadOneItem(s, more);
      ItemsRoundTrip(items[1..], r);
    }
  }

  lemma {:induction false} PairRoundTrip(e: Entry, r: string)
    requires IsDict(e.value) && Ends(r)
    ensures ReadPair(ShowPair(e) + r) ==
            if CleanText(e.key, true) && Clean(e.value) then Ok((e.key, Meaning(e.value)), r) else Bad
    decreases e, 1
  {
    hide ReadValue, ReadPair, ReadKey, TomlValue, TomlKey, Meaning, Clean, CleanText, Solid;
    var s, value := ShowPair(e) + r, TomlValue(e.value) + r;
    assert s == TomlKey(e.key) + ([' ', '=', ' '] + value);
    KeyRoundTrip(e.key, [' ', '=', ' '] + value);
    ValueIsSolid(e.value, r);
    ReadPairAfterKey(s, value);
    ValueRoundTrip(e.value, r);
  }

  lemma {:induction false} PairsRoundTrip(entries: seq<Entry>, r: string)
    requires |entries| > 0 && AreEntries(entries)
    ensures ReadPairs(ShowPairs(entries) + ([' ', '}'] + r))
            == if CleanEntries(entries) then Ok(Children(entries), r) else Bad
    decreases entries, 2
  {
    hide ReadPair, ReadPairs, ShowPair, Meaning, Clean, CleanText, Solid;
    var s := ShowPairs(entries) + ([' ', '}'] + r);
    if |entries| == 1 {
      PairRoundTrip(entries[0], [' ', '}'] + r);
      ReadOnePair(s, r);
    } else {
      var more := ShowPairs(entries[1..]) + ([' ', '}'] + r);
      assert s == ShowPair(entries[0]) + ([',', ' '] + more);
      PairRoundTrip(entries[0], [',', ' '] + more);
      PairsAreSolid(entries[1..], [' ', '}'] + r);
      ReadOnePair(s, more);
      PairsRoundTrip(entries[1..], r);
    }
  }
}
