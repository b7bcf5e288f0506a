// The lines of a TOML document, table by table, and what they build up.
module TomlTables {
  import opened TomlValues
  import opened TomlNested
  import opened Wrappers

  datatype Item = Blank | Header(path: seq<string>) | KeyVal(entry: Entry)

  // ------------------------------------------------------------------------- printing

  function KeyVals(entries: seq<Entry>): seq<Item> {
    if |entries| == 0 then []
    else if entries[0].value.Table? then KeyVals(entries[1..])
    else [KeyVal(entries[0])] + KeyVals(entries[1..])
  }

  predicate HasTable(entries: seq<Entry>) {
    |entries| > 0 && (entries[0].value.Table? || HasTable(entries[1..]))
  }

  function HeaderOf(path: seq<string>): seq<Item> { if |path| > 0 then [Header(path)] else [] }

  // A table: its header, what is not a table, and then its tables, set off by blank lines.
  function TableItems(entries: seq<Entry>, path: seq<string>): seq<Item>
    decreases entries, 1
  {
    HeaderOf(path) + KeyVals(entries)
    + (if |KeyVals(entries)| > 0 && HasTable(entries) then [Blank] else [])
    + SubTables(entries, path)
  }

  function SubTables(entries: seq<Entry>, path: seq<string>): seq<Item>
    decreases entries, 0
  {
    if |entries| == 0 then []
    else if !entries[0].value.Table? then SubTables(entries[1..], path)
    else
      TableItems(entries[0].value.entries, path + [entries[0].key])
      + (if HasTable(entries[1..]) then [Blank] else [])
      + SubTables(entries[1..], path)
  }

  // ------------------------------------------------------------------- building it up

  type Branches = map<string, Tree>

  // The table at a path, if there is one.
  function Get(root: Branches, path: seq<string>): Option<Branches>
    decreases |path|
  {
    if |path| == 0 then Some(root)
    else if path[0] in root && root[path[0]].Node? then Get(root[path[0]].children, path[1..])
    else None
  }

  function Put(root: Branches, path: seq<string>, table: Branches): Branches
    decreases |path|
  {
    if |path| == 0 then table
    else
      var inner := if path[0] in root && root[path[0]].Node? then root[path[0]].children else map[];
      root[path[0] := Node(Put(inner, path[1..], table))]
  }

  // A document under construction, and the table that keys go to.
  datatype Doc = Doc(root: Branches, path: seq<string>)

  const EMPTY: Doc := Doc(map[], [])

  // A header opens a table that is not there yet inside one that is.
  function Open(d: Doc, path: seq<string>): Option<Doc> {
    if |path| == 0 then None
    else
      var parent, last := Get(d.root, path[..|path| - 1]), path[|path| - 1];
      if parent.Some? && last !in parent.value then Some(Doc(Put(d.root, path, map[]), path)) else None
  }

  // A key that is not there yet; its value is no table, for those get headers.
  function Set(d: Doc, key: string, value: Tree): Option<Doc> {
    var table := Get(d.root, d.path);
    if table.Some? && key !in table.value && !value.Node?
    then Some(Doc(Put(d.root, d.path, table.value[key := value]), d.path))
    else None
  }

  function Build(d: Doc, item: Item): Option<Doc> {
    match item
    case Blank => Some(d)
    case Header(path) => Open(d, path)
    case KeyVal(entry) => Set(d, entry.key, Meaning(entry.value))
  }

  function BuildAll(d: Doc, items: seq<Item>): Option<Doc>
    decreases |items|
  {
    if |items| == 0 then Some(d)
    else
      var next := Build(d, items[0]);
      if next.Some? then BuildAll(next.value, items[1..]) else None
  }

  lemma {:induction false} BuildConcat(d: Doc, a: seq<Item>, b: seq<Item>)
    ensures BuildAll(d, a + b) == var m := BuildAll(d, a); if m.Some? then BuildAll(m.value, b) else None
    decreases |a|
  {
    hide Build;
    if |a| == 0 {
      assert a + b == b;
    } else {
      assert (a + b)[1..] == a[1..] + b;
      if Build(d, a[0]).Some? {
        BuildConcat(Build(d, a[0]).value, a[1..], b);
      }
    }
  }

  lemma BuildOne(d: Doc, item: Item)
    ensures BuildAll(d, [item]) == Build(d, item)
  {
    hide Build;
    assert [item][1..] == [];
  }

  lemma {:induction false} GetPut(root: Branches, path: seq<string>, table: Branches)
    ensures Get(Put(root, path, table), path) == Some(table)
    decreases |path|
  {
    if |path| > 0 {
      var inner := if path[0] in root && root[path[0]].Node? then root[path[0]].children else map[];
      GetPut(inner, path[1..], table);
    }
  }

  lemma {:induction false} PutPut(root: Branches, path: seq<string>, a: Branches, b: Branches)
    ensures Put(Put(root, path, a), path, b) == Put(root, path, b)
    decreases |path|
  {
    if |path| > 0 {
      var inner := if path[0] in root && root[path[0]].Node? then root[path[0]].children else map[];
      PutPut(inner, path[1..], a, b);
    }
  }

  lemma {:induction false} PutDeep(root: Branches, path: seq<string>, a: Branches, k: string, b: Branches)
    ensures Put(Put(root, path, a), path + [k], b) == Put(root, path, a[k := Node(b)])
    decreases |path|
  {
    if |path| == 0 {
      assert path + [k] == [k] && [k][1..] == [];
    } else {
      var inner := if path[0] in root && root[path[0]].Node? then root[path[0]].children else map[];
      assert (path + [k])[1..] == path[1..] + [k];
      PutDeep(inner, path[1..], a, k, b);
    }
  }

  lemma {:induction false} PutSame(root: Branches, path: seq<string>)
    requires Get(root, path).Some?
    ensures Put(root, path, Get(root, path).value) == root
    decreases |path|
  {
    if |path| > 0 {
      PutSame(root[path[0]].children, path[1..]);
    }
  }

  // ------------------------------------------------------- what a table's lines build

  function ScalarKeys(entries: seq<Entry>): set<string> {
    if |entries| == 0 then {}
    else if entries[0].value.Table? then ScalarKeys(entries[1..])
    else {entries[0].key} + ScalarKeys(entries[1..])
  }

  function TableKeys(entries: seq<Entry>): set<string> {
    if |entries| == 0 then {}
    else if entries[0].value.Table? then {entries[0].key} + TableKeys(entries[1..])
    else TableKeys(entries[1..])
  }

  lemma {:induction false} KeysOf(entries: seq<Entry>)
    ensures Children(entries).Keys == ScalarKeys(entries) + TableKeys(entries)
    ensures AreEntries(entries) ==> ScalarKeys(entries) !! TableKeys(entries)
  {
    if |entries| > 0 {
      KeysOf(entries[1..]);
    }
  }

  function AddScalars(m: Branches, entries: seq<Entry>): (r: Branches)
    ensures r.Keys == m.Keys + ScalarKeys(entries)
    decreases |entries|
  {
    if |entries| == 0 then m
    else if entries[0].value.Table? then AddScalars(m, entries[1..])
    else AddScalars(m[entries[0].key := Meaning(entries[0].value)], entries[1..])
  }

  function AddTables(m: Branches, entries: seq<Entry>): Branches
    decreases |entries|
  {
    if |entries| == 0 then m
    else if entries[0].value.Table? then AddTables(m[entries[0].key := Meaning(entries[0].value)], entries[1..])
    else AddTables(m, entries[1..])
  }

  lemma {:induction false} AddScalarsApart(m: Branches, entries: seq<Entry>, k: string, t: Tree)
    requires k !in ScalarKeys(entries)
    ensures AddScalars(m, entries)[k := t] == AddScalars(m[k := t], entries)
    decreases |entries|
  {
    if |entries| > 0 {
      var e := entries[0];
      if e.value.Table? {
        AddScalarsApart(m, entries[1..], k, t);
      } else {
        AddScalarsApart(m[e.key := Meaning(e.value)], entries[1..], k, t);
        assert m[e.key := Meaning(e.value)][k := t] == m[k := t][e.key := Meaning(e.value)];
      }
    }
  }

  // Scalars first and tables after them come to the same as the order of the dict.
  lemma {:induction false} OrderDoesNotMatter(m: Branches, entries: seq<Entry>)
    requires AreEntries(entries)
    ensures AddTables(AddScalars(m, entries), entries) == m + Children(entries)
    decreases |entries|
  {
    if |entries| == 0 {
      assert m + map[] == m;
    } else {
      var e, rest := entries[0], entries[1..];
      var t := Meaning(e.value);
      KeysOf(rest);
      OrderDoesNotMatter(m[e.key := t], rest);
      assert m[e.key := t] + Children(rest) == m + Children(rest)[e.key := t];
      if e.value.Table? {
        AddScalarsApart(m, rest, e.key, t);
      }
    }
  }

  lemma {:induction false} KeyValsBuild(d: Doc, entries: seq<Entry>, m: Branches)
    requires AreEntries(entries) && Get(d.root, d.path) == Some(m) && ScalarKeys(entries) !! m.Keys
    ensures BuildAll(d, KeyVals(entries)) == Some(Doc(Put(d.root, d.path, AddScalars(m, entries)), d.path))
    decreases |entries|
  {
    hide Get, Put, Children;
    if |entries| == 0 {
      PutSame(d.root, d.path);
    } else {
      var e, rest := entries[0], entries[1..];
      if e.value.Table? {
        KeyValsBuild(d, rest, m);
      } else {
        var n := m[e.key := Meaning(e.value)];
        var next := Doc(Put(d.root, d.path, n), d.path);
        GetPut(d.root, d.path, n);
        NotAgain(entries);
        KeyValsBuild(next, rest, n);
        PutPut(d.root, d.path, n, AddScalars(n, rest));
        assert KeyVals(entries)[1..] == KeyVals(rest);
      }
    }
  }

  // The first key does not come again.
  lemma {:induction false} NotAgain(entries: seq<Entry>)
    requires |entries| > 0 && AreEntries(entries)
    ensures entries[0].key !in ScalarKeys(entries[1..]) && entries[0].key !in TableKeys(entries[1..])
    ensures AreEntries(entries[1..]) && IsDict(entries[0].value)
  {
    KeysOf(entries[1..]);
  }

  predicate Ready(d: Doc, path: seq<string>) {
    if |path| == 0 then d == EMPTY
    else
      var parent := Get(d.root, path[..|path| - 1]);
      parent.Some? && path[|path| - 1] !in parent.value
  }

  lemma HeaderBuilds(d: Doc, path: seq<string>)
    requires Ready(d, path)
    ensures BuildAll(d, HeaderOf(path)) == Some(Doc(Put(d.root, path, map[]), path))
  {
    hide Get;
    if |path| > 0 {
      BuildOne(d, Header(path));
    }
  }

  lemma BlankBuilds(d: Doc, b: bool)
    ensures BuildAll(d, if b then [Blank] else []) == Some(d)
  {
    BuildOne(d, Blank);
  }

  // The lines of a table build that table at its path and change nothing else.
  lemma {:induction false} TableBuilds(d: Doc, entries: seq<Entry>, path: seq<string>)
    requires AreEntries(entries) && Ready(d, path)
    ensures var r := BuildAll(d, TableItems(entries, path));
            r.Some? && r.value.root == Put(d.root, path, Children(entries))
    decreases entries, 1
  {
    hide Get, Put, Children, Ready, AreEntries, KeyVals, SubTables, BuildAll, AddScalars, AddTables;
    var d1 := Doc(Put(d.root, path, map[]), path);
    HeaderBuilds(d, path);
    GetPut(d.root, path, map[]);
    KeyValsBuild(d1, entries, map[]);
    var m := AddScalars(map[], entries);
    var d2 := Doc(Put(d1.root, path, m), path);
    PutPut(d.root, path, map[], m);
    GetPut(d.root, path, m);
    var blank := |KeyVals(entries)| > 0 && HasTable(entries);
    BlankBuilds(d2, blank);
    KeysOf(entries);
    SubTablesBuild(d2, entries, path, m);
    PutPut(d.root, path, m, AddTables(m, entries));
    OrderDoesNotMatter(map[], entries);
    assert map[] + Children(entries) == Children(entries);
    var blanks := if blank then [Blank] else [];
    BuildConcat(d, HeaderOf(path), KeyVals(entries));
    BuildConcat(d, HeaderOf(path) + KeyVals(entries), blanks);
    BuildConcat(d, HeaderOf(path) + KeyVals(entries) + blanks, SubTables(entries, path));
  }

  lemma {:induction false} SubTablesBuild(d: Doc, entries: seq<Entry>, path: seq<string>, m: Branches)
    requires AreEntries(entries) && Get(d.root, path) == Some(m) && TableKeys(entries) !! m.Keys
    ensures var r := BuildAll(d, SubTables(entries, path));
            r.Some? && r.value.root == Put(d.root, path, AddTables(m, entries))
    decreases entries, 0
  {
    hide Get, Put, Children, Ready, TableItems, BuildAll;
    PutSame(d.root, path);
    if |entries| == 0 {
      BlankBuilds(d, false);
    } else {
      var e, rest := entries[0], entries[1..];
      NotAgain(entries);
      if !e.value.Table? {
        SubTablesBuild(d, rest, path, m);
      } else {
        var own := path + [e.key];
        SubTableReady(d, path, m, e.key);
        TableBuilds(d, e.value.entries, own);
        var d1 := BuildAll(d, TableItems(e.value.entries, own)).value;
        var n := m[e.key := Meaning(e.value)];
        PutDeep(d.root, path, m, e.key, Children(e.value.entries));
        GetPut(d.root, path, n);
        BlankBuilds(d1, HasTable(rest));
        SubTablesBuild(d1, rest, path, n);
        PutPut(d.root, path, n, AddTables(n, rest));
        var blanks := if HasTable(rest) then [Blank] else [];
        BuildConcat(d, TableItems(e.value.entries, own), blanks);
        BuildConcat(d, TableItems(e.value.entries, own) + blanks, SubTables(rest, path));
      }
    }
  }

  lemma SubTableReady(d: Doc, path: seq<string>, m: Branches, key: string)
    requires Get(d.root, path) == Some(m) && key !in m
    ensures Ready(d, path + [key])
  {
    hide Get;
    assert (path + [key])[..|path + [key]| - 1] == path;
  }

  // ------------------------------------------------------------------ headers in order

  predicate HeaderAt(items: seq<Item>, i: nat, path: seq<string>) { i < |items| && items[i] == Header(path) }

  lemma NothingOpen(path: seq<string>)
    ensures Get(EMPTY.root, path).Some? <==> |path| == 0
  {
  }

  // Adding one key to a table opens at most the table of that key.
  lemma {:induction false} PutOneMore(root: Branches, q: seq<string>, k: string, v: Tree, p: seq<string>)
    requires Get(root, q).Some? && k !in Get(root, q).value && (v.Node? ==> v.children == map[])
    ensures Get(Put(root, q, Get(root, q).value[k := v]), p).Some? <==> Get(root, p).Some? || (v.Node? && p == q + [k])
    decreases |q|
  {
    if |q| == 0 {
      if |p| > 0 && p[0] == k {
        assert p == [k] + p[1..];
      }
    } else {
      assert (q + [k])[1..] == q[1..] + [k];
      if |p| > 0 && p[0] == q[0] {
        PutOneMore(root[q[0]].children, q[1..], k, v, p[1..]);
        assert p == [p[0]] + p[1..] && q + [k] == [q[0]] + (q[1..] + [k]);
      }
    }
  }

  lemma {:induction false} GetSnoc(root: Branches, q: seq<string>, k: string)
    ensures Get(root, q + [k]) ==
            if Get(root, q).Some? && k in Get(root, q).value && Get(root, q).value[k].Node?
            then Some(Get(root, q).value[k].children) else None
    decreases |q|
  {
    if |q| == 0 {
      assert q + [k] == [k] && [k][1..] == [];
    } else {
      assert (q + [k])[1..] == q[1..] + [k];
      if q[0] in root && root[q[0]].Node? {
        GetSnoc(root[q[0]].children, q[1..], k);
      }
    }
  }

  lemma {:induction false} OpenedBefore(d: Doc, path: seq<string>)
    requires Open(d, path).Some?
    ensures |path| > 0 && Get(d.root, path[..|path| - 1]).Some? && Get(d.root, path).None?
  {
    hide Get, Put;
    var front := path[..|path| - 1];
    assert path == front + [path[|path| - 1]];
    GetSnoc(d.root, front, path[|path| - 1]);
  }

  lemma BuildOpens(d: Doc, item: Item, p: seq<string>)
    requires Build(d, item).Some?
    ensures Get(Build(d, item).value.root, p).Some? <==> Get(d.root, p).Some? || item == Header(p)
  {
    hide Get, Put;
    match item {
      case Blank =>
      case Header(path) =>
        var front, last := path[..|path| - 1], path[|path| - 1];
        assert path == front + [last];
        PutSame(d.root, front);
        PutDeep(d.root, front, Get(d.root, front).value, last, map[]);
        PutOneMore(d.root, front, last, Node(map[]), p);
      case KeyVal(entry) =>
        PutOneMore(d.root, d.path, entry.key, Meaning(entry.value), p);
    }
  }

  lemma {:induction false} HeaderFindsParent(d: Doc, items: seq<Item>, j: nat, path: seq<string>) returns (i: nat)
    requires BuildAll(d, items).Some? && HeaderAt(items, j, path)
    ensures |path| > 0 && Get(d.root, path).None?
    ensures Get(d.root, path[..|path| - 1]).Some? || (i < j && HeaderAt(items, i, path[..|path| - 1]))
    decreases |items|
  {
    hide Get, Open, Set;
    i := 0;
    if j == 0 {
      OpenedBefore(d, path);
    } else {
      var next := Build(d, items[0]).value;
      i := HeaderFindsParent(next, items[1..], j - 1, path);
      BuildOpens(d, items[0], path);
      BuildOpens(d, items[0], path[..|path| - 1]);
      i := if items[0] == Header(path[..|path| - 1]) then 0 else i + 1;
    }
  }

  lemma {:induction false} HeaderOnce(d: Doc, items: seq<Item>, i: nat, j: nat, path: seq<string>)
    requires BuildAll(d, items).Some? && HeaderAt(items, i, path) && HeaderAt(items, j, path)
    ensures i >= j
    decreases |items|
  {
    hide Get, Open, Set;
    if i < j {
      var next := Build(d, items[0]).value;
      if i == 0 {
        BuildOpens(d, items[0], path);
        var _ := HeaderFindsParent(next, items[1..], j - 1, path);
      } else {
        HeaderOnce(next, items[1..], i - 1, j - 1, path);
      }
    }
  }
}
