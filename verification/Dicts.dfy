// Python dicts as ordered entries: assignment, removal, the deep merge, and paths into them.
module Dicts {
  import opened TomlValues
  import opened TomlNested
  import opened Wrappers

  type Dict = seq<Entry>

  function Get(d: Dict, key: string): Option<Value> {
    if |d| == 0 then None else if d[0].key == key then Some(d[0].value) else Get(d[1..], key)
  }

  // An assignment keeps the place of a key that is there and puts a new key at the end.
  function Set(d: Dict, key: string, value: Value): Dict {
    if |d| == 0 then [Entry(key, value)]
    else if d[0].key == key then [Entry(key, value)] + d[1..]
    else [d[0]] + Set(d[1..], key, value)
  }

  function Pop(d: Dict, key: string): Dict {
    if |d| == 0 then []
    else if d[0].key == key then Pop(d[1..], key)
    else [d[0]] + Pop(d[1..], key)
  }

  // -------------------------------------------------------------------- basic laws

  function MeaningOf(v: Option<Value>): Option<Tree> { if v.Some? then Some(Meaning(v.value)) else None }

  function Lookup(m: map<string, Tree>, key: string): Option<Tree> { if key in m then Some(m[key]) else None }

  lemma {:induction false} GetMeans(d: Dict, key: string)
    ensures Lookup(Children(d), key) == MeaningOf(Get(d, key))
    ensures AreEntries(d) && Get(d, key).Some? ==> IsDict(Get(d, key).value)
    ensures CleanEntries(d) && Get(d, key).Some? ==> Clean(Get(d, key).value) && CleanText(key, true)
    decreases |d|
  {
    hide Meaning, Clean, CleanText, IsDict;
    if |d| > 0 {
      GetMeans(d[1..], key);
    }
  }

  lemma {:induction false} SetMeans(d: Dict, key: string, value: Value)
    ensures Children(Set(d, key, value)) == Children(d)[key := Meaning(value)]
    ensures AreEntries(d) && IsDict(value) ==> AreEntries(Set(d, key, value))
    ensures CleanEntries(d) && Clean(value) && CleanText(key, true) ==> CleanEntries(Set(d, key, value))
    decreases |d|
  {
    hide Meaning, Clean, CleanText, IsDict;
    if |d| == 0 {
      assert [Entry(key, value)][1..] == [];
    } else {
      SetMeans(d[1..], key, value);
      if d[0].key == key {
        assert ([Entry(key, value)] + d[1..])[1..] == d[1..];
      } else {
        assert Set(d, key, value)[1..] == Set(d[1..], key, value);
      }
    }
  }

  lemma {:induction false} PopMeans(d: Dict, key: string)
    ensures Children(Pop(d, key)) == Children(d) - {key}
    ensures AreEntries(d) ==> AreEntries(Pop(d, key))
    ensures CleanEntries(d) ==> CleanEntries(Pop(d, key))
    decreases |d|
  {
    hide Meaning, Clean, CleanText, IsDict;
    if |d| > 0 {
      PopMeans(d[1..], key);
      if d[0].key != key {
        assert Pop(d, key)[1..] == Pop(d[1..], key);
      }
    }
  }

  lemma {:induction false} GetSet(d: Dict, key: string, value: Value, k: string)
    ensures Get(Set(d, key, value), k) == if k == key then Some(value) else Get(d, k)
    decreases |d|
  {
    if |d| == 0 {
      assert [Entry(key, value)][1..] == [];
    } else {
      GetSet(d[1..], key, value, k);
      if d[0].key == key {
        assert ([Entry(key, value)] + d[1..])[1..] == d[1..];
      } else {
        assert Set(d, key, value)[1..] == Set(d[1..], key, value);
      }
    }
  }

  lemma {:induction false} GetPop(d: Dict, key: string, k: string)
    ensures Get(Pop(d, key), k) == if k == key then None else Get(d, k)
    decreases |d|
  {
    if |d| > 0 {
      GetPop(d[1..], key, k);
      if d[0].key != key {
        assert Pop(d, key)[1..] == Pop(d[1..], key);
      }
    }
  }

  lemma HeadAndRest(d: Dict)
    requires |d| > 0
    ensures d == [d[0]] + d[1..] && d[0] == Entry(d[0].key, d[0].value)
  {
  }

  lemma {:induction false} SetSame(d: Dict, key: string)
    requires Get(d, key).Some?
    ensures Set(d, key, Get(d, key).value) == d
    decreases |d|
  {
    HeadAndRest(d);
    if d[0].key != key {
      assert Get(d, key) == Get(d[1..], key);
      SetSame(d[1..], key);
    }
  }

  lemma {:induction false} FirstKeyOnce(d: Dict, k: string)
    requires |d| > 0 && AreEntries(d)
    ensures Get(d[1..], d[0].key).None?
  {
    GetMeans(d[1..], d[0].key);
  }

  // ------------------------------------------------------------------- the deep merge

  // What one key of the updates does to the value that is there.
  function Merged(old_: Option<Value>, value: Value): Value
    decreases value, 0
  {
    if value.Table? && old_.Some? && old_.value.Table?
    then Table(DeepMerge(old_.value.entries, value.entries))
    else value
  }

  function DeepMerge(base: Dict, updates: Dict): Dict
    decreases updates, 1
  {
    if |updates| == 0 then base
    else
      var u := updates[0];
      DeepMerge(Set(base, u.key, Merged(Get(base, u.key), u.value)), updates[1..])
  }

  // The merge, key by key.
  lemma {:induction false} GetMerge(base: Dict, updates: Dict, k: string)
    requires AreEntries(updates)
    ensures Get(DeepMerge(base, updates), k) ==
            if Get(updates, k).Some? then Some(Merged(Get(base, k), Get(updates, k).value)) else Get(base, k)
    decreases |updates|
  {
    hide Merged;
    if |updates| > 0 {
      var u := updates[0];
      FirstKeyOnce(updates, k);
      GetMerge(Set(base, u.key, Merged(Get(base, u.key), u.value)), updates[1..], k);
      GetSet(base, u.key, Merged(Get(base, u.key), u.value), k);
    }
  }

  lemma {:induction false} MergeIsProper(base: Dict, updates: Dict)
    requires AreEntries(base) && AreEntries(updates)
    ensures AreEntries(DeepMerge(base, updates))
    decreases updates, 1
  {
    hide IsDict;
    if |updates| > 0 {
      var u := updates[0];
      MergedIsProper(base, u.key, u.value);
      SetMeans(base, u.key, Merged(Get(base, u.key), u.value));
      MergeIsProper(Set(base, u.key, Merged(Get(base, u.key), u.value)), updates[1..]);
    }
  }

  lemma {:induction false} MergedIsProper(base: Dict, key: string, value: Value)
    requires AreEntries(base) && IsDict(value)
    ensures IsDict(Merged(Get(base, key), value))
    decreases value, 0
  {
    GetMeans(base, key);
    var o := Get(base, key);
    if value.Table? && o.Some? && o.value.Table? {
      MergeIsProper(o.value.entries, value.entries);
    }
  }

  // ------------------------------------------------------------ the order of the keys

  function KeysOf(d: Dict): seq<string> { if |d| == 0 then [] else [d[0].key] + KeysOf(d[1..]) }

  // The keys that are there keep their places; new ones follow in order.
  function Appended(keys: seq<string>, more: seq<string>): seq<string>
    decreases |more|
  {
    if |more| == 0 then keys
    else Appended(if more[0] in keys then keys else keys + [more[0]], more[1..])
  }

  lemma {:induction false} SetKeepsOrder(d: Dict, key: string, value: Value)
    ensures KeysOf(Set(d, key, value)) == if key in KeysOf(d) then KeysOf(d) else KeysOf(d) + [key]
    decreases |d|
  {
    if |d| == 0 {
      assert [Entry(key, value)][1..] == [];
    } else {
      SetKeepsOrder(d[1..], key, value);
      if d[0].key == key {
        assert ([Entry(key, value)] + d[1..])[1..] == d[1..];
      } else {
        assert Set(d, key, value)[1..] == Set(d[1..], key, value);
      }
    }
  }

  lemma {:induction false} MergeKeepsOrder(base: Dict, updates: Dict)
    ensures KeysOf(DeepMerge(base, updates)) == Appended(KeysOf(base), KeysOf(updates))
    decreases |updates|
  {
    hide Merged, Set, Get;
    if |updates| > 0 {
      var u := updates[0];
      SetKeepsOrder(base, u.key, Merged(Get(base, u.key), u.value));
      MergeKeepsOrder(Set(base, u.key, Merged(Get(base, u.key), u.value)), updates[1..]);
      assert KeysOf(updates)[1..] == KeysOf(updates[1..]);
    }
  }

  // ------------------------------------------------------------- merging twice is merging once

  // d already says everything that b says.
  predicate Absorbs(d: Dict, b: Dict)
    decreases b
  {
    |b| > 0 ==>
      && Get(d, b[0].key).Some?
      && (if b[0].value.Table?
          then Get(d, b[0].key).value.Table? && Absorbs(Get(d, b[0].key).value.entries, b[0].value.entries)
          else Get(d, b[0].key).value == b[0].value)
      && Absorbs(d, b[1..])
  }

  lemma {:induction false} AbsorbedMerge(d: Dict, b: Dict)
    requires Absorbs(d, b)
    ensures DeepMerge(d, b) == d
    decreases b
  {
    if |b| > 0 {
      var v := Get(d, b[0].key).value;
      if b[0].value.Table? {
        AbsorbedMerge(v.entries, b[0].value.entries);
      }
      SetSame(d, b[0].key);
      AbsorbedMerge(d, b[1..]);
    }
  }

  // A dict absorbs b if key by key it holds what merging b there would leave.
  lemma {:induction false} MergeAbsorbs(d: Dict, base: Dict, b: Dict)
    requires AreEntries(b)
    requires forall k :: Get(b, k).Some? ==> Get(d, k) == Some(Merged(Get(base, k), Get(b, k).value))
    ensures Absorbs(d, b)
    decreases b
  {
    if |b| > 0 {
      var u := b[0];
      assert Get(b, u.key) == Some(u.value);
      var o := Get(base, u.key);
      if u.value.Table? {
        var inner := if o.Some? && o.value.Table? then o.value.entries else [];
        if o.Some? && o.value.Table? {
          forall k ensures Get(u.value.entries, k).Some? ==>
                             Get(DeepMerge(inner, u.value.entries), k)
                             == Some(Merged(Get(inner, k), Get(u.value.entries, k).value))
          {
            GetMerge(inner, u.value.entries, k);
          }
          MergeAbsorbs(DeepMerge(inner, u.value.entries), inner, u.value.entries);
        } else {
          MergeAbsorbs(u.value.entries, [], u.value.entries);
        }
      }
      FirstKeyOnce(b, u.key);
      forall k | Get(b[1..], k).Some? ensures Get(d, k) == Some(Merged(Get(base, k), Get(b[1..], k).value)) {
        assert Get(b, k) == Get(b[1..], k);
      }
      MergeAbsorbs(d, base, b[1..]);
    }
  }

  lemma MergeIsIdempotent(a: Dict, b: Dict)
    requires AreEntries(b)
    ensures DeepMerge(DeepMerge(a, b), b) == DeepMerge(a, b)
  {
    hide DeepMerge, AreEntries, Merged, Get;
    forall k | Get(b, k).Some? ensures Get(DeepMerge(a, b), k) == Some(Merged(Get(a, k), Get(b, k).value)) {
      GetMerge(a, b, k);
    }
    MergeAbsorbs(DeepMerge(a, b), a, b);
    AbsorbedMerge(DeepMerge(a, b), b);
  }

  // The source's loop: a copy of the base, updated key by key.
  method DeepMergeDicts(base: Dict, updates: Dict) returns (merged: Dict)
    ensures merged == DeepMerge(base, updates)
    decreases updates
  {
    merged := base;
    assert updates[0..] == updates;
    for i := 0 to |updates|
      invariant DeepMerge(merged, updates[i..]) == DeepMerge(base, updates)
    {
      var key, value := updates[i].key, updates[i].value;
      assert updates[i..][1..] == updates[i + 1..];
      var there := Get(merged, key);
      if value.Table? && there.Some? && there.value.Table? {
        var inner := DeepMergeDicts(there.value.entries, value.entries);
        merged := Set(merged, key, Table(inner));
      } else {
        merged := Set(merged, key, value);
      }
    }
    assert updates[|updates|..] == [];
  }

  // ------------------------------------------------------------------------ paths

  function At(d: Dict, path: seq<string>): Option<Value>
    decreases |path|
  {
    if |path| == 0 then None
    else
      var v := Get(d, path[0]);
      if |path| == 1 || v.None? then v
      else if v.value.Table? then At(v.value.entries, path[1..])
      else None
  }

  function PathIn(root: map<string, Tree>, path: seq<string>): Option<Tree>
    decreases |path|
  {
    if |path| == 0 then None
    else
      var t := Lookup(root, path[0]);
      if |path| == 1 || t.None? then t
      else if t.value.Node? then PathIn(t.value.children, path[1..])
      else None
  }

  lemma {:induction false} AtMeans(d: Dict, path: seq<string>)
    ensures PathIn(Children(d), path) == MeaningOf(At(d, path))
    decreases |path|
  {
    hide Children, Get;
    if |path| > 0 {
      GetMeans(d, path[0]);
      var v := Get(d, path[0]);
      if v.Some? && v.value.Table? {
        AtMeans(v.value.entries, path[1..]);
      }
    }
  }

  lemma AtSet(d: Dict, key: string, value: Value, path: seq<string>)
    requires |path| > 0
    ensures path[0] != key ==> At(Set(d, key, value), path) == At(d, path)
    ensures path[0] == key ==>
              At(Set(d, key, value), path) ==
              if |path| == 1 then Some(value) else if value.Table? then At(value.entries, path[1..]) else None
  {
    GetSet(d, key, value, path[0]);
  }

  lemma AtPop(d: Dict, key: string, path: seq<string>)
    requires |path| > 0 && path[0] != key
    ensures At(Pop(d, key), path) == At(d, path)
  {
    GetPop(d, key, path[0]);
  }

  // The updates say nothing about the path, nor about anything on the way to it.
  predicate Free(updates: Dict, path: seq<string>)
    decreases |path|
  {
    |path| > 0 &&
    var u := Get(updates, path[0]);
    u.None? || (u.value.Table? && |path| > 1 && Free(u.value.entries, path[1..]))
  }

  // The same value, or two tables that may differ further down.
  predicate Alike(v: Option<Value>, w: Option<Value>) {
    v == w || (v.Some? && w.Some? && v.value.Table? && w.value.Table?)
  }

  // The merge, path by path: what the updates say nothing about is as it was, and all else is
  // as the updates say.
  lemma {:induction false} MergeAt(base: Dict, updates: Dict, path: seq<string>)
    requires AreEntries(updates)
    ensures Free(updates, path) ==> At(DeepMerge(base, updates), path) == At(base, path) && At(updates, path).None?
    ensures !Free(updates, path) ==> Alike(At(DeepMerge(base, updates), path), At(updates, path))
    decreases |path|
  {
    hide DeepMerge, Get, AreEntries;
    if |path| > 0 {
      GetMerge(base, updates, path[0]);
      GetMeans(updates, path[0]);
      var u, v := Get(updates, path[0]), Get(base, path[0]);
      if u.Some? && u.value.Table? && |path| > 1 {
        TableEntries(u.value);
        MergeAt(if v.Some? && v.value.Table? then v.value.entries else [], u.value.entries, path[1..]);
      }
    }
  }

  lemma TableEntries(v: Value)
    requires v.Table? && IsDict(v)
    ensures AreEntries(v.entries)
  {
  }

  // ----------------------------------------------------- clean whatever the order is

  lemma {:induction false} CleanKey(d: Dict, key: string)
    requires CleanEntries(d) && Get(d, key).Some?
    ensures CleanText(key, true) && Clean(Get(d, key).value)
  {
    GetMeans(d, key);
  }

  // Values that mean the same are clean together.
  lemma {:induction false} CleanByMeaning(v: Value, w: Value)
    requires IsDict(v) && Meaning(v) == Meaning(w) && Clean(w)
    ensures Clean(v)
    decreases v, 0
  {
    hide Children, CleanText;
    match v {
      case List(items) => CleanByMeanings(items, w.items);
      case Table(entries) => CleanByChildren(entries, w.entries);
      case _ =>
    }
  }

  lemma {:induction false} CleanByMeanings(v: seq<Value>, w: seq<Value>)
    requires AreDicts(v) && Meanings(v) == Meanings(w) && AllClean(w)
    ensures AllClean(v)
    decreases v, 1
  {
    hide Meaning, Clean;
    if |v| > 0 {
      assert Meanings(v)[0] == Meaning(v[0]) && Meanings(v)[1..] == Meanings(v[1..]);
      assert |w| > 0;
      assert Meanings(w)[0] == Meaning(w[0]) && Meanings(w)[1..] == Meanings(w[1..]);
      CleanByMeaning(v[0], w[0]);
      CleanByMeanings(v[1..], w[1..]);
    }
  }

  lemma {:induction false} CleanByChildren(v: Dict, w: Dict)
    requires AreEntries(v) && CleanEntries(w)
    requires forall k :: k in Children(v) ==> Lookup(Children(w), k) == Lookup(Children(v), k)
    ensures CleanEntries(v)
    decreases v, 1
  {
    hide Meaning, Clean, CleanText, IsDict;
    if |v| > 0 {
      var e := v[0];
      GetMeans(v, e.key);
      GetMeans(w, e.key);
      CleanKey(w, e.key);
      CleanByMeaning(e.value, Get(w, e.key).value);
      forall k | k in Children(v[1..]) ensures Lookup(Children(w), k) == Lookup(Children(v[1..]), k) {
        assert k in Children(v) && Lookup(Children(v), k) == Lookup(Children(v[1..]), k);
      }
      CleanByChildren(v[1..], w);
    }
  }

  // The key at the path and, unless it is a table, the value there are clean.
  predicate CleanAt(d: Dict, path: seq<string>) {
    |path| == 0 || At(d, path).None?
    || (CleanText(path[|path| - 1], true) && (At(d, path).value.Table? || Clean(At(d, path).value)))
  }

  lemma AlikeIsClean(d: Dict, e: Dict, path: seq<string>)
    requires Alike(At(d, path), At(e, path))
    ensures CleanAt(d, path) <==> CleanAt(e, path)
  {
  }

  lemma {:induction false} CleanAlong(d: Dict, path: seq<string>)
    requires CleanEntries(d)
    ensures CleanAt(d, path)
    decreases |path|
  {
    hide Get, CleanText;
    if |path| > 0 {
      GetMeans(d, path[0]);
      var v := Get(d, path[0]);
      if |path| > 1 && v.Some? && v.value.Table? {
        CleanAlong(v.value.entries, path[1..]);
      }
    }
  }

  lemma {:induction false} UncleanSomewhere(d: Dict) returns (path: seq<string>)
    requires AreEntries(d) && !CleanEntries(d)
    ensures !CleanAt(d, path) && |path| > 0 && Get(d, path[0]).Some?
    decreases d
  {
    hide CleanText;
    var e := d[0];
    if !CleanText(e.key, true) || (!e.value.Table? && !Clean(e.value)) {
      path := [e.key];
    } else if e.value.Table? && !CleanEntries(e.value.entries) {
      var inner := UncleanSomewhere(e.value.entries);
      path := [e.key] + inner;
      assert path[1..] == inner && path[|path| - 1] == inner[|inner| - 1];
    } else {
      path := UncleanSomewhere(d[1..]);
      FirstKeyOnce(d, e.key);
    }
  }

  lemma {:induction false} CleanByPaths(d: Dict)
    requires AreEntries(d)
    ensures CleanEntries(d) <==> forall path :: CleanAt(d, path)
  {
    hide CleanAt, CleanEntries, AreEntries;
    if CleanEntries(d) {
      forall path ensures CleanAt(d, path) {
        CleanAlong(d, path);
      }
    } else {
      var path := UncleanSomewhere(d);
    }
  }
}
