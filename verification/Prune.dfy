/** Pruning of message properties: nulls, blank texts and emptied containers are dropped. */
module Prune {
  import opened Text
  import opened Wrappers

  /** A property value. Numbers and truth values are all kept, so they are one case. */
  datatype Value =
    | Null
    | Str(text: string)
    | Scalar(n: int)
    | List(items: seq<Value>)
    | Map(entries: map<string, Value>)

  function Lower(c: char): char {
    if 'A' <= c <= 'Z' then (c as int - 'A' as int + 'a' as int) as char else c
  }

  /** Blank, or the text that stands for a missing value, in any case. */
  predicate IsBlank(text: string) {
    var t := Trim(text);
    t == ""
    || (|t| == 5 && t[0] == '<' && Lower(t[1]) == 'n' && Lower(t[2]) == 'i' && Lower(t[3]) == 'l' && t[4] == '>')
  }

  function PruneValue(v: Value): Option<Value> {
    match v
    case Null => None
    case Str(text) => if IsBlank(text) then None else Some(v)
    case Scalar(_) => Some(v)
    case List(items) => var out := PruneItems(items); if out == [] then None else Some(List(out))
    case Map(entries) =>
      var out := map k | k in entries && PruneValue(entries[k]).Some? :: PruneValue(entries[k]).value;
      if out == map[] then None else Some(Map(out))
  }

  function PruneItems(items: seq<Value>): seq<Value> {
    if items == [] then []
    else
      match PruneValue(items[0])
      case Some(v) => [v] + PruneItems(items[1..])
      case None => PruneItems(items[1..])
  }

  function PruneMap(entries: map<string, Value>): map<string, Value> {
    map k | k in entries && PruneValue(entries[k]).Some? :: PruneValue(entries[k]).value
  }

  lemma {:induction false} PruneItemsAppend(items: seq<Value>, v: Value)
    ensures PruneItems(items + [v]) ==
            PruneItems(items) + if PruneValue(v).Some? then [PruneValue(v).value] else []
  {
    if items == [] {
      assert [v][1..] == [] && [] + [v] == [v];
    } else {
      assert (items + [v])[1..] == items[1..] + [v];
      PruneItemsAppend(items[1..], v);
    }
  }

  // ---------- The loops ----------

  method PruneValueLoop(v: Value) returns (r: Option<Value>)
    ensures r == PruneValue(v)
    decreases v, 1
  {
    match v {
      case Null => r := None;
      case Str(text) => r := if IsBlank(text) then None else Some(v);
      case Scalar(_) => r := Some(v);
      case List(items) =>
        var out: seq<Value> := [];
        for i := 0 to |items|
          invariant out == PruneItems(items[..i])
        {
          PruneItemsAppend(items[..i], items[i]);
          assert items[..i] + [items[i]] == items[..i + 1];
          var pruned := PruneValueLoop(items[i]);
          if pruned.Some? {
            out := out + [pruned.value];
          }
        }
        assert items[..|items|] == items;
        r := if |out| > 0 then Some(List(out)) else None;
      case Map(entries) =>
        var out := PruneMapLoop(v);
        r := if out != map[] then Some(Map(out)) else None;
    }
  }

  /** The order in which a map is visited does not matter. */
  method PruneMapLoop(v: Value) returns (out: map<string, Value>)
    requires v.Map?
    ensures out == PruneMap(v.entries)
    decreases v, 0
  {
    var entries := v.entries;
    out := map[];
    var todo := entries.Keys;
    while todo != {}
      invariant todo <= entries.Keys
      invariant out == PruneMap(map k | k in entries && k !in todo :: entries[k])
      decreases todo
    {
      var k :| k in todo;
      var pruned := PruneValueLoop(entries[k]);
      if pruned.Some? {
        out := out[k := pruned.value];
      }
      todo := todo - {k};
    }
    assert (map k | k in entries && k !in todo :: entries[k]) == entries;
  }

  // ---------- What pruning does ----------

  /** No null, no blank text, no empty container, at any depth. */
  predicate Clean(v: Value) {
    match v
    case Null => false
    case Str(text) => !IsBlank(text)
    case Scalar(_) => true
    case List(items) => items != [] && forall i | 0 <= i < |items| :: Clean(items[i])
    case Map(entries) => entries != map[] && forall k | k in entries :: Clean(entries[k])
  }

  /** Something worth keeping is in the value, at some depth. */
  predicate Solid(v: Value) {
    match v
    case Null => false
    case Str(text) => !IsBlank(text)
    case Scalar(_) => true
    case List(items) => exists i | 0 <= i < |items| :: Solid(items[i])
    case Map(entries) => exists k | k in entries :: Solid(entries[k])
  }

  /** Pruning keeps a value exactly when something in it is worth keeping, and what it keeps
      is clean. */
  lemma {:induction false} PruneCleans(v: Value)
    ensures PruneValue(v).Some? <==> Solid(v)
    ensures PruneValue(v).Some? ==> Clean(PruneValue(v).value)
    decreases v
  {
    match v
    case Null =>
    case Str(_) =>
    case Scalar(_) =>
    case List(items) => PruneItemsClean(items);
    case Map(entries) =>
      forall k | k in entries
        ensures PruneValue(entries[k]).Some? <==> Solid(entries[k])
        ensures PruneValue(entries[k]).Some? ==> Clean(PruneValue(entries[k]).value)
      {
        PruneCleans(entries[k]);
      }
      var out := PruneMap(entries);
      if k :| k in entries && Solid(entries[k]) {
        assert k in out;
      }
      if out != map[] {
        var k :| k in out;
        assert Solid(entries[k]);
      }
  }

  lemma {:induction false} PruneItemsClean(items: seq<Value>)
    ensures PruneItems(items) != [] <==> exists i | 0 <= i < |items| :: Solid(items[i])
    ensures forall i | 0 <= i < |PruneItems(items)| :: Clean(PruneItems(items)[i])
    decreases items
  {
    if items != [] {
      PruneCleans(items[0]);
      PruneItemsClean(items[1..]);
      if i :| 0 <= i < |items| && Solid(items[i]) {
        assert i > 0 ==> Solid(items[1..][i - 1]);
      }
    }
  }

  /** The text that stands for a missing value, in any case. */
  predicate IsNil(text: string) {
    |text| == 5 && text[0] == '<' && text[1] in "nN" && text[2] in "iI" && text[3] in "lL" && text[4] == '>'
  }

  /** A text is blank exactly when it is white space, or that text with white space around it. */
  lemma BlankTexts(text: string)
    ensures IsBlank(text) <==>
            AllSpace(text) || exists left, mid, right ::
              AllSpace(left) && IsNil(mid) && AllSpace(right) && text == left + mid + right
  {
    var left, right := TrimSplits(text);
    var t := Trim(text);
    if IsBlank(text) && t != "" {
      assert IsNil(t) && text == left + t + right;
    }
    if AllSpace(text) {
      TrimOf(text, "", "");
      assert text + "" + "" == text;
    }
    forall l, mid, r | AllSpace(l) && IsNil(mid) && AllSpace(r) && text == l + mid + r
      ensures IsBlank(text)
    {
      TrimOf(l, mid, r);
    }
  }

  /** A step down into a value; the items of a list are not told apart. */
  datatype Step = Key(name: string) | Item

  /** The text, number or truth value `leaf` is in the value, at the end of this path. */
  predicate In(v: Value, path: seq<Step>, leaf: Value)
    decreases v, 1
  {
    match v
    case Null => false
    case Str(_) => path == [] && v == leaf
    case Scalar(_) => path == [] && v == leaf
    case List(items) => path != [] && path[0].Item? && AnyIn(items, path[1..], leaf)
    case Map(entries) =>
      path != [] && path[0].Key? && path[0].name in entries && In(entries[path[0].name], path[1..], leaf)
  }

  /** It is in one of the items. */
  predicate AnyIn(items: seq<Value>, path: seq<Step>, leaf: Value)
    decreases items, 0
  {
    exists i | 0 <= i < |items| :: In(items[i], path, leaf)
  }

  lemma AnyInCons(v: Value, rest: seq<Value>, path: seq<Step>, leaf: Value)
    ensures AnyIn([v] + rest, path, leaf) <==> In(v, path, leaf) || AnyIn(rest, path, leaf)
  {
    var items := [v] + rest;
    if In(v, path, leaf) {
      assert In(items[0], path, leaf);
    }
    if i :| 0 <= i < |rest| && In(rest[i], path, leaf) {
      assert In(items[i + 1], path, leaf);
    }
    if i :| 0 <= i < |items| && In(items[i], path, leaf) {
      assert i > 0 ==> In(rest[i - 1], path, leaf);
    }
  }

  /** Pruning loses nothing that is worth keeping, and moves none of it: each number, truth
      value and text that is not blank is found where it was. */
  lemma {:induction false} PruneKeepsLeaves(v: Value, path: seq<Step>, leaf: Value)
    requires Solid(leaf)
    ensures In(v, path, leaf) <==> PruneValue(v).Some? && In(PruneValue(v).value, path, leaf)
    decreases v
  {
    match v
    case List(items) =>
      if path != [] {
        PruneKeepsItems(items, path[1..], leaf);
      }
    case Map(entries) =>
      if path != [] && path[0].Key? && path[0].name in entries {
        PruneKeepsLeaves(entries[path[0].name], path[1..], leaf);
        if PruneValue(entries[path[0].name]).Some? {
          assert path[0].name in PruneMap(entries);
        }
      }
    case _ =>
  }

  lemma {:induction false} PruneKeepsItems(items: seq<Value>, path: seq<Step>, leaf: Value)
    requires Solid(leaf)
    ensures AnyIn(items, path, leaf) <==> AnyIn(PruneItems(items), path, leaf)
    decreases items
  {
    if items != [] {
      PruneKeepsLeaves(items[0], path, leaf);
      PruneKeepsItems(items[1..], path, leaf);
      assert items == [items[0]] + items[1..];
      AnyInCons(items[0], items[1..], path, leaf);
      if PruneValue(items[0]).Some? {
        AnyInCons(PruneValue(items[0]).value, PruneItems(items[1..]), path, leaf);
      }
    }
  }

  /** The items of a list are pruned one by one and stay in order. */
  lemma {:induction false} PruneItemsConcat(a: seq<Value>, b: seq<Value>)
    ensures PruneItems(a + b) == PruneItems(a) + PruneItems(b)
  {
    if a == [] {
      assert a + b == b;
    } else {
      assert (a + b)[1..] == a[1..] + b;
      PruneItemsConcat(a[1..], b);
    }
  }

  /** A clean value is left as it is. */
  lemma {:induction false} CleanStays(v: Value)
    requires Clean(v)
    ensures PruneValue(v) == Some(v)
    decreases v
  {
    match v
    case Str(_) =>
    case Scalar(_) =>
    case List(items) => CleanItemsStay(items);
    case Map(entries) =>
      forall k | k in entries
        ensures PruneValue(entries[k]) == Some(entries[k])
      {
        CleanStays(entries[k]);
      }
      assert PruneMap(entries) == entries;
  }

  lemma {:induction false} CleanItemsStay(items: seq<Value>)
    requires forall i | 0 <= i < |items| :: Clean(items[i])
    ensures PruneItems(items) == items
    decreases items
  {
    if items != [] {
      CleanStays(items[0]);
      CleanItemsStay(items[1..]);
      assert items == [items[0]] + items[1..];
    }
  }

  /** Pruning changes nothing in exactly the clean values; so pruning twice is pruning once. */
  lemma PruneFixesClean(v: Value)
    ensures PruneValue(v) == Some(v) <==> Clean(v)
    ensures PruneValue(v).Some? ==> PruneValue(PruneValue(v).value) == PruneValue(v)
  {
    PruneCleans(v);
    if PruneValue(v).Some? {
      CleanStays(PruneValue(v).value);
    }
    if Clean(v) {
      CleanStays(v);
    }
  }

  /** The properties of a record: pruned on export, they are not changed by the prune on import. */
  lemma PruneMapTwice(entries: map<string, Value>)
    ensures PruneMap(PruneMap(entries)) == PruneMap(entries)
    ensures forall k | k in PruneMap(entries) :: Clean(PruneMap(entries)[k])
  {
    forall k | k in PruneMap(entries)
      ensures PruneValue(PruneMap(entries)[k]) == Some(PruneMap(entries)[k]) && Clean(PruneMap(entries)[k])
    {
      PruneCleans(entries[k]);
      PruneFixesClean(entries[k]);
    }
    assert PruneMap(PruneMap(entries)) == PruneMap(entries);
  }
}
