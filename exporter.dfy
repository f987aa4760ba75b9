/** Tree to JSON: `treeToJson`, the inverse fold of the parser. */
module Exporter {
  import opened Nodes
  import opened Json
  import opened Parser

  /** The key a child is exported under: its name, or `""` when it has none. */
  function KeyOf(c: Node): string {
    match c.name
    case Some(k) => k
    case None => ""
  }

  /** `treeToJson(node)`: root and object nodes become objects, list nodes arrays, and a
      data node its value. */
  function TreeToJson(n: Node): (r: Value)
    ensures n.RootNode? || n.ObjectNode? <==> r.JObject?
    ensures n.ListNode? <==> r.JArray?
    ensures n.DataNode? ==> r == JPrim(n.value)
    decreases n
  {
    match n
    case RootNode(_, _, cs) => JObject(ExportFields(cs, []))
    case ObjectNode(_, _, cs) => JObject(ExportFields(cs, []))
    case ListNode(_, _, cs) => JArray(ExportItems(cs))
    case DataNode(_, _, v) => JPrim(v)
  }

  /** `children.reduce((acc, c) => ({ ...acc, [c.name ?? '']: treeToJson(c) }), acc)`. */
  function ExportFields(cs: seq<Node>, acc: seq<Entry>): (r: seq<Entry>)
    ensures |acc| <= |r| <= |acc| + |cs|
    ensures Keys(r)[..|acc|] == Keys(acc)
    decreases cs
  {
    if cs == [] then acc else ExportFields(cs[1..], Put(acc, KeyOf(cs[0]), TreeToJson(cs[0])))
  }

  /** `children.map(treeToJson)`: positional, names ignored. */
  function ExportItems(cs: seq<Node>): (r: seq<Value>)
    ensures |r| == |cs|
    ensures forall i :: 0 <= i < |cs| ==> r[i] == TreeToJson(cs[i])
    decreases cs
  {
    if cs == [] then [] else [TreeToJson(cs[0])] + ExportItems(cs[1..])
  }

  /** The last child named `k` (a missing name counting as `""`), if any. */
  function LastWithKey(cs: seq<Node>, k: string): (r: Option<Node>)
    ensures r.Some? ==> r.value in cs && KeyOf(r.value) == k
    ensures r.None? <==> forall c :: c in cs ==> KeyOf(c) != k
  {
    if cs == [] then None
    else if KeyOf(cs[|cs| - 1]) == k then Some(cs[|cs| - 1])
    else LastWithKey(cs[..|cs| - 1], k)
  }

  /** The child `LastWithKey` picks sits at an index after which no child has key `k`. */
  lemma {:induction false} LastWithKeyIsLast(cs: seq<Node>, k: string)
    ensures LastWithKey(cs, k).Some? ==>
      exists i :: 0 <= i < |cs| && cs[i] == LastWithKey(cs, k).value &&
        forall j :: i < j < |cs| ==> KeyOf(cs[j]) != k
    decreases |cs|
  {
    if cs != [] && KeyOf(cs[|cs| - 1]) != k {
      var init := cs[..|cs| - 1];
      LastWithKeyIsLast(init, k);
      if LastWithKey(init, k).Some? {
        var i :| 0 <= i < |init| && init[i] == LastWithKey(init, k).value &&
          forall j :: i < j < |init| ==> KeyOf(init[j]) != k;
        assert cs[i] == LastWithKey(cs, k).value;
        assert forall j :: i < j < |cs| ==> KeyOf(cs[j]) != k by {
          forall j | i < j < |cs| ensures KeyOf(cs[j]) != k {
            if j < |init| { assert cs[j] == init[j]; }
          }
        }
      }
    }
  }

  /** The last child with key `k` at index `i` is the one `LastWithKey` finds. */
  lemma {:induction false} LastWithKeyAt(cs: seq<Node>, k: string, i: int)
    requires 0 <= i < |cs| && KeyOf(cs[i]) == k
    requires forall j :: i < j < |cs| ==> KeyOf(cs[j]) != k
    ensures LastWithKey(cs, k) == Some(cs[i])
    decreases |cs|
  {
    if i < |cs| - 1 {
      var init := cs[..|cs| - 1];
      assert KeyOf(cs[|cs| - 1]) != k;
      assert init[i] == cs[i];
      LastWithKeyAt(init, k, i);
    }
  }

  /** Last write wins: in an exported object, key `k` holds the export of the LAST child
      whose key is `k`; when no child has key `k` it is absent. */
  lemma ExportLastWriteWins(n: Node, k: string)
    requires n.RootNode? || n.ObjectNode?
    ensures var out := TreeToJson(n).entries;
      match LastWithKey(n.children, k)
      case Some(c) => Lookup(out, k) == Some(TreeToJson(c))
      case None => Lookup(out, k) == None
  {
    FoldLookup(n.children, [], k);
  }

  /** The fold in general: a key written by some child ends with the last such child's
      value, any other key keeps the value it had in the accumulator. */
  lemma {:induction false} FoldLookup(cs: seq<Node>, acc: seq<Entry>, k: string)
    ensures var out := ExportFields(cs, acc);
      match LastWithKey(cs, k)
      case Some(c) => Lookup(out, k) == Some(TreeToJson(c))
      case None => Lookup(out, k) == Lookup(acc, k)
    decreases |cs|
  {
    if cs != [] {
      var last := cs[|cs| - 1];
      var init := cs[..|cs| - 1];
      assert init + [last] == cs;
      FoldSnoc(init, last, acc);
      var before := ExportFields(init, acc);
      PutLookup(before, KeyOf(last), TreeToJson(last), k);
      if KeyOf(last) == k {
        assert LastWithKey(cs, k) == Some(last);
      } else {
        assert LastWithKey(cs, k) == LastWithKey(init, k);
        assert Lookup(ExportFields(cs, acc), k) == Lookup(before, k);
        FoldLookup(init, acc, k);
      }
    }
  }

  /** Folding one more child is one more `Put`. */
  lemma {:induction false} FoldSnoc(cs: seq<Node>, c: Node, acc: seq<Entry>)
    ensures ExportFields(cs + [c], acc) == Put(ExportFields(cs, acc), KeyOf(c), TreeToJson(c))
    decreases |cs|
  {
    if cs != [] {
      assert (cs + [c])[1..] == cs[1..] + [c];
      FoldSnoc(cs[1..], c, Put(acc, KeyOf(cs[0]), TreeToJson(cs[0])));
    }
  }

  /** The exporter only ever builds objects with distinct keys. */
  lemma {:induction false} ExportWellFormed(n: Node)
    ensures WellFormed(TreeToJson(n))
    decreases n, 1
  {
    match n
    case RootNode(_, _, cs) => FoldWellFormed(cs, []);
    case ObjectNode(_, _, cs) => FoldWellFormed(cs, []);
    case ListNode(_, _, cs) => ItemsWellFormed(cs);
    case DataNode(_, _, _) =>
  }

  lemma {:induction false} FoldWellFormed(cs: seq<Node>, acc: seq<Entry>)
    requires Distinct(Keys(acc)) && WellFormedEntries(acc)
    ensures Distinct(Keys(ExportFields(cs, acc))) && WellFormedEntries(ExportFields(cs, acc))
    decreases cs, 0
  {
    if cs != [] {
      ExportWellFormed(cs[0]);
      PutWellFormed(acc, KeyOf(cs[0]), TreeToJson(cs[0]));
      PutKeepsKeysDistinct(acc, KeyOf(cs[0]), TreeToJson(cs[0]));
      FoldWellFormed(cs[1..], Put(acc, KeyOf(cs[0]), TreeToJson(cs[0])));
    }
  }

  lemma {:induction false} ItemsWellFormed(cs: seq<Node>)
    ensures WellFormedItems(ExportItems(cs))
    decreases cs, 0
  {
    if cs != [] {
      ExportWellFormed(cs[0]);
      ItemsWellFormed(cs[1..]);
      assert ExportItems(cs)[1..] == ExportItems(cs[1..]);
    }
  }

  lemma {:induction false} PutWellFormed(es: seq<Entry>, k: string, v: Value)
    requires WellFormedEntries(es) && WellFormed(v)
    ensures WellFormedEntries(Put(es, k, v))
    decreases es
  {
    if es != [] && es[0].key != k {
      PutWellFormed(es[1..], k, v);
      assert Put(es, k, v)[1..] == Put(es[1..], k, v);
    }
  }

  /** Round trip: exporting a parsed value gives the value back, for every value whose
      objects have distinct keys (which every JavaScript object has). */
  lemma {:induction false} RoundTrip(v: Value, uuid: nat -> string, next: nat)
    requires WellFormed(v)
    ensures TreeToJson(ParseJsonToTree(v, uuid, next).0) == v
  {
    BuildRoundTrip(v, None, uuid, next);
  }

  lemma {:induction false} BuildRoundTrip(v: Value, name: Option<string>, uuid: nat -> string, next: nat)
    requires WellFormed(v)
    ensures TreeToJson(Build(v, name, uuid, next).0) == v
    decreases v, 1
  {
    match v
    case JArray(items) =>
      var cs := BuildItems(items, 0, uuid, next + 1).0;
      ItemsRoundTrip(items, 0, uuid, next + 1);
      assert ExportItems(cs) == items;
    case JObject(es) =>
      var cs := BuildEntries(es, uuid, next + 1).0;
      EntriesRoundTrip(es, uuid, next + 1);
      assert [] + ChildEntries(cs) == es;
      FoldDistinctKeys(cs, []);
    case JPrim(_) =>
  }

  lemma {:induction false} ItemsRoundTrip(items: seq<Value>, index: nat, uuid: nat -> string, next: nat)
    requires WellFormedItems(items)
    ensures ExportItems(BuildItems(items, index, uuid, next).0) == items
    decreases items, 0
  {
    if items != [] {
      var (c, mid) := Build(items[0], Some(DecimalString(index)), uuid, next);
      var (cs, after) := BuildItems(items[1..], index + 1, uuid, mid);
      BuildRoundTrip(items[0], Some(DecimalString(index)), uuid, next);
      ItemsRoundTrip(items[1..], index + 1, uuid, mid);
      assert ([c] + cs)[1..] == cs;
      assert items == [items[0]] + items[1..];
    }
  }

  /** The entries the children would contribute if none overwrote another. */
  function ChildEntries(cs: seq<Node>): (es: seq<Entry>)
    ensures |es| == |cs|
    ensures forall i :: 0 <= i < |cs| ==> es[i] == Entry(KeyOf(cs[i]), TreeToJson(cs[i]))
  {
    if cs == [] then [] else [Entry(KeyOf(cs[0]), TreeToJson(cs[0]))] + ChildEntries(cs[1..])
  }

  /** Without duplicate keys the fold simply appends one entry per child, in order. */
  lemma {:induction false} FoldDistinctKeys(cs: seq<Node>, acc: seq<Entry>)
    requires Distinct(Keys(acc + ChildEntries(cs)))
    ensures ExportFields(cs, acc) == acc + ChildEntries(cs)
    decreases cs
  {
    if cs != [] {
      var e := Entry(KeyOf(cs[0]), TreeToJson(cs[0]));
      var rest := ChildEntries(cs[1..]);
      assert ChildEntries(cs) == [e] + rest;
      assert acc + ChildEntries(cs) == (acc + [e]) + rest;
      KeysConcat(acc, ChildEntries(cs));
      forall j | 0 <= j < |acc|
        ensures Keys(acc)[j] != e.key
      {
        assert Keys(acc + ChildEntries(cs))[j] != Keys(acc + ChildEntries(cs))[|acc|];
      }
      assert Put(acc, e.key, e.val) == acc + [e];
      FoldDistinctKeys(cs[1..], acc + [e]);
    }
  }

  lemma KeysConcat(a: seq<Entry>, b: seq<Entry>)
    ensures Keys(a + b) == Keys(a) + Keys(b)
  {
  }

  /** Building children from entries and reading them back as entries is the identity. */
  lemma {:induction false} EntriesRoundTrip(es: seq<Entry>, uuid: nat -> string, next: nat)
    requires WellFormedEntries(es)
    ensures ChildEntries(BuildEntries(es, uuid, next).0) == es
    decreases es, 0
  {
    if es != [] {
      var b := Build(es[0].val, Some(es[0].key), uuid, next);
      var cs := BuildEntries(es[1..], uuid, b.1).0;
      BuildEntriesCons(es, uuid, next);
      BuildRoundTrip(es[0].val, Some(es[0].key), uuid, next);
      EntriesRoundTrip(es[1..], uuid, b.1);
      assert ChildEntries([b.0] + cs) == [Entry(KeyOf(b.0), TreeToJson(b.0))] + ChildEntries(cs);
      assert es == [es[0]] + es[1..];
    }
  }

  lemma BuildEntriesCons(es: seq<Entry>, uuid: nat -> string, next: nat)
    requires es != []
    ensures var b := Build(es[0].val, Some(es[0].key), uuid, next);
      BuildEntries(es, uuid, next).0 == [b.0] + BuildEntries(es[1..], uuid, b.1).0
  {
  }

  /** Scenario: an empty root exports as `{}`. */
  lemma EmptyRootExportsEmptyObject(id: string, name: Option<string>)
    ensures TreeToJson(RootNode(id, name, [])) == JObject([])
  {
  }

  /** A child without a name is exported under the key `""`; no error is raised. */
  /** An unnamed child is exported under the key `""`: when no later child also has that
      key, the exported object maps `""` to that child's export. */
  lemma UnnamedChildUnderEmptyKey(n: Node, i: int)
    requires n.RootNode? || n.ObjectNode?
    requires 0 <= i < |n.children| && n.children[i].name == None
    requires forall j :: i < j < |n.children| ==> KeyOf(n.children[j]) != ""
    ensures Lookup(TreeToJson(n).entries, "") == Some(TreeToJson(n.children[i]))
  {
    LastWithKeyAt(n.children, "", i);
    ExportLastWriteWins(n, "");
  }
}
