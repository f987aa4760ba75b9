/** JSON to tree: `parseJsonToTree` and its recursive `build`. The `uuid()` generator is
    an injected supply `uuid: nat -> string` read at a counter `next`, which the
    functions thread through and return. */
module Parser {
  import opened Nodes
  import opened Json

  /** `String(i)` for a list index: its decimal digits, never empty. */
  function DecimalString(i: nat): (s: string)
    ensures 0 < |s|
    ensures forall j :: 0 <= j < |s| ==> '0' <= s[j] <= '9'
  {
    var d := ['0' + (i % 10) as char];
    if i < 10 then d else DecimalString(i / 10) + d
  }

  /** JavaScript truthiness of an optional name: absent and `""` are both falsy. */
  predicate Truthy(name: Option<string>) {
    name.Some? && name.value != ""
  }

  /** `build(value, name)`: the node gets the next id before its children are built, so
      ids are handed out in preorder. Returns the node and the next unused counter. */
  function Build(v: Value, name: Option<string>, uuid: nat -> string, next: nat): (r: (Node, nat))
    ensures r.0.id == uuid(next) && r.0.name == name
    ensures r.1 == next + Count(v)
    ensures v.JArray? <==> r.0.ListNode?
    ensures v.JArray? ==> |r.0.children| == |v.items|
    ensures v.JObject? <==> r.0.RootNode? || r.0.ObjectNode?
    ensures v.JObject? ==> |r.0.children| == |v.entries| && (r.0.ObjectNode? <==> Truthy(name))
    ensures v.JPrim? ==> r.0 == DataNode(uuid(next), name, v.p)
    decreases v
  {
    match v
    case JArray(items) =>
      var (cs, after) := BuildItems(items, 0, uuid, next + 1);
      (ListNode(uuid(next), name, cs), after)
    case JObject(es) =>
      var (cs, after) := BuildEntries(es, uuid, next + 1);
      var node := if Truthy(name) then ObjectNode(uuid(next), name, cs) else RootNode(uuid(next), name, cs);
      (node, after)
    case JPrim(p) =>
      (DataNode(uuid(next), name, p), next + 1)
  }

  /** `value.map((v, i) => build(v, String(i)))` over the array elements from index `index` on. */
  function BuildItems(items: seq<Value>, index: nat, uuid: nat -> string, next: nat): (r: (seq<Node>, nat))
    ensures |r.0| == |items|
    ensures r.1 == next + CountItems(items)
    ensures forall i :: 0 <= i < |items| ==> r.0[i].name == Some(DecimalString(index + i))
    decreases items
  {
    if items == [] then ([], next)
    else
      var (c, mid) := Build(items[0], Some(DecimalString(index)), uuid, next);
      var (cs, after) := BuildItems(items[1..], index + 1, uuid, mid);
      ([c] + cs, after)
  }

  /** `Object.keys(value).map((k) => build(value[k], k))` over the entries in order. */
  function BuildEntries(es: seq<Entry>, uuid: nat -> string, next: nat): (r: (seq<Node>, nat))
    ensures |r.0| == |es|
    ensures r.1 == next + CountEntries(es)
    ensures forall i :: 0 <= i < |es| ==> r.0[i].name == Some(es[i].key)
    decreases es
  {
    if es == [] then ([], next)
    else
      var (c, mid) := Build(es[0].val, Some(es[0].key), uuid, next);
      var (cs, after) := BuildEntries(es[1..], uuid, mid);
      ([c] + cs, after)
  }

  /** `parseJsonToTree(input)`: the top-level node has no name, so a top-level object is a
      root, an array a list and anything else a data node; nothing is rejected. */
  function ParseJsonToTree(input: Value, uuid: nat -> string, next: nat): (r: (Node, nat))
    ensures r.0.name == None && r.0.id == uuid(next)
    ensures input.JObject? <==> r.0.RootNode?
    ensures input.JArray? <==> r.0.ListNode?
    ensures input.JPrim? ==> r.0 == DataNode(uuid(next), None, input.p)
    ensures Size(r.0) == Count(input) == r.1 - next
  {
    var r := Build(input, None, uuid, next);
    ParsedIds(input, None, uuid, next);
    IdsCountNodes(r.0);
    r
  }

  /** `ids` is the run `uuid(from)`, `uuid(from + 1)`, ..., `uuid(to - 1)`. */
  predicate IdRun(ids: seq<string>, uuid: nat -> string, from: nat, to: nat) {
    from <= to && |ids| == to - from && forall i :: 0 <= i < |ids| ==> ids[i] == uuid(from + i)
  }

  lemma IdRunConcat(a: seq<string>, b: seq<string>, uuid: nat -> string, from: nat, mid: nat, to: nat)
    requires IdRun(a, uuid, from, mid) && IdRun(b, uuid, mid, to)
    ensures IdRun(a + b, uuid, from, to)
  {
  }

  /** The ids of a parsed tree are, in preorder, exactly `uuid(next)`, `uuid(next + 1)`, ...,
      up to the returned counter: one fresh id per JSON value. */
  lemma {:induction false} ParsedIds(v: Value, name: Option<string>, uuid: nat -> string, next: nat)
    ensures var r := Build(v, name, uuid, next); IdRun(Ids(r.0), uuid, next, r.1)
    decreases v, 1
  {
    var r := Build(v, name, uuid, next);
    assert IdRun([uuid(next)], uuid, next, next + 1);
    match v
    case JArray(items) =>
      ParsedIdsItems(items, 0, uuid, next + 1);
      IdRunConcat([uuid(next)], IdsList(r.0.children), uuid, next, next + 1, r.1);
    case JObject(es) =>
      ParsedIdsEntries(es, uuid, next + 1);
      IdRunConcat([uuid(next)], IdsList(r.0.children), uuid, next, next + 1, r.1);
    case JPrim(_) =>
  }

  lemma {:induction false} ParsedIdsItems(items: seq<Value>, index: nat, uuid: nat -> string, next: nat)
    ensures var r := BuildItems(items, index, uuid, next); IdRun(IdsList(r.0), uuid, next, r.1)
    decreases items, 0
  {
    if items != [] {
      var (c, mid) := Build(items[0], Some(DecimalString(index)), uuid, next);
      var (cs, after) := BuildItems(items[1..], index + 1, uuid, mid);
      ParsedIds(items[0], Some(DecimalString(index)), uuid, next);
      ParsedIdsItems(items[1..], index + 1, uuid, mid);
      assert ([c] + cs)[1..] == cs;
      IdRunConcat(Ids(c), IdsList(cs), uuid, next, mid, after);
    }
  }

  lemma {:induction false} ParsedIdsEntries(es: seq<Entry>, uuid: nat -> string, next: nat)
    ensures var r := BuildEntries(es, uuid, next); IdRun(IdsList(r.0), uuid, next, r.1)
    decreases es, 0
  {
    if es != [] {
      var (c, mid) := Build(es[0].val, Some(es[0].key), uuid, next);
      var (cs, after) := BuildEntries(es[1..], uuid, mid);
      ParsedIds(es[0].val, Some(es[0].key), uuid, next);
      ParsedIdsEntries(es[1..], uuid, mid);
      assert ([c] + cs)[1..] == cs;
      IdRunConcat(Ids(c), IdsList(cs), uuid, next, mid, after);
    }
  }

  /** With an injective id supply, every node of a parsed tree has its own id. */
  lemma ParsedIdsDistinct(input: Value, uuid: nat -> string, next: nat)
    requires forall i, j :: uuid(i) == uuid(j) ==> i == j
    ensures Distinct(Ids(ParseJsonToTree(input, uuid, next).0))
  {
    ParsedIds(input, None, uuid, next);
  }

  /** An object node is typed `object` exactly when its name is truthy: an object stored
      under the key `""` is a `root`, like the top-level object. */
  lemma ObjectUnderEmptyKeyIsRoot(es: seq<Entry>, uuid: nat -> string, next: nat)
    ensures Build(JObject(es), Some(""), uuid, next).0.RootNode?
    ensures forall k: string :: k != "" ==> Build(JObject(es), Some(k), uuid, next).0.ObjectNode?
  {
  }

  /** The initial tree of the application, `parseJsonToTree({})`: a root with no name and
      no children. */
  lemma ParseEmptyObject(uuid: nat -> string, next: nat)
    ensures ParseJsonToTree(JObject([]), uuid, next) == (RootNode(uuid(next), None, []), next + 1)
  {
  }
}
