/** The application state: the current tree, the selected node, and `handleUpdateNode`,
    which swaps the node carrying the updated node's id by a persistent `replace`. */
module App {
  import opened Nodes
  import opened Json
  import opened Parser
  import Stats

  /** `replace(node)`: a node whose id is `updated.id` becomes `updated` (its subtree is not
      visited); any other container keeps its tag, id and name and has each child passed
      through `replace`; any other data node is returned as it is. */
  function Replace(n: Node, updated: Node): (r: Node)
    ensures n.id == updated.id ==> r == updated
    ensures n.id != updated.id ==> r.Type() == n.Type() && r.id == n.id && r.name == n.name
    ensures n.id != updated.id && n.DataNode? ==> r == n
    ensures n.id != updated.id && n.HasChildren() ==>
      |r.children| == |n.children| &&
      forall i :: 0 <= i < |n.children| ==> r.children[i] == Replace(n.children[i], updated)
    decreases n
  {
    if n.id == updated.id then updated
    else match n
      case RootNode(id, name, cs) => RootNode(id, name, ReplaceAll(cs, updated))
      case ObjectNode(id, name, cs) => ObjectNode(id, name, ReplaceAll(cs, updated))
      case ListNode(id, name, cs) => ListNode(id, name, ReplaceAll(cs, updated))
      case DataNode(_, _, _) => n
  }

  /** `children.map(replace)`. */
  function ReplaceAll(cs: seq<Node>, updated: Node): (r: seq<Node>)
    ensures |r| == |cs|
    ensures forall i :: 0 <= i < |cs| ==> r[i] == Replace(cs[i], updated)
    decreases cs
  {
    if cs == [] then [] else [Replace(cs[0], updated)] + ReplaceAll(cs[1..], updated)
  }

  /** `m` occurs somewhere in the tree `n` (possibly as `n` itself). */
  predicate Occurs(m: Node, n: Node)
    decreases n
  {
    m == n || (n.HasChildren() && OccursIn(m, n.children))
  }

  predicate OccursIn(m: Node, cs: seq<Node>)
    decreases cs
  {
    cs != [] && (Occurs(m, cs[0]) || OccursIn(m, cs[1..]))
  }

  /** When no node carries `updated.id`, `replace` gives back the tree unchanged. */
  lemma {:induction false} ReplaceAbsentIsIdentity(n: Node, updated: Node)
    requires updated.id !in Ids(n)
    ensures Replace(n, updated) == n
    decreases n, 1
  {
    if n.HasChildren() {
      ReplaceAllAbsentIsIdentity(n.children, updated);
    }
  }

  lemma {:induction false} ReplaceAllAbsentIsIdentity(cs: seq<Node>, updated: Node)
    requires updated.id !in IdsList(cs)
    ensures ReplaceAll(cs, updated) == cs
    decreases cs, 0
  {
    if cs != [] {
      ReplaceAbsentIsIdentity(cs[0], updated);
      ReplaceAllAbsentIsIdentity(cs[1..], updated);
    }
  }

  /** When some node carries `updated.id`, `updated` is in the result. */
  lemma {:induction false} ReplaceInstalls(n: Node, updated: Node)
    requires updated.id in Ids(n)
    ensures Occurs(updated, Replace(n, updated))
    decreases n, 1
  {
    if n.id != updated.id {
      ReplaceAllInstalls(n.children, updated);
    }
  }

  lemma {:induction false} ReplaceAllInstalls(cs: seq<Node>, updated: Node)
    requires updated.id in IdsList(cs)
    ensures OccursIn(updated, ReplaceAll(cs, updated))
    decreases cs, 0
  {
    var r := ReplaceAll(cs, updated);
    assert r[1..] == ReplaceAll(cs[1..], updated);
    if updated.id in Ids(cs[0]) {
      ReplaceInstalls(cs[0], updated);
    } else {
      ReplaceAllInstalls(cs[1..], updated);
    }
  }

  /** Saving the same node twice has the effect of saving it once. */
  lemma {:induction false} ReplaceIdempotent(n: Node, updated: Node)
    ensures Replace(Replace(n, updated), updated) == Replace(n, updated)
    decreases n, 1
  {
    if n.id != updated.id && n.HasChildren() {
      ReplaceAllIdempotent(n.children, updated);
    }
  }

  lemma {:induction false} ReplaceAllIdempotent(cs: seq<Node>, updated: Node)
    ensures ReplaceAll(ReplaceAll(cs, updated), updated) == ReplaceAll(cs, updated)
    decreases cs, 0
  {
    if cs != [] {
      ReplaceIdempotent(cs[0], updated);
      ReplaceAllIdempotent(cs[1..], updated);
      assert ReplaceAll(cs, updated)[1..] == ReplaceAll(cs[1..], updated);
    }
  }

  /** The state `App` keeps with `useState`: the tree and the selected node. */
  class AppState {
    var tree: Node
    var selected: Option<Node>

    /** The initial tree `parseJsonToTree({})`, drawing one id from the supply; nothing is
        selected. */
    constructor (uuid: nat -> string, next: nat)
      ensures tree == RootNode(uuid(next), None, [])
      ensures tree == ParseJsonToTree(JObject([]), uuid, next).0
      ensures selected == None
    {
      tree := ParseJsonToTree(JObject([]), uuid, next).0;
      selected := None;
    }

    /** `handleUpdateNode(updated)`: the tree becomes `replace(tree)`; the selection is not
        touched. */
    method HandleUpdateNode(updated: Node)
      modifies this
      ensures tree == Replace(old(tree), updated)
      ensures selected == old(selected)
    {
      tree := Replace(tree, updated);
    }

    /** `onSelect`: a node clicked in the tree view becomes the selection. */
    method Select(n: Node)
      modifies this
      ensures selected == Some(n) && tree == old(tree)
    {
      selected := Some(n);
    }

    /** The state change of a successful import once the text has been parsed as JSON:
        the tree becomes `parseJsonToTree(obj)` and the selection is cleared. Returns the
        next unused counter of the id supply. */
    method ImportParsed(obj: Value, uuid: nat -> string, next: nat) returns (after: nat)
      modifies this
      ensures (tree, after) == ParseJsonToTree(obj, uuid, next)
      ensures selected == None
    {
      var r := ParseJsonToTree(obj, uuid, next);
      tree, after := r.0, r.1;
      selected := None;
    }

    /** `calculateStats(tree)` for the statistics panel. */
    method CurrentStats() returns (s: Stats.TreeStats)
      ensures s.total == Size(tree) && s.maxDepth == Stats.Height(tree)
      ensures Stats.Complete(s.counts) && forall t :: s.counts[t] == Stats.CountOf(tree, t)
    {
      s := Stats.CalculateStats(tree);
    }
  }
}
