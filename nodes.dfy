/** The tree node model: a four-way tagged union of root, object, list and data nodes. */
module Nodes {

  /** An optional value; an absent node name (`None`) is distinct from `Some("")`. */
  datatype Option<+T> = None | Some(value: T)

  /** What a data node can hold: a string, a number, a boolean or null.
      Numbers are modelled as mathematical integers. */
  datatype Primitive = Str(s: string) | Num(n: int) | Bool(b: bool) | Null

  /** The `type` tag of a node. */
  datatype NodeType = Root | Object | List | Data

  /** Root, object and list nodes hold ordered children of any variant (a root may
      appear below another node: nothing in the type forbids it); data nodes hold a value. */
  datatype Node =
    | RootNode(id: string, name: Option<string>, children: seq<Node>)
    | ObjectNode(id: string, name: Option<string>, children: seq<Node>)
    | ListNode(id: string, name: Option<string>, children: seq<Node>)
    | DataNode(id: string, name: Option<string>, value: Primitive)
  {
    /** The node's `type` tag. */
    function Type(): (t: NodeType)
      ensures t == Data <==> DataNode?
      ensures t == Root <==> RootNode?
    {
      match this
      case RootNode(_, _, _) => Root
      case ObjectNode(_, _, _) => Object
      case ListNode(_, _, _) => List
      case DataNode(_, _, _) => Data
    }

    /** The `'children' in n` test: every variant except data carries children. */
    predicate HasChildren() {
      !DataNode?
    }
  }

  /** The number of nodes in a tree. */
  function Size(n: Node): nat
    decreases n
  {
    if n.DataNode? then 1 else 1 + SizeList(n.children)
  }

  function SizeList(cs: seq<Node>): nat
    decreases cs
  {
    if cs == [] then 0 else Size(cs[0]) + SizeList(cs[1..])
  }

  /** The ids of a tree in preorder: a node's own id, then its children's trees in order. */
  function Ids(n: Node): (ids: seq<string>)
    decreases n
  {
    [n.id] + (if n.DataNode? then [] else IdsList(n.children))
  }

  function IdsList(cs: seq<Node>): (ids: seq<string>)
    decreases cs
  {
    if cs == [] then [] else Ids(cs[0]) + IdsList(cs[1..])
  }

  /** There is one id per node. */
  lemma {:induction false} IdsCountNodes(n: Node)
    ensures |Ids(n)| == Size(n)
    decreases n, 1
  {
    if n.HasChildren() {
      IdsListCountNodes(n.children);
    }
  }

  lemma {:induction false} IdsListCountNodes(cs: seq<Node>)
    ensures |IdsList(cs)| == SizeList(cs)
    decreases cs, 0
  {
    if cs != [] {
      IdsCountNodes(cs[0]);
      IdsListCountNodes(cs[1..]);
    }
  }

  /** All elements of a sequence are pairwise different. */
  predicate Distinct<T(==)>(s: seq<T>) {
    forall i, j :: 0 <= i < j < |s| ==> s[i] != s[j]
  }
}
