/** The node editor: a working copy of the selected node, edited field by field and handed
    back on commit. */
module NodeEditor {
  import opened Nodes

  /** The fields the editor writes through `updateField`: the name (from the name input),
      the value (from the value input of a data node) and the children list. */
  datatype Field =
    | NameField(name: string)
    | ValueField(value: Primitive)
    | ChildrenField(children: seq<Node>)

  /** `{ ...n, [field]: value }`: only the named field changes. A value written to a
      container or children written to a data node have nowhere to go in the node model
      and leave the node as it is. */
  function WithField(n: Node, f: Field): (r: Node)
    ensures r.id == n.id && r.Type() == n.Type()
    ensures r.name == if f.NameField? then Some(f.name) else n.name
    ensures r.DataNode? ==> r.value == if f.ValueField? then f.value else n.value
    ensures r.HasChildren() ==> r.children == if f.ChildrenField? then f.children else n.children
  {
    match f
    case NameField(s) => n.(name := Some(s))
    case ValueField(v) => if n.DataNode? then n.(value := v) else n
    case ChildrenField(cs) => if n.HasChildren() then n.(children := cs) else n
  }

  /** The child `addChild` appends: a data node named `new` holding the empty string. */
  function NewChild(freshId: string): (c: Node)
    ensures c.DataNode? && c.id == freshId && c.name == Some("new") && c.value == Str("")
  {
    DataNode(freshId, Some("new"), Str(""))
  }

  /** `s` can be obtained from `t` by deleting elements: it keeps their order. */
  predicate Subsequence<T(==)>(s: seq<T>, t: seq<T>)
    decreases |t|
  {
    s == [] || (t != [] && (if s[0] == t[0] then Subsequence(s[1..], t[1..]) else Subsequence(s, t[1..])))
  }

  /** `children.filter((c) => c.id !== id)`. */
  function WithoutId(cs: seq<Node>, id: string): (r: seq<Node>)
    ensures |r| <= |cs|
    ensures forall c :: c in r <==> c in cs && c.id != id
  {
    if cs == [] then []
    else if cs[0].id == id then WithoutId(cs[1..], id)
    else [cs[0]] + WithoutId(cs[1..], id)
  }

  /** What remains: every child with another id, as often as before, and no child with
      `id`, in the original order. */
  lemma {:induction false} WithoutIdKeepsOthersInOrder(cs: seq<Node>, id: string)
    ensures Subsequence(WithoutId(cs, id), cs)
    ensures forall c :: multiset(WithoutId(cs, id))[c] == if c.id == id then 0 else multiset(cs)[c]
    decreases cs
  {
    if cs != [] {
      WithoutIdKeepsOthersInOrder(cs[1..], id);
      assert cs == [cs[0]] + cs[1..];
      var r := WithoutId(cs, id);
      if cs[0].id != id {
        assert r == [cs[0]] + WithoutId(cs[1..], id);
        assert r[1..] == WithoutId(cs[1..], id);
      }
    }
  }

  /** Removing an id no child carries leaves the children as they are. */
  lemma {:induction false} WithoutAbsentId(cs: seq<Node>, id: string)
    requires forall c :: c in cs ==> c.id != id
    ensures WithoutId(cs, id) == cs
    decreases cs
  {
    if cs != [] {
      WithoutAbsentId(cs[1..], id);
      assert cs == [cs[0]] + cs[1..];
    }
  }

  lemma {:induction false} WithoutIdAppend(a: seq<Node>, b: seq<Node>, id: string)
    ensures WithoutId(a + b, id) == WithoutId(a, id) + WithoutId(b, id)
    decreases a
  {
    if a == [] {
      assert a + b == b;
    } else {
      assert (a + b)[1..] == a[1..] + b;
      WithoutIdAppend(a[1..], b, id);
    }
  }

  /** Adding a child with a fresh id and then removing that id restores the children. */
  lemma AddThenRemoveRestores(cs: seq<Node>, freshId: string)
    requires forall c :: c in cs ==> c.id != freshId
    ensures WithoutId(cs + [NewChild(freshId)], freshId) == cs
  {
    WithoutIdAppend(cs, [NewChild(freshId)], freshId);
    WithoutAbsentId(cs, freshId);
    assert WithoutId([NewChild(freshId)], freshId) == [];
  }

  /** The editor's `working` state cell. */
  class Editor {
    var working: Node

    /** The working copy starts as a deep copy of the node handed in. */
    constructor (node: Node)
      ensures working == node
    {
      working := node;
    }

    /** `commit`: the working copy, as it stands, is what `onUpdate` receives. */
    method Commit() returns (handed: Node)
      ensures handed == working
    {
      handed := working;
    }

    /** `updateField(field, value)`. */
    method UpdateField(f: Field)
      modifies this
      ensures working == WithField(old(working), f)
    {
      working := WithField(working, f);
    }

    /** `addChild`: nothing on a data node; otherwise appends a fresh data child. */
    method AddChild(freshId: string)
      modifies this
      ensures old(working).DataNode? ==> working == old(working)
      ensures old(working).HasChildren() ==>
        working == old(working).(children := old(working).children + [NewChild(freshId)])
    {
      if working.DataNode? {
        return;
      }
      UpdateField(ChildrenField(working.children + [NewChild(freshId)]));
    }

    /** `removeChild(id)`: nothing on a data node; otherwise drops every child with `id`. */
    method RemoveChild(id: string)
      modifies this
      ensures old(working).DataNode? ==> working == old(working)
      ensures old(working).HasChildren() ==>
        working == old(working).(children := WithoutId(old(working).children, id))
    {
      if working.DataNode? {
        return;
      }
      UpdateField(ChildrenField(WithoutId(working.children, id)));
    }
  }
}
