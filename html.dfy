/** The parsed-document tree the strip filters walk (the `html.Node` of the
    go.net/html package): a value form, `Tree`, and the mutable node objects,
    `Node`, whose fields the filters rewrite in place. */
module Html {
  import opened Seqs

  datatype NodeType = ErrorNode | TextNode | DocumentNode | ElementNode | CommentNode | DoctypeNode

  datatype Attribute = Attribute(namespace: string, key: string, val: string)

  /** A node with its children in document order. */
  datatype Tree = Tree(kind: NodeType, data: string, attrs: seq<Attribute>, children: seq<Tree>)

  /** What a node holds apart from its children. */
  datatype Label = Label(kind: NodeType, data: string, attrs: seq<Attribute>)

  function LabelOf(t: Tree): Label
  {
    Label(t.kind, t.data, t.attrs)
  }

  /** The labels of every node of `t`, in pre-order: a node, then each child's
      subtree in turn (the FirstChild/NextSibling walk). */
  function Labels(t: Tree): (ls: seq<Label>)
    ensures |ls| >= 1 && ls[0] == LabelOf(t)
    decreases t
  {
    [LabelOf(t)] + Flatten(seq(|t.children|, i requires 0 <= i < |t.children| => Labels(t.children[i])))
  }

  /** A node object. Sibling and parent links are represented by the order of
      `children`; `tree` is the value of the subtree and `Repr` the objects
      it is made of. */
  class Node {
    var kind: NodeType
    var data: string
    var attr: seq<Attribute>
    var children: seq<Node>
    ghost var tree: Tree
    ghost var Repr: set<object>

    /** The ownership shape: each child's objects lie inside this node's,
        apart from this node and from each other. */
    ghost predicate Owns()
      reads this, Repr
    {
      && this in Repr
      && (forall i :: 0 <= i < |children| ==>
            && children[i] in Repr
            && children[i].Repr <= Repr
            && this !in children[i].Repr)
      && (forall i, j :: 0 <= i < j < |children| ==> children[i].Repr !! children[j].Repr)
    }

    ghost predicate Valid()
      reads this, Repr
      decreases Repr
    {
      && Owns()
      && tree.kind == kind && tree.data == data && tree.attrs == attr
      && |tree.children| == |children|
      && (forall i :: 0 <= i < |children| ==>
            && children[i].tree == tree.children[i]
            && children[i].Valid())
    }

    constructor (kind: NodeType, data: string, attr: seq<Attribute>, children: seq<Node>,
                 ghost tree: Tree, ghost parts: set<object>)
      ensures this.kind == kind && this.data == data && this.attr == attr
      ensures this.children == children && this.tree == tree
      ensures Repr == {this} + parts
    {
      this.kind := kind;
      this.data := data;
      this.attr := attr;
      this.children := children;
      this.tree := tree;
      this.Repr := {this} + parts;
    }
  }

  /** What a valid node knows of its `i`-th child. */
  lemma ChildOf(n: Node, i: int)
    requires n.Valid() && 0 <= i < |n.children|
    ensures n.children[i].Valid() && n.children[i].tree == n.tree.children[i]
    ensures n.children[i].Repr < n.Repr
  {
  }

  /** Allocates the node objects of a tree (what html.Parse hands back). */
  method Build(t: Tree) returns (n: Node)
    ensures n.Valid() && fresh(n.Repr) && n.tree == t
    decreases t
  {
    var cs: seq<Node> := [];
    ghost var parts: set<object> := {};
    var i := 0;
    while i < |t.children|
      invariant 0 <= i <= |t.children| && |cs| == i
      invariant fresh(parts)
      invariant forall k :: 0 <= k < i ==>
        cs[k].Valid() && cs[k].tree == t.children[k] && cs[k].Repr <= parts
      invariant forall k, l :: 0 <= k < l < i ==> cs[k].Repr !! cs[l].Repr
    {
      var c := Build(t.children[i]);
      cs := cs + [c];
      parts := parts + c.Repr;
      i := i + 1;
    }
    n := new Node(t.kind, t.data, t.attrs, cs, t, parts);
  }

  /** Reads the node objects back into a value, as a renderer walking them
      sees them. */
  method Snapshot(n: Node) returns (t: Tree)
    requires n.Valid()
    ensures t == n.tree
    decreases n.Repr
  {
    var cs: seq<Tree> := [];
    var i := 0;
    while i < |n.children|
      invariant 0 <= i <= |n.children| && |cs| == i
      invariant forall k :: 0 <= k < i ==> cs[k] == n.tree.children[k]
    {
      var c := Snapshot(n.children[i]);
      cs := cs + [c];
      i := i + 1;
    }
    t := Tree(n.kind, n.data, n.attr, cs);
  }
}
