/** A generic tree of values (`src/task_timer/nary_tree/node.rs`) and its
    indented pre-order printout. */
module NaryTree {

  /** A subtree handed to `insert` is moved into its parent, so the children
      are values. */
  datatype Tree<T> = Tree(val: T, children: seq<Tree<T>>)

  class NaryNode<T> {
    var val: T
    var children: seq<Tree<T>>

    /** `Node::new`. */
    constructor (val: T)
      ensures this.val == val && children == []
    {
      this.val := val;
      children := [];
    }

    /** `insert`: the new subtree becomes the last child. */
    method Insert(child: Tree<T>)
      modifies this
      ensures children == old(children) + [child]
      ensures val == old(val)
    {
      children := children + [child];
    }

    /** The tree this node stands for. */
    function AsTree(): Tree<T>
      reads this
    {
      Tree(val, children)
    }
  }

  /** Two blanks per level. */
  function Indent(depth: nat): (r: string)
    ensures |r| == 2 * depth && forall i :: 0 <= i < |r| ==> r[i] == ' '
  {
    if depth == 0 then "" else Indent(depth - 1) + "  "
  }

  /** `print_tree`: the node's value on a line indented by its depth, then
      each child's printout one level deeper.  `show` is the value's
      `Display`. */
  function PrintTree<T>(t: Tree<T>, depth: nat, show: T -> string): string
    decreases t, 1, 0
  {
    Indent(depth) + show(t.val) + "\n" + PrintChildren(t, |t.children|, depth + 1, show)
  }

  function PrintChildren<T>(t: Tree<T>, k: nat, depth: nat, show: T -> string): string
    requires k <= |t.children|
    decreases t, 0, k
  {
    if k == 0 then "" else PrintChildren(t, k - 1, depth, show) + PrintTree(t.children[k - 1], depth, show)
  }

  /** Reference definition: every value of the tree with its depth, parent
      before children, children in order. */
  function Preorder<T>(t: Tree<T>, depth: nat): seq<(nat, T)>
    decreases t, 1, 0
  {
    [(depth, t.val)] + ChildrenPreorder(t, |t.children|, depth + 1)
  }

  function ChildrenPreorder<T>(t: Tree<T>, k: nat, depth: nat): seq<(nat, T)>
    requires k <= |t.children|
    decreases t, 0, k
  {
    if k == 0 then [] else ChildrenPreorder(t, k - 1, depth) + Preorder(t.children[k - 1], depth)
  }

  /** The printout of a list of (depth, value) entries, one line each. */
  function Lines<T>(entries: seq<(nat, T)>, show: T -> string): string
  {
    if |entries| == 0 then ""
    else Lines(entries[..|entries| - 1], show) +
         Indent(entries[|entries| - 1].0) + show(entries[|entries| - 1].1) + "\n"
  }

  lemma {:induction false} LinesAppend<T>(a: seq<(nat, T)>, b: seq<(nat, T)>, show: T -> string)
    ensures Lines(a + b, show) == Lines(a, show) + Lines(b, show)
    decreases |b|
  {
    if |b| > 0 {
      assert (a + b)[..|a + b| - 1] == a + b[..|b| - 1];
      LinesAppend(a, b[..|b| - 1], show);
    } else {
      assert a + b == a;
    }
  }

  /** `print_tree` prints the pre-order list of values, each indented by
      two blanks per level below the starting depth. */
  lemma {:induction false} PrintTreeIsPreorder<T>(t: Tree<T>, depth: nat, show: T -> string)
    ensures PrintTree(t, depth, show) == Lines(Preorder(t, depth), show)
    decreases t, 1, 0
  {
    ChildrenPrintIsPreorder(t, |t.children|, depth + 1, show);
    LinesAppend([(depth, t.val)], ChildrenPreorder(t, |t.children|, depth + 1), show);
    assert Lines([(depth, t.val)], show) == Indent(depth) + show(t.val) + "\n" by {
      assert [(depth, t.val)][..0] == [];
    }
  }

  lemma {:induction false} ChildrenPrintIsPreorder<T>(t: Tree<T>, k: nat, depth: nat, show: T -> string)
    requires k <= |t.children|
    ensures PrintChildren(t, k, depth, show) == Lines(ChildrenPreorder(t, k, depth), show)
    decreases t, 0, k
  {
    if k > 0 {
      ChildrenPrintIsPreorder(t, k - 1, depth, show);
      PrintTreeIsPreorder(t.children[k - 1], depth, show);
      LinesAppend(ChildrenPreorder(t, k - 1, depth), Preorder(t.children[k - 1], depth), show);
    }
  }

  function Size<T>(t: Tree<T>): nat
    decreases t, 1, 0
  {
    1 + ChildrenSize(t, |t.children|)
  }

  function ChildrenSize<T>(t: Tree<T>, k: nat): nat
    requires k <= |t.children|
    decreases t, 0, k
  {
    if k == 0 then 0 else ChildrenSize(t, k - 1) + Size(t.children[k - 1])
  }

  /** The pre-order list has one entry per node, starts with the root at the
      starting depth, and every other entry is deeper. */
  lemma {:induction false} PreorderShape<T>(t: Tree<T>, depth: nat)
    ensures |Preorder(t, depth)| == Size(t)
    ensures Preorder(t, depth)[0] == (depth, t.val)
    ensures forall i :: 0 < i < |Preorder(t, depth)| ==> Preorder(t, depth)[i].0 > depth
    decreases t, 1, 0
  {
    ChildrenPreorderShape(t, |t.children|, depth + 1);
  }

  lemma {:induction false} ChildrenPreorderShape<T>(t: Tree<T>, k: nat, depth: nat)
    requires k <= |t.children|
    ensures |ChildrenPreorder(t, k, depth)| == ChildrenSize(t, k)
    ensures forall i :: 0 <= i < |ChildrenPreorder(t, k, depth)| ==> ChildrenPreorder(t, k, depth)[i].0 >= depth
    decreases t, 0, k
  {
    if k > 0 {
      ChildrenPreorderShape(t, k - 1, depth);
      PreorderShape(t.children[k - 1], depth);
    }
  }
}
