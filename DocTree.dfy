/** The document tree behind the timer: one heading (or the anonymous root)
    with its task lines, their completion flags and elapsed seconds, and its
    sub-headings.  This is the `Node` that the task views, the serialiser and
    the timers use; its definition file is not part of this model, so the
    three path operations the views call (`find_path`, `get_node`,
    `update_node`) are defined here from the way their callers use them. */
module DocTree {
  import opened Wrappers

  /** Child indices from the root down to a node; `[]` is the root. */
  type NodePath = seq<nat>

  /** `Duration` values are only ever built from and advanced by whole
      seconds, so they are `nat` seconds here. */
  datatype Node = Node(
    heading: Option<string>,
    content: seq<string>,
    completedTasks: seq<bool>,
    contentTimes: seq<nat>,
    totalTime: nat,
    children: seq<Node>)

  /** `Node::new()`: the anonymous root. */
  function EmptyRoot(): (r: Node)
    ensures r.heading == None && r.content == [] && r.children == []
  {
    Node(None, [], [], [], 0, [])
  }

  /** Every node's three task lists have the same length. */
  predicate WellFormed(n: Node)
    decreases n
  {
    |n.completedTasks| == |n.content| &&
    |n.contentTimes| == |n.content| &&
    forall i :: 0 <= i < |n.children| ==> WellFormed(n.children[i])
  }

  /** Every node of the subtree, `n` included, has a heading: true of every
      node the parser creates below the root. */
  predicate AllHeaded(n: Node)
    decreases n
  {
    n.heading.Some? && forall i :: 0 <= i < |n.children| ==> AllHeaded(n.children[i])
  }

  // ---------------------------------------------------------------------
  // Sums and conjunctions over lists

  function Sum(s: seq<nat>): nat
  {
    if |s| == 0 then 0 else Sum(s[..|s| - 1]) + s[|s| - 1]
  }

  lemma {:induction false} SumAppend(a: seq<nat>, b: seq<nat>)
    ensures Sum(a + b) == Sum(a) + Sum(b)
    decreases |b|
  {
    if |b| == 0 {
      assert a + b == a;
    } else {
      assert (a + b)[..|a + b| - 1] == a + b[..|b| - 1];
      SumAppend(a, b[..|b| - 1]);
    }
  }

  /** Replacing one element changes the sum by the difference. */
  lemma {:induction false} SumUpdate(s: seq<nat>, i: nat, v: nat)
    requires i < |s|
    ensures Sum(s[i := v]) + s[i] == Sum(s) + v
    decreases |s|
  {
    if i == |s| - 1 {
      assert s[i := v][..|s| - 1] == s[..|s| - 1];
    } else {
      assert s[i := v][..|s| - 1] == s[..|s| - 1][i := v];
      SumUpdate(s[..|s| - 1], i, v);
    }
  }

  predicate AllTrue(s: seq<bool>)
  {
    forall i :: 0 <= i < |s| ==> s[i]
  }

  // ---------------------------------------------------------------------
  // Time and completion rollup

  /** A subheading summary: whether everything under it is done, and how long
      it took. */
  datatype Entry = Entry(completed: bool, duration: nat)

  /** `extract_entry`: own task times plus the children's rolled-up durations;
      completed iff all own tasks and all children are completed. */
  function Rollup(n: Node): (r: Entry)
    ensures r.completed ==> AllTrue(n.completedTasks)
    ensures Sum(n.contentTimes) <= r.duration
    decreases n, 1, 0
  {
    Entry(AllTrue(n.completedTasks) && ChildrenCompleted(n, |n.children|),
          Sum(n.contentTimes) + ChildrenDuration(n, |n.children|))
  }

  /** Sum of the rolled-up durations of the first `k` children of `n`. */
  function ChildrenDuration(n: Node, k: nat): (r: nat)
    requires k <= |n.children|
    ensures forall i :: 0 <= i < k ==> Rollup(n.children[i]).duration <= r
    decreases n, 0, k
  {
    if k == 0 then 0 else ChildrenDuration(n, k - 1) + Rollup(n.children[k - 1]).duration
  }

  /** Whether the first `k` children of `n` all roll up as completed. */
  function ChildrenCompleted(n: Node, k: nat): (r: bool)
    requires k <= |n.children|
    ensures r <==> forall i :: 0 <= i < k ==> Rollup(n.children[i]).completed
    decreases n, 0, k
  {
    k == 0 || (ChildrenCompleted(n, k - 1) && Rollup(n.children[k - 1]).completed)
  }

  /** Reference definition: every task time in the subtree, pre-order. */
  function SubtreeTimes(n: Node): seq<nat>
    decreases n, 1, 0
  {
    n.contentTimes + ChildrenTimes(n, |n.children|)
  }

  function ChildrenTimes(n: Node, k: nat): seq<nat>
    requires k <= |n.children|
    decreases n, 0, k
  {
    if k == 0 then [] else ChildrenTimes(n, k - 1) + SubtreeTimes(n.children[k - 1])
  }

  /** Reference definition: every completion flag in the subtree, pre-order. */
  function SubtreeFlags(n: Node): seq<bool>
    decreases n, 1, 0
  {
    n.completedTasks + ChildrenFlags(n, |n.children|)
  }

  function ChildrenFlags(n: Node, k: nat): seq<bool>
    requires k <= |n.children|
    decreases n, 0, k
  {
    if k == 0 then [] else ChildrenFlags(n, k - 1) + SubtreeFlags(n.children[k - 1])
  }

  lemma AllTrueAppend(a: seq<bool>, b: seq<bool>)
    ensures AllTrue(a + b) <==> AllTrue(a) && AllTrue(b)
  {
    if AllTrue(a) && AllTrue(b) {
      forall i | 0 <= i < |a + b| ensures (a + b)[i] {
        if i >= |a| { assert (a + b)[i] == b[i - |a|]; }
      }
    }
    if AllTrue(a + b) {
      forall i | 0 <= i < |b| ensures b[i] { assert (a + b)[|a| + i] == b[i]; }
      forall i | 0 <= i < |a| ensures a[i] { assert (a + b)[i] == a[i]; }
    }
  }

  /** The rolled-up duration is the sum of every task time in the subtree, and
      the subtree is completed iff every task in it is. */
  lemma {:induction false} RollupMatchesSubtree(n: Node)
    ensures Rollup(n).duration == Sum(SubtreeTimes(n))
    ensures Rollup(n).completed <==> AllTrue(SubtreeFlags(n))
    decreases n, 1, 0
  {
    ChildrenRollupMatches(n, |n.children|);
    SumAppend(n.contentTimes, ChildrenTimes(n, |n.children|));
    AllTrueAppend(n.completedTasks, ChildrenFlags(n, |n.children|));
  }

  lemma {:induction false} ChildrenRollupMatches(n: Node, k: nat)
    requires k <= |n.children|
    ensures ChildrenDuration(n, k) == Sum(ChildrenTimes(n, k))
    ensures ChildrenCompleted(n, k) <==> AllTrue(ChildrenFlags(n, k))
    decreases n, 0, k
  {
    if k > 0 {
      ChildrenRollupMatches(n, k - 1);
      RollupMatchesSubtree(n.children[k - 1]);
      SumAppend(ChildrenTimes(n, k - 1), SubtreeTimes(n.children[k - 1]));
      AllTrueAppend(ChildrenFlags(n, k - 1), SubtreeFlags(n.children[k - 1]));
    }
  }

  // ---------------------------------------------------------------------
  // Path addressing

  /** `get_node`: walk the child indices; `None` once an index is out of range. */
  function GetNode(root: Node, path: NodePath): (r: Option<Node>)
    ensures r.Some? ==> Occurs(r.value, root)
    decreases |path|
  {
    if |path| == 0 then Some(root)
    else if path[0] < |root.children| then GetNode(root.children[path[0]], path[1..])
    else None
  }

  /** `target` is `root` or lies somewhere below it. */
  predicate Occurs(target: Node, root: Node)
    decreases root
  {
    target == root || exists i :: 0 <= i < |root.children| && Occurs(target, root.children[i])
  }

  /** `find_path`: depth-first, pre-order search by structural equality; the
      path to the first node equal to `target`. */
  function FindPath(root: Node, target: Node): (r: Option<NodePath>)
    ensures r == Some([]) <==> root == target
    decreases root, 1, 0
  {
    if root == target then Some([]) else FindPathFrom(root, 0, target)
  }

  /** The search continued over the children of `parent` from index `i` on. */
  function FindPathFrom(parent: Node, i: nat, target: Node): (r: Option<NodePath>)
    requires i <= |parent.children|
    ensures r.Some? ==> |r.value| > 0 && i <= r.value[0] < |parent.children|
    decreases parent, 0, |parent.children| - i
  {
    if i == |parent.children| then None
    else match FindPath(parent.children[i], target)
      case Some(p) => Some([i] + p)
      case None => FindPathFrom(parent, i + 1, target)
  }

  /** What every caller of `find_path` relies on: the path it returns leads
      back to the node it was asked for. */
  lemma {:induction false} FindPathSound(root: Node, target: Node)
    ensures FindPath(root, target).Some? ==> GetNode(root, FindPath(root, target).value) == Some(target)
    decreases root, 1, 0
  {
    if root != target {
      FindPathFromSound(root, 0, target);
    }
  }

  lemma {:induction false} FindPathFromSound(parent: Node, i: nat, target: Node)
    requires i <= |parent.children|
    ensures FindPathFrom(parent, i, target).Some? ==>
              GetNode(parent, FindPathFrom(parent, i, target).value) == Some(target)
    decreases parent, 0, |parent.children| - i
  {
    if i < |parent.children| {
      FindPathSound(parent.children[i], target);
      match FindPath(parent.children[i], target)
      case Some(p) =>
        assert ([i] + p)[1..] == p;
      case None =>
        FindPathFromSound(parent, i + 1, target);
    }
  }

  /** The search fails exactly when `target` is nowhere in the tree. */
  lemma {:induction false} FindPathComplete(root: Node, target: Node)
    ensures FindPath(root, target).Some? <==> Occurs(target, root)
    decreases root, 1, 0
  {
    if root != target {
      FindPathFromComplete(root, 0, target);
    }
  }

  lemma {:induction false} FindPathFromComplete(parent: Node, i: nat, target: Node)
    requires i <= |parent.children|
    ensures FindPathFrom(parent, i, target).Some? <==>
              exists j :: i <= j < |parent.children| && Occurs(target, parent.children[j])
    decreases parent, 0, |parent.children| - i
  {
    if i < |parent.children| {
      FindPathComplete(parent.children[i], target);
      FindPathFromComplete(parent, i + 1, target);
      if exists j :: i <= j < |parent.children| && Occurs(target, parent.children[j]) {
        var j :| i <= j < |parent.children| && Occurs(target, parent.children[j]);
        if j > i {
          assert exists j' :: i + 1 <= j' < |parent.children| && Occurs(target, parent.children[j']);
        }
      }
    }
  }

  /** Replace the node at a resolving path. */
  function SetAt(root: Node, path: NodePath, m: Node): Node
    requires GetNode(root, path).Some?
    decreases |path|
  {
    if |path| == 0 then m
    else root.(children := root.children[path[0] := SetAt(root.children[path[0]], path[1..], m)])
  }

  lemma {:induction false} SetAtGet(root: Node, path: NodePath, m: Node)
    requires GetNode(root, path).Some?
    ensures GetNode(SetAt(root, path, m), path) == Some(m)
    decreases |path|
  {
    if |path| > 0 {
      SetAtGet(root.children[path[0]], path[1..], m);
    }
  }

  /** Every proper prefix of the written path still resolves afterwards, to a
      node with the same heading as before. */
  lemma {:induction false} SetAtKeepsPrefix(root: Node, path: NodePath, m: Node, k: nat)
    requires GetNode(root, path).Some? && k < |path|
    ensures GetNode(SetAt(root, path, m), path[..k]).Some?
    ensures GetNode(root, path[..k]).Some?
    ensures GetNode(SetAt(root, path, m), path[..k]).value.heading == GetNode(root, path[..k]).value.heading
    decreases |path|
  {
    if k > 0 {
      assert path[..k][1..] == path[1..][..k - 1];
      SetAtKeepsPrefix(root.children[path[0]], path[1..], m, k - 1);
    }
  }

  /** The root with `m` written where `find_path` finds `target`. */
  function WriteBack(root: Node, target: Node, m: Node): (r: Node)
    requires FindPath(root, target).Some?
    ensures GetNode(root, FindPath(root, target).value) == Some(target)
    ensures GetNode(r, FindPath(root, target).value) == Some(m)
  {
    FindPathSound(root, target);
    SetAtGet(root, FindPath(root, target).value, m);
    SetAt(root, FindPath(root, target).value, m)
  }

  /** The fields `update_node` copies from the displayed node: the times, the
      cached total and the completion flags; heading, content and children of
      the target are kept. */
  function Commit(target: Node, source: Node): Node
  {
    target.(contentTimes := source.contentTimes, totalTime := source.totalTime,
            completedTasks := source.completedTasks)
  }

  datatype PathError = PathNotFound

  /** `update_node`: overwrite the time and completion fields of the node at
      `path`, or fail when the path does not resolve. */
  function UpdateNode(root: Node, path: NodePath, source: Node): (r: Result<Node, PathError>)
    ensures r.Err? <==> GetNode(root, path).None?
    ensures r.Ok? ==> GetNode(r.value, path) == Some(Commit(GetNode(root, path).value, source))
  {
    match GetNode(root, path)
    case None => Err(PathNotFound)
    case Some(target) =>
      SetAtGet(root, path, Commit(target, source));
      Ok(SetAt(root, path, Commit(target, source)))
  }

  lemma {:induction false} SetAtWellFormed(root: Node, path: NodePath, m: Node)
    requires GetNode(root, path).Some? && WellFormed(root) && WellFormed(m)
    ensures WellFormed(SetAt(root, path, m))
    decreases |path|
  {
    if |path| > 0 {
      SetAtWellFormed(root.children[path[0]], path[1..], m);
      var r := SetAt(root, path, m);
      forall i | 0 <= i < |r.children| ensures WellFormed(r.children[i]) {
        if i != path[0] { assert r.children[i] == root.children[i]; }
      }
    }
  }

  lemma {:induction false} GetNodeWellFormed(root: Node, path: NodePath)
    requires GetNode(root, path).Some? && WellFormed(root)
    ensures WellFormed(GetNode(root, path).value)
    decreases |path|
  {
    if |path| > 0 {
      GetNodeWellFormed(root.children[path[0]], path[1..]);
    }
  }

  /** Committing lists as long as the target's content keeps every node's
      three lists aligned. */
  lemma UpdateNodeWellFormed(root: Node, path: NodePath, source: Node)
    requires WellFormed(root) && GetNode(root, path).Some?
    requires |source.contentTimes| == |GetNode(root, path).value.content|
    requires |source.completedTasks| == |GetNode(root, path).value.content|
    ensures UpdateNode(root, path, source).Ok?
    ensures WellFormed(UpdateNode(root, path, source).value)
  {
    var target := GetNode(root, path).value;
    GetNodeWellFormed(root, path);
    assert WellFormed(Commit(target, source)) by {
      var c := Commit(target, source);
      assert c.children == target.children;
    }
    SetAtWellFormed(root, path, Commit(target, source));
  }

  /** Every node strictly below `n` has a heading. */
  predicate ChildrenHeaded(n: Node)
  {
    forall i :: 0 <= i < |n.children| ==> AllHeaded(n.children[i])
  }

  /** Any node reached from a root whose descendants are all headed has
      headed descendants too. */
  lemma {:induction false} GetNodeChildrenHeaded(root: Node, path: NodePath)
    requires ChildrenHeaded(root) && GetNode(root, path).Some?
    ensures ChildrenHeaded(GetNode(root, path).value)
    ensures |path| > 0 ==> GetNode(root, path).value.heading.Some?
    decreases |path|
  {
    if |path| > 0 {
      GetNodeChildrenHeaded(root.children[path[0]], path[1..]);
    }
  }

  /** `update_node` keeps every heading below the root in place. */
  lemma {:induction false} CommitKeepsHeadings(root: Node, path: NodePath, source: Node)
    requires ChildrenHeaded(root) && GetNode(root, path).Some?
    ensures ChildrenHeaded(SetAt(root, path, Commit(GetNode(root, path).value, source)))
    ensures SetAt(root, path, Commit(GetNode(root, path).value, source)).heading == root.heading
    decreases |path|
  {
    if |path| > 0 {
      var c := root.children[path[0]];
      assert GetNode(root, path) == GetNode(c, path[1..]);
      CommitKeepsHeadings(c, path[1..], source);
      var r := SetAt(root, path, Commit(GetNode(root, path).value, source));
      forall i | 0 <= i < |r.children| ensures AllHeaded(r.children[i]) {
        if i == path[0] {
          assert r.children[i] == SetAt(c, path[1..], Commit(GetNode(c, path[1..]).value, source));
        }
      }
    }
  }
}
