/** The navigation controller of the home view
    (`src/task_timer/views/home/main_view.rs`): the displayed node flattened
    into a heading line, its task lines and one line per child heading, the
    selected line, and moving down into a child or up to the parent. */
module HomeView {
  import opened Wrappers
  import opened DocTree
  import opened Breadcrumbs
  import opened Keys

  /** What a display line shows: a heading, the task at an index of the
      node's content, or a child heading with the child's path. */
  datatype RenderedNodeType = Heading(name: string) | Task(index: nat) | ChildHeading(childPath: NodePath)

  /** A display line and the path of the node it belongs to. */
  datatype RenderedNode = RenderedNode(nodeType: RenderedNodeType, nodePath: NodePath)

  const NotOnTree := "Comparing nodes that do not belong on the same tree when collecting display data"
  const RootPlaceholder := "Root Node Placeholder"

  /** The first line: the node's heading, or a placeholder with an empty path
      for a node without one. */
  function HeadingEntry(node: Node, path: NodePath): (r: RenderedNode)
    ensures r.nodeType.Heading?
  {
    if node.heading.Some? then RenderedNode(Heading(node.heading.value), path)
    else RenderedNode(Heading(RootPlaceholder), [])
  }

  function TaskEntries(node: Node, path: NodePath): (r: seq<RenderedNode>)
    ensures |r| == |node.content|
    ensures forall i :: 0 <= i < |r| ==> r[i] == RenderedNode(Task(i), path)
  {
    seq(|node.content|, i requires 0 <= i < |node.content| => RenderedNode(Task(i), path))
  }

  /** The first `k` children can be found in `root`. */
  predicate ChildrenFound(root: Node, node: Node, k: nat)
    requires k <= |node.children|
  {
    forall j :: 0 <= j < k ==> FindPath(root, node.children[j]).Some?
  }

  function ChildEntries(root: Node, node: Node, path: NodePath, k: nat): (r: seq<RenderedNode>)
    requires k <= |node.children| && ChildrenFound(root, node, k)
    ensures |r| == k
    ensures forall j :: 0 <= j < k ==> r[j] == RenderedNode(ChildHeading(FindPath(root, node.children[j]).value), path)
  {
    seq(k, j requires 0 <= j < k => RenderedNode(ChildHeading(FindPath(root, node.children[j]).value), path))
  }

  /** What `collect_display_data` answers: an error when the node or one of
      its children is not on the tree, else the heading line, the task lines
      and the child lines. */
  function Displayed(root: Node, node: Node): Result<seq<RenderedNode>, string>
  {
    var p := FindPath(root, node);
    if p.None? || !ChildrenFound(root, node, |node.children|) then Err(NotOnTree)
    else Ok([HeadingEntry(node, p.value)] + TaskEntries(node, p.value) +
            ChildEntries(root, node, p.value, |node.children|))
  }

  /** `collect_display_data`. */
  method CollectDisplayData(root: Node, node: Node) returns (r: Result<seq<RenderedNode>, string>)
    ensures r == Displayed(root, node)
  {
    var p := FindPath(root, node);
    if p.None? {
      return Err(NotOnTree);
    }
    var nodePath := p.value;
    var data := [HeadingEntry(node, nodePath)];
    var i := 0;
    while i < |node.content|
      invariant 0 <= i <= |node.content|
      invariant data == [HeadingEntry(node, nodePath)] + TaskEntries(node, nodePath)[..i]
    {
      data := data + [RenderedNode(Task(i), nodePath)];
      i := i + 1;
    }
    assert TaskEntries(node, nodePath)[..i] == TaskEntries(node, nodePath);
    var k := 0;
    while k < |node.children|
      invariant 0 <= k <= |node.children|
      invariant ChildrenFound(root, node, k)
      invariant data == [HeadingEntry(node, nodePath)] + TaskEntries(node, nodePath) + ChildEntries(root, node, nodePath, k)
    {
      var childPath := FindPath(root, node.children[k]);
      if childPath.None? {
        return Err(NotOnTree);
      }
      data := data + [RenderedNode(ChildHeading(childPath.value), nodePath)];
      k := k + 1;
    }
    return Ok(data);
  }

  /** A child of a node on the tree is on the tree. */
  lemma {:induction false} OccursChild(node: Node, root: Node, j: nat)
    requires Occurs(node, root) && j < |node.children|
    ensures Occurs(node.children[j], root)
    decreases root
  {
    if node != root {
      var i :| 0 <= i < |root.children| && Occurs(node, root.children[i]);
      OccursChild(node, root.children[i], j);
    }
  }

  /** Collecting fails exactly when the node is not on the tree: once the
      node is found its children always are. */
  lemma DisplayedFailsOffTree(root: Node, node: Node)
    ensures Displayed(root, node).Err? <==> !Occurs(node, root)
  {
    FindPathComplete(root, node);
    if Occurs(node, root) {
      forall j | 0 <= j < |node.children|
        ensures FindPath(root, node.children[j]).Some?
      {
        OccursChild(node, root, j);
        FindPathComplete(root, node.children[j]);
      }
    }
  }

  /** The number of task lines. */
  function TaskCount(data: seq<RenderedNode>): nat
  {
    if |data| == 0 then 0
    else TaskCount(data[..|data| - 1]) + (if data[|data| - 1].nodeType.Task? then 1 else 0)
  }

  /** The child paths of the child-heading lines, in order. */
  function ChildPaths(data: seq<RenderedNode>): seq<NodePath>
  {
    if |data| == 0 then []
    else ChildPaths(data[..|data| - 1]) +
         (if data[|data| - 1].nodeType.ChildHeading? then [data[|data| - 1].nodeType.childPath] else [])
  }

  /** The name of the last heading line. */
  function LastHeading(data: seq<RenderedNode>): Option<string>
  {
    if |data| == 0 then None
    else if data[|data| - 1].nodeType.Heading? then Some(data[|data| - 1].nodeType.name)
    else LastHeading(data[..|data| - 1])
  }

  lemma {:induction false} CountsAppend(a: seq<RenderedNode>, b: seq<RenderedNode>)
    ensures TaskCount(a + b) == TaskCount(a) + TaskCount(b)
    ensures ChildPaths(a + b) == ChildPaths(a) + ChildPaths(b)
    ensures LastHeading(b).Some? ==> LastHeading(a + b) == LastHeading(b)
    ensures LastHeading(b).None? ==> LastHeading(a + b) == LastHeading(a)
    decreases |b|
  {
    if |b| == 0 {
      assert a + b == a;
    } else {
      assert (a + b)[..|a + b| - 1] == a + b[..|b| - 1];
      CountsAppend(a, b[..|b| - 1]);
    }
  }

  lemma {:induction false} TaskEntriesCounts(node: Node, path: NodePath, n: nat)
    requires n <= |node.content|
    ensures TaskCount(TaskEntries(node, path)[..n]) == n
    ensures ChildPaths(TaskEntries(node, path)[..n]) == []
    ensures LastHeading(TaskEntries(node, path)[..n]) == None
  {
    if n > 0 {
      assert TaskEntries(node, path)[..n][..n - 1] == TaskEntries(node, path)[..n - 1];
      TaskEntriesCounts(node, path, n - 1);
    }
  }

  lemma {:induction false} ChildEntriesCounts(root: Node, node: Node, path: NodePath, k: nat)
    requires k <= |node.children| && ChildrenFound(root, node, k)
    ensures TaskCount(ChildEntries(root, node, path, k)) == 0
    ensures |ChildPaths(ChildEntries(root, node, path, k))| == k
    ensures forall j :: 0 <= j < k ==>
      ChildPaths(ChildEntries(root, node, path, k))[j] == FindPath(root, node.children[j]).value
    ensures LastHeading(ChildEntries(root, node, path, k)) == None
  {
    if k > 0 {
      assert ChildEntries(root, node, path, k)[..k - 1] == ChildEntries(root, node, path, k - 1);
      ChildEntriesCounts(root, node, path, k - 1);
    }
  }

  /** The collected lines hold one heading, one task line per content entry
      and, in order, the path of every child. */
  lemma DisplayedShape(root: Node, node: Node)
    requires Displayed(root, node).Ok?
    ensures |Displayed(root, node).value| == 1 + |node.content| + |node.children|
    ensures TaskCount(Displayed(root, node).value) == |node.content|
    ensures |ChildPaths(Displayed(root, node).value)| == |node.children|
    ensures forall j :: 0 <= j < |node.children| ==>
      ChildPaths(Displayed(root, node).value)[j] == FindPath(root, node.children[j]).value
    ensures LastHeading(Displayed(root, node).value) ==
      Some(if node.heading.Some? then node.heading.value else RootPlaceholder)
  {
    var path := FindPath(root, node).value;
    var t := TaskEntries(node, path);
    var c := ChildEntries(root, node, path, |node.children|);
    TaskEntriesCounts(node, path, |t|);
    assert t[..|t|] == t;
    ChildEntriesCounts(root, node, path, |node.children|);
    LinesShape(HeadingEntry(node, path), t, c);
  }

  /** A heading line, then lines with only tasks, then lines with only child
      headings: the counts come from the two blocks and the heading is the
      first line's. */
  lemma LinesShape(h: RenderedNode, t: seq<RenderedNode>, c: seq<RenderedNode>)
    requires h.nodeType.Heading?
    requires TaskCount(t) == |t| && ChildPaths(t) == [] && LastHeading(t) == None
    requires TaskCount(c) == 0 && LastHeading(c) == None
    ensures TaskCount([h] + t + c) == |t|
    ensures ChildPaths([h] + t + c) == ChildPaths(c)
    ensures LastHeading([h] + t + c) == Some(h.nodeType.name)
  {
    assert [h][..0] == [];
    CountsAppend([h], t);
    CountsAppend([h] + t, c);
  }

  /** One more line of the prefix: the counts grow by that line's part, and
      the prefix's child paths lead those of the whole. */
  lemma {:induction false} PrefixStep(data: seq<RenderedNode>, i: nat)
    requires i < |data|
    ensures TaskCount(data[..i + 1]) == TaskCount(data[..i]) + (if data[i].nodeType.Task? then 1 else 0)
    ensures ChildPaths(data[..i + 1]) ==
              ChildPaths(data[..i]) + (if data[i].nodeType.ChildHeading? then [data[i].nodeType.childPath] else [])
    ensures ChildPaths(data[..i + 1]) <= ChildPaths(data)
  {
    assert data[..i + 1][..i] == data[..i];
    CountsAppend(data[..i + 1], data[i + 1..]);
    assert data[..i + 1] + data[i + 1..] == data;
  }

  /** What `get_subheading_path` answers: the child path of the child line at
      position `pos`, counting lines from 1 after the task lines. */
  function SubheadingPath(data: seq<RenderedNode>, pos: nat): (r: Option<NodePath>)
    ensures r.Some? <==> TaskCount(data) + 1 <= pos <= TaskCount(data) + |ChildPaths(data)|
  {
    var t := TaskCount(data);
    if t + 1 <= pos && pos - t - 1 < |ChildPaths(data)| then Some(ChildPaths(data)[pos - t - 1]) else None
  }

  /** On collected lines, the line after the tasks and `k` child lines leads
      to the `k`-th child. */
  lemma SubheadingPathLeadsToChild(root: Node, node: Node, k: nat)
    requires Displayed(root, node).Ok? && k < |node.children|
    ensures SubheadingPath(Displayed(root, node).value, |node.content| + k + 1).Some?
    ensures GetNode(root, SubheadingPath(Displayed(root, node).value, |node.content| + k + 1).value) ==
      Some(node.children[k])
  {
    DisplayedShape(root, node);
    FindPathSound(root, node.children[k]);
  }

  class MainView {
    var rootNode: Node
    var displayedNode: Node
    var displayData: seq<RenderedNode>
    var selectedLine: nat
    var contentHeight: nat
    var navBar: NavigationBar

    /** `select_line(lineNum)`: the line is taken iff it lies within the
        content; nothing else changes. */
    twostate predicate SelectionMoved(lineNum: int)
      reads this, navBar
    {
      rootNode == old(rootNode) && displayedNode == old(displayedNode) && displayData == old(displayData) &&
      contentHeight == old(contentHeight) && navBar == old(navBar) && unchanged(navBar) &&
      selectedLine == if 0 < lineNum <= old(contentHeight) then lineNum else old(selectedLine)
    }

    /** Moving to node `n` with the trail `trail` to follow: `n` is displayed
        in any case; when its lines can be collected they replace the old
        ones, the content height is their number less the heading, the first
        line is selected and the trail is taken; otherwise the lines, the
        height, the selection and the trail are kept. */
    twostate predicate MovedTo(n: Node, trail: seq<string>)
      reads this, navBar
    {
      displayedNode == n &&
      match Displayed(old(rootNode), n)
      case Ok(data) =>
        displayData == data && contentHeight == |data| - 1 && selectedLine == 1 && navBar.breadcrumbs == trail
      case Err(_) =>
        displayData == old(displayData) && contentHeight == old(contentHeight) &&
        selectedLine == old(selectedLine) && navBar.breadcrumbs == old(navBar.breadcrumbs)
    }

    /** `enter_prev_node` seen from the view: nothing changes when the
        displayed node or its parent cannot be found; otherwise the view
        moves to the parent and drops the last breadcrumb. */
    twostate predicate EnteredParent()
      reads this, navBar
    {
      rootNode == old(rootNode) && navBar == old(navBar) && navBar.backText == old(navBar.backText) &&
      match FindPath(old(rootNode), old(displayedNode))
      case None => unchanged(this) && unchanged(navBar)
      case Some(path) =>
        match GetNode(old(rootNode), Popped(path))
        case None => unchanged(this) && unchanged(navBar)
        case Some(parent) => MovedTo(parent, Popped(old(navBar.breadcrumbs)))
    }

    /** What `enter_prev_node` answers. */
    twostate predicate ParentOutcome(new r: Result<(), string>)
      reads this
    {
      match FindPath(old(rootNode), old(displayedNode))
      case None => r == Err(NotOnTree)
      case Some(path) =>
        match GetNode(old(rootNode), Popped(path))
        case None => r == Err("Failed to convert node path to node when entering previous heading")
        case Some(parent) => r == if Displayed(old(rootNode), parent).Ok? then Ok(()) else Err(NotOnTree)
    }

    /** `enter_next_node` seen from the view: nothing changes when no child
        line is selected or its path leads nowhere; otherwise the view moves
        to the child and the last heading of its lines joins the trail. */
    twostate predicate EnteredChild()
      reads this, navBar
    {
      rootNode == old(rootNode) && navBar == old(navBar) && navBar.backText == old(navBar.backText) &&
      match SubheadingPath(old(displayData), old(selectedLine))
      case None => unchanged(this) && unchanged(navBar)
      case Some(path) =>
        match GetNode(old(rootNode), path)
        case None => unchanged(this) && unchanged(navBar)
        case Some(child) =>
          MovedTo(child, old(navBar.breadcrumbs) +
            match Displayed(old(rootNode), child)
            case Ok(data) => (if LastHeading(data).Some? then [Crumb(LastHeading(data).value)] else [])
            case Err(_) => [])
    }

    /** What `enter_next_node` answers. */
    twostate predicate ChildOutcome(new r: Result<(), string>)
      reads this
    {
      match SubheadingPath(old(displayData), old(selectedLine))
      case None => r == Err("Failed to retrieve subheading from display data when entering subheading")
      case Some(path) =>
        match GetNode(old(rootNode), path)
        case None => r == Err("Failed to convert node path to node when entering subheading")
        case Some(child) => r == if Displayed(old(rootNode), child).Ok? then Ok(()) else Err(NotOnTree)
    }

    /** `MainView::new`. */
    constructor ()
      ensures rootNode == EmptyRoot() && displayedNode == EmptyRoot() && displayData == []
      ensures selectedLine == 1 && contentHeight == 0 && navBar.breadcrumbs == []
    {
      rootNode := EmptyRoot();
      displayedNode := EmptyRoot();
      displayData := [];
      selectedLine := 1;
      contentHeight := 0;
      navBar := new NavigationBar();
    }

    /** `update_display_data`: the node is displayed in any case; on success
        its lines replace the old ones and the heading line does not count
        toward the content height. */
    method UpdateDisplayData(newDisplayNode: Node) returns (r: Result<(), string>)
      modifies this
      ensures displayedNode == newDisplayNode
      ensures Displayed(rootNode, newDisplayNode).Ok? ==>
        r == Ok(()) && displayData == Displayed(rootNode, newDisplayNode).value &&
        contentHeight == |displayData| - 1
      ensures Displayed(rootNode, newDisplayNode).Err? ==>
        r == Err(NotOnTree) && displayData == old(displayData) && contentHeight == old(contentHeight)
      ensures rootNode == old(rootNode) && selectedLine == old(selectedLine) && navBar == old(navBar)
    {
      displayedNode := newDisplayNode;
      var res := CollectDisplayData(rootNode, displayedNode);
      match res {
        case Ok(newData) =>
          displayData := newData;
          contentHeight := |displayData| - 1;
          r := Ok(());
        case Err(e) =>
          r := Err(e);
      }
    }

    /** `update`: takes a new tree, lines and selection (the drawing area is
        not modelled). */
    method Update(rootNode: Node, displayData: seq<RenderedNode>, selectedLine: nat)
      modifies this
      ensures this.rootNode == rootNode && this.displayData == displayData && this.selectedLine == selectedLine
      ensures displayedNode == old(displayedNode) && contentHeight == old(contentHeight) && navBar == old(navBar)
    {
      this.rootNode := rootNode;
      this.displayData := displayData;
      this.selectedLine := selectedLine;
    }

    /** `get_subheading_path`: counts the task lines, then numbers the child
        lines from just after them. */
    method GetSubheadingPath(pos: nat) returns (r: Option<NodePath>)
      ensures r == SubheadingPath(displayData, pos)
    {
      var taskOffset := 0;
      var i := 0;
      while i < |displayData|
        invariant 0 <= i <= |displayData|
        invariant taskOffset == TaskCount(displayData[..i])
      {
        PrefixStep(displayData, i);
        if displayData[i].nodeType.Task? {
          taskOffset := taskOffset + 1;
        }
        i := i + 1;
      }
      assert displayData[..i] == displayData;
      var subheadingIdx := 0;
      i := 0;
      while i < |displayData|
        invariant 0 <= i <= |displayData|
        invariant subheadingIdx == |ChildPaths(displayData[..i])|
        invariant ChildPaths(displayData[..i]) <= ChildPaths(displayData)
        invariant !(taskOffset + 1 <= pos <= taskOffset + subheadingIdx)
      {
        PrefixStep(displayData, i);
        if displayData[i].nodeType.ChildHeading? {
          var line := taskOffset + subheadingIdx + 1;
          if line == pos {
            assert ChildPaths(displayData)[subheadingIdx] == displayData[i].nodeType.childPath;
            return Some(displayData[i].nodeType.childPath);
          }
          subheadingIdx := subheadingIdx + 1;
        }
        i := i + 1;
      }
      assert displayData[..i] == displayData;
      return None;
    }

    /** `select_line`: only lines of the content can be selected. */
    method SelectLine(lineNum: nat)
      modifies this
      ensures SelectionMoved(lineNum)
    {
      if lineNum > 0 && lineNum <= contentHeight {
        selectedLine := lineNum;
      }
    }

    /** `add_breadcrumb`: the last heading line's name joins the trail. */
    method AddBreadcrumb()
      modifies navBar
      ensures LastHeading(displayData).Some? ==>
        navBar.breadcrumbs == old(navBar.breadcrumbs) + [Crumb(LastHeading(displayData).value)]
      ensures LastHeading(displayData).None? ==> navBar.breadcrumbs == old(navBar.breadcrumbs)
      ensures navBar.backText == old(navBar.backText)
    {
      var newHeadingName: Option<string> := None;
      var i := 0;
      while i < |displayData|
        invariant 0 <= i <= |displayData|
        invariant newHeadingName == LastHeading(displayData[..i])
      {
        assert displayData[..i + 1][..i] == displayData[..i];
        if displayData[i].nodeType.Heading? {
          newHeadingName := Some(displayData[i].nodeType.name);
        }
        i := i + 1;
      }
      assert displayData[..i] == displayData;
      if newHeadingName.Some? {
        navBar.PushBreadcrumb(newHeadingName.value);
      }
    }

    /** `enter_prev_node`: displays the parent of the displayed node, drops a
        breadcrumb and selects the first line; fails when the displayed node
        or its parent path cannot be found. */
    method EnterPrevNode() returns (r: Result<(), string>)
      modifies this, navBar
      ensures EnteredParent() && ParentOutcome(r)
    {
      var currNodePath := FindPath(rootNode, displayedNode);
      if currNodePath.None? {
        return Err(NotOnTree);
      }
      var parentPath := Popped(currNodePath.value);
      var newNode := GetNode(rootNode, parentPath);
      if newNode.Some? {
        var res := UpdateDisplayData(newNode.value);
        match res {
          case Ok(_) =>
            navBar.PopBreadcrumb();
            selectedLine := 1;
          case Err(e) =>
            return Err(e);
        }
      } else {
        return Err("Failed to convert node path to node when entering previous heading");
      }
      return Ok(());
    }

    /** `enter_next_node`: displays the child on the selected line, adds its
        heading to the trail and selects the first line; fails, with the
        display unchanged, when no child is on the selected line. */
    method EnterNextNode() returns (r: Result<(), string>)
      modifies this, navBar
      ensures EnteredChild() && ChildOutcome(r)
    {
      var newNodePath := GetSubheadingPath(selectedLine);
      if newNodePath.None? {
        return Err("Failed to retrieve subheading from display data when entering subheading");
      }
      var newNode := GetNode(rootNode, newNodePath.value);
      if newNode.None? {
        return Err("Failed to convert node path to node when entering subheading");
      }
      var res := UpdateDisplayData(newNode.value);
      match res {
        case Ok(_) =>
          AddBreadcrumb();
          selectedLine := 1;
        case Err(e) =>
          return Err(e);
      }
      return Ok(());
    }

    /** `handle_events`: 'j' and 'k' move the selection, 'b' goes up, Enter
        goes down, other keys do nothing.  The selected line is never 0 when
        'k' is pressed, since subtracting would underflow. */
    method HandleEvents(key: KeyCode) returns (r: Result<(), string>)
      requires key == Char('k') ==> selectedLine >= 1
      modifies this, navBar
      ensures key == Char('j') ==> SelectionMoved(old(selectedLine) + 1) && r == Ok(())
      ensures key == Char('k') ==> SelectionMoved(old(selectedLine) - 1) && r == Ok(())
      ensures key == Char('b') ==> EnteredParent() && ParentOutcome(r)
      ensures key == Enter ==> EnteredChild() && ChildOutcome(r)
      ensures key !in {Char('j'), Char('k'), Char('b'), Enter} ==> r == Ok(()) && unchanged(this) && unchanged(navBar)
    {
      match key {
        case Char('j') =>
          SelectLine(selectedLine + 1);
          r := Ok(());
        case Char('k') =>
          SelectLine(selectedLine - 1);
          r := Ok(());
        case Char('b') =>
          r := EnterPrevNode();
        case Enter =>
          r := EnterNextNode();
        case _ =>
          r := Ok(());
      }
    }
  }
}
