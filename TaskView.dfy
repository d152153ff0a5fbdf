/** The navigation controller over the document tree
    (`src/components/views/task_view/task_view.rs`; `src/components/main_view.rs`
    holds a copy of the same view with key bindings taken from a `KeyConfig`).
    It shows one node of the tree as rows, commits completion flags and times
    back into the root at the node's path, and moves to a child or the parent
    with a breadcrumb trail. */
module TaskScreen {
  import opened Wrappers
  import opened DocTree
  import opened TaskRows
  import opened Pagination
  import opened Breadcrumbs
  import opened Keys
  import opened DurationFormat
  import IS = InfoSubtypes

  /** Why a view operation failed: the displayed node is nowhere in the root
      (the wording of that error belongs to `find_path`, which is not part of
      this model), or a message of the view's own. */
  datatype Failure = NotFound | Refused(reason: string)

  type Outcome = Result<(IS.InfoSubType, string), Failure>

  const PageSize: nat := 25

  /** The completion flags of a list of rows, in order. */
  function Flags(rows: seq<Task>): (r: seq<bool>)
    ensures |r| == |rows| && forall i :: 0 <= i < |rows| ==> r[i] == rows[i].completed
  {
    seq(|rows|, i requires 0 <= i < |rows| => rows[i].completed)
  }

  /** The sum of the cached totals of a list of nodes. */
  function Totals(nodes: seq<Node>): nat
  {
    if |nodes| == 0 then 0 else Totals(nodes[..|nodes| - 1]) + nodes[|nodes| - 1].totalTime
  }

  /** `get_subheading` on values: line `lineNum` of the page at `offset`
      names child `g - taskOffset` when the global row `g` lies in the
      summary rows. */
  function Subheading(n: Node, offset: nat, taskOffset: nat, lineNum: int): (r: Option<Node>)
    ensures r.Some? <==> taskOffset <= offset + lineNum - 1 < taskOffset + |n.children|
    ensures r.Some? ==> r.value == n.children[offset + lineNum - 1 - taskOffset]
  {
    var globalIdx := offset + lineNum - 1;
    if globalIdx >= taskOffset && globalIdx - taskOffset < |n.children|
    then Some(n.children[globalIdx - taskOffset]) else None
  }

  /** The child `get_subheading` returns is the one whose summary row is on
      that line, and every summary row yields its child. */
  lemma SubheadingIsSummaryRow(n: Node, offset: nat, lineNum: int)
    requires Extractable(n)
    ensures 0 <= offset + lineNum - 1 < |Rows(n)| ==>
      (Subheading(n, offset, |n.completedTasks|, lineNum).Some? <==> offset + lineNum - 1 >= |n.completedTasks|)
    ensures Subheading(n, offset, |n.completedTasks|, lineNum).Some? ==>
      Rows(n)[offset + lineNum - 1] == Summary(Subheading(n, offset, |n.completedTasks|, lineNum).value)
  {
  }

  /** The heading the view reports after a move: the node's heading, or
      "Root Node" for the anonymous root. */
  function HeadingName(n: Node): string
  {
    if n.heading.Some? then n.heading.value else "Root Node"
  }

  /** One step of the first loop of `update_time`: writing row `idx`'s time
      extends the written prefix by one time and the running sum by it. */
  lemma WriteTimeStep(rows: seq<Task>, times: seq<nat>, idx: nat)
    requires idx < |rows| == |times|
    ensures (Durations(rows[..idx]) + times[idx..])[idx := rows[idx].duration] ==
      Durations(rows[..idx + 1]) + times[idx + 1..]
    ensures Sum(Durations(rows[..idx + 1])) == Sum(Durations(rows[..idx])) + rows[idx].duration
  {
    assert Durations(rows[..idx + 1])[..idx] == Durations(rows[..idx]);
  }

  /** The two loops of `update_time`: write each task row's time into the
      node's content times and total the node from those times and its
      children's cached totals. */
  method CollectTimes(start: Node, taskSlice: seq<Task>) returns (node: Node)
    requires |start.contentTimes| == |taskSlice|
    ensures node == start.(contentTimes := Durations(taskSlice),
                           totalTime := Sum(Durations(taskSlice)) + Totals(start.children))
  {
    node := start;
    var totalTime := 0;
    var idx := 0;
    while idx < |taskSlice|
      invariant 0 <= idx <= |taskSlice|
      invariant totalTime == Sum(Durations(taskSlice[..idx]))
      invariant node == start.(contentTimes := Durations(taskSlice[..idx]) + start.contentTimes[idx..])
    {
      WriteTimeStep(taskSlice, start.contentTimes, idx);
      totalTime := totalTime + taskSlice[idx].duration;
      node := node.(contentTimes := node.contentTimes[idx := taskSlice[idx].duration]);
      idx := idx + 1;
    }
    assert taskSlice[..idx] == taskSlice;

    var i := 0;
    while i < |node.children|
      invariant 0 <= i <= |node.children|
      invariant node.children == start.children
      invariant totalTime == Sum(Durations(taskSlice)) + Totals(start.children[..i])
    {
      assert start.children[..i + 1][..i] == start.children[..i];
      totalTime := totalTime + node.children[i].totalTime;
      i := i + 1;
    }
    assert start.children[..i] == start.children;
    node := node.(totalTime := totalTime);
  }

  /** The root once `update_root` has committed: the displayed node, carrying
      the completion flags of the task rows, written back at its path. */
  function CommitFlags(root: Node, shown: Node, taskSlice: seq<Task>): Node
    requires FindPath(root, shown).Some?
  {
    WriteBack(root, shown, shown.(completedTasks := Flags(taskSlice)))
  }

  class TaskView {
    var root: Node
    var displayedNode: Node
    var tasks: Tasks
    var paginator: Paginator
    var contentHeight: nat
    var selectedLine: nat
    var navBar: NavigationBar
    var keyConfig: KeyConfig

    /** The rows describe the displayed node (one per task, one per child),
        the timer is on a task row, every node's lists line up and every
        node below a root is headed. */
    predicate Valid()
      reads this, tasks, paginator
    {
      tasks.Valid() && paginator.Valid() && paginator.pageSize == PageSize &&
      WellFormed(root) && ChildrenHeaded(root) &&
      WellFormed(displayedNode) && ChildrenHeaded(displayedNode) &&
      tasks.taskOffset == |displayedNode.completedTasks| &&
      |tasks.lines| == tasks.taskOffset + |displayedNode.children|
    }

    /** The bounds of the rows' page are the paginator's slice. */
    predicate Sliced()
      reads this, tasks, paginator
    {
      (tasks.pageStart, tasks.pageEnd) == paginator.PageSlice()
    }

    /** The view shows `n` afresh, as `update_display_data` leaves it: the
        rows of `n` with no timer, the first line of the first page, and the
        paginator and page height over those rows. */
    predicate Shows(n: Node)
      reads this, tasks, paginator
    {
      WellFormed(n) && ChildrenHeaded(n) &&
      displayedNode == n && tasks.lines == Rows(n) && tasks.activeTime == None &&
      selectedLine == 1 && paginator.page == 0 && paginator.entryLen == |Rows(n)| &&
      Sliced() && contentHeight == paginator.ContentHeight()
    }

    /** Nothing in the view has changed. */
    twostate predicate Untouched()
      reads this, tasks, paginator, navBar
    {
      unchanged(this) && unchanged(tasks) && unchanged(paginator) && unchanged(navBar)
    }

    /** The tree and the displayed node are as they were. */
    twostate predicate SameTree()
      reads this
    {
      root == old(root) && displayedNode == old(displayedNode)
    }

    /** The paginator and the page height are as they were. */
    twostate predicate SamePage()
      reads this, paginator
    {
      paginator == old(paginator) && unchanged(paginator) && contentHeight == old(contentHeight)
    }

    /** The breadcrumb trail and the key bindings are as they were. */
    twostate predicate SameTrail()
      reads this, navBar
    {
      navBar == old(navBar) && unchanged(navBar) && keyConfig == old(keyConfig)
    }

    /** `select_line(lineNum)`: the line is taken iff it lies on the page;
        nothing else changes. */
    twostate predicate SelectionMoved(lineNum: int)
      reads this, tasks, paginator, navBar
    {
      SameTree() && SamePage() && SameTrail() && tasks == old(tasks) &&
      tasks.lines == old(tasks.lines) && tasks.activeTime == old(tasks.activeTime) &&
      tasks.taskOffset == old(tasks.taskOffset) &&
      tasks.pageStart == old(tasks.pageStart) && tasks.pageEnd == old(tasks.pageEnd) &&
      if 0 < lineNum <= old(contentHeight) then
        selectedLine == lineNum && tasks.selectedLine == lineNum
      else
        selectedLine == old(selectedLine) && tasks.selectedLine == old(tasks.selectedLine)
    }

    /** A page move keeps the rows, their timer and their selection, and the
        paginator's page size and entry count. */
    twostate predicate SameRowsOnAnyPage()
      reads this, tasks, paginator
    {
      tasks == old(tasks) && tasks.lines == old(tasks.lines) && tasks.activeTime == old(tasks.activeTime) &&
      tasks.taskOffset == old(tasks.taskOffset) && tasks.selectedLine == old(tasks.selectedLine) &&
      paginator == old(paginator) && paginator.pageSize == old(paginator.pageSize) &&
      paginator.entryLen == old(paginator.entryLen)
    }

    /** Paging forward: the next page when it starts before the end of the
        rows, the rows' bounds on the page reached, and its first line. */
    twostate predicate PagedForward()
      reads this, tasks, paginator, navBar
    {
      SameTree() && SameTrail() && SameRowsOnAnyPage() && contentHeight == old(contentHeight) &&
      paginator.page == (if (old(paginator.page) + 1) * PageSize < old(paginator.entryLen)
                         then old(paginator.page) + 1 else old(paginator.page)) &&
      Sliced() && selectedLine == 1
    }

    /** Paging back: the previous page (the first stays the first), the
        rows' bounds on it, and the line at the page height as it was. */
    twostate predicate PagedBack()
      reads this, tasks, paginator, navBar
    {
      SameTree() && SameTrail() && SameRowsOnAnyPage() && contentHeight == old(contentHeight) &&
      paginator.page == (if old(paginator.page) == 0 then 0 else old(paginator.page) - 1) &&
      Sliced() && selectedLine == old(contentHeight)
    }

    /** `try_activate` seen from the view: a running timer stops whatever the
        selection; otherwise the timer starts on the selected row when it is
        a task row not yet done.  Only the timer changes. */
    twostate predicate TimerSwitched()
      requires old(tasks.Valid())
      requires old(tasks.activeTime).None? ==> old(tasks.pageStart + tasks.selectedLine) >= 1
      reads this, tasks, paginator, navBar
    {
      var pos := old(tasks.pageStart + tasks.selectedLine) - 1;
      SameTree() && SamePage() && SameTrail() && selectedLine == old(selectedLine) &&
      tasks == old(tasks) && tasks.lines == old(tasks.lines) && tasks.taskOffset == old(tasks.taskOffset) &&
      tasks.selectedLine == old(tasks.selectedLine) &&
      tasks.pageStart == old(tasks.pageStart) && tasks.pageEnd == old(tasks.pageEnd) &&
      tasks.activeTime ==
        if old(tasks.activeTime).Some? then None
        else if pos < old(tasks.taskOffset) && !old(tasks.lines[pos].completed) then Some(pos)
        else None
    }

    /** What `try_activate` reports: the stop or the start with the selected
        line, or why the timer cannot start. */
    twostate predicate TimerOutcome(new r: Outcome)
      requires old(tasks.Valid())
      requires old(tasks.activeTime).None? ==> old(tasks.pageStart + tasks.selectedLine) >= 1
      reads this, tasks
    {
      var pos := old(tasks.pageStart + tasks.selectedLine) - 1;
      if old(tasks.activeTime).Some? then r == Ok((IS.StopTimer, Digits(old(tasks.selectedLine))))
      else if pos >= old(tasks.taskOffset) then r == Err(Refused("Cannot start a subheading time"))
      else if old(tasks.lines[pos].completed) then r == Err(Refused("Cannot start a time on a completed task"))
      else r == Ok((IS.StartTimer, Digits(old(tasks.selectedLine))))
    }

    /** `toggle_task` seen from the view: a summary row is refused with
        nothing changed; a task row is flipped (a timer running on the
        selected row stops) and, when the displayed node is in the root, the
        flags are committed. */
    twostate predicate TaskToggled()
      requires old(Valid()) && old(selectedLine) >= 1
      reads this, tasks, paginator, navBar
    {
      var idx := old(paginator.Offset()) + old(selectedLine) - 1;
      SamePage() && SameTrail() && selectedLine == old(selectedLine) &&
      tasks == old(tasks) && tasks.taskOffset == old(tasks.taskOffset) &&
      tasks.selectedLine == old(tasks.selectedLine) &&
      tasks.pageStart == old(tasks.pageStart) && tasks.pageEnd == old(tasks.pageEnd) &&
      if idx >= old(tasks.taskOffset) then
        SameTree() && tasks.lines == old(tasks.lines) && tasks.activeTime == old(tasks.activeTime)
      else
        tasks.lines == Toggled(old(tasks.lines), idx) &&
        tasks.activeTime == (if old(tasks.ActiveOnLine()) then None else old(tasks.activeTime)) &&
        if FindPath(old(root), old(displayedNode)).None? then SameTree()
        else
          displayedNode == old(displayedNode).(completedTasks := Flags(tasks.TaskSlice())) &&
          root == WriteBack(old(root), old(displayedNode), displayedNode)
    }

    /** What `toggle_task` reports: the refusal, the failed lookup, or which
        way the task went and its name. */
    twostate predicate ToggleOutcome(new r: Outcome)
      requires old(Valid()) && old(selectedLine) >= 1
      reads this, tasks, paginator
    {
      var idx := old(paginator.Offset()) + old(selectedLine) - 1;
      if idx >= old(tasks.taskOffset) then r == Err(Refused("Cannot complete a subheading"))
      else if FindPath(old(root), old(displayedNode)).None? then r == Err(NotFound)
      else r == Ok((if old(tasks.lines[idx].completed) then IS.UncompleteTask else IS.CompleteTask,
                    old(tasks.lines[idx].name)))
    }

    /** `enter_prev_node` seen from the view: nothing changes when the
        displayed node is not in the root; otherwise the flags are committed,
        the parent of the displayed node (the root stays the root) in the
        committed root is shown afresh, and the last breadcrumb is dropped. */
    twostate predicate EnteredParent()
      requires old(Valid())
      reads this, tasks, paginator, navBar
    {
      match FindPath(old(root), old(displayedNode))
      case None => Untouched()
      case Some(path) =>
        root == CommitFlags(old(root), old(displayedNode), old(tasks.TaskSlice())) &&
        GetNode(old(root), Popped(path)).Some? && GetNode(root, Popped(path)).Some? &&
        Shows(GetNode(root, Popped(path)).value) &&
        displayedNode.heading == GetNode(old(root), Popped(path)).value.heading &&
        paginator == old(paginator) && paginator.pageSize == old(paginator.pageSize) &&
        navBar == old(navBar) && navBar.backText == old(navBar.backText) &&
        navBar.breadcrumbs == Popped(old(navBar.breadcrumbs)) && keyConfig == old(keyConfig)
    }

    /** What `enter_prev_node` reports: the failed lookup, or the heading of
        the node now shown. */
    twostate predicate ParentOutcome(new r: Outcome)
      requires old(Valid())
      reads this
    {
      if FindPath(old(root), old(displayedNode)).None? then r == Err(NotFound)
      else r == Ok((IS.EnterParent, HeadingName(displayedNode)))
    }

    /** `enter_next_node` seen from the view: nothing changes when the
        displayed node is not in the root; otherwise the flags are committed
        and, when the selected line is a summary row, its child is shown
        afresh and its heading pushed as a breadcrumb. */
    twostate predicate EnteredChild()
      requires old(Valid())
      reads this, tasks, paginator, navBar
    {
      match FindPath(old(root), old(displayedNode))
      case None => Untouched()
      case Some(_) =>
        var sub := Subheading(old(displayedNode), old(paginator.Offset()), old(tasks.taskOffset), old(selectedLine));
        root == CommitFlags(old(root), old(displayedNode), old(tasks.TaskSlice())) &&
        navBar == old(navBar) && navBar.backText == old(navBar.backText) && keyConfig == old(keyConfig) &&
        if sub.None? then
          displayedNode == old(displayedNode).(completedTasks := Flags(old(tasks.TaskSlice()))) &&
          SamePage() && selectedLine == old(selectedLine) && tasks == old(tasks) && unchanged(tasks) &&
          navBar.breadcrumbs == old(navBar.breadcrumbs)
        else
          Shows(sub.value) && sub.value.heading.Some? &&
          paginator == old(paginator) && paginator.pageSize == old(paginator.pageSize) &&
          navBar.breadcrumbs == old(navBar.breadcrumbs) + [Crumb(sub.value.heading.value)]
    }

    /** What `enter_next_node` reports: the failed lookup, no summary row on
        the line, or the heading of the child now shown. */
    twostate predicate ChildOutcome(new r: Outcome)
      requires old(Valid())
      reads this, tasks, paginator
    {
      match FindPath(old(root), old(displayedNode))
      case None => r == Err(NotFound)
      case Some(_) =>
        var sub := Subheading(old(displayedNode), old(paginator.Offset()), old(tasks.taskOffset), old(selectedLine));
        if sub.None? then r == Err(Refused("No subheading found on selected line"))
        else r == Ok((IS.EnterSubheading, HeadingName(sub.value)))
    }

    /** `TaskView::new`. */
    constructor (keyConfig: KeyConfig)
      ensures root == EmptyRoot() && displayedNode == EmptyRoot()
      ensures tasks.lines == [] && paginator.page == 0 && paginator.entryLen == 0
      ensures contentHeight == 0 && selectedLine == 1 && navBar.breadcrumbs == []
      ensures this.keyConfig == keyConfig
      ensures Valid()
    {
      root := EmptyRoot();
      displayedNode := EmptyRoot();
      tasks := new Tasks.Default();
      paginator := new Paginator(PageSize);
      contentHeight := 0;
      selectedLine := 1;
      navBar := new NavigationBar();
      this.keyConfig := keyConfig;
    }

    /** `update`: hands the selected line to the rows and recomputes the
        height of the page. */
    method Update()
      requires Valid()
      modifies this, tasks
      ensures Valid()
      ensures tasks.selectedLine == selectedLine && contentHeight == paginator.ContentHeight()
      ensures root == old(root) && displayedNode == old(displayedNode) && selectedLine == old(selectedLine)
      ensures tasks == old(tasks) && paginator == old(paginator) && navBar == old(navBar)
      ensures tasks.lines == old(tasks.lines) && tasks.activeTime == old(tasks.activeTime)
    {
      tasks.Update(selectedLine);
      contentHeight := paginator.ContentHeight();
    }

    /** `update_display_data`: show `newNode` from its first row on the first
        page. */
    method UpdateDisplayData(newNode: Node)
      requires Valid() && WellFormed(newNode) && ChildrenHeaded(newNode)
      modifies this, paginator
      ensures Valid() && Shows(newNode) && fresh(tasks)
      ensures root == old(root) && paginator == old(paginator) && navBar == old(navBar)
      ensures paginator.pageSize == old(paginator.pageSize) && keyConfig == old(keyConfig)
    {
      tasks := new Tasks(newNode);
      selectedLine := 1;
      displayedNode := newNode;
      paginator.page := 0;
      var entryLen := |tasks.lines|;
      UpdatePaginator(entryLen);
      contentHeight := paginator.ContentHeight();
    }
    /** `update_paginator`. */
    method UpdatePaginator(entryLen: nat)
      modifies paginator, tasks
      ensures paginator.entryLen == entryLen
      ensures paginator.page == old(paginator.page) && paginator.pageSize == old(paginator.pageSize)
      ensures (tasks.pageStart, tasks.pageEnd) == paginator.PageSlice()
      ensures tasks.lines == old(tasks.lines) && tasks.taskOffset == old(tasks.taskOffset)
      ensures tasks.activeTime == old(tasks.activeTime) && tasks.selectedLine == old(tasks.selectedLine)
    {
      paginator.entryLen := entryLen;
      var (pageStart, pageEnd) := paginator.PageSlice();
      tasks.SliceBounds(pageStart, pageEnd);
    }

    /** `get_subheading`, with the guard deciding before any subtraction is
        taken. */
    function GetSubheading(lineNum: int): (r: Option<Node>)
      reads this, tasks, paginator
      ensures r.Some? <==>
        tasks.taskOffset <= paginator.Offset() + lineNum - 1 < tasks.taskOffset + |displayedNode.children|
      ensures r.Some? ==> r.value in displayedNode.children
    {
      Subheading(displayedNode, paginator.Offset(), tasks.taskOffset, lineNum)
    }

    /** `update_root`: find the displayed node in the root, copy the task rows'
        completion flags into it and write it back at its path. */
    method UpdateRoot() returns (r: Result<NodePath, Failure>)
      requires Valid()
      modifies this
      ensures Valid()
      ensures FindPath(old(root), old(displayedNode)).None? ==>
        r == Err(NotFound) && unchanged(this)
      ensures FindPath(old(root), old(displayedNode)).Some? ==>
        r == Ok(FindPath(old(root), old(displayedNode)).value) &&
        displayedNode == old(displayedNode).(completedTasks := Flags(tasks.TaskSlice())) &&
        root == WriteBack(old(root), old(displayedNode), displayedNode)
      ensures r.Ok? ==> GetNode(root, r.value) == Some(displayedNode)
      ensures tasks == old(tasks) && paginator == old(paginator) && navBar == old(navBar)
      ensures selectedLine == old(selectedLine) && contentHeight == old(contentHeight)
      ensures keyConfig == old(keyConfig)
    {
      var found := FindPath(root, displayedNode);
      if found.None? {
        return Err(NotFound);
      }
      var nodePath := found.value;
      FindPathSound(root, displayedNode);
      displayedNode := displayedNode.(completedTasks := Flags(tasks.TaskSlice()));
      CommitIsSource(root, nodePath, displayedNode);
      UpdateNodeWellFormed(root, nodePath, displayedNode);
      CommitKeepsHeadings(root, nodePath, displayedNode);
      root := UpdateNode(root, nodePath, displayedNode).value;
      SetAtGet(old(root), nodePath, displayedNode);
      return Ok(nodePath);
    }

    /** `update_time`: tick the running timer, then write every task row's
        time into the displayed node, recompute its total from its tasks and
        its children's totals, and commit it into the root. */
    method UpdateTime() returns (r: Result<(), Failure>)
      requires Valid()
      modifies this, tasks
      ensures Valid()
      ensures old(tasks.activeTime).Some? ==> tasks.lines == Tick(old(tasks.lines), old(tasks.activeTime).value)
      ensures old(tasks.activeTime).None? ==> tasks.lines == old(tasks.lines)
      ensures FindPath(old(root), old(displayedNode)).None? ==>
        r == Err(NotFound) && root == old(root) && displayedNode == old(displayedNode)
      ensures FindPath(old(root), old(displayedNode)).Some? ==>
        r == Ok(()) &&
        displayedNode == old(displayedNode).(
          contentTimes := Durations(tasks.TaskSlice()),
          totalTime := Sum(Durations(tasks.TaskSlice())) + Totals(old(displayedNode).children)) &&
        root == WriteBack(old(root), old(displayedNode), displayedNode)
      ensures tasks == old(tasks) && paginator == old(paginator) && navBar == old(navBar)
      ensures selectedLine == old(selectedLine) && contentHeight == old(contentHeight)
      ensures keyConfig == old(keyConfig)
      ensures tasks.activeTime == old(tasks.activeTime) && tasks.taskOffset == old(tasks.taskOffset)
    {
      tasks.UpdateTime();
      var found := FindPath(root, displayedNode);
      if found.None? {
        return Err(NotFound);
      }
      var nodePath := found.value;
      FindPathSound(root, displayedNode);
      displayedNode := CollectTimes(displayedNode, tasks.TaskSlice());
      CommitIsSource(root, nodePath, displayedNode);
      UpdateNodeWellFormed(root, nodePath, displayedNode);
      CommitKeepsHeadings(root, nodePath, displayedNode);
      root := UpdateNode(root, nodePath, displayedNode).value;
      return Ok(());
    }

    /** `toggle_task`: flip the task on the selected line and commit the
        flags; a summary row is refused with nothing changed. */
    method ToggleTask() returns (r: Outcome)
      requires Valid() && selectedLine >= 1
      modifies this, tasks
      ensures Valid() && TaskToggled() && ToggleOutcome(r)
    {
      var idx := paginator.Offset() + (selectedLine - 1);
      var infoType: IS.InfoSubType;
      if idx < tasks.taskOffset {
        infoType := tasks.ToggleTask(idx);
        var res := UpdateRoot();
        if res.Err? {
          return Err(res.error);
        }
      } else {
        return Err(Refused("Cannot complete a subheading"));
      }
      var taskName := tasks.lines[idx].name;
      return Ok((infoType, taskName));
    }

    /** `select_line`: only lines 1 to the page height can be selected. */
    method SelectLine(lineNum: nat)
      requires Valid()
      modifies this, tasks
      ensures Valid() && SelectionMoved(lineNum)
    {
      if lineNum > 0 && lineNum <= contentHeight {
        selectedLine := lineNum;
        tasks.Update(lineNum);
      }
    }

    /** `enter_prev_node`: commit, then show the parent of the displayed node
        and drop the last breadcrumb.  Once the commit succeeds the parent
        always resolves, so the move cannot fail after it. */
    method EnterPrevNode() returns (r: Outcome)
      requires Valid()
      modifies this, paginator, navBar
      ensures Valid() && EnteredParent() && ParentOutcome(r)
    {
      ghost var taskSlice := tasks.TaskSlice();
      var res := UpdateRoot();
      if res.Err? {
        return Err(res.error);
      }
      var currNodePath := res.value;
      assert root == CommitFlags(old(root), old(displayedNode), taskSlice);
      FindPathSound(old(root), old(displayedNode));
      var parentPath := Popped(currNodePath);
      if |currNodePath| > 0 {
        SetAtKeepsPrefix(old(root), currNodePath, displayedNode, |currNodePath| - 1);
      }
      match GetNode(root, parentPath) {
        case Some(newNode) =>
          GetNodeWellFormed(root, parentPath);
          GetNodeChildrenHeaded(root, parentPath);
          UpdateDisplayData(newNode);
          navBar.PopBreadcrumb();
        case None =>
          return Err(Refused("Failed to convert node path to node when entering previous heading"));
      }
      var headingName := HeadingName(displayedNode);
      return Ok((IS.EnterParent, headingName));
    }

    /** `enter_next_node`: commit, then show the child whose summary row is on
        the selected line and push its heading as a breadcrumb. */
    method EnterNextNode() returns (r: Outcome)
      requires Valid()
      modifies this, paginator, navBar
      ensures Valid() && EnteredChild() && ChildOutcome(r)
    {
      ghost var taskSlice := tasks.TaskSlice();
      ghost var sub := GetSubheading(selectedLine);
      var res := UpdateRoot();
      if res.Err? {
        return Err(res.error);
      }
      assert root == CommitFlags(old(root), old(displayedNode), taskSlice);
      assert GetSubheading(selectedLine) == sub;
      match GetSubheading(selectedLine) {
        case Some(newNode) =>
          assert AllHeaded(newNode);
          UpdateDisplayData(newNode);
          AddBreadcrumb();
        case None =>
          return Err(Refused("No subheading found on selected line"));
      }
      var headingName := HeadingName(displayedNode);
      return Ok((IS.EnterSubheading, headingName));
    }

    /** `add_breadcrumb`: push the displayed node's heading, if it has one. */
    method AddBreadcrumb()
      modifies navBar
      ensures displayedNode.heading.Some? ==>
        navBar.breadcrumbs == old(navBar.breadcrumbs) + [Crumb(displayedNode.heading.value)]
      ensures displayedNode.heading.None? ==> navBar.breadcrumbs == old(navBar.breadcrumbs)
      ensures navBar.backText == old(navBar.backText)
    {
      if displayedNode.heading.Some? {
        navBar.PushBreadcrumb(displayedNode.heading.value);
      }
    }

    /** Paging forward ('J' in `handle_events`, the page-down binding in
        `event`). */
    method PageForward()
      requires Valid()
      modifies this, paginator, tasks
      ensures Valid() && PagedForward()
    {
      paginator.NextPage();
      var (pageStart, pageEnd) := paginator.PageSlice();
      tasks.SliceBounds(pageStart, pageEnd);
      selectedLine := 1;
    }

    /** Paging back ('K' in `handle_events`, the page-up binding in
        `event`). */
    method PageBack()
      requires Valid()
      modifies this, paginator, tasks
      ensures Valid() && PagedBack()
    {
      paginator.PrevPage();
      var (pageStart, pageEnd) := paginator.PageSlice();
      tasks.SliceBounds(pageStart, pageEnd);
      selectedLine := contentHeight;
    }

    /** The first match of `handle_events`: 'j'/'k' move the selection,
        'J'/'K' page forward/back, any other key leaves the view alone. */
    method Navigate(key: KeyCode)
      requires Valid()
      requires key == Char('k') ==> selectedLine >= 1
      modifies this, paginator, tasks
      ensures Valid()
      ensures key == Char('j') ==> SelectionMoved(old(selectedLine) + 1)
      ensures key == Char('k') ==> SelectionMoved(old(selectedLine) - 1)
      ensures key == Char('J') ==> PagedForward()
      ensures key == Char('K') ==> PagedBack()
      ensures key !in {Char('j'), Char('k'), Char('J'), Char('K')} ==> Untouched()
    {
      match key {
        case Char('j') => SelectLine(selectedLine + 1);
        case Char('k') => SelectLine(selectedLine - 1);
        case Char('J') => PageForward();
        case Char('K') => PageBack();
        case _ =>
      }
    }

    /** The second match of `handle_events`: 's' starts or stops the timer,
        ' ' toggles the task, 'b' and Enter move up and down the tree; other
        keys report nothing and change nothing. */
    method Act(key: KeyCode) returns (r: Outcome)
      requires Valid()
      requires key == Char(' ') ==> selectedLine >= 1
      requires key == Char('s') && tasks.activeTime.None? ==> tasks.pageStart + tasks.selectedLine >= 1
      modifies this, paginator, tasks, navBar
      ensures Valid()
      ensures key == Char('s') ==> TimerSwitched() && TimerOutcome(r)
      ensures key == Char(' ') ==> TaskToggled() && ToggleOutcome(r)
      ensures key == Char('b') ==> EnteredParent() && ParentOutcome(r)
      ensures key == Enter ==> EnteredChild() && ChildOutcome(r)
      ensures key !in {Char('s'), Char(' '), Char('b'), Enter} ==> r == Ok((IS.None, "erm")) && Untouched()
    {
      match key {
        case Char('s') =>
          var res := tasks.TryActivate();
          match res {
            case Ok((info, line)) => r := Ok((info, Digits(line)));
            case Err(e) => r := Err(Refused(e));
          }
        case Char(' ') => r := ToggleTask();
        case Char('b') => r := EnterPrevNode();
        case Enter => r := EnterNextNode();
        case _ => r := Ok((IS.None, "erm"));
      }
    }

    /** `handle_events` of the view.  Its two matches test disjoint keys, so a
        key either navigates (and the second match reports nothing) or acts
        (and the first match changed nothing). */
    method HandleEvents(key: KeyCode) returns (r: Outcome)
      requires Valid()
      requires key == Char('k') ==> selectedLine >= 1
      requires key == Char(' ') ==> selectedLine >= 1
      requires key == Char('s') && tasks.activeTime.None? ==> tasks.pageStart + tasks.selectedLine >= 1
      modifies this, paginator, tasks, navBar
      ensures Valid()
      ensures key == Char('j') ==> SelectionMoved(old(selectedLine) + 1) && r == Ok((IS.None, "erm"))
      ensures key == Char('k') ==> SelectionMoved(old(selectedLine) - 1) && r == Ok((IS.None, "erm"))
      ensures key == Char('J') ==> PagedForward() && r == Ok((IS.None, "erm"))
      ensures key == Char('K') ==> PagedBack() && r == Ok((IS.None, "erm"))
      ensures key == Char('s') ==> TimerSwitched() && TimerOutcome(r)
      ensures key == Char(' ') ==> TaskToggled() && ToggleOutcome(r)
      ensures key == Char('b') ==> EnteredParent() && ParentOutcome(r)
      ensures key == Enter ==> EnteredChild() && ChildOutcome(r)
      ensures key !in {Char('j'), Char('k'), Char('J'), Char('K'), Char('s'), Char(' '), Char('b'), Enter} ==>
        r == Ok((IS.None, "erm")) && Untouched()
    {
      if key in {Char('j'), Char('k'), Char('J'), Char('K')} {
        Navigate(key);
        r := Ok((IS.None, "erm"));
      } else {
        r := Act(key);
      }
    }

    /** `event` of the copy in `main_view.rs`: the same actions bound through
        the key configuration and tested in a fixed order, so a key bound
        twice takes the first action; results are dropped and any bound key
        is consumed. */
    method Event(key: KeyCode) returns (state: EventState)
      requires Valid()
      requires FirstMatch(key, TaskViewKeys(keyConfig)) == 1 ==> selectedLine >= 1
      requires FirstMatch(key, TaskViewKeys(keyConfig)) == 4 && tasks.activeTime.None? ==>
        tasks.pageStart + tasks.selectedLine >= 1
      requires FirstMatch(key, TaskViewKeys(keyConfig)) == 5 ==> selectedLine >= 1
      modifies this, paginator, tasks, navBar
      ensures Valid()
      ensures state == Consumed <==> key in TaskViewKeys(old(keyConfig))
      ensures state == NotConsumed ==> Untouched()
      ensures FirstMatch(key, TaskViewKeys(old(keyConfig))) == 0 ==> SelectionMoved(old(selectedLine) + 1)
      ensures FirstMatch(key, TaskViewKeys(old(keyConfig))) == 1 ==> SelectionMoved(old(selectedLine) - 1)
      ensures FirstMatch(key, TaskViewKeys(old(keyConfig))) == 2 ==> PagedForward()
      ensures FirstMatch(key, TaskViewKeys(old(keyConfig))) == 3 ==> PagedBack()
      ensures FirstMatch(key, TaskViewKeys(old(keyConfig))) == 4 ==> TimerSwitched()
      ensures FirstMatch(key, TaskViewKeys(old(keyConfig))) == 5 ==> TaskToggled()
      ensures FirstMatch(key, TaskViewKeys(old(keyConfig))) == 6 ==> EnteredParent()
      ensures FirstMatch(key, TaskViewKeys(old(keyConfig))) == 7 ==> EnteredChild()
    {
      var binding := FirstMatch(key, TaskViewKeys(keyConfig));
      state := Consumed;
      if binding == 0 {
        SelectLine(selectedLine + 1);
      } else if binding == 1 {
        SelectLine(selectedLine - 1);
      } else if binding == 2 {
        PageForward();
      } else if binding == 3 {
        PageBack();
      } else if binding == 4 {
        var _ := tasks.TryActivate();
      } else if binding == 5 {
        var _ := ToggleTask();
      } else if binding == 6 {
        var _ := EnterPrevNode();
      } else if binding == 7 {
        var _ := EnterNextNode();
      } else {
        state := NotConsumed;
      }
    }
  }

  /** Writing back a node that differs from the one at `path` only in the
      fields `update_node` copies leaves exactly that node there. */
  lemma CommitIsSource(root: Node, path: NodePath, source: Node)
    requires GetNode(root, path).Some?
    requires source.heading == GetNode(root, path).value.heading
    requires source.content == GetNode(root, path).value.content
    requires source.children == GetNode(root, path).value.children
    ensures Commit(GetNode(root, path).value, source) == source
  {
  }
}
