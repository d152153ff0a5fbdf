/** The collapsible outline view (`src/task_timer/views/tasks.rs`): a table
    with one entry per drawn heading, giving its screen line, its path in the
    tree, whether its content is shown and the screen lines of its tasks.
    Collapsing a heading hides or shows it together with everything below
    it. */
module TaskOutline {
  import opened Wrappers
  import opened DocTree

  datatype NodeEntry = NodeEntry(lineNum: nat, nodePath: NodePath, visible: bool, taskLines: seq<nat>)

  /** `position(|e| e.node_path == path)`: the first entry with that path. */
  function PathPosition(data: seq<NodeEntry>, path: NodePath): (r: Option<nat>)
    ensures r.Some? ==> r.value < |data| && data[r.value].nodePath == path &&
                        forall j :: 0 <= j < r.value ==> data[j].nodePath != path
    ensures r.None? <==> forall j :: 0 <= j < |data| ==> data[j].nodePath != path
  {
    if |data| == 0 then None
    else if data[0].nodePath == path then Some(0)
    else match PathPosition(data[1..], path)
      case Some(k) => Some(k + 1)
      case None => None
  }

  /** `position(|e| e.line_num == line)`: the first entry on that line. */
  function LinePosition(data: seq<NodeEntry>, line: nat): (r: Option<nat>)
    ensures r.Some? ==> r.value < |data| && data[r.value].lineNum == line &&
                        forall j :: 0 <= j < r.value ==> data[j].lineNum != line
    ensures r.None? <==> forall j :: 0 <= j < |data| ==> data[j].lineNum != line
  {
    if |data| == 0 then None
    else if data[0].lineNum == line then Some(0)
    else match LinePosition(data[1..], line)
      case Some(k) => Some(k + 1)
      case None => None
  }

  /** No two entries share a path. */
  predicate UniquePaths(data: seq<NodeEntry>)
  {
    forall i, j :: 0 <= i < j < |data| ==> data[i].nodePath != data[j].nodePath
  }

  /** The table after recording `e`: the entry with the same path takes over
      its visibility, task lines and line, or `e` is added at the end. */
  function Upserted(data: seq<NodeEntry>, e: NodeEntry): (r: seq<NodeEntry>)
    ensures PathPosition(data, e.nodePath).None? ==> r == data + [e]
    ensures PathPosition(data, e.nodePath).Some? ==> r == data[PathPosition(data, e.nodePath).value := e]
  {
    match PathPosition(data, e.nodePath)
    case Some(idx) => data[idx := e]
    case None => data + [e]
  }

  /** Recording keeps paths unique and leaves exactly one entry with the
      recorded path: the recorded one. */
  lemma UpsertKeepsPathsUnique(data: seq<NodeEntry>, e: NodeEntry)
    requires UniquePaths(data)
    ensures UniquePaths(Upserted(data, e))
    ensures PathPosition(Upserted(data, e), e.nodePath).Some?
    ensures Upserted(data, e)[PathPosition(Upserted(data, e), e.nodePath).value] == e
    ensures forall j :: 0 <= j < |Upserted(data, e)| && Upserted(data, e)[j].nodePath != e.nodePath ==>
      Upserted(data, e)[j] in data
  {
    var r := Upserted(data, e);
    var p := PathPosition(r, e.nodePath);
    if PathPosition(data, e.nodePath).None? {
      assert r[|data|] == e;
    } else {
      var idx := PathPosition(data, e.nodePath).value;
      assert r[idx] == e;
    }
  }

  /** Whether `try_collapse` flips `entry` when the collapsed entry has path
      `found`: the entry must be at least as deep, and its path cut back by
      the depth difference, but by at least one step, must be `found`. */
  predicate CollapseMatches(path: NodePath, found: NodePath)
    ensures CollapseMatches(path, found) <==> found <= path && (|path| > |found| || found == [])
  {
    |path| >= |found| &&
    var depthDiff := if |path| - |found| >= 1 then |path| - |found| else 1;
    var keep := if |path| >= depthDiff then |path| - depthDiff else 0;
    path[..keep] == found
  }

  /** Below a heading other than the root, `try_collapse` flips exactly the
      entries whose path strictly extends the collapsed one. */
  lemma CollapseMatchesDescendants(path: NodePath, found: NodePath)
    requires |found| > 0
    ensures CollapseMatches(path, found) <==> |path| > |found| && path[..|found|] == found
  {
  }

  /** For the tree's root, with the empty path, every entry is flipped. */
  lemma CollapseMatchesAllUnderRoot(path: NodePath)
    ensures CollapseMatches(path, [])
  {
  }

  /** The table after collapsing entry `idx`: that entry is flipped once,
      and every entry `CollapseMatches` picks is flipped (again). */
  function Collapsed(data: seq<NodeEntry>, idx: nat): (r: seq<NodeEntry>)
    requires idx < |data|
    ensures |r| == |data|
    ensures forall j :: 0 <= j < |data| ==>
      r[j] == data[j].(visible := (data[j].visible != (j == idx)) != CollapseMatches(data[j].nodePath, data[idx].nodePath))
  {
    seq(|data|, j requires 0 <= j < |data| =>
      data[j].(visible := (data[j].visible != (j == idx)) != CollapseMatches(data[j].nodePath, data[idx].nodePath)))
  }

  /** With unique paths and a collapsed entry below the root, collapsing
      flips the collapsed entry and every entry below it, and nothing else. */
  lemma CollapseFlipsSubtree(data: seq<NodeEntry>, idx: nat, j: nat)
    requires idx < |data| && j < |data| && UniquePaths(data) && |data[idx].nodePath| > 0
    ensures Collapsed(data, idx)[j].visible != data[j].visible <==>
      j == idx || (|data[j].nodePath| > |data[idx].nodePath| &&
                   data[j].nodePath[..|data[idx].nodePath|] == data[idx].nodePath)
    ensures Collapsed(data, idx)[j].nodePath == data[j].nodePath
    ensures Collapsed(data, idx)[j].lineNum == data[j].lineNum
    ensures Collapsed(data, idx)[j].taskLines == data[j].taskLines
  {
    CollapseMatchesDescendants(data[j].nodePath, data[idx].nodePath);
  }

  /** Collapsing twice at the same entry restores the table. */
  lemma CollapseTwiceRestores(data: seq<NodeEntry>, idx: nat)
    requires idx < |data|
    ensures Collapsed(Collapsed(data, idx), idx) == data
  {
    var once := Collapsed(data, idx);
    assert once[idx].nodePath == data[idx].nodePath;
    assert forall j :: 0 <= j < |data| ==> Collapsed(once, idx)[j] == data[j];
  }

  /** The (task index, path) pairs of every entry listing the line among its
      task lines, each at the first position it is listed. */
  function TaskMatches(data: seq<NodeEntry>, line: nat): seq<(nat, NodePath)>
  {
    if |data| == 0 then []
    else
      (match FirstIndex(data[0].taskLines, line)
       case Some(k) => [(k, data[0].nodePath)]
       case None => []) + TaskMatches(data[1..], line)
  }

  function FirstIndex(s: seq<nat>, x: nat): (r: Option<nat>)
    ensures r.Some? ==> r.value < |s| && s[r.value] == x && forall j :: 0 <= j < r.value ==> s[j] != x
    ensures r.None? <==> x !in s
  {
    if |s| == 0 then None
    else if s[0] == x then Some(0)
    else match FirstIndex(s[1..], x)
      case Some(k) => Some(k + 1)
      case None => None
  }

  /** The line is a task line of some entry exactly when there is a match,
      and each match names the position of the line in that entry. */
  lemma {:induction false} TaskMatchesSound(data: seq<NodeEntry>, line: nat)
    ensures |TaskMatches(data, line)| > 0 <==> exists j :: 0 <= j < |data| && line in data[j].taskLines
    ensures forall m :: m in TaskMatches(data, line) ==>
      exists j :: 0 <= j < |data| && data[j].nodePath == m.1 && m.0 < |data[j].taskLines| &&
                  data[j].taskLines[m.0] == line && FirstIndex(data[j].taskLines, line) == Some(m.0)
  {
    if |data| > 0 {
      TaskMatchesSound(data[1..], line);
      forall m | m in TaskMatches(data, line)
        ensures exists j :: 0 <= j < |data| && data[j].nodePath == m.1 && m.0 < |data[j].taskLines| &&
                            data[j].taskLines[m.0] == line && FirstIndex(data[j].taskLines, line) == Some(m.0)
      {
        if m in TaskMatches(data[1..], line) {
          var j :| 0 <= j < |data[1..]| && data[1..][j].nodePath == m.1 && m.0 < |data[1..][j].taskLines| &&
                   data[1..][j].taskLines[m.0] == line && FirstIndex(data[1..][j].taskLines, line) == Some(m.0);
          assert data[j + 1] == data[1..][j];
        } else {
          assert data[0].nodePath == m.1;
        }
      }
      if exists j :: 0 <= j < |data| && line in data[j].taskLines {
        var j :| 0 <= j < |data| && line in data[j].taskLines;
        if j > 0 {
          assert data[1..][j - 1] == data[j];
        }
      }
    }
  }

  class TaskView {
    var selectedLine: nat
    var contentTree: Node
    var nodeData: seq<NodeEntry>
    var drawnNodes: seq<NodePath>
    var completedLines: seq<nat>
    var currentNodeTaskLines: seq<nat>

    /** `TaskView::new`: line 2 selected (below the first heading), nothing
        recorded. */
    constructor ()
      ensures selectedLine == 2 && contentTree == EmptyRoot()
      ensures nodeData == [] && drawnNodes == [] && completedLines == [] && currentNodeTaskLines == []
      ensures UniquePaths(nodeData)
    {
      selectedLine := 2;
      contentTree := EmptyRoot();
      nodeData := [];
      drawnNodes := [];
      completedLines := [];
      currentNodeTaskLines := [];
    }

    /** `update_node_data`: records a drawn heading at its screen line with the
        task lines just drawn.  A node that is not on the tree is a panic. */
    method UpdateNodeData(node: Node, top: nat, drawn: bool)
      requires FindPath(contentTree, node).Some?
      modifies this
      ensures selectedLine == old(selectedLine) && contentTree == old(contentTree)
      ensures nodeData == Upserted(old(nodeData),
        NodeEntry(top, FindPath(contentTree, node).value, drawn, currentNodeTaskLines))
      ensures drawnNodes == old(drawnNodes) && completedLines == old(completedLines)
      ensures currentNodeTaskLines == old(currentNodeTaskLines)
      ensures old(UniquePaths(nodeData)) ==> UniquePaths(nodeData)
    {
      var path := FindPath(contentTree, node).value;
      var dataEntry := NodeEntry(top, path, drawn, currentNodeTaskLines);
      if UniquePaths(nodeData) {
        UpsertKeepsPathsUnique(nodeData, dataEntry);
      }
      var idx := PathPosition(nodeData, path);
      if idx.Some? {
        var i := idx.value;
        if nodeData[i].visible != dataEntry.visible {
          nodeData := nodeData[i := nodeData[i].(visible := dataEntry.visible)];
        }
        if nodeData[i].taskLines != dataEntry.taskLines {
          nodeData := nodeData[i := nodeData[i].(taskLines := dataEntry.taskLines)];
        }
        nodeData := nodeData[i := nodeData[i].(lineNum := top)];
      } else {
        nodeData := nodeData + [dataEntry];
      }
    }

    /** `try_collapse`: flips the first entry on the selected line and every
        entry below it; nothing happens when no entry is on that line. */
    method TryCollapse()
      modifies this
      ensures LinePosition(old(nodeData), selectedLine).None? ==> nodeData == old(nodeData)
      ensures LinePosition(old(nodeData), selectedLine).Some? ==>
        nodeData == Collapsed(old(nodeData), LinePosition(old(nodeData), selectedLine).value)
      ensures selectedLine == old(selectedLine) && contentTree == old(contentTree)
      ensures drawnNodes == old(drawnNodes) && completedLines == old(completedLines)
      ensures currentNodeTaskLines == old(currentNodeTaskLines)
    {
      var pos := LinePosition(nodeData, selectedLine);
      if pos.Some? {
        var idx := pos.value;
        var data := nodeData[idx := nodeData[idx].(visible := !nodeData[idx].visible)];
        var found := data[idx].nodePath;
        ghost var target := Collapsed(nodeData, idx);
        var j := 0;
        while j < |data|
          invariant 0 <= j <= |data| == |nodeData|
          invariant forall k :: 0 <= k < j ==> data[k] == target[k]
          invariant forall k :: j <= k < |data| ==>
            data[k] == nodeData[k].(visible := nodeData[k].visible != (k == idx))
        {
          var entry := data[j];
          assert target[j] == entry.(visible := entry.visible != CollapseMatches(entry.nodePath, found));
          if |entry.nodePath| >= |found| {
            var depthDiff := if |entry.nodePath| - |found| >= 1 then |entry.nodePath| - |found| else 1;
            var keep := if |entry.nodePath| >= depthDiff then |entry.nodePath| - depthDiff else 0;
            if entry.nodePath[..keep] == found {
              data := data[j := entry.(visible := !entry.visible)];
            }
          }
          j := j + 1;
        }
        nodeData := data;
      }
    }

    /** `selected_task`: the task index and path of the entry whose task lines
        hold the selected line.  More than one such entry is a panic. */
    function SelectedTask(): (r: Option<(nat, NodePath)>)
      reads this
      requires |TaskMatches(nodeData, selectedLine)| <= 1
      ensures r.Some? <==> exists j :: 0 <= j < |nodeData| && selectedLine in nodeData[j].taskLines
      ensures r.Some? ==>
        exists j :: (0 <= j < |nodeData| && nodeData[j].nodePath == r.value.1 &&
                     r.value.0 < |nodeData[j].taskLines| && nodeData[j].taskLines[r.value.0] == selectedLine &&
                     forall i :: 0 <= i < r.value.0 ==> nodeData[j].taskLines[i] != selectedLine)
    {
      TaskMatchesSound(nodeData, selectedLine);
      var matches := TaskMatches(nodeData, selectedLine);
      if |matches| == 0 then None else Some(matches[0])
    }

    /** `toggle_nodes`: shows or hides every entry. */
    method ToggleNodes(visible: bool)
      modifies this
      ensures |nodeData| == |old(nodeData)|
      ensures forall j :: 0 <= j < |nodeData| ==> nodeData[j] == old(nodeData)[j].(visible := visible)
      ensures selectedLine == old(selectedLine) && contentTree == old(contentTree)
      ensures drawnNodes == old(drawnNodes) && completedLines == old(completedLines)
      ensures currentNodeTaskLines == old(currentNodeTaskLines)
    {
      var data := nodeData;
      var j := 0;
      while j < |data|
        invariant 0 <= j <= |data| == |nodeData|
        invariant forall k :: 0 <= k < j ==> data[k] == nodeData[k].(visible := visible)
        invariant forall k :: j <= k < |data| ==> data[k] == nodeData[k]
      {
        data := data[j := data[j].(visible := visible)];
        j := j + 1;
      }
      nodeData := data;
    }
  }
}
