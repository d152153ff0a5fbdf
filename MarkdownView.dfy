/** The earliest outline view (`src/task_timer/markdown_view.rs`): a table of
    drawn headings with their screen line and whether their content is
    shown, and the per-heading time total drawn beside it. */
module MarkdownOutline {
  import opened Wrappers
  import opened DocTree

  datatype NodeEntry = NodeEntry(lineNum: nat, nodePath: NodePath, visible: bool)

  function LinePosition(data: seq<NodeEntry>, line: nat): (r: Option<nat>)
    ensures r.Some? ==> r.value < |data| && data[r.value].lineNum == line &&
                        forall j :: 0 <= j < r.value ==> data[j].lineNum != line
    ensures r.None? <==> forall j :: 0 <= j < |data| ==> data[j].lineNum != line
  {
    if |data| == 0 then None
    else if data[0].lineNum == line then Some(0)
    else match LinePosition(data[1..], line)
      case Some(k) => Some(k + 1)
      case None => None
  }

  function PathPosition(data: seq<NodeEntry>, path: NodePath): (r: Option<nat>)
    ensures r.Some? ==> r.value < |data| && data[r.value].nodePath == path &&
                        forall j :: 0 <= j < r.value ==> data[j].nodePath != path
    ensures r.None? <==> forall j :: 0 <= j < |data| ==> data[j].nodePath != path
  {
    if |data| == 0 then None
    else if data[0].nodePath == path then Some(0)
    else match PathPosition(data[1..], path)
      case Some(k) => Some(k + 1)
      case None => None
  }

  predicate UniquePaths(data: seq<NodeEntry>)
  {
    forall i, j :: 0 <= i < j < |data| ==> data[i].nodePath != data[j].nodePath
  }

  /** The table with the first entry on `line` shown if it was hidden and
      hidden if it was shown; unchanged when no entry is on that line. */
  function Collapsed(data: seq<NodeEntry>, line: nat): (r: seq<NodeEntry>)
    ensures |r| == |data|
    ensures LinePosition(data, line).None? ==> r == data
    ensures LinePosition(data, line).Some? ==>
      var idx := LinePosition(data, line).value;
      r[idx] == data[idx].(visible := !data[idx].visible) &&
      forall j :: 0 <= j < |data| && j != idx ==> r[j] == data[j]
  {
    match LinePosition(data, line)
    case Some(idx) => data[idx := data[idx].(visible := !data[idx].visible)]
    case None => data
  }

  /** Collapsing keeps the lines, so collapsing the same line twice restores
      the table. */
  lemma CollapseTwiceRestores(data: seq<NodeEntry>, line: nat)
    ensures Collapsed(Collapsed(data, line), line) == data
  {
    var once := Collapsed(data, line);
    if LinePosition(data, line).Some? {
      var idx := LinePosition(data, line).value;
      forall j | 0 <= j < |data|
        ensures once[j].lineNum == data[j].lineNum
      {
      }
      assert LinePosition(once, line) == Some(idx);
    } else {
      assert LinePosition(once, line).None?;
    }
  }

  class MarkdownView {
    var selectedLine: nat
    var contentTree: Node
    var nodeData: seq<NodeEntry>

    /** `MarkdownView::new`. */
    constructor ()
      ensures selectedLine == 1 && contentTree == EmptyRoot() && nodeData == []
      ensures UniquePaths(nodeData)
    {
      selectedLine := 1;
      contentTree := EmptyRoot();
      nodeData := [];
    }

    /** `update`. */
    method Update(newTree: Node)
      modifies this
      ensures contentTree == newTree && selectedLine == old(selectedLine) && nodeData == old(nodeData)
    {
      contentTree := newTree;
    }

    /** `try_collapse`. */
    method TryCollapse()
      modifies this
      ensures nodeData == Collapsed(old(nodeData), selectedLine)
      ensures selectedLine == old(selectedLine) && contentTree == old(contentTree)
    {
      var pos := LinePosition(nodeData, selectedLine);
      if pos.Some? {
        var idx := pos.value;
        if nodeData[idx].visible {
          nodeData := nodeData[idx := nodeData[idx].(visible := false)];
        } else {
          nodeData := nodeData[idx := nodeData[idx].(visible := true)];
        }
      }
    }

    /** `add_new_node`: a path not yet in the table is added, shown, and the
        answer says whether it was. */
    method AddNewNode(path: NodePath, line: nat) returns (added: bool)
      modifies this
      ensures added <==> PathPosition(old(nodeData), path).None?
      ensures added ==> nodeData == old(nodeData) + [NodeEntry(line, path, true)]
      ensures !added ==> nodeData == old(nodeData)
      ensures old(UniquePaths(nodeData)) ==> UniquePaths(nodeData)
      ensures selectedLine == old(selectedLine) && contentTree == old(contentTree)
    {
      if PathPosition(nodeData, path).None? {
        nodeData := nodeData + [NodeEntry(line, path, true)];
        return true;
      }
      return false;
    }

    /** `update_node_data`: a new heading is added, a known one moves to its
        new line keeping its visibility.  A node not on the tree is a
        panic. */
    method UpdateNodeData(node: Node, top: nat)
      requires FindPath(contentTree, node).Some?
      modifies this
      ensures selectedLine == old(selectedLine) && contentTree == old(contentTree)
      ensures var path := FindPath(contentTree, node).value;
        match PathPosition(old(nodeData), path)
        case None => nodeData == old(nodeData) + [NodeEntry(top, path, true)]
        case Some(idx) => nodeData == old(nodeData)[idx := old(nodeData)[idx].(lineNum := top)]
      ensures old(UniquePaths(nodeData)) ==> UniquePaths(nodeData)
    {
      var path := FindPath(contentTree, node).value;
      var added := AddNewNode(path, top);
      if added {
        return;
      }
      var pos := PathPosition(nodeData, path);
      if pos.Some? {
        var idx := pos.value;
        nodeData := nodeData[idx := nodeData[idx].(lineNum := top)];
      }
    }
  }

  /** After recording a node there is exactly one entry with its path, on the
      recorded line. */
  lemma RecordedOnce(data: seq<NodeEntry>, path: NodePath, top: nat)
    requires UniquePaths(data)
    ensures var r := match PathPosition(data, path)
              case None => data + [NodeEntry(top, path, true)]
              case Some(idx) => data[idx := data[idx].(lineNum := top)];
      PathPosition(r, path).Some? && r[PathPosition(r, path).value].lineNum == top &&
      forall j :: 0 <= j < |r| && j != PathPosition(r, path).value ==> r[j].nodePath != path
  {
    match PathPosition(data, path)
    case None =>
      var r := data + [NodeEntry(top, path, true)];
      assert r[|data|].nodePath == path;
    case Some(idx) =>
      var r := data[idx := data[idx].(lineNum := top)];
      assert r[idx].nodePath == path;
  }

  /** The total drawn beside a heading in `draw_timers`: the sum of the
      node's task times, whether or not its content is shown.  A node with
      more times than tasks, or fewer, is a panic. */
  method HeadingTotal(node: Node, visible: bool) returns (totalSeconds: nat, linesDrawn: nat)
    requires |node.content| == |node.contentTimes|
    ensures totalSeconds == Sum(node.contentTimes)
    ensures linesDrawn == if visible then |node.contentTimes| else 0
  {
    totalSeconds := 0;
    linesDrawn := 0;
    var i := 0;
    while i < |node.contentTimes|
      invariant 0 <= i <= |node.contentTimes|
      invariant totalSeconds == Sum(node.contentTimes[..i])
      invariant linesDrawn == if visible then i else 0
    {
      if visible {
        linesDrawn := linesDrawn + 1;
      }
      assert node.contentTimes[..i + 1][..i] == node.contentTimes[..i];
      totalSeconds := totalSeconds + node.contentTimes[i];
      i := i + 1;
    }
    assert node.contentTimes[..i] == node.contentTimes;
  }
}
