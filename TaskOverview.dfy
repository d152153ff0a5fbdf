/** The task list of the home view (`src/task_timer/views/home/tasks_overview.rs`):
    the node's tasks with their flags, then the headings of its children. */
module TaskOverviews {
  import opened Wrappers
  import opened DocTree
  import Pagination
  import opened Numbers

  datatype TaskOverview = TaskOverview(
    tasks: seq<(bool, string)>,
    subheadings: seq<string>,
    selectedLine: nat,
    contentHeight: nat)

  /** `zip`: pairs up to the shorter list. */
  function ZipFlags(flags: seq<bool>, texts: seq<string>): (r: seq<(bool, string)>)
    ensures |r| == Min(|flags|, |texts|)
    ensures forall i :: 0 <= i < |r| ==> r[i] == (flags[i], texts[i])
  {
    seq(Min(|flags|, |texts|), i requires 0 <= i < Min(|flags|, |texts|) => (flags[i], texts[i]))
  }

  /** `filter_map(|e| e.heading.clone())`: the headings that exist, in order. */
  function Headings(children: seq<Node>): (r: seq<string>)
    ensures |r| <= |children|
  {
    if |children| == 0 then []
    else Headings(children[..|children| - 1]) +
         (if children[|children| - 1].heading.Some? then [children[|children| - 1].heading.value] else [])
  }

  /** One heading for each child when every child is headed. */
  lemma {:induction false} HeadingsLength(children: seq<Node>)
    ensures (forall i :: 0 <= i < |children| ==> children[i].heading.Some?) ==> |Headings(children)| == |children|
  {
    if |children| > 0 {
      var prefix := children[..|children| - 1];
      HeadingsLength(prefix);
      if forall i :: 0 <= i < |children| ==> children[i].heading.Some? {
        assert forall i :: 0 <= i < |prefix| ==> prefix[i] == children[i];
      }
    }
  }

  /** The headings kept are exactly those of the headed children. */
  lemma {:induction false} HeadingsOfHeaded(children: seq<Node>, h: string)
    ensures h in Headings(children) <==> exists i :: 0 <= i < |children| && children[i].heading == Some(h)
  {
    if |children| > 0 {
      var prefix := children[..|children| - 1];
      var last := |children| - 1;
      HeadingsOfHeaded(prefix, h);
      if h in Headings(children) {
        if h in Headings(prefix) {
          var i :| 0 <= i < |prefix| && prefix[i].heading == Some(h);
          assert children[i] == prefix[i];
        } else {
          assert children[last].heading == Some(h);
        }
      }
      if exists i :: 0 <= i < |children| && children[i].heading == Some(h) {
        var i :| 0 <= i < |children| && children[i].heading == Some(h);
        if i < last {
          assert prefix[i] == children[i];
        }
      }
    }
  }

  /** `TaskOverview::new`.  The two lengths are each cast to `u16` before
      they are added, and the sum wraps. */
  function NewOverview(node: Node): (r: TaskOverview)
    ensures r.tasks == ZipFlags(node.completedTasks, node.content)
    ensures r.subheadings == Headings(node.children)
    ensures r.selectedLine == 1
    ensures r.contentHeight == Pagination.AsU16(|r.tasks| + |r.subheadings|)
  {
    var tasks := ZipFlags(node.completedTasks, node.content);
    var subheadings := Headings(node.children);
    Pagination.AsU16Add(|tasks|, |subheadings|);
    TaskOverview(tasks, subheadings, 1, Pagination.AsU16(Pagination.AsU16(|tasks|) + Pagination.AsU16(|subheadings|)))
  }

  /** On a well-formed node every task is listed and, when every child is
      headed, so is every child: the overview has one line per task and per
      child. */
  lemma OverviewHeight(node: Node)
    requires WellFormed(node)
    requires forall i :: 0 <= i < |node.children| ==> node.children[i].heading.Some?
    ensures NewOverview(node).contentHeight == Pagination.AsU16(|node.content| + |node.children|)
    ensures |node.content| + |node.children| < 65536 ==>
              NewOverview(node).contentHeight == |node.content| + |node.children|
  {
    HeadingsLength(node.children);
  }
}
