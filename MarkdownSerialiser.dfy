/** Writing the tree back as markdown (`src/markdown_serialiser/markdown_serialiser.rs`):
    each heading on its own line, each task as a "- [x] " or "- [ ] " line,
    children after their parent's tasks, depth first.  The file write that
    ends `export` is not modelled; `ExportContents` is the text it writes. */
module MarkdownSerialiser {
  import opened Wrappers
  import opened DocTree

  /** Task `i` of every node can be read: `completed_tasks[i]` exists for
      every index of `content`, or `push_node` panics. */
  predicate Indexable(n: Node)
    decreases n
  {
    |n.completedTasks| >= |n.content| &&
    forall i :: 0 <= i < |n.children| ==> Indexable(n.children[i])
  }

  function Checkbox(done: bool): (r: string)
    ensures |r| == 6 && r[..3] == "- [" && r[4..] == "] "
    ensures r[3] == (if done then 'x' else ' ')
  {
    if done then "- [x] " else "- [ ] "
  }

  function HeadingText(n: Node): string
  {
    if n.heading.Some? then n.heading.value + "\n" else ""
  }

  /** The line of task `i`: its checkbox, its text and a line break. */
  function TaskLine(n: Node, i: nat): string
    requires i < |n.content| <= |n.completedTasks|
  {
    Checkbox(n.completedTasks[i]) + n.content[i] + "\n"
  }

  /** The lines of the first `k` tasks of `n`, in index order. */
  function TaskText(n: Node, k: nat): string
    requires k <= |n.content| <= |n.completedTasks|
  {
    if k == 0 then "" else TaskText(n, k - 1) + TaskLine(n, k - 1)
  }

  /** `push_node`: the heading line, then the task lines, then every child
      subtree.  `indent_len` is passed down but never used. */
  function PushNode(n: Node, indentLen: nat): (r: string)
    requires Indexable(n)
    ensures n.heading.Some? ==> |r| > |n.heading.value| && r[..|n.heading.value| + 1] == n.heading.value + "\n"
    decreases n, 1, 0
  {
    var head := HeadingText(n);
    var rest := TaskText(n, |n.content|) + ChildrenText(n, |n.children|, indentLen + 1);
    assert (head + rest)[..|head|] == head;
    head + rest
  }

  /** The serialisations of the first `k` children of `n`, in child order. */
  function ChildrenText(n: Node, k: nat, indentLen: nat): string
    requires k <= |n.children|
    requires forall i :: 0 <= i < k ==> Indexable(n.children[i])
    decreases n, 0, k
  {
    if k == 0 then "" else ChildrenText(n, k - 1, indentLen) + PushNode(n.children[k - 1], indentLen)
  }

  /** The text `export` writes: the root's children only, in order; the root's
      own heading and tasks are never emitted. */
  function ExportContents(root: Node): string
    requires forall i :: 0 <= i < |root.children| ==> Indexable(root.children[i])
  {
    ExportList(root.children)
  }

  /** The loop of `export`: each child's serialisation at indent 0, in order. */
  function ExportList(children: seq<Node>): string
    requires forall i :: 0 <= i < |children| ==> Indexable(children[i])
  {
    if |children| == 0 then ""
    else ExportList(children[..|children| - 1]) + PushNode(children[|children| - 1], 0)
  }

  /** `indent_len` has no effect on the output. */
  lemma {:induction false} IndentIrrelevant(n: Node, a: nat, b: nat)
    requires Indexable(n)
    ensures PushNode(n, a) == PushNode(n, b)
    decreases n, 1, 0
  {
    ChildrenIndentIrrelevant(n, |n.children|, a + 1, b + 1);
  }

  lemma {:induction false} ChildrenIndentIrrelevant(n: Node, k: nat, a: nat, b: nat)
    requires k <= |n.children|
    requires forall i :: 0 <= i < k ==> Indexable(n.children[i])
    ensures ChildrenText(n, k, a) == ChildrenText(n, k, b)
    decreases n, 0, k
  {
    if k > 0 {
      ChildrenIndentIrrelevant(n, k - 1, a, b);
      IndentIrrelevant(n.children[k - 1], a, b);
    }
  }

  predicate AllIndexable(children: seq<Node>)
  {
    forall i :: 0 <= i < |children| ==> Indexable(children[i])
  }

  lemma ConcatIndexable(left: seq<Node>, right: seq<Node>)
    requires AllIndexable(left) && AllIndexable(right)
    ensures AllIndexable(left + right)
  {
    forall i | 0 <= i < |left + right| ensures Indexable((left + right)[i]) {
      if i >= |left| { assert (left + right)[i] == right[i - |left|]; }
    }
  }

  /** Exporting one more child appends that child's text. */
  lemma {:induction false} ExportSnoc(children: seq<Node>, n: Node)
    requires AllIndexable(children) && Indexable(n)
    ensures AllIndexable(children + [n])
    ensures ExportList(children + [n]) == ExportList(children) + PushNode(n, 0)
  {
    var whole := children + [n];
    assert whole[..|whole| - 1] == children;
    assert whole[|whole| - 1] == n;
  }

  /** Exporting a concatenation of child lists is the concatenation of the
      exports: children are emitted in order, each independently. */
  lemma {:induction false} ExportSplit(left: seq<Node>, right: seq<Node>)
    requires AllIndexable(left) && AllIndexable(right)
    ensures AllIndexable(left + right)
    ensures ExportList(left + right) == ExportList(left) + ExportList(right)
    decreases |right|
  {
    ConcatIndexable(left, right);
    if |right| == 0 {
      assert left + right == left;
    } else {
      var shorter, last := right[..|right| - 1], right[|right| - 1];
      assert right == shorter + [last];
      assert left + right == (left + shorter) + [last];
      assert AllIndexable(shorter) && Indexable(last);
      ExportSplit(left, shorter);
      ExportSnoc(left + shorter, last);
      ExportSnoc(shorter, last);
    }
  }

  // ---------------------------------------------------------------------
  // Counting output lines

  function NewlineCount(s: string): nat
  {
    if |s| == 0 then 0 else NewlineCount(s[..|s| - 1]) + (if s[|s| - 1] == '\n' then 1 else 0)
  }

  lemma {:induction false} NewlineCountAppend(a: string, b: string)
    ensures NewlineCount(a + b) == NewlineCount(a) + NewlineCount(b)
    decreases |b|
  {
    if |b| > 0 {
      assert (a + b)[..|a + b| - 1] == a + b[..|b| - 1];
      NewlineCountAppend(a, b[..|b| - 1]);
    } else {
      assert a + b == a;
    }
  }

  /** No heading and no task text holds a line break. */
  predicate SingleLineTexts(n: Node)
    decreases n
  {
    (n.heading.Some? ==> '\n' !in n.heading.value) &&
    (forall i :: 0 <= i < |n.content| ==> '\n' !in n.content[i]) &&
    forall i :: 0 <= i < |n.children| ==> SingleLineTexts(n.children[i])
  }

  lemma {:induction false} NoNewlines(s: string)
    requires '\n' !in s
    ensures NewlineCount(s) == 0
    decreases |s|
  {
    if |s| > 0 {
      assert s == s[..|s| - 1] + [s[|s| - 1]];
      NoNewlines(s[..|s| - 1]);
    }
  }

  /** Headed nodes plus tasks in a subtree: the lines it serialises to. */
  function LineCount(n: Node): nat
    decreases n, 1, 0
  {
    (if n.heading.Some? then 1 else 0) + |n.content| + ChildrenLineCount(n, |n.children|)
  }

  function ChildrenLineCount(n: Node, k: nat): nat
    requires k <= |n.children|
    decreases n, 0, k
  {
    if k == 0 then 0 else ChildrenLineCount(n, k - 1) + LineCount(n.children[k - 1])
  }

  lemma {:induction false} TaskTextLines(n: Node, k: nat)
    requires k <= |n.content| <= |n.completedTasks|
    requires forall i :: 0 <= i < |n.content| ==> '\n' !in n.content[i]
    ensures NewlineCount(TaskText(n, k)) == k
  {
    if k > 0 {
      TaskTextLines(n, k - 1);
      var text := Checkbox(n.completedTasks[k - 1]) + n.content[k - 1];
      assert '\n' !in text;
      NoNewlines(text);
      assert TaskLine(n, k - 1) == text + "\n";
      assert (text + "\n")[..|text|] == text;
      NewlineCountAppend(TaskText(n, k - 1), TaskLine(n, k - 1));
    }
  }

  /** With single-line texts, a node serialises to one line per headed node
      and one per task in its subtree. */
  lemma {:induction false} PushNodeLineCount(n: Node, indentLen: nat)
    requires Indexable(n) && SingleLineTexts(n)
    ensures NewlineCount(PushNode(n, indentLen)) == LineCount(n)
    decreases n, 1, 0
  {
    var head := HeadingText(n);
    if n.heading.Some? {
      NoNewlines(n.heading.value);
      NewlineCountAppend(n.heading.value, "\n");
    }
    TaskTextLines(n, |n.content|);
    ChildrenLineCountLemma(n, |n.children|, indentLen + 1);
    NewlineCountAppend(TaskText(n, |n.content|), ChildrenText(n, |n.children|, indentLen + 1));
    NewlineCountAppend(head, TaskText(n, |n.content|) + ChildrenText(n, |n.children|, indentLen + 1));
  }

  lemma {:induction false} ChildrenLineCountLemma(n: Node, k: nat, indentLen: nat)
    requires k <= |n.children|
    requires forall i :: 0 <= i < k ==> Indexable(n.children[i]) && SingleLineTexts(n.children[i])
    ensures NewlineCount(ChildrenText(n, k, indentLen)) == ChildrenLineCount(n, k)
    decreases n, 0, k
  {
    if k > 0 {
      ChildrenLineCountLemma(n, k - 1, indentLen);
      PushNodeLineCount(n.children[k - 1], indentLen);
      NewlineCountAppend(ChildrenText(n, k - 1, indentLen), PushNode(n.children[k - 1], indentLen));
    }
  }

  function ListLineCount(children: seq<Node>): nat
  {
    if |children| == 0 then 0 else ListLineCount(children[..|children| - 1]) + LineCount(children[|children| - 1])
  }

  /** The exported text has one line per headed node and task below the root. */
  lemma {:induction false} ExportLineCount(children: seq<Node>)
    requires forall i :: 0 <= i < |children| ==> Indexable(children[i]) && SingleLineTexts(children[i])
    ensures NewlineCount(ExportList(children)) == ListLineCount(children)
    decreases |children|
  {
    if |children| > 0 {
      var last := children[|children| - 1];
      ExportLineCount(children[..|children| - 1]);
      PushNodeLineCount(last, 0);
      NewlineCountAppend(ExportList(children[..|children| - 1]), PushNode(last, 0));
    }
  }
}
