/** The first parser (`src/task_timer/node.rs`): markdown text becomes a tree
    of `Node`s whose `content` is one string holding every non-heading line
    under that heading.  Headings are placed with a stack of child indices
    that addresses the current insertion point. */
module MarkdownParser {
  import opened Wrappers

  datatype Node = Node(heading: Option<string>, content: Option<string>, children: seq<Node>)

  /** `Node::new`. */
  function NewNode(): (r: Node)
    ensures r.heading == None && r.content == None && r.children == []
  {
    Node(None, None, [])
  }

  /** `Node::new_with_heading`. */
  function NewWithHeading(heading: string): (r: Node)
    ensures r.heading == Some(heading) && r.content == None && r.children == []
  {
    Node(Some(heading), None, [])
  }

  // ---------------------------------------------------------------------
  // Lines

  /** `buf.split("\n")`: the pieces between separators, empty ones included. */
  function Split(s: string): (r: seq<string>)
    ensures |r| >= 1
    ensures forall k :: 0 <= k < |r| ==> '\n' !in r[k]
  {
    if |s| == 0 then [""]
    else
      var rest := Split(s[1..]);
      if s[0] == '\n' then [""] + rest else [[s[0]] + rest[0]] + rest[1..]
  }

  /** The pieces joined back with the separator. */
  function Join(pieces: seq<string>): string
    requires |pieces| >= 1
  {
    if |pieces| == 1 then pieces[0] else pieces[0] + "\n" + Join(pieces[1..])
  }

  /** Splitting loses nothing: the pieces join back to the input. */
  lemma {:induction false} SplitJoin(s: string)
    ensures Join(Split(s)) == s
  {
    if |s| > 0 {
      SplitJoin(s[1..]);
      var rest := Split(s[1..]);
      if s[0] == '\n' {
        assert ([""] + rest)[1..] == rest;
      } else if |rest| == 1 {
        assert Join(Split(s)) == [s[0]] + rest[0];
      } else {
        assert ([[s[0]] + rest[0]] + rest[1..])[1..] == rest[1..];
        assert Join(rest) == rest[0] + "\n" + Join(rest[1..]);
      }
    }
  }

  /** `.filter(|line| !line.is_empty())`. */
  function NonEmpty(pieces: seq<string>): (r: seq<string>)
    ensures forall k :: 0 <= k < |r| ==> |r[k]| > 0
    ensures forall k :: 0 <= k < |r| ==> r[k] in pieces
    ensures |r| <= |pieces|
  {
    if |pieces| == 0 then []
    else if |pieces[0]| == 0 then NonEmpty(pieces[1..])
    else [pieces[0]] + NonEmpty(pieces[1..])
  }

  /** The lines `convert_from` processes: non-empty and free of separators. */
  function Lines(buf: string): (r: seq<string>)
    ensures forall k :: 0 <= k < |r| ==> |r[k]| > 0 && '\n' !in r[k]
  {
    NonEmpty(Split(buf))
  }

  /** The depth of a line: how many '#' it holds, wherever they stand. */
  function HashCount(line: string): (r: nat)
    ensures r <= |line|
    ensures r > 0 <==> '#' in line
  {
    if |line| == 0 then 0
    else (if line[0] == '#' then 1 else 0) + HashCount(line[1..])
  }

  // ---------------------------------------------------------------------
  // Addressing by the index stack

  /** The node an index stack addresses, if every index is in range. */
  function NodeAt(root: Node, path: seq<nat>): Option<Node>
    decreases |path|
  {
    if |path| == 0 then Some(root)
    else if path[0] < |root.children| then NodeAt(root.children[path[0]], path[1..])
    else None
  }

  /** Every index on the stack addresses an existing child along the path, so
      `find_heading_level` never indexes out of range. */
  predicate ValidStack(root: Node, path: seq<nat>)
  {
    NodeAt(root, path).Some?
  }

  lemma {:induction false} ValidStackPrefix(root: Node, path: seq<nat>, k: nat)
    requires ValidStack(root, path) && k <= |path|
    ensures ValidStack(root, path[..k])
    decreases |path|
  {
    if k > 0 {
      assert path[..k][1..] == path[1..][..k - 1];
      ValidStackPrefix(root.children[path[0]], path[1..], k - 1);
    }
  }

  /** The write through the `&mut` reference `find_heading_level` hands back:
      the node at `path` replaced by `m`. */
  function ReplaceAt(root: Node, path: seq<nat>, m: Node): (r: Node)
    requires ValidStack(root, path)
    ensures |path| > 0 ==> r.heading == root.heading && r.content == root.content
    ensures |path| > 0 ==> |r.children| == |root.children|
    decreases |path|
  {
    if |path| == 0 then m
    else root.(children := root.children[path[0] := ReplaceAt(root.children[path[0]], path[1..], m)])
  }

  lemma {:induction false} ReplaceAtGet(root: Node, path: seq<nat>, m: Node)
    requires ValidStack(root, path)
    ensures NodeAt(ReplaceAt(root, path, m), path) == Some(m)
    decreases |path|
  {
    if |path| > 0 {
      ReplaceAtGet(root.children[path[0]], path[1..], m);
    }
  }

  /** The write changes nothing off its path: a node reached by a path that
      leaves the stack at some level is the node found there before. */
  lemma {:induction false} ReplaceAtElsewhere(root: Node, path: seq<nat>, m: Node, q: seq<nat>, i: nat)
    requires ValidStack(root, path)
    requires i < |path| && i < |q| && q[..i] == path[..i] && q[i] != path[i]
    ensures NodeAt(ReplaceAt(root, path, m), q) == NodeAt(root, q)
    decreases |path|
  {
    if i > 0 {
      assert q[0] == q[..i][0] && path[0] == path[..i][0];
      assert q[1..][..i - 1] == q[..i][1..] && path[1..][..i - 1] == path[..i][1..];
      ReplaceAtElsewhere(root.children[path[0]], path[1..], m, q[1..], i - 1);
    }
  }

  // ---------------------------------------------------------------------
  // Counting headings

  function HeadingCount(n: Node): nat
    decreases n, 1, 0
  {
    (if n.heading.Some? then 1 else 0) + ChildrenHeadingCount(n, |n.children|)
  }

  /** Heading nodes in the first `k` child subtrees of `n`. */
  function ChildrenHeadingCount(n: Node, k: nat): nat
    requires k <= |n.children|
    decreases n, 0, k
  {
    if k == 0 then 0 else ChildrenHeadingCount(n, k - 1) + HeadingCount(n.children[k - 1])
  }

  lemma {:induction false} ChildrenCountAgree(a: Node, b: Node, k: nat)
    requires k <= |a.children| && k <= |b.children|
    requires a.children[..k] == b.children[..k]
    ensures ChildrenHeadingCount(a, k) == ChildrenHeadingCount(b, k)
  {
    if k > 0 {
      assert a.children[..k - 1] == b.children[..k - 1];
      assert a.children[k - 1] == a.children[..k][k - 1];
      ChildrenCountAgree(a, b, k - 1);
    }
  }

  lemma {:induction false} ChildrenCountReplace(n: Node, i: nat, c: Node, k: nat)
    requires i < |n.children| && k <= |n.children|
    ensures ChildrenHeadingCount(n.(children := n.children[i := c]), k) + (if i < k then HeadingCount(n.children[i]) else 0)
         == ChildrenHeadingCount(n, k) + (if i < k then HeadingCount(c) else 0)
  {
    if k > 0 {
      ChildrenCountReplace(n, i, c, k - 1);
    }
  }

  lemma {:induction false} ReplaceAtCount(root: Node, path: seq<nat>, m: Node)
    requires ValidStack(root, path)
    ensures HeadingCount(ReplaceAt(root, path, m)) + HeadingCount(NodeAt(root, path).value)
         == HeadingCount(root) + HeadingCount(m)
    decreases |path|
  {
    if |path| > 0 {
      var i := path[0];
      ReplaceAtCount(root.children[i], path[1..], m);
      ChildrenCountReplace(root, i, ReplaceAt(root.children[i], path[1..], m), |root.children|);
    }
  }

  /** Appending a fresh heading below a node adds exactly one heading node. */
  lemma AppendChildCount(parent: Node, line: string)
    ensures HeadingCount(parent.(children := parent.children + [NewWithHeading(line)]))
         == HeadingCount(parent) + 1
  {
    var p' := parent.(children := parent.children + [NewWithHeading(line)]);
    assert p'.children[..|parent.children|] == parent.children[..|parent.children|];
    ChildrenCountAgree(p', parent, |parent.children|);
    assert HeadingCount(NewWithHeading(line)) == 1;
  }

  /** Non-empty lines holding at least one '#'. */
  function CountHeadingLines(lines: seq<string>): nat
  {
    if |lines| == 0 then 0
    else CountHeadingLines(lines[..|lines| - 1]) + (if HashCount(lines[|lines| - 1]) > 0 then 1 else 0)
  }

  // ---------------------------------------------------------------------
  // The parser

  /** The content after one more plain line: the line itself, or the old
      content, a "\n" separator and the line. */
  function AppendContent(old_content: Option<string>, line: string): (r: Option<string>)
    ensures r.Some?
    ensures old_content.None? ==> r.value == line
    ensures old_content.Some? ==> |r.value| == |old_content.value| + 1 + |line|
    ensures old_content.Some? ==> r.value[..|old_content.value|] == old_content.value
    ensures old_content.Some? ==> r.value[|old_content.value|..] == "\n" + line
  {
    match old_content
    case None => Some(line)
    case Some(existing) => Some(existing + "\n" + line)
  }

  /** `root'` is `root` with only the node at `path` changed: the heading
      node of `line` appended to its children. */
  predicate ChildAppended(root: Node, path: seq<nat>, line: string, root': Node)
    requires ValidStack(root, path)
  {
    var n := NodeAt(root, path).value;
    root' == ReplaceAt(root, path, n.(children := n.children + [NewWithHeading(line)]))
  }

  /** `root'` is `root` with only the node at `path` changed: `line` added to
      its content. */
  predicate ContentAppended(root: Node, path: seq<nat>, line: string, root': Node)
    requires ValidStack(root, path)
  {
    var n := NodeAt(root, path).value;
    root' == ReplaceAt(root, path, n.(content := AppendContent(n.content, line)))
  }

  /** The effect of a heading line of depth d = `HashCount(line)`: the stack
      is popped to fewer than d entries, the heading node of `line` is
      appended to the node it addresses (and nothing else in the tree
      changes), and that child's index is pushed, leaving at most d
      entries. */
  predicate HeadingLineAdded(root: Node, indices: seq<nat>, line: string, root': Node, indices': seq<nat>)
    requires HashCount(line) > 0
  {
    var popped := indices[..if |indices| < HashCount(line) then |indices| else HashCount(line) - 1];
    ValidStack(root, popped) && ValidStack(root', popped) &&
    |indices'| <= HashCount(line) &&
    indices' == popped + [|NodeAt(root, popped).value.children|] &&
    NodeAt(root', popped).value.children == NodeAt(root, popped).value.children + [NewWithHeading(line)] &&
    ChildAppended(root, popped, line, root')
  }

  /** `convert_line`: a line with a '#' anywhere becomes a heading child of
      the node the stack addresses once it is shorter than the depth, and its
      index is pushed; any other line is added to the current node's
      content. */
  method ConvertLine(line: string, root: Node, indices: seq<nat>) returns (root': Node, indices': seq<nat>)
    requires ValidStack(root, indices)
    ensures ValidStack(root', indices')
    ensures root'.heading == root.heading
    ensures HashCount(line) > 0 ==>
              HeadingLineAdded(root, indices, line, root', indices') && HeadingCount(root') == HeadingCount(root) + 1
    ensures HashCount(line) == 0 ==>
              indices' == indices &&
              NodeAt(root', indices).value.content == AppendContent(NodeAt(root, indices).value.content, line) &&
              NodeAt(root', indices).value.children == NodeAt(root, indices).value.children &&
              ContentAppended(root, indices, line, root') &&
              HeadingCount(root') == HeadingCount(root)
  {
    var depth := HashCount(line);
    indices' := indices;
    if depth > 0 {
      while |indices'| >= depth
        invariant |indices'| <= |indices| && indices' == indices[..|indices'|]
        invariant |indices'| == |indices| || |indices'| >= depth - 1
        decreases |indices'|
      {
        indices' := indices'[..|indices'| - 1];
      }
      ValidStackPrefix(root, indices, |indices'|);
      var parent := NodeAt(root, indices').value;
      var parent' := parent.(children := parent.children + [NewWithHeading(line)]);
      root' := ReplaceAt(root, indices', parent');
      ReplaceAtGet(root, indices', parent');
      ReplaceAtCount(root, indices', parent');
      AppendChildCount(parent, line);
      if depth > |indices'| {
        var pushed := indices' + [|parent'.children| - 1];
        assert NodeAt(root', pushed) == Some(NewWithHeading(line)) by {
          NodeAtExtend(root', indices', |parent'.children| - 1);
        }
        indices' := pushed;
      }
    } else {
      var current := NodeAt(root, indices').value;
      var current' := current.(content := AppendContent(current.content, line));
      root' := ReplaceAt(root, indices', current');
      ReplaceAtGet(root, indices', current');
      ReplaceAtCount(root, indices', current');
      ChildrenCountAgree(current', current, |current.children|);
    }
  }

  lemma {:induction false} NodeAtExtend(root: Node, path: seq<nat>, i: nat)
    requires ValidStack(root, path) && i < |NodeAt(root, path).value.children|
    ensures NodeAt(root, path + [i]) == Some(NodeAt(root, path).value.children[i])
    decreases |path|
  {
    if |path| > 0 {
      assert (path + [i])[1..] == path[1..] + [i];
      NodeAtExtend(root.children[path[0]], path[1..], i);
    }
  }

  /** `convert_from`: parse every non-empty line in order from an empty root.
      The root never gets a heading, there is one heading node per line with a
      '#', and a text without any '#' keeps all its lines, joined by "\n", as
      the root's content. */
  method ConvertFrom(buf: string) returns (root: Node)
    ensures root.heading == None
    ensures HeadingCount(root) == CountHeadingLines(Lines(buf))
    ensures HeadingFree(Lines(buf)) ==>
              root.children == [] &&
              root.content == (if |Lines(buf)| == 0 then None else Some(Join(Lines(buf))))
  {
    var lines := Lines(buf);
    root := NewNode();
    var stack: seq<nat> := [];
    var i := 0;
    while i < |lines|
      invariant 0 <= i <= |lines|
      invariant ValidStack(root, stack)
      invariant root.heading == None
      invariant HeadingCount(root) == CountHeadingLines(lines[..i])
      invariant HeadingFree(lines[..i]) ==> PlainRoot(root, stack, lines[..i])
    {
      ghost var before, beforeStack := root, stack;
      root, stack := ConvertLine(lines[i], root, stack);
      PrefixStep(lines, i);
      if HeadingFree(lines[..i + 1]) {
        PlainRootStep(before, beforeStack, root, stack, lines[..i], lines[i]);
      }
      i := i + 1;
    }
    assert lines[..|lines|] == lines;
  }

  /** One more line: the prefix grows by that line, its heading lines by one
      when the line holds a '#', and it stays free of headings only when the
      shorter prefix was and the line holds none. */
  lemma {:induction false} PrefixStep(lines: seq<string>, i: nat)
    requires i < |lines|
    ensures lines[..i + 1] == lines[..i] + [lines[i]]
    ensures CountHeadingLines(lines[..i + 1]) ==
              CountHeadingLines(lines[..i]) + (if HashCount(lines[i]) > 0 then 1 else 0)
    ensures HeadingFree(lines[..i + 1]) <==> HeadingFree(lines[..i]) && HashCount(lines[i]) == 0
  {
    assert lines[..i + 1][..i] == lines[..i];
  }

  /** No line of `lines` holds a '#'. */
  predicate HeadingFree(lines: seq<string>)
  {
    forall k :: 0 <= k < |lines| ==> HashCount(lines[k]) == 0
  }

  /** The parser's state after only plain lines: an empty stack and a root
      without children whose content is those lines joined by "\n". */
  predicate PlainRoot(root: Node, stack: seq<nat>, lines: seq<string>)
  {
    stack == [] && root.children == [] &&
    root.content == (if |lines| == 0 then None else Some(Join(lines)))
  }

  lemma PlainRootStep(root: Node, stack: seq<nat>, root': Node, stack': seq<nat>, lines: seq<string>, line: string)
    requires PlainRoot(root, stack, lines) && HashCount(line) == 0
    requires ValidStack(root, stack)
    requires stack' == stack
    requires NodeAt(root', stack).value.content == AppendContent(NodeAt(root, stack).value.content, line)
    requires NodeAt(root', stack).value.children == NodeAt(root, stack).value.children
    ensures PlainRoot(root', stack', lines + [line])
  {
    if |lines| > 0 {
      JoinSnoc(lines, line);
    } else {
      assert lines + [line] == [line];
    }
  }

  lemma {:induction false} JoinSnoc(pieces: seq<string>, last: string)
    requires |pieces| >= 1
    ensures Join(pieces + [last]) == Join(pieces) + "\n" + last
    decreases |pieces|
  {
    if |pieces| == 1 {
      assert (pieces + [last])[1..] == [last];
    } else {
      assert (pieces + [last])[1..] == pieces[1..] + [last];
      JoinSnoc(pieces[1..], last);
    }
  }
}
