/** The breadcrumb trail above a task view
    (`src/task_timer/views/task_view/navigation_bar.rs`): the headings entered
    so far, each cleaned of its markdown '#' marks and surrounding blanks. */
module Breadcrumbs {

  /** Rust's `char::is_whitespace`: the Unicode White_Space characters. */
  predicate IsWhitespace(c: char)
  {
    ('\t' <= c <= '\r') || c == ' ' || c == '\U{85}' || c == '\U{A0}' || c == '\U{1680}' ||
    ('\U{2000}' <= c <= '\U{200A}') || c == '\U{2028}' || c == '\U{2029}' || c == '\U{202F}' ||
    c == '\U{205F}' || c == '\U{3000}'
  }

  /** How many '#' `trim_start_matches('#')` removes. */
  function LeadingHashes(s: string): (n: nat)
    ensures n <= |s|
    ensures forall i :: 0 <= i < n ==> s[i] == '#'
    ensures n < |s| ==> s[n] != '#'
  {
    if |s| == 0 || s[0] != '#' then 0
    else
      var k := LeadingHashes(s[1..]);
      assert forall i :: 1 <= i < k + 1 ==> s[i] == s[1..][i - 1];
      k + 1
  }

  /** How many blanks `trim_start` removes. */
  function LeadingSpaces(s: string): (n: nat)
    ensures n <= |s|
    ensures forall i :: 0 <= i < n ==> IsWhitespace(s[i])
    ensures n < |s| ==> !IsWhitespace(s[n])
  {
    if |s| == 0 || !IsWhitespace(s[0]) then 0
    else
      var k := LeadingSpaces(s[1..]);
      assert forall i :: 1 <= i < k + 1 ==> s[i] == s[1..][i - 1];
      k + 1
  }

  /** How many blanks `trim_end` removes. */
  function TrailingSpaces(s: string): (n: nat)
    ensures n <= |s|
    ensures forall i :: |s| - n <= i < |s| ==> IsWhitespace(s[i])
    ensures n < |s| ==> !IsWhitespace(s[|s| - n - 1])
  {
    if |s| == 0 || !IsWhitespace(s[|s| - 1]) then 0
    else TrailingSpaces(s[..|s| - 1]) + 1
  }

  /** The blanks counted from position `k` are the blanks of `h` there. */
  lemma {:induction false} BlanksFrom(h: string, k: nat)
    requires k <= |h|
    ensures forall i :: k <= i < k + LeadingSpaces(h[k..]) ==> IsWhitespace(h[i])
    ensures k + LeadingSpaces(h[k..]) < |h| ==> !IsWhitespace(h[k + LeadingSpaces(h[k..])])
  {
    var t := h[k..];
    var b := LeadingSpaces(t);
    forall i | k <= i < k + b ensures IsWhitespace(h[i]) {
      assert h[i] == t[i - k];
    }
    if k + b < |h| {
      assert h[k + b] == t[b];
    }
  }

  /** Where the kept text of a heading starts: after the leading '#' marks
      and the blanks that follow them. */
  function CrumbStart(h: string): (a: nat)
    ensures a <= |h|
    ensures forall i :: 0 <= i < LeadingHashes(h) ==> h[i] == '#'
    ensures forall i :: LeadingHashes(h) <= i < a ==> IsWhitespace(h[i])
    ensures a < |h| ==> !IsWhitespace(h[a])
  {
    var k := LeadingHashes(h);
    BlanksFrom(h, k);
    k + LeadingSpaces(h[k..])
  }

  /** `new_heading.trim_start_matches('#').trim()`. */
  function Crumb(h: string): (r: string)
    ensures CrumbStart(h) + |r| <= |h| && r == h[CrumbStart(h)..CrumbStart(h) + |r|]
    ensures forall i :: CrumbStart(h) + |r| <= i < |h| ==> IsWhitespace(h[i])
    ensures r == [] || (!IsWhitespace(r[0]) && !IsWhitespace(r[|r| - 1]))
  {
    var u := h[CrumbStart(h)..];
    var t := TrailingSpaces(u);
    assert forall i :: CrumbStart(h) + |u| - t <= i < |h| ==> h[i] == u[i - CrumbStart(h)];
    u[..|u| - t]
  }

  /** A heading with nothing to trim is kept as it is. */
  lemma CrumbOfCleanHeading(h: string)
    requires h == [] || (h[0] != '#' && !IsWhitespace(h[0]) && !IsWhitespace(h[|h| - 1]))
    ensures Crumb(h) == h
  {
    assert CrumbStart(h) == 0;
    if h != [] {
      assert TrailingSpaces(h) == 0;
    }
  }

  /** `pop` on a list: drops the last element; nothing happens to an empty list. */
  function Popped<T>(s: seq<T>): (r: seq<T>)
    ensures |s| > 0 ==> r == s[..|s| - 1]
    ensures |s| == 0 ==> r == []
  {
    if |s| == 0 then [] else s[..|s| - 1]
  }

  /** Pushing a breadcrumb and popping it restores the trail. */
  lemma PushThenPop(trail: seq<string>, heading: string)
    ensures Popped(trail + [Crumb(heading)]) == trail
  {
    assert (trail + [Crumb(heading)])[..|trail|] == trail;
  }

  class NavigationBar {
    var backText: string
    var breadcrumbs: seq<string>

    /** `NavigationBar::new`. */
    constructor ()
      ensures backText == " (b) Back " && breadcrumbs == []
    {
      backText := " (b) Back ";
      breadcrumbs := [];
    }

    /** `push_breadcrumb`. */
    method PushBreadcrumb(newHeading: string)
      modifies this
      ensures breadcrumbs == old(breadcrumbs) + [Crumb(newHeading)]
      ensures backText == old(backText)
    {
      breadcrumbs := breadcrumbs + [Crumb(newHeading)];
    }

    /** `pop_breadcrumb`. */
    method PopBreadcrumb()
      modifies this
      ensures breadcrumbs == Popped(old(breadcrumbs))
      ensures backText == old(backText)
    {
      if |breadcrumbs| > 0 {
        breadcrumbs := breadcrumbs[..|breadcrumbs| - 1];
      }
    }
  }
}
