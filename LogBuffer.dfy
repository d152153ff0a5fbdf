/** The bounded record lists shared by the logger and both log views: a new
    record goes at the end and, once the list reaches its limit, the oldest
    goes; the most recent few are read from the end. */
module LogBuffers {

  /** The list after `push(x)` followed by `if len() >= limit { remove(0) }`. */
  function Appended<T>(s: seq<T>, x: T, limit: nat): (r: seq<T>)
    requires limit >= 2
    ensures |r| == if |s| + 1 >= limit then |s| else |s| + 1
    ensures r == (s + [x])[|s| + 1 - |r|..]
    ensures r[|r| - 1] == x
  {
    var pushed := s + [x];
    if |pushed| >= limit then
      assert pushed[1..] == pushed[|s| + 1 - |s|..];
      pushed[1..]
    else
      assert pushed == pushed[0..];
      pushed
  }

  /** A list kept below its limit stays below it, whatever is appended. */
  lemma AppendedStaysBelow<T>(s: seq<T>, x: T, limit: nat)
    requires limit >= 2 && |s| < limit
    ensures |Appended(s, x, limit)| < limit
  {
  }

  /** `recent`: the last `size` records, or all of them when there are fewer,
      in their original order. */
  function Recent<T>(s: seq<T>, size: nat): (r: seq<T>)
    ensures |r| == if |s| >= size then size else |s|
    ensures r == s[|s| - |r|..]
  {
    if |s| >= size then s[|s| - size..] else s[..]
  }

  /** The record just appended is the last of the recent ones, and the
      others are the ones that were recent before, shifted by one. */
  lemma RecentAfterAppend<T>(s: seq<T>, x: T, limit: nat, size: nat)
    requires limit >= 2 && size >= 1 && size < limit && |s| < limit
    ensures Recent(Appended(s, x, limit), size) == Recent(Recent(s, size) + [x], size)
  {
    var w := s + [x];
    var a := Appended(s, x, limit);
    var r := Recent(a, size);
    var t := Recent(s, size);
    var u := t + [x];
    var q := Recent(u, size);
    assert |r| == |q|;
    forall i | 0 <= i < |r|
      ensures r[i] == q[i]
    {
      var k := |u| - |q| + i;
      assert r[i] == a[|a| - |r| + i] == w[|s| + 1 - |r| + i];
      assert q[i] == u[k];
      if k < |t| {
        assert u[k] == t[k] == s[|s| - |t| + k];
      } else {
        assert u[k] == x;
      }
    }
  }
}
