/** Bytes and the few sequence functions the output and transport models share. */
module Bytes {

  type Byte = b: int | 0 <= b < 256

  /** The last n elements of s, or all of it when it is shorter. */
  function Last<T>(n: nat, s: seq<T>): (r: seq<T>)
    ensures |r| == if |s| <= n then |s| else n
  {
    if |s| <= n then s else s[|s| - n..]
  }

  /** The chunks, one after the other. */
  function Concat<T>(chunks: seq<seq<T>>): seq<T> {
    if chunks == [] then [] else Concat(chunks[..|chunks| - 1]) + chunks[|chunks| - 1]
  }

  lemma SliceSlice<T>(s: seq<T>, a: nat, b: nat, c: nat, d: nat)
    requires a <= b <= |s| && c <= d <= b - a
    ensures s[a..b][c..d] == s[a + c..a + d]
  {
    var l, r := s[a..b][c..d], s[a + c..a + d];
    assert |l| == |r|;
    forall i | 0 <= i < |l|
      ensures l[i] == r[i]
    {
      assert l[i] == s[a..b][c + i];
    }
  }

  /** Slices of a list that grew at its end. */
  lemma SliceAppend<T>(s: seq<T>, c: seq<T>, a: nat, b: nat)
    requires a <= b <= |s|
    ensures (s + c)[a..b] == s[a..b] && (s + c)[a..|s| + |c|] == s[a..|s|] + c
  {
  }

  /** The last elements of a slice, as a slice of the whole. */
  lemma LastOfSlice<T>(s: seq<T>, a: nat, b: nat, n: nat)
    requires a <= b <= |s|
    ensures Last(n, s[a..b]) == s[if b - a <= n then a else b - n..b]
  {
    if b - a > n {
      SliceSlice(s, a, b, b - a - n, b - a);
      assert s[a..b][b - a - n..] == s[a..b][b - a - n..b - a];
    }
  }

  /** The end of one slice and the end of another that stops at the same place are the same elements. */
  lemma CommonEnd<T>(s: seq<T>, a: nat, b: nat, end: nat)
    requires a <= end <= |s| && b <= end
    ensures Last(end - a, s[b..end]) == Last(end - b, s[a..end])
  {
    hide Last;
    LastOfSlice(s, a, end, end - b);
    LastOfSlice(s, b, end, end - a);
  }

  // ---------- In-order subsequences ----------

  ghost predicate Subsequence<T>(a: seq<T>, b: seq<T>) {
    a == [] || (b != [] && ((a[|a| - 1] == b[|b| - 1] && Subsequence(a[..|a| - 1], b[..|b| - 1]))
                            || Subsequence(a, b[..|b| - 1])))
  }

  lemma SubsequenceKeep<T>(a: seq<T>, b: seq<T>, m: T)
    requires Subsequence(a, b)
    ensures Subsequence(a + [m], b + [m])
  {
    assert (a + [m])[..|a|] == a && (b + [m])[..|b|] == b;
  }

  lemma SubsequenceSkip<T>(a: seq<T>, b: seq<T>, m: T)
    requires Subsequence(a, b)
    ensures Subsequence(a, b + [m])
  {
    assert (b + [m])[..|b|] == b;
  }

  lemma {:induction false} SubsequenceMember<T>(a: seq<T>, b: seq<T>, m: T)
    requires Subsequence(a, b) && m in a
    ensures m in b
  {
    var i :| 0 <= i < |a| && a[i] == m;
    if a[|a| - 1] == b[|b| - 1] && Subsequence(a[..|a| - 1], b[..|b| - 1]) {
      if i < |a| - 1 {
        assert a[..|a| - 1][i] == m;
        SubsequenceMember(a[..|a| - 1], b[..|b| - 1], m);
      }
    } else {
      SubsequenceMember(a, b[..|b| - 1], m);
    }
  }
}
