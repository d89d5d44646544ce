/** sort.Strings on the keys of a map: the sorted list is fixed by the set of keys alone. */
module SortedKeys {

  /** Byte-wise lexicographic order, Go's < on strings. */
  predicate Less(a: string, b: string) {
    b != [] && (a == [] || a[0] < b[0] || (a[0] == b[0] && Less(a[1..], b[1..])))
  }

  /** The texts agree before byte k, and there a ends or has the smaller byte. */
  ghost predicate DiffersAt(a: string, b: string, k: nat) {
    k < |b| && k <= |a| && a[..k] == b[..k] && (k < |a| ==> a[k] < b[k])
  }

  lemma SameHead(a: string, b: string, k: nat)
    requires a != [] && b != [] && a[0] == b[0]
    ensures DiffersAt(a, b, k + 1) <==> DiffersAt(a[1..], b[1..], k)
    ensures !DiffersAt(a, b, 0)
  {
    if k < |b[1..]| && k <= |a[1..]| {
      assert a[..k + 1] == [a[0]] + a[1..][..k] && b[..k + 1] == [b[0]] + b[1..][..k];
      assert a[..k + 1] == b[..k + 1] ==> a[1..][..k] == a[..k + 1][1..] == b[..k + 1][1..] == b[1..][..k];
    }
  }

  lemma OtherHead(a: string, b: string, k: nat)
    requires a == [] || b == [] || a[0] != b[0]
    ensures DiffersAt(a, b, k) <==> k == 0 && b != [] && (a == [] || a[0] < b[0])
  {
    assert a[..0] == b[..0];
    if 0 < k <= |a| && k <= |b| {
      assert a[..k][0] != b[..k][0];
    }
  }

  /** Two texts are told apart by the first byte in which they differ, or else the shorter is the smaller. */
  lemma {:induction false} LessExact(a: string, b: string)
    ensures Less(a, b) <==> exists k: nat :: DiffersAt(a, b, k)
  {
    hide DiffersAt;
    if a != [] && b != [] && a[0] == b[0] {
      LessExact(a[1..], b[1..]);
      SameHead(a, b, 0);
      if k: nat :| DiffersAt(a, b, k) {
        SameHead(a, b, if k == 0 then 0 else k - 1);
      }
      if k: nat :| DiffersAt(a[1..], b[1..], k) {
        SameHead(a, b, k);
      }
    } else {
      OtherHead(a, b, 0);
      forall k: nat
        ensures DiffersAt(a, b, k) <==> k == 0 && b != [] && (a == [] || a[0] < b[0])
      {
        OtherHead(a, b, k);
      }
    }
  }

  lemma {:induction false} LessTotal(a: string, b: string)
    ensures Less(a, b) || a == b || Less(b, a)
    ensures !(Less(a, b) && Less(b, a)) && !Less(a, a)
  {
    if a != [] && b != [] && a[0] == b[0] {
      LessTotal(a[1..], b[1..]);
      assert a == [a[0]] + a[1..] && b == [b[0]] + b[1..];
    }
    if a != [] {
      LessTotal(a[1..], a[1..]);
    }
  }

  lemma {:induction false} LessTransitive(a: string, b: string, c: string)
    requires Less(a, b) && Less(b, c)
    ensures Less(a, c)
  {
    if a != [] && a[0] == b[0] == c[0] {
      LessTransitive(a[1..], b[1..], c[1..]);
    }
  }

  ghost predicate Ascending(s: seq<string>) {
    forall i, j :: 0 <= i < j < |s| ==> Less(s[i], s[j])
  }

  /** The elements of s, as a set. */
  ghost function Elements(s: seq<string>): set<string> {
    set x | x in s
  }

  ghost predicate IsSortingOf(s: seq<string>, keys: set<string>) {
    Ascending(s) && Elements(s) == keys
  }

  /** Two ascending lists of the same keys are the same list: map iteration order cannot show. */
  lemma {:induction false} SortingUnique(s: seq<string>, t: seq<string>)
    requires Ascending(s) && Ascending(t) && Elements(s) == Elements(t)
    ensures s == t
  {
    assert s != [] ==> s[0] in Elements(s);
    assert t != [] ==> t[0] in Elements(t);
    assert s == [] <==> t == [];
    if s != [] {
      assert s[0] in t && t[0] in s;
      var i :| 0 <= i < |t| && t[i] == s[0];
      var j :| 0 <= j < |s| && s[j] == t[0];
      LessTotal(s[0], t[0]);
      assert s[0] == t[0];
      assert Elements(s[1..]) == Elements(t[1..]) by {
        LessTotal(s[0], s[0]);
        forall x
          ensures x in s[1..] <==> x in t[1..]
        {
          assert x in s[1..] <==> x in s && x != s[0] by { TailMember(s, x); }
          assert x in t[1..] <==> x in t && x != t[0] by { TailMember(t, x); }
          assert x in s <==> x in Elements(s);
          assert x in t <==> x in Elements(t);
        }
      }
      SortingUnique(s[1..], t[1..]);
      assert s == [s[0]] + s[1..] && t == [t[0]] + t[1..];
    }
  }

  lemma TailMember(s: seq<string>, x: string)
    requires Ascending(s) && s != []
    ensures x in s[1..] <==> x in s && x != s[0]
  {
    LessTotal(s[0], s[0]);
    if x in s[1..] {
      var i :| 0 <= i < |s[1..]| && s[1..][i] == x;
      assert s[i + 1] == x && Less(s[0], s[i + 1]);
    }
    if x in s && x != s[0] {
      var i :| 0 <= i < |s| && s[i] == x;
      assert s[1..][i - 1] == x;
    }
  }

  /** Insertion of a new key into an ascending list, the step of the sort. */
  function Insert(s: seq<string>, x: string): (t: seq<string>) {
    if s == [] then [x]
    else if Less(x, s[0]) then [x] + s
    else [s[0]] + Insert(s[1..], x)
  }

  /** A key put in front of an ascending list of larger ones. */
  lemma ConsAscending(x: string, s: seq<string>)
    requires Ascending(s) && forall y <- s :: Less(x, y)
    ensures Ascending([x] + s) && Elements([x] + s) == Elements(s) + {x}
  {
    var t := [x] + s;
    forall i, j | 0 <= i < j < |t|
      ensures Less(t[i], t[j])
    {
      assert t[j] == s[j - 1];
      if i > 0 {
        assert t[i] == s[i - 1];
      }
    }
    assert forall y :: y in t <==> y == x || y in s;
  }

  lemma SmallerThanAll(x: string, s: seq<string>)
    requires Ascending(s) && s != [] && Less(x, s[0])
    ensures forall y <- s :: Less(x, y)
  {
    forall j | 0 <= j < |s|
      ensures Less(x, s[j])
    {
      if j > 0 {
        LessTransitive(x, s[0], s[j]);
      }
    }
  }

  lemma {:induction false} InsertSorts(s: seq<string>, x: string)
    requires Ascending(s) && x !in s
    ensures Ascending(Insert(s, x)) && Elements(Insert(s, x)) == Elements(s) + {x}
  {
    hide Less;
    if s == [] {
      ConsAscending(x, []);
      assert [x] + [] == [x];
    } else if Less(x, s[0]) {
      SmallerThanAll(x, s);
      ConsAscending(x, s);
    } else {
      LessTotal(x, s[0]);
      var u := Insert(s[1..], x);
      InsertSorts(s[1..], x);
      forall y <- u
        ensures Less(s[0], y)
      {
        assert y in Elements(u);
        if y != x {
          assert y in Elements(s[1..]);
          var k :| 0 <= k < |s[1..]| && s[1..][k] == y;
          assert s[k + 1] == y;
        }
      }
      ConsAscending(s[0], u);
      assert s == [s[0]] + s[1..];
      assert forall y :: y in Elements(s) <==> y == s[0] || y in Elements(s[1..]);
    }
  }

  /** The keys of a map, taken in whatever order the iteration yields them and then sorted. */
  method Sorted(keys: set<string>) returns (s: seq<string>)
    ensures IsSortingOf(s, keys)
    ensures |s| == |keys|
  {
    s := [];
    var todo := keys;
    while todo != {}
      invariant Ascending(s) && Elements(s) == keys - todo && todo <= keys
      invariant |s| == |keys| - |todo|
      decreases todo
    {
      var k :| k in todo;
      assert k !in s by {
        assert k !in Elements(s);
      }
      InsertSorts(s, k);
      InsertLength(s, k);
      s := Insert(s, k);
      todo := todo - {k};
      assert keys - todo == keys - (todo + {k}) + {k};
    }
  }

  lemma {:induction false} InsertLength(s: seq<string>, x: string)
    ensures |Insert(s, x)| == |s| + 1
  {
    if s != [] && !Less(x, s[0]) {
      InsertLength(s[1..], x);
    }
  }

  /** Every finite set of keys has its sorted list; SortingUnique says there is only one. */
  lemma {:induction false} SortingExists(keys: set<string>)
    ensures exists s :: IsSortingOf(s, keys)
    decreases keys
  {
    if keys == {} {
      assert IsSortingOf([], keys);
    } else {
      var k :| k in keys;
      SortingExists(keys - {k});
      var s :| IsSortingOf(s, keys - {k});
      assert k !in s by {
        assert k !in Elements(s);
      }
      InsertSorts(s, k);
      assert IsSortingOf(Insert(s, k), keys);
    }
  }

  ghost function SortingOf(keys: set<string>): (s: seq<string>)
    ensures IsSortingOf(s, keys)
  {
    SortingExists(keys);
    var s :| IsSortingOf(s, keys);
    s
  }

  lemma {:induction false} SortingLength(s: seq<string>, keys: set<string>)
    requires IsSortingOf(s, keys)
    ensures |s| == |keys|
  {
    if s == [] {
      assert keys == {};
    } else {
      var x := s[0];
      forall y
        ensures y in Elements(s[1..]) <==> y in keys - {x}
      {
        TailMember(s, y);
        assert y in s <==> y in Elements(s);
      }
      assert Elements(s[1..]) == keys - {x};
      assert x in Elements(s);
      SortingLength(s[1..], keys - {x});
    }
  }
}
