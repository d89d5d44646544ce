/** What includes do to the combinations of a matrix, one include after the other. */
module MatrixIncludes {
  import opened Bytes
  import opened Matrix
  import opened Options

  /** The combinations when the first n includes are through. */
  function Stage<V>(fmt: V -> string, base: seq<Combo<V>>, includes: seq<Combo<V>>, n: nat): seq<Combo<V>>
    requires n <= |includes|
  {
    AfterIncludes(fmt, base, includes[..n])
  }

  /** The two agree, by formatted value, on every key that both have. */
  predicate Agree<V>(fmt: V -> string, combo: Combo<V>, inc: Combo<V>) {
    forall k :: k in combo && k in inc ==> fmt(combo[k]) == fmt(inc[k])
  }

  lemma AgreeIs<V>(fmt: V -> string, combo: Combo<V>, inc: Combo<V>)
    ensures Agree(fmt, combo, inc) <==> MatchesShared(fmt, combo, inc)
  {
  }

  predicate SomeAgrees<V>(fmt: V -> string, combos: seq<Combo<V>>, inc: Combo<V>) {
    exists i :: 0 <= i < |combos| && Agree(fmt, combos[i], inc)
  }

  /** after is before with the keys of inc that before lacks; what before has stays. */
  ghost predicate Gains<V>(before: Combo<V>, inc: Combo<V>, after: Combo<V>) {
    && after.Keys == before.Keys + inc.Keys
    && (forall k <- before :: k in after && after[k] == before[k])
    && forall k <- inc :: k !in before ==> k in after && after[k] == inc[k]
  }

  lemma {:induction false} IncludesLast<V>(fmt: V -> string, base: seq<Combo<V>>, front: seq<Combo<V>>, inc: Combo<V>)
    ensures AfterIncludes(fmt, base, front + [inc]) == ApplyInclude(fmt, AfterIncludes(fmt, base, front), inc)
    decreases |front|
  {
    hide ApplyInclude;
    if front == [] {
      assert front + [inc] == [inc] && [inc][1..] == [];
    } else {
      assert (front + [inc])[1..] == front[1..] + [inc];
      IncludesLast(fmt, ApplyInclude(fmt, base, front[0]), front[1..], inc);
    }
  }

  lemma StageNext<V>(fmt: V -> string, base: seq<Combo<V>>, includes: seq<Combo<V>>, n: nat)
    requires n < |includes|
    ensures Stage(fmt, base, includes, n + 1) == ApplyInclude(fmt, Stage(fmt, base, includes, n), includes[n])
  {
    hide AfterIncludes, ApplyInclude;
    assert includes[..n + 1] == includes[..n] + [includes[n]];
    IncludesLast(fmt, base, includes[..n], includes[n]);
  }

  lemma StageEnds<V>(fmt: V -> string, base: seq<Combo<V>>, includes: seq<Combo<V>>)
    ensures Stage(fmt, base, includes, 0) == base
    ensures Stage(fmt, base, includes, |includes|) == AfterIncludes(fmt, base, includes)
  {
    assert includes[..|includes|] == includes;
  }

  /** One include: every combination that disagrees with it is left alone, every one that agrees gains its missing keys
      and keeps what it has, and if none agrees the include becomes a combination of its own, at the end. */
  lemma IncludeExact<V>(fmt: V -> string, base: seq<Combo<V>>, includes: seq<Combo<V>>, n: nat)
    requires n < |includes|
    ensures var (before, after, inc) := (Stage(fmt, base, includes, n), Stage(fmt, base, includes, n + 1), includes[n]);
            && |after| == |before| + (if SomeAgrees(fmt, before, inc) then 0 else 1)
            && (!SomeAgrees(fmt, before, inc) ==> after[|before|] == inc)
            && forall i :: 0 <= i < |before| ==>
                 if Agree(fmt, before[i], inc) then Gains(before[i], inc, after[i]) else after[i] == before[i]
  {
    hide Stage, Agree, MatchesShared;
    StageNext(fmt, base, includes, n);
    var before := Stage(fmt, base, includes, n);
    forall i | 0 <= i < |before|
      ensures Agree(fmt, before[i], includes[n]) <==> MatchesShared(fmt, before[i], includes[n])
    {
      AgreeIs(fmt, before[i], includes[n]);
    }
  }

  // ---------- All includes ----------

  /** A key that combination i lacks before include n and has, with this value, from include n. */
  ghost predicate CameFrom<V>(fmt: V -> string, base: seq<Combo<V>>, includes: seq<Combo<V>>, n: nat, i: nat, k: string,
                              v: V)
    requires n < |includes|
  {
    var before := Stage(fmt, base, includes, n);
    && k in includes[n] && includes[n][k] == v
    && i < |before| && k !in before[i] && Agree(fmt, before[i], includes[n])
  }

  lemma {:induction false} StageGrows<V>(fmt: V -> string, base: seq<Combo<V>>, includes: seq<Combo<V>>, n: nat)
    requires n <= |includes|
    ensures |base| <= |Stage(fmt, base, includes, n)|
  {
    hide Stage, SomeAgrees, Agree, Gains;
    if n == 0 {
      StageEnds(fmt, base, includes);
    } else {
      StageGrows(fmt, base, includes, n - 1);
      IncludeExact(fmt, base, includes, n - 1);
    }
  }

  /** Every key that a base combination did not have comes, with its value, from an include that agreed with what the
      combination was by then. */
  lemma {:induction false} KeyCameFrom<V>(fmt: V -> string, base: seq<Combo<V>>, includes: seq<Combo<V>>, n: nat, i: nat,
                                          k: string)
    requires n <= |includes| && i < |base|
    ensures i < |Stage(fmt, base, includes, n)|
    ensures k in Stage(fmt, base, includes, n)[i] ==>
              var v := Stage(fmt, base, includes, n)[i][k];
              (k in base[i] && v == base[i][k]) ||
              (k !in base[i] && exists j :: 0 <= j < n && CameFrom(fmt, base, includes, j, i, k, v))
  {
    hide Stage, SomeAgrees, Agree;
    StageGrows(fmt, base, includes, n);
    if n == 0 {
      StageEnds(fmt, base, includes);
    } else {
      var m := n - 1;
      StageGrows(fmt, base, includes, m);
      IncludeExact(fmt, base, includes, m);
      KeyCameFrom(fmt, base, includes, m, i, k);
      if k in base[i] {
        StillThere(fmt, base, includes, m, i, k);
      }
      var (before, after) := (Stage(fmt, base, includes, m)[i], Stage(fmt, base, includes, n)[i]);
      if k in after && k !in before {
        assert CameFrom(fmt, base, includes, m, i, k, after[k]);
      }
    }
  }

  lemma {:induction false} StillThere<V>(fmt: V -> string, base: seq<Combo<V>>, includes: seq<Combo<V>>, n: nat, i: nat,
                                         k: string)
    requires n <= |includes| && i < |base| && k in base[i]
    ensures i < |Stage(fmt, base, includes, n)| && k in Stage(fmt, base, includes, n)[i]
  {
    hide Stage, SomeAgrees, Agree;
    StageGrows(fmt, base, includes, n);
    if n == 0 {
      StageEnds(fmt, base, includes);
    } else {
      StillThere(fmt, base, includes, n - 1, i, k);
      IncludeExact(fmt, base, includes, n - 1);
    }
  }

  /** The includes that agreed with no combination when their turn came. */
  function Unmatched<V>(fmt: V -> string, base: seq<Combo<V>>, includes: seq<Combo<V>>, n: nat): set<nat>
    requires n <= |includes|
  {
    set j: nat | j < n && !SomeAgrees(fmt, Stage(fmt, base, includes, j), includes[j])
  }

  /** As many combinations are added as includes agreed with none. */
  lemma {:induction false} CountAdded<V>(fmt: V -> string, base: seq<Combo<V>>, includes: seq<Combo<V>>, n: nat)
    requires n <= |includes|
    ensures |Stage(fmt, base, includes, n)| == |base| + |Unmatched(fmt, base, includes, n)|
  {
    hide Stage, SomeAgrees, Agree, Gains;
    if n == 0 {
      StageEnds(fmt, base, includes);
      assert Unmatched(fmt, base, includes, 0) == {};
    } else {
      CountAdded(fmt, base, includes, n - 1);
      IncludeExact(fmt, base, includes, n - 1);
      var rest := Unmatched(fmt, base, includes, n - 1);
      assert Unmatched(fmt, base, includes, n) ==
             rest + if SomeAgrees(fmt, Stage(fmt, base, includes, n - 1), includes[n - 1]) then {} else {n - 1};
    }
  }

  // ---------- The whole expansion ----------

  /** An exclude takes away what has all its keys, with values of the same text. */
  lemma ExcludedMeans<V>(fmt: V -> string, c: Combo<V>, excludes: seq<Combo<V>>)
    ensures Excluded(fmt, c, excludes) <==>
            exists n :: 0 <= n < |excludes| && excludes[n].Keys <= c.Keys &&
                        forall k :: k in excludes[n] && k in c ==> fmt(c[k]) == fmt(excludes[n][k])
  {
    forall n | 0 <= n < |excludes|
      ensures Contains(fmt, c, excludes[n]) <==>
              excludes[n].Keys <= c.Keys && forall k :: k in excludes[n] && k in c ==> fmt(c[k]) == fmt(excludes[n][k])
    {
      if Contains(fmt, c, excludes[n]) {
        assert forall k :: k in excludes[n] ==> k in c;
      }
    }
  }

  /** With values, the expansion is what the includes made of the product, without the combinations that contain an exclude,
      in order. There is one combination for each of the product, in its order, with all it had; its other keys each come
      from an include that agreed with it; and one for each include that agreed with none. Without values it is the
      includes. */
  lemma ExpansionExact<V>(fmt: V -> string, m: MatrixDef<V>, keys: seq<string>) returns (all: seq<Combo<V>>)
    requires Covers(keys, m.values)
    ensures Expand(fmt, Some(m), keys).Combos?
    ensures m.values == map[] ==> Expand(fmt, Some(m), keys).combos == m.includes
    ensures m.values != map[] ==>
              var (base, r) := (Product(keys, m.values), Expand(fmt, Some(m), keys).combos);
              && Subsequence(r, all)
              && (forall c :: multiset(r)[c] == if Excluded(fmt, c, m.excludes) then 0 else multiset(all)[c])
              && |all| == |base| + |Unmatched(fmt, base, m.includes, |m.includes|)|
              && forall i :: 0 <= i < |base| ==>
                   && Keeps(all[i], base[i])
                   && forall k <- all[i] :: k !in base[i] ==>
                        exists j :: 0 <= j < |m.includes| && CameFrom(fmt, base, m.includes, j, i, k, all[i][k])
  {
    hide Product, AfterIncludes, AfterExcludes, Excluded, Stage, SomeAgrees, Agree, CameFrom, Subsequence, Unmatched, Keeps;
    var base := Product(keys, m.values);
    all := AfterIncludes(fmt, base, m.includes);
    if m.values != map[] {
      StageEnds(fmt, base, m.includes);
      CountAdded(fmt, base, m.includes, |m.includes|);
      ExcludesInOrder(fmt, all, m.excludes);
      forall c
        ensures multiset(Expand(fmt, Some(m), keys).combos)[c] == if Excluded(fmt, c, m.excludes) then 0 else multiset(all)[c]
      {
        ExcludesExact(fmt, all, m.excludes, c);
      }
      forall i | 0 <= i < |base|
        ensures Keeps(all[i], base[i])
      {
        IncludesKeep(fmt, base, m.includes, i);
      }
      forall i, k | 0 <= i < |base| && k in all[i] && k !in base[i]
        ensures exists j :: 0 <= j < |m.includes| && CameFrom(fmt, base, m.includes, j, i, k, all[i][k])
      {
        KeyCameFrom(fmt, base, m.includes, |m.includes|, i, k);
      }
    }
  }
}
