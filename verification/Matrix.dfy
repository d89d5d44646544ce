/** Expansion of a job matrix. Values are of any type; fmt is their %v text, by which entries are compared. */
module Matrix {
  import opened Arithmetic
  import opened Bytes
  import opened SortedKeys
  import opened Options

  type Combo<V> = map<string, V>

  datatype MatrixDef<V> = MatrixDef(values: map<string, seq<V>>, includes: seq<Combo<V>>, excludes: seq<Combo<V>>)

  datatype Expansion<V> = Panic | Combos(combos: seq<Combo<V>>)

  // ---------- The Cartesian product ----------

  /** One combination with each value for a new key. */
  function GrowOne<V>(combo: Combo<V>, key: string, vals: seq<V>): (r: seq<Combo<V>>)
    ensures |r| == |vals|
    ensures forall q :: 0 <= q < |vals| ==> r[q] == combo[key := vals[q]]
  {
    if vals == [] then [] else GrowOne(combo, key, vals[..|vals| - 1]) + [combo[key := vals[|vals| - 1]]]
  }

  function Grow<V>(combos: seq<Combo<V>>, key: string, vals: seq<V>): seq<Combo<V>> {
    if combos == [] then [] else Grow(combos[..|combos| - 1], key, vals) + GrowOne(combos[|combos| - 1], key, vals)
  }

  /** Every key of the list has a list of values. */
  predicate Covers<V>(keys: seq<string>, values: map<string, seq<V>>) {
    forall i :: 0 <= i < |keys| ==> keys[i] in values
  }

  /** All combinations of the values of the keys, as the loop over the keys builds them. */
  function Product<V>(keys: seq<string>, values: map<string, seq<V>>): seq<Combo<V>>
    requires Covers(keys, values)
  {
    if keys == [] then [map[]]
    else
      var n := |keys| - 1;
      Grow(Product(keys[..n], values), keys[n], values[keys[n]])
  }

  /** The number of combinations of a list of keys. */
  function Size<V>(keys: seq<string>, values: map<string, seq<V>>): nat
    requires Covers(keys, values)
  {
    if keys == [] then 1 else Size(keys[..|keys| - 1], values) * |values[keys[|keys| - 1]]|
  }

  lemma {:induction false} GrowSize<V>(combos: seq<Combo<V>>, key: string, vals: seq<V>)
    ensures |Grow(combos, key, vals)| == |combos| * |vals|
  {
    if combos != [] {
      var n := |combos| - 1;
      GrowSize(combos[..n], key, vals);
      assert (n + 1) * |vals| == n * |vals| + |vals|;
    }
  }

  lemma {:induction false} GrowAt<V>(combos: seq<Combo<V>>, key: string, vals: seq<V>, p: nat, q: nat)
    requires p < |combos| && q < |vals|
    ensures p * |vals| + q < |Grow(combos, key, vals)|
    ensures Grow(combos, key, vals)[p * |vals| + q] == combos[p][key := vals[q]]
  {
    var n := |combos| - 1;
    GrowSize(combos, key, vals);
    GrowSize(combos[..n], key, vals);
    IndexInProduct(p, q, |combos|, |vals|);
    if p < n {
      IndexInProduct(p, q, n, |vals|);
      GrowAt(combos[..n], key, vals, p, q);
    }
  }

  lemma {:induction false} ProductSize<V>(keys: seq<string>, values: map<string, seq<V>>)
    requires Covers(keys, values)
    ensures |Product(keys, values)| == Size(keys, values)
  {
    if keys != [] {
      var n := |keys| - 1;
      ProductSize(keys[..n], values);
      GrowSize(Product(keys[..n], values), keys[n], values[keys[n]]);
    }
  }

  lemma ProductUnfold<V>(keys: seq<string>, values: map<string, seq<V>>)
    requires Covers(keys, values) && keys != []
    ensures var n := |keys| - 1;
            && Covers(keys[..n], values) && keys[n] in values
            && Product(keys, values) == Grow(Product(keys[..n], values), keys[n], values[keys[n]])
  {
  }

  /** The last key counts fastest: entry p * m + q holds value q of it on top of entry p of the other keys. */
  lemma ProductLast<V>(front: seq<string>, key: string, values: map<string, seq<V>>, i: nat) returns (p: nat, q: nat)
    requires Covers(front, values) && Covers(front + [key], values) && key in values
    requires i < |Product(front + [key], values)|
    ensures p < |Product(front, values)| && q < |values[key]| && i == p * |values[key]| + q
    ensures Product(front + [key], values)[i] == Product(front, values)[p][key := values[key][q]]
  {
    hide Grow, Product, Covers;
    var keys := front + [key];
    assert keys[..|keys| - 1] == front;
    ProductUnfold(keys, values);
    GrowSize(Product(front, values), key, values[key]);
    p, q := SplitIndex(i, |Product(front, values)|, |values[key]|);
    GrowAt(Product(front, values), key, values[key], p, q);
  }

  lemma SplitIndex(i: nat, n: nat, m: nat) returns (p: nat, q: nat)
    requires i < n * m
    ensures p < n && q < m && i == p * m + q
  {
    QuotientInRange(i, n, m);
    p, q := i / m, i % m;
  }

  /** A list of keys as the keys before the last, and the last. */
  lemma Unsnoc<V>(keys: seq<string>, values: map<string, seq<V>>) returns (front: seq<string>, key: string)
    requires Covers(keys, values) && keys != []
    ensures keys == front + [key] && front == keys[..|keys| - 1] && key == keys[|keys| - 1]
    ensures Covers(front, values) && key in values
  {
    front, key := keys[..|keys| - 1], keys[|keys| - 1];
  }

  ghost predicate NoRepeats<T>(s: seq<T>) {
    forall i, j :: 0 <= i < j < |s| ==> s[i] != s[j]
  }

  /** Digit j of i in the mixed radix of the list lengths, first key most significant. */
  function Digit<V>(keys: seq<string>, values: map<string, seq<V>>, i: nat, j: nat): (d: int)
    requires Covers(keys, values) && j < |keys|
  {
    var w := Size(keys[j + 1..], values);
    var m := |values[keys[j]]|;
    if w > 0 && m > 0 then (i / w) % m else -1
  }

  /** Entry i holds, for each key, the digit of i in that key's list. */
  lemma {:induction false} ProductDigits<V>(keys: seq<string>, values: map<string, seq<V>>, i: nat, j: nat)
    requires Covers(keys, values) && NoRepeats(keys) && i < |Product(keys, values)| && j < |keys|
    ensures keys[j] in Product(keys, values)[i]
    ensures 0 <= Digit(keys, values, i, j) < |values[keys[j]]|
    ensures Product(keys, values)[i][keys[j]] == values[keys[j]][Digit(keys, values, i, j)]
    decreases |keys|
  {
    hide Product, Size, Digit, Covers;
    var front, key := Unsnoc(keys, values);
    var p, q := ProductLast(front, key, values, i);
    DivModUnique(i, p, q, |values[key]|);
    if j == |front| {
      LastDigit(front, key, values, i);
    } else {
      assert front[j] == keys[j] != key;
      ProductDigits(front, values, p, j);
      FrontDigit(front, key, values, i, j);
    }
  }

  lemma LastDigit<V>(front: seq<string>, key: string, values: map<string, seq<V>>, i: nat)
    requires Covers(front + [key], values) && key in values && |values[key]| > 0
    ensures Digit(front + [key], values, i, |front|) == i % |values[key]|
  {
    assert (front + [key])[|front| + 1..] == [];
    assert i / 1 == i;
  }

  /** The digits of the earlier keys are those of the quotient by the last length. */
  lemma FrontDigit<V>(front: seq<string>, key: string, values: map<string, seq<V>>, i: nat, j: nat)
    requires Covers(front, values) && Covers(front + [key], values) && key in values && |values[key]| > 0
    requires j < |front| && 0 <= Digit(front, values, i / |values[key]|, j)
    ensures Digit(front + [key], values, i, j) == Digit(front, values, i / |values[key]|, j)
  {
    var tail := (front + [key])[j + 1..];
    assert tail == front[j + 1..] + [key];
    assert tail[..|tail| - 1] == front[j + 1..];
    assert Size(tail, values) == Size(front[j + 1..], values) * |values[key]|;
    DivDiv(i, |values[key]|, Size(front[j + 1..], values));
  }

  /** Every combination has exactly the keys of the matrix. */
  lemma {:induction false} ProductKeys<V>(keys: seq<string>, values: map<string, seq<V>>, i: nat)
    requires Covers(keys, values) && i < |Product(keys, values)|
    ensures Product(keys, values)[i].Keys == Elements(keys)
    decreases |keys|
  {
    if keys == [] {
      assert Elements(keys) == {};
    } else {
      hide Product, Elements, Covers;
      var front, key := Unsnoc(keys, values);
      var p, q := ProductLast(front, key, values, i);
      ProductKeys(front, values, p);
      LastElement(keys);
    }
  }

  lemma LastElement(keys: seq<string>)
    requires keys != []
    ensures Elements(keys) == Elements(keys[..|keys| - 1]) + {keys[|keys| - 1]}
  {
    assert keys == keys[..|keys| - 1] + [keys[|keys| - 1]];
  }

  /** Every choice of one value per key occurs. */
  lemma {:induction false} ProductComplete<V>(keys: seq<string>, values: map<string, seq<V>>, choice: Combo<V>)
    returns (i: nat)
    requires Covers(keys, values) && choice.Keys == Elements(keys) && NoRepeats(keys)
    requires forall k <- choice :: k in values && choice[k] in values[k]
    ensures i < |Product(keys, values)| && Product(keys, values)[i] == choice
    decreases |keys|
  {
    hide Grow, Product, Elements, Covers, NoRepeats;
    if keys == [] {
      i := 0;
      NoKeys(values, choice);
    } else {
      var front, key := Unsnoc(keys, values);
      var q := FrontChoice(front, key, values, choice);
      var p := ProductComplete(front, values, choice - {key});
      i := ProductPlace(front, key, values, p, q);
    }
  }

  lemma NoKeys<V>(values: map<string, seq<V>>, choice: Combo<V>)
    requires choice.Keys == Elements([])
    ensures |Product([], values)| == 1 && Product([], values)[0] == choice
  {
    assert choice.Keys == {};
  }

  lemma ProductPlace<V>(front: seq<string>, key: string, values: map<string, seq<V>>, p: nat, q: nat) returns (i: nat)
    requires Covers(front, values) && Covers(front + [key], values) && key in values
    requires p < |Product(front, values)| && q < |values[key]|
    ensures i < |Product(front + [key], values)|
    ensures Product(front + [key], values)[i] == Product(front, values)[p][key := values[key][q]]
  {
    hide Grow, Product, Covers;
    var keys := front + [key];
    assert keys[..|keys| - 1] == front;
    ProductUnfold(keys, values);
    GrowAt(Product(front, values), key, values[key], p, q);
    i := p * |values[key]| + q;
  }

  lemma FrontChoice<V>(front: seq<string>, key: string, values: map<string, seq<V>>, choice: Combo<V>) returns (q: nat)
    requires NoRepeats(front + [key]) && choice.Keys == Elements(front + [key])
    requires forall k <- choice :: k in values && choice[k] in values[k]
    ensures NoRepeats(front) && (choice - {key}).Keys == Elements(front)
    ensures forall k <- choice - {key} :: k in values && (choice - {key})[k] in values[k]
    ensures key in values && q < |values[key]| && (choice - {key})[key := values[key][q]] == choice
  {
    LastElement(front + [key]);
    NotInFront(front + [key]);
    assert (front + [key])[..|front|] == front;
    assert forall i :: 0 <= i < |front| ==> front[i] == (front + [key])[i];
    assert key in choice.Keys;
    q :| 0 <= q < |values[key]| && values[key][q] == choice[key];
    assert (choice - {key})[key := choice[key]] == choice;
  }

  /** When no list repeats a value, no combination repeats. */
  lemma {:induction false} ProductDistinct<V>(keys: seq<string>, values: map<string, seq<V>>, i: nat, i': nat)
    requires Covers(keys, values) && NoRepeats(keys)
    requires forall j :: 0 <= j < |keys| ==> NoRepeats(values[keys[j]])
    requires i < i' < |Product(keys, values)|
    ensures Product(keys, values)[i] != Product(keys, values)[i']
    decreases |keys|
  {
    if keys != [] {
      hide Product;
      var front, key := Unsnoc(keys, values);
      var p, q := ProductLast(front, key, values, i);
      var p', q' := ProductLast(front, key, values, i');
      if q == q' {
        QuotientsDiffer(p, p', q, |values[key]|);
        assert forall j :: 0 <= j < |front| ==> front[j] == keys[j];
        ProductDistinct(front, values, p, p');
        ProductKeys(front, values, p);
        ProductKeys(front, values, p');
        NotInFront(keys);
        UpdateInjective(Product(front, values)[p], Product(front, values)[p'], key, values[key][q]);
      } else {
        RepeatsApart(values[key], q, q');
        assert Product(keys, values)[i][key] != Product(keys, values)[i'][key];
      }
    }
  }

  lemma RepeatsApart<T>(s: seq<T>, a: nat, b: nat)
    requires NoRepeats(s) && a < |s| && b < |s| && a != b
    ensures s[a] != s[b]
  {
  }

  lemma QuotientsDiffer(a: nat, b: nat, q: nat, m: nat)
    requires a * m + q < b * m + q
    ensures a < b
  {
    assert a >= b ==> a * m >= b * m;
  }

  lemma NotInFront(keys: seq<string>)
    requires NoRepeats(keys) && keys != []
    ensures keys[|keys| - 1] !in Elements(keys[..|keys| - 1])
  {
  }

  lemma UpdateInjective<V>(a: Combo<V>, b: Combo<V>, k: string, v: V)
    requires k !in a && k !in b && a != b
    ensures a[k := v] != b[k := v]
  {
    assert a == a[k := v] - {k} && b == b[k := v] - {k};
  }

  lemma AscendingNoRepeats(keys: seq<string>)
    requires Ascending(keys)
    ensures NoRepeats(keys)
  {
    forall i, j | 0 <= i < j < |keys|
      ensures keys[i] != keys[j]
    {
      LessTotal(keys[i], keys[j]);
    }
  }

  /** The sorted keys of a matrix: all of them have values, and none comes twice. */
  lemma SortedCovers<V>(values: map<string, seq<V>>)
    ensures Covers(SortingOf(values.Keys), values) && NoRepeats(SortingOf(values.Keys))
  {
    var keys := SortingOf(values.Keys);
    AscendingNoRepeats(keys);
    assert forall i :: 0 <= i < |keys| ==> keys[i] in Elements(keys);
  }

  /** The loops of expandCartesian: sorted keys, so the iteration order of the map does not show in the result. */
  method ExpandCartesian<V>(values: map<string, seq<V>>) returns (result: seq<Combo<V>>)
    ensures Covers(SortingOf(values.Keys), values) && result == Product(SortingOf(values.Keys), values)
  {
    hide Grow;
    var keys := Sorted(values.Keys);
    SortingUnique(keys, SortingOf(values.Keys));
    SortedCovers(values);
    result := [map[]];
    var n := 0;
    while n < |keys|
      invariant 0 <= n <= |keys|
      invariant result == Product(keys[..n], values)
    {
      var key := keys[n];
      assert keys[..n + 1][..n] == keys[..n];
      result := GrowAll(result, key, values[key]);
      n := n + 1;
    }
    assert keys[..n] == keys;
  }

  /** Its two inner loops, for one key. */
  method GrowAll<V>(result: seq<Combo<V>>, key: string, vals: seq<V>) returns (expanded: seq<Combo<V>>)
    ensures expanded == Grow(result, key, vals)
  {
    hide GrowOne;
    expanded := [];
    var i := 0;
    while i < |result|
      invariant 0 <= i <= |result|
      invariant expanded == Grow(result[..i], key, vals)
    {
      assert result[..i + 1][..i] == result[..i];
      var combo := result[i];
      ghost var before := expanded;
      var j := 0;
      while j < |vals|
        invariant 0 <= j <= |vals|
        invariant expanded == before + GrowOne(combo, key, vals)[..j]
      {
        expanded := expanded + [combo[key := vals[j]]];
        j := j + 1;
      }
      i := i + 1;
    }
    assert result[..i] == result;
  }

  // ---------- Matching ----------

  predicate MatchesShared<V>(fmt: V -> string, combo: Combo<V>, entry: Combo<V>) {
    forall k <- entry :: k in combo ==> fmt(combo[k]) == fmt(entry[k])
  }

  /** The combination contains the entry, up to formatted equality. */
  predicate Contains<V>(fmt: V -> string, combo: Combo<V>, entry: Combo<V>) {
    forall k <- entry :: k in combo && fmt(combo[k]) == fmt(entry[k])
  }

  method MatchesSharedKeys<V>(fmt: V -> string, combo: Combo<V>, entry: Combo<V>) returns (r: bool)
    ensures r == MatchesShared(fmt, combo, entry)
  {
    var todo := entry.Keys;
    while todo != {}
      invariant todo <= entry.Keys
      invariant forall k <- entry :: k !in todo && k in combo ==> fmt(combo[k]) == fmt(entry[k])
      decreases todo
    {
      var k :| k in todo;
      if k in combo && fmt(combo[k]) != fmt(entry[k]) {
        return false;
      }
      todo := todo - {k};
    }
    return true;
  }

  method MatchesAllKeys<V>(fmt: V -> string, combo: Combo<V>, entry: Combo<V>) returns (r: bool)
    ensures r == Contains(fmt, combo, entry)
  {
    var todo := entry.Keys;
    while todo != {}
      invariant todo <= entry.Keys
      invariant forall k <- entry :: k !in todo ==> k in combo && fmt(combo[k]) == fmt(entry[k])
      decreases todo
    {
      var k :| k in todo;
      if k !in combo || fmt(combo[k]) != fmt(entry[k]) {
        return false;
      }
      todo := todo - {k};
    }
    return true;
  }

  // ---------- Includes ----------

  /** The combination with the keys of the include that it lacks; what it has stays. */
  function Extend<V>(combo: Combo<V>, inc: Combo<V>): Combo<V> {
    inc + combo
  }

  function Extended<V>(fmt: V -> string, combo: Combo<V>, inc: Combo<V>): Combo<V> {
    if MatchesShared(fmt, combo, inc) then Extend(combo, inc) else combo
  }

  /** The inner loop of applyIncludes over the combinations. */
  function ExtendAll<V>(fmt: V -> string, combos: seq<Combo<V>>, inc: Combo<V>): (r: seq<Combo<V>>)
    ensures |r| == |combos|
    ensures forall i :: 0 <= i < |r| ==> r[i] == Extended(fmt, combos[i], inc)
  {
    if combos == [] then []
    else ExtendAll(fmt, combos[..|combos| - 1], inc) + [Extended(fmt, combos[|combos| - 1], inc)]
  }

  predicate AnyMatch<V>(fmt: V -> string, combos: seq<Combo<V>>, inc: Combo<V>) {
    exists i :: 0 <= i < |combos| && MatchesShared(fmt, combos[i], inc)
  }

  function ApplyInclude<V>(fmt: V -> string, combos: seq<Combo<V>>, inc: Combo<V>): seq<Combo<V>> {
    ExtendAll(fmt, combos, inc) + if AnyMatch(fmt, combos, inc) then [] else [inc]
  }

  function AfterIncludes<V>(fmt: V -> string, combos: seq<Combo<V>>, includes: seq<Combo<V>>): seq<Combo<V>>
    decreases |includes|
  {
    if includes == [] then combos
    else AfterIncludes(fmt, ApplyInclude(fmt, combos, includes[0]), includes[1..])
  }

  method ApplyIncludes<V>(fmt: V -> string, base: seq<Combo<V>>, includes: seq<Combo<V>>) returns (combos: seq<Combo<V>>)
    ensures combos == AfterIncludes(fmt, base, includes)
  {
    hide ApplyInclude;
    combos := base;
    var n := 0;
    while n < |includes|
      invariant 0 <= n <= |includes|
      invariant AfterIncludes(fmt, combos, includes[n..]) == AfterIncludes(fmt, base, includes)
    {
      assert includes[n..][1..] == includes[n + 1..];
      combos := IncludeOne(fmt, combos, includes[n]);
      n := n + 1;
    }
  }

  /** Its inner loop over the combinations, which are extended in place. */
  method IncludeOne<V>(fmt: V -> string, before: seq<Combo<V>>, inc: Combo<V>) returns (combos: seq<Combo<V>>)
    ensures combos == ApplyInclude(fmt, before, inc)
  {
    hide MatchesShared;
    combos := before;
    var matched := false;
    var i := 0;
    while i < |combos|
      invariant 0 <= i <= |combos| == |before|
      invariant forall j :: 0 <= j < i ==> combos[j] == Extended(fmt, before[j], inc)
      invariant forall j :: i <= j < |combos| ==> combos[j] == before[j]
      invariant matched <==> exists j :: 0 <= j < i && MatchesShared(fmt, before[j], inc)
    {
      var shared := MatchesSharedKeys(fmt, combos[i], inc);
      if shared {
        var combo := ExtendInPlace(combos[i], inc);
        combos := combos[i := combo];
        matched := true;
      }
      i := i + 1;
    }
    assert combos == ExtendAll(fmt, before, inc);
    if !matched {
      combos := combos + [inc];
    }
  }

  /** The loop over the keys of an include that extends one combination. */
  method ExtendInPlace<V>(combo: Combo<V>, inc: Combo<V>) returns (r: Combo<V>)
    ensures r == Extend(combo, inc)
  {
    r := combo;
    var todo := inc.Keys;
    while todo != {}
      invariant todo <= inc.Keys
      invariant r.Keys == combo.Keys + (inc.Keys - todo)
      invariant forall k <- r :: r[k] == if k in combo then combo[k] else inc[k]
      decreases todo
    {
      var k :| k in todo;
      if k !in r {
        r := r[k := inc[k]];
      }
      todo := todo - {k};
    }
  }

  /** combo has everything that old has, with the same values. */
  ghost predicate Keeps<V>(combo: Combo<V>, old': Combo<V>) {
    forall k <- old' :: k in combo && combo[k] == old'[k]
  }

  /** However many includes follow, each combination keeps its place and all values it ever had. */
  lemma {:induction false} IncludesKeep<V>(fmt: V -> string, combos: seq<Combo<V>>, includes: seq<Combo<V>>, i: nat)
    requires i < |combos|
    ensures |combos| <= |AfterIncludes(fmt, combos, includes)|
    ensures Keeps(AfterIncludes(fmt, combos, includes)[i], combos[i])
    decreases |includes|
  {
    if includes != [] {
      var next := ApplyInclude(fmt, combos, includes[0]);
      assert next[i] == Extended(fmt, combos[i], includes[0]);
      IncludesKeep(fmt, next, includes[1..], i);
    }
  }

  /** Every include ends up contained in some combination, whatever later includes extend. */
  lemma {:induction false} IncludeContained<V>(fmt: V -> string, combos: seq<Combo<V>>, includes: seq<Combo<V>>, n: nat)
    returns (i: nat)
    requires n < |includes|
    ensures i < |AfterIncludes(fmt, combos, includes)|
    ensures Contains(fmt, AfterIncludes(fmt, combos, includes)[i], includes[n])
    decreases |includes|
  {
    var next := ApplyInclude(fmt, combos, includes[0]);
    if n > 0 {
      i := IncludeContained(fmt, next, includes[1..], n - 1);
    } else {
      var inc := includes[0];
      if j :| 0 <= j < |combos| && MatchesShared(fmt, combos[j], inc) {
        i := j;
        assert next[i] == Extend(combos[i], inc);
      } else {
        i := |combos|;
        assert next[i] == inc;
      }
      assert Contains(fmt, next[i], inc);
      IncludesKeep(fmt, next, includes[1..], i);
    }
  }

  // ---------- Excludes ----------

  predicate Excluded<V>(fmt: V -> string, combo: Combo<V>, excludes: seq<Combo<V>>) {
    exists n :: 0 <= n < |excludes| && Contains(fmt, combo, excludes[n])
  }

  function AfterExcludes<V>(fmt: V -> string, combos: seq<Combo<V>>, excludes: seq<Combo<V>>): seq<Combo<V>> {
    if combos == [] then []
    else
      var n := |combos| - 1;
      AfterExcludes(fmt, combos[..n], excludes) + if Excluded(fmt, combos[n], excludes) then [] else [combos[n]]
  }

  method ApplyExcludes<V>(fmt: V -> string, combos: seq<Combo<V>>, excludes: seq<Combo<V>>)
    returns (result: seq<Combo<V>>)
    ensures result == AfterExcludes(fmt, combos, excludes)
  {
    if |excludes| == 0 {
      NoExcludes(fmt, combos);
      assert excludes == [];
      return combos;
    }
    result := [];
    var i := 0;
    while i < |combos|
      invariant 0 <= i <= |combos|
      invariant result == AfterExcludes(fmt, combos[..i], excludes)
    {
      assert combos[..i + 1][..i] == combos[..i];
      var excluded := false;
      var n := 0;
      while n < |excludes| && !excluded
        invariant 0 <= n <= |excludes|
        invariant excluded ==> Excluded(fmt, combos[i], excludes)
        invariant !excluded ==> forall j :: 0 <= j < n ==> !Contains(fmt, combos[i], excludes[j])
        decreases |excludes| - n
      {
        excluded := MatchesAllKeys(fmt, combos[i], excludes[n]);
        n := n + 1;
      }
      if !excluded {
        result := result + [combos[i]];
      }
      i := i + 1;
    }
    assert combos[..i] == combos;
  }

  lemma {:induction false} NoExcludes<V>(fmt: V -> string, combos: seq<Combo<V>>)
    ensures AfterExcludes(fmt, combos, []) == combos
  {
    if combos != [] {
      NoExcludes(fmt, combos[..|combos| - 1]);
    }
  }

  /** One more combination at the end: kept if it contains no exclude, dropped otherwise. */
  lemma AfterExcludesLast<V>(fmt: V -> string, combos: seq<Combo<V>>, excludes: seq<Combo<V>>)
    requires combos != []
    ensures AfterExcludes(fmt, combos, excludes) ==
            AfterExcludes(fmt, combos[..|combos| - 1], excludes) +
            if Excluded(fmt, combos[|combos| - 1], excludes) then [] else [combos[|combos| - 1]]
  {
  }

  /** Excluding keeps the order. */
  lemma {:induction false} ExcludesInOrder<V>(fmt: V -> string, combos: seq<Combo<V>>, excludes: seq<Combo<V>>)
    ensures Subsequence(AfterExcludes(fmt, combos, excludes), combos)
  {
    if combos != [] {
      hide Subsequence, Excluded, AfterExcludes;
      var n := |combos| - 1;
      var front, c := combos[..n], combos[n];
      ExcludesInOrder(fmt, front, excludes);
      assert combos == front + [c];
      AfterExcludesLast(fmt, combos, excludes);
      var kept := AfterExcludes(fmt, front, excludes);
      assert kept + [] == kept;
      if Excluded(fmt, c, excludes) {
        SubsequenceSkip(kept, front, c);
      } else {
        SubsequenceKeep(kept, front, c);
      }
    }
  }

  /** Excluding keeps, as often as they were there, exactly the combinations that contain no exclude. */
  lemma {:induction false} ExcludesExact<V>(fmt: V -> string, combos: seq<Combo<V>>, excludes: seq<Combo<V>>, c: Combo<V>)
    ensures multiset(AfterExcludes(fmt, combos, excludes))[c] ==
            if Excluded(fmt, c, excludes) then 0 else multiset(combos)[c]
  {
    if combos != [] {
      hide Excluded, AfterExcludes;
      var n := |combos| - 1;
      ExcludesExact(fmt, combos[..n], excludes, c);
      assert combos == combos[..n] + [combos[n]];
      AfterExcludesLast(fmt, combos, excludes);
    }
  }

  // ---------- The whole expansion ----------

  /** A nil definition is dereferenced; a definition without values yields its includes and ignores its excludes. */
  function Expand<V>(fmt: V -> string, m: Option<MatrixDef<V>>, keys: seq<string>): Expansion<V>
    requires m.Some? ==> Covers(keys, m.value.values)
  {
    if m.None? then Panic
    else if m.value.values == map[] then Combos(m.value.includes)
    else Combos(AfterExcludes(fmt, AfterIncludes(fmt, Product(keys, m.value.values), m.value.includes), m.value.excludes))
  }

  method ExpandMatrix<V>(fmt: V -> string, m: Option<MatrixDef<V>>) returns (r: Expansion<V>)
    ensures m.Some? ==> Covers(SortingOf(m.value.values.Keys), m.value.values)
    ensures r == Expand(fmt, m, if m.Some? then SortingOf(m.value.values.Keys) else [])
  {
    if m.Some? {
      SortedCovers(m.value.values);
    }
    if m.None? {
      return Panic;
    }
    if |m.value.values| == 0 {
      if |m.value.includes| > 0 {
        return Combos(m.value.includes);
      }
      return Combos([]);
    }
    var combos := ExpandCartesian(m.value.values);
    combos := ApplyIncludes(fmt, combos, m.value.includes);
    combos := ApplyExcludes(fmt, combos, m.value.excludes);
    return Combos(combos);
  }

  /** Only a nil definition panics; the result of any other holds no excluded combination if and only if there are values,
      or no include contains an exclude: without values the excludes are ignored. */
  lemma ExcludesApplyIff<V>(fmt: V -> string, m: Option<MatrixDef<V>>, keys: seq<string>)
    requires m.Some? ==> Covers(keys, m.value.values)
    ensures Expand(fmt, m, keys).Panic? <==> m.None?
    ensures m.Some? ==>
              ((forall c <- Expand(fmt, m, keys).combos :: !Excluded(fmt, c, m.value.excludes)) <==>
               m.value.values != map[] || forall inc <- m.value.includes :: !Excluded(fmt, inc, m.value.excludes))
  {
    hide Product, AfterIncludes, AfterExcludes, Excluded;
    if m.Some? && m.value.values != map[] {
      var all := AfterIncludes(fmt, Product(keys, m.value.values), m.value.includes);
      forall c <- Expand(fmt, m, keys).combos
        ensures !Excluded(fmt, c, m.value.excludes)
      {
        ExcludesExact(fmt, all, m.value.excludes, c);
        assert c in multiset(Expand(fmt, m, keys).combos);
      }
    }
  }

  /** A base combination survives, with all its values, unless what the includes made of it contains an exclude;
      and nothing in the result contains one. */
  lemma ExpansionSound<V>(fmt: V -> string, m: MatrixDef<V>, keys: seq<string>, i: nat)
    requires Covers(keys, m.values) && m.values != map[] && i < |Product(keys, m.values)|
    ensures var all := AfterIncludes(fmt, Product(keys, m.values), m.includes);
            var r := Expand(fmt, Some(m), keys);
            && r.Combos? && i < |all| && Keeps(all[i], Product(keys, m.values)[i])
            && (Excluded(fmt, all[i], m.excludes) || all[i] in r.combos)
    ensures forall c <- Expand(fmt, Some(m), keys).combos :: !Excluded(fmt, c, m.excludes)
  {
    hide Product, AfterIncludes, AfterExcludes, Excluded;
    var base := Product(keys, m.values);
    var all := AfterIncludes(fmt, base, m.includes);
    IncludesKeep(fmt, base, m.includes, i);
    Survives(fmt, all, m.excludes, i);
    ExcludesApplyIff(fmt, Some(m), keys);
  }

  /** Every include is contained in a combination that is in the result, unless that one contains an exclude. */
  lemma IncludeSurvives<V>(fmt: V -> string, m: MatrixDef<V>, keys: seq<string>, n: nat) returns (c: Combo<V>)
    requires Covers(keys, m.values) && m.values != map[] && n < |m.includes|
    ensures Contains(fmt, c, m.includes[n])
    ensures c in Expand(fmt, Some(m), keys).combos || Excluded(fmt, c, m.excludes)
  {
    hide Product, AfterIncludes, AfterExcludes, Excluded;
    var all := AfterIncludes(fmt, Product(keys, m.values), m.includes);
    var k := IncludeContained(fmt, Product(keys, m.values), m.includes, n);
    Survives(fmt, all, m.excludes, k);
    c := all[k];
  }

  lemma Survives<V>(fmt: V -> string, all: seq<Combo<V>>, excludes: seq<Combo<V>>, i: nat)
    requires i < |all|
    ensures Excluded(fmt, all[i], excludes) || all[i] in AfterExcludes(fmt, all, excludes)
  {
    ExcludesExact(fmt, all, excludes, all[i]);
    assert all[i] in multiset(all);
  }
}
