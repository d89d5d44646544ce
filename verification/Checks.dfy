/** Check suites and check runs (bleephub/gh_checks_store.go). The iteration order of maps is arbitrary. */
module Checks {
  import opened IntKeys

  /** What a suite is for. */
  datatype Key = Key(repo: string, sha: string, app: int)

  datatype Suite = Suite(key: Key, branch: string, status: string, conclusion: string)

  datatype CheckRun = CheckRun(key: Key, suite: int, name: string, status: string, conclusion: string)

  datatype State = State(suites: map<int, Suite>, runs: map<int, CheckRun>, nextSuite: int, nextRun: int)

  const EMPTY := State(map[], map[], 1, 1)

  ghost predicate HasSuite(s: State, key: Key) {
    exists k :: k in s.suites && s.suites[k].key == key
  }

  /** The id of the suite for a key, and 0 if there is none. */
  ghost function SuiteOf(s: State, key: Key): (k: int)
    ensures HasSuite(s, key) ==> k in s.suites && s.suites[k].key == key
    ensures !HasSuite(s, key) ==> k == 0
  {
    if HasSuite(s, key) then var k :| k in s.suites && s.suites[k].key == key; k else 0
  }

  ghost function WithSuite(s: State, key: Key, branch: string): State {
    if HasSuite(s, key) then s
    else s.(suites := s.suites[s.nextSuite := Suite(key, branch, "queued", "")], nextSuite := s.nextSuite + 1)
  }

  /** A run joins the suite it names, or with 0 the suite for its key, which is created if need be. */
  ghost function WithRun(s: State, key: Key, name: string, suite: int): State {
    var t := if suite == 0 then WithSuite(s, key, "") else s;
    var id := if suite != 0 then suite else if HasSuite(s, key) then SuiteOf(s, key) else s.nextSuite;
    t.(runs := s.runs[s.nextRun := CheckRun(key, id, name, "queued", "")], nextRun := s.nextRun + 1)
  }

  function Updated(s: State, id: int, r: CheckRun): State {
    s.(runs := s.runs[id := r])
  }

  // ---------- The invariant ----------

  ghost predicate Numbered(s: State) {
    && s.nextSuite >= 1 && (forall k <- s.suites :: 1 <= k < s.nextSuite)
    && s.nextRun >= 1 && forall k <- s.runs :: 1 <= k < s.nextRun
  }

  /** At most one suite per repository, commit and app. */
  ghost predicate OneEach(s: State) {
    forall k, l | k in s.suites && l in s.suites && s.suites[k].key == s.suites[l].key :: k == l
  }

  ghost predicate InOwnSuite(s: State, r: CheckRun) {
    r.suite in s.suites && s.suites[r.suite].key == r.key
  }

  ghost predicate Good(s: State) {
    Numbered(s) && OneEach(s) && forall k <- s.runs :: InOwnSuite(s, s.runs[k])
  }

  lemma WithSuiteKeeps(s: State, key: Key, branch: string)
    requires Good(s)
    ensures Good(WithSuite(s, key, branch)) && HasSuite(WithSuite(s, key, branch), key)
    ensures WithSuite(s, key, branch).runs == s.runs && WithSuite(s, key, branch).nextRun == s.nextRun
    ensures SuiteOf(WithSuite(s, key, branch), key) == if HasSuite(s, key) then SuiteOf(s, key) else s.nextSuite
  {
    var t := WithSuite(s, key, branch);
    if !HasSuite(s, key) {
      assert t.suites[s.nextSuite].key == key;
      assert HasSuite(t, key);
    }
    forall k <- s.runs
      ensures InOwnSuite(t, t.runs[k])
    {
      assert InOwnSuite(s, s.runs[k]);
    }
  }

  lemma WithRunKeeps(s: State, key: Key, name: string, suite: int)
    requires Good(s) && (suite == 0 || (suite in s.suites && s.suites[suite].key == key))
    ensures Good(WithRun(s, key, name, suite))
  {
    hide SuiteOf, WithSuite;
    var t := if suite == 0 then WithSuite(s, key, "") else s;
    WithSuiteKeeps(s, key, "");
    var u := WithRun(s, key, name, suite);
    assert u.suites == t.suites;
    forall k <- u.runs
      ensures InOwnSuite(u, u.runs[k])
    {
      if k in s.runs && k != s.nextRun {
        assert u.runs[k] == t.runs[k] && InOwnSuite(t, t.runs[k]);
      }
    }
  }

  // ---------- The two listings of runs ----------

  /** ListCheckRunsForCommit: an empty status or conclusion and an app id that is not positive do not filter. */
  predicate Shown(r: CheckRun, key: Key, status: string, conclusion: string) {
    && r.key.repo == key.repo && r.key.sha == key.sha && (key.app > 0 ==> r.key.app == key.app)
    && (status != "" ==> r.status == status) && (conclusion != "" ==> r.conclusion == conclusion)
  }

  function ByCommit(s: State, key: Key, status: string, conclusion: string): set<int> {
    set k | k in s.runs && Shown(s.runs[k], key, status, conclusion)
  }

  function BySuite(s: State, suite: int): set<int> {
    set k | k in s.runs && s.runs[k].suite == suite
  }

  /** Listing the runs of a suite, and listing those of its commit and app, agree if the app id is positive; otherwise
      they agree only as long as no other app has runs on that commit. */
  lemma ListingsAgree(s: State, suite: int)
    requires Good(s) && suite in s.suites
    ensures var key := s.suites[suite].key;
            BySuite(s, suite) == ByCommit(s, key, "", "") <==>
            key.app > 0 || forall k <- s.runs :: s.runs[k].key.repo == key.repo && s.runs[k].key.sha == key.sha ==>
                                                s.runs[k].key.app == key.app
  {
    var key := s.suites[suite].key;
    forall k <- s.runs
      ensures k in BySuite(s, suite) <==> s.runs[k].key == key
    {
      assert InOwnSuite(s, s.runs[k]);
    }
    forall k <- s.runs
      ensures k in ByCommit(s, key, "", "") <==>
              s.runs[k].key.repo == key.repo && s.runs[k].key.sha == key.sha && (key.app > 0 ==> s.runs[k].key.app == key.app)
    {
    }
    if key.app <= 0 && BySuite(s, suite) == ByCommit(s, key, "", "") {
      forall k <- s.runs | s.runs[k].key.repo == key.repo && s.runs[k].key.sha == key.sha
        ensures s.runs[k].key.app == key.app
      {
        assert k in ByCommit(s, key, "", "");
      }
    } else if key.app > 0 || forall k <- s.runs ::
        s.runs[k].key.repo == key.repo && s.runs[k].key.sha == key.sha ==> s.runs[k].key.app == key.app {
      assert BySuite(s, suite) == ByCommit(s, key, "", "");
    }
  }

  /** The suite named in a call is not checked. The listings for real apps go on agreeing exactly if the call names no
      suite, or the one for its key, or the number is not that of a real app's suite and no real app's suite has its
      key. */
  lemma NamedSuite(s: State, key: Key, name: string, suite: int)
    requires Good(s)
    ensures var t := WithRun(s, key, name, suite);
            (forall k <- t.suites :: t.suites[k].key.app > 0 ==>
               BySuite(t, k) == ByCommit(t, t.suites[k].key, "", "")) <==>
            || suite == 0
            || (suite in s.suites && s.suites[suite].key == key)
            || ((key.app <= 0 || !HasSuite(s, key)) && (suite in s.suites ==> s.suites[suite].key.app <= 0))
  {
    var t := WithRun(s, key, name, suite);
    if suite == 0 {
      WithRunKeeps(s, key, name, suite);
      forall k <- t.suites | t.suites[k].key.app > 0
        ensures BySuite(t, k) == ByCommit(t, t.suites[k].key, "", "")
      {
        ListingsAgree(t, k);
      }
    } else {
      NamedSuiteEach(s, key, name, suite);
    }
  }

  lemma NamedSuiteEach(s: State, key: Key, name: string, suite: int)
    requires Good(s) && suite != 0
    ensures var t := WithRun(s, key, name, suite);
            && t.suites == s.suites
            && forall k <- s.suites :: s.suites[k].key.app > 0 ==>
                 (BySuite(t, k) == ByCommit(t, s.suites[k].key, "", "") <==> (k == suite <==> s.suites[k].key == key))
  {
    var t := WithRun(s, key, name, suite);
    var r := s.nextRun;
    forall k <- s.suites | s.suites[k].key.app > 0
      ensures BySuite(t, k) == ByCommit(t, s.suites[k].key, "", "") <==> (k == suite <==> s.suites[k].key == key)
    {
      ListingsAgree(s, k);
      assert BySuite(t, k) == BySuite(s, k) + if k == suite then {r} else {};
      assert ByCommit(t, s.suites[k].key, "", "") ==
             ByCommit(s, s.suites[k].key, "", "") + if s.suites[k].key == key then {r} else {};
      assert r !in BySuite(s, k);
    }
  }

  // ---------- The store ----------

  class CheckStore {
    var checkSuites: map<int, Suite>
    var checkRuns: map<int, CheckRun>
    var nextCheckSuiteID: int
    var nextCheckRunID: int

    ghost function Contents(): State
      reads this
    {
      State(checkSuites, checkRuns, nextCheckSuiteID, nextCheckRunID)
    }

    constructor ()
      ensures Contents() == EMPTY && Good(Contents())
    {
      checkSuites, checkRuns, nextCheckSuiteID, nextCheckRunID := map[], map[], 1, 1;
    }

    /** The loop over the suites: whatever order they come in, it finds the one for the key, or none. */
    method FindSuite(key: Key) returns (id: int)
      requires Good(Contents())
      ensures id == SuiteOf(Contents(), key)
    {
      hide SuiteOf;
      ghost var s := Contents();
      ghost var known := SuiteOf(s, key);
      SuiteOfMeans(s, key);
      var todo := checkSuites.Keys;
      while todo != {}
        invariant todo <= checkSuites.Keys
        invariant forall k <- checkSuites :: k !in todo ==> checkSuites[k].key != key
        decreases todo
      {
        SomeKey(todo);
        var k :| k in todo;
        if checkSuites[k].key == key {
          assert HasSuite(s, key);
          return k;
        }
        todo := todo - {k};
      }
      assert !HasSuite(s, key);
      return 0;
    }

    method CreateCheckSuite(key: Key, branch: string) returns (id: int)
      requires Good(Contents())
      modifies this
      ensures Contents() == WithSuite(old(Contents()), key, branch) && Good(Contents())
      ensures id == SuiteOf(Contents(), key) && HasSuite(Contents(), key)
      ensures id !in old(checkSuites) ==> id == old(nextCheckSuiteID) && nextCheckSuiteID == id + 1
    {
      hide SuiteOf, Good;
      SuiteOfMeans(Contents(), key);
      WithSuiteKeeps(Contents(), key, branch);
      id := FindSuite(key);
      if id != 0 {
        return id;
      }
      id := nextCheckSuiteID;
      nextCheckSuiteID := nextCheckSuiteID + 1;
      checkSuites := checkSuites[id := Suite(key, branch, "queued", "")];
    }

    method CreateCheckRun(key: Key, name: string, suiteID: int) returns (id: int)
      requires Good(Contents())
      modifies this
      ensures Contents() == WithRun(old(Contents()), key, name, suiteID)
      ensures suiteID == 0 || (suiteID in old(checkSuites) && old(checkSuites)[suiteID].key == key) ==> Good(Contents())
      ensures id == old(nextCheckRunID) && nextCheckRunID == id + 1
      ensures nextCheckSuiteID == old(nextCheckSuiteID) + if checkSuites == old(checkSuites) then 0 else 1
    {
      hide SuiteOf, Good;
      ghost var s := Contents();
      SuiteOfMeans(s, key);
      NextSuiteFree(s);
      if suiteID == 0 || (suiteID in checkSuites && checkSuites[suiteID].key == key) {
        WithRunKeeps(s, key, name, suiteID);
      }
      var suite := suiteID;
      if suite == 0 {
        suite := FindSuite(key);
        if suite == 0 {
          suite := nextCheckSuiteID;
          nextCheckSuiteID := nextCheckSuiteID + 1;
          checkSuites := checkSuites[suite := Suite(key, "", "queued", "")];
        }
      }
      id := nextCheckRunID;
      nextCheckRunID := nextCheckRunID + 1;
      checkRuns := checkRuns[id := CheckRun(key, suite, name, "queued", "")];
    }

    /** The callback may do anything to the run. The invariant is kept if and only if the run stays in the suite of its
        key. */
    method UpdateCheckRun(id: int, fn: CheckRun -> CheckRun) returns (found: bool)
      requires Good(Contents())
      modifies this
      ensures found == (id in old(checkRuns))
      ensures Good(Contents()) <==> !found || InOwnSuite(old(Contents()), fn(old(checkRuns)[id]))
      ensures Contents() == if found then Updated(old(Contents()), id, fn(old(checkRuns)[id])) else old(Contents())
    {
      if id !in checkRuns {
        return false;
      }
      UpdatedKeeps(Contents(), id, fn(checkRuns[id]));
      checkRuns := checkRuns[id := fn(checkRuns[id])];
      return true;
    }

    method ListCheckRunsForCommit(key: Key, status: string, conclusion: string) returns (out: seq<int>)
      ensures NoRepeats(out) && forall k :: k in out <==> k in ByCommit(Contents(), key, status, conclusion)
    {
      out := [];
      var todo := checkRuns.Keys;
      while todo != {}
        invariant todo <= checkRuns.Keys && NoRepeats(out)
        invariant forall k :: k in out <==> k in ByCommit(Contents(), key, status, conclusion) && k !in todo
        decreases todo
      {
        SomeKey(todo);
        var k :| k in todo;
        todo := todo - {k};
        var r := checkRuns[k];
        if r.key.repo != key.repo || r.key.sha != key.sha {
          continue;
        }
        if status != "" && r.status != status {
          continue;
        }
        if conclusion != "" && r.conclusion != conclusion {
          continue;
        }
        if key.app > 0 && r.key.app != key.app {
          continue;
        }
        out := out + [k];
      }
    }

    method ListCheckRunsForSuite(suite: int) returns (out: seq<int>)
      ensures NoRepeats(out) && forall k :: k in out <==> k in BySuite(Contents(), suite)
    {
      out := [];
      var todo := checkRuns.Keys;
      while todo != {}
        invariant todo <= checkRuns.Keys && NoRepeats(out)
        invariant forall k :: k in out <==> k in BySuite(Contents(), suite) && k !in todo
        decreases todo
      {
        SomeKey(todo);
        var k :| k in todo;
        todo := todo - {k};
        if checkRuns[k].suite == suite {
          out := out + [k];
        }
      }
    }
  }

  lemma SuiteOfMeans(s: State, key: Key)
    requires Good(s)
    ensures HasSuite(s, key) <==> SuiteOf(s, key) != 0
    ensures forall k <- s.suites :: s.suites[k].key == key ==> SuiteOf(s, key) == k
  {
  }

  lemma NextSuiteFree(s: State)
    requires Good(s)
    ensures s.nextSuite !in s.suites
  {
  }

  lemma OwnSuite(s: State, id: int)
    requires Good(s) && id in s.runs
    ensures InOwnSuite(s, s.runs[id])
  {
  }

  lemma UpdatedKeeps(s: State, id: int, r: CheckRun)
    requires Good(s) && id in s.runs
    ensures Good(Updated(s, id, r)) <==> InOwnSuite(s, r)
  {
    var t := Updated(s, id, r);
    assert t.runs[id] == r && (InOwnSuite(t, r) <==> InOwnSuite(s, r));
    forall k <- t.runs | k != id
      ensures InOwnSuite(t, t.runs[k])
    {
      assert InOwnSuite(s, s.runs[k]);
    }
  }

  // ---------- Whole histories ----------

  datatype Event =
    | NewSuite(key: Key, branch: string)
    | NewRun(key: Key, name: string, suite: int)
    | Update(id: int, name: string, status: string, conclusion: string)

  ghost function Next(s: State, e: Event): State {
    match e
    case NewSuite(key, branch) => WithSuite(s, key, branch)
    case NewRun(key, name, suite) => WithRun(s, key, name, suite)
    case Update(id, name, status, conclusion) =>
      if id in s.runs then Updated(s, id, s.runs[id].(name := name, status := status, conclusion := conclusion)) else s
  }

  ghost function After(es: seq<Event>): State {
    if es == [] then EMPTY else Next(After(es[..|es| - 1]), es[|es| - 1])
  }

  /** The REST handler, the only caller, passes 0 for the suite. */
  ghost predicate FromREST(es: seq<Event>) {
    forall e <- es :: e.NewRun? ==> e.suite == 0
  }

  /** In every reachable state there is at most one suite per repository, commit and app, and listing the runs of a real
      app's suite is listing the runs of its commit and app. */
  lemma {:induction false} SuitesAndRunsAgree(es: seq<Event>)
    requires FromREST(es)
    ensures Good(After(es))
    ensures forall k <- After(es).suites :: After(es).suites[k].key.app > 0 ==>
              BySuite(After(es), k) == ByCommit(After(es), After(es).suites[k].key, "", "")
  {
    hide Good, WithSuite, WithRun, BySuite, ByCommit;
    if es == [] {
      EmptyGood();
    } else {
      SuitesAndRunsAgree(es[..|es| - 1]);
      NextKeeps(After(es[..|es| - 1]), es[|es| - 1]);
    }
    forall k <- After(es).suites | After(es).suites[k].key.app > 0
      ensures BySuite(After(es), k) == ByCommit(After(es), After(es).suites[k].key, "", "")
    {
      ListingsAgree(After(es), k);
    }
  }

  lemma EmptyGood()
    ensures Good(EMPTY)
  {
  }

  lemma NextKeeps(s: State, e: Event)
    requires Good(s) && (e.NewRun? ==> e.suite == 0)
    ensures Good(Next(s, e))
  {
    hide Good, WithSuite, WithRun;
    match e
    case NewSuite(key, branch) => WithSuiteKeeps(s, key, branch);
    case NewRun(key, name, suite) => WithRunKeeps(s, key, name, suite);
    case Update(id, name, status, conclusion) =>
      if id in s.runs {
        OwnSuite(s, id);
        UpdatedKeeps(s, id, s.runs[id].(name := name, status := status, conclusion := conclusion));
      }
  }
}
