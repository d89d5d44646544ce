/** What the histories of check suites and runs say about each of them, and about what is listed. */
module CheckHistories {
  import opened Checks
  import opened Options

  /** A run as the events that concern it say. */
  datatype RunInfo = RunInfo(key: Key, name: string, status: string, conclusion: string)

  lemma AfterLast(front: seq<Event>, e: Event)
    ensures After(front + [e]) == Next(After(front), e)
  {
    assert (front + [e])[..|front|] == front;
  }

  // ---------- Runs ----------

  /** A run is queued, without a conclusion, when it is created, and is as the last update says from then on. The number
      of a run counts the runs before it, from 1. */
  function LastInfo(es: seq<Event>, id: int): Option<RunInfo> {
    if es == [] then None
    else
      var front, e := es[..|es| - 1], es[|es| - 1];
      match e
      case NewSuite(_, _) => LastInfo(front, id)
      case NewRun(key, name, _) =>
        if id == CountRuns(front) + 1 then Some(RunInfo(key, name, "queued", "")) else LastInfo(front, id)
      case Update(k, name, status, conclusion) =>
        var old' := LastInfo(front, id);
        if k == id && old'.Some? then Some(RunInfo(old'.value.key, name, status, conclusion)) else old'
  }

  function CountRuns(es: seq<Event>): nat {
    if es == [] then 0 else CountRuns(es[..|es| - 1]) + if es[|es| - 1].NewRun? then 1 else 0
  }

  /** The store has a run, and it is what the history says. */
  ghost predicate RunAs(s: State, id: int, info: Option<RunInfo>) {
    && (id in s.runs <==> info.Some?)
    && (id in s.runs ==>
          var r := s.runs[id];
          info == Some(RunInfo(r.key, r.name, r.status, r.conclusion)))
  }

  lemma NextRuns(s: State, e: Event)
    ensures Next(s, e).nextRun == s.nextRun + if e.NewRun? then 1 else 0
    ensures e.NewSuite? ==> Next(s, e).runs == s.runs
    ensures e.NewRun? ==>
              && s.nextRun in Next(s, e).runs
              && (var r := Next(s, e).runs[s.nextRun];
                  r.key == e.key && r.name == e.name && r.status == "queued" && r.conclusion == "")
              && forall k :: k != s.nextRun ==>
                   (k in Next(s, e).runs <==> k in s.runs) && (k in s.runs ==> Next(s, e).runs[k] == s.runs[k])
  {
    hide SuiteOf;
  }

  /** In every history each run has the repository, commit and app of the event that created it, and the name, status and
      conclusion last given. */
  lemma {:induction false} RunIsLast(es: seq<Event>, id: int)
    ensures After(es).nextRun == CountRuns(es) + 1
    ensures RunAs(After(es), id, LastInfo(es, id))
  {
    if es != [] {
      var front, e := es[..|es| - 1], es[|es| - 1];
      RunIsLast(front, id);
      hide After;
      assert es == front + [e];
      AfterLast(front, e);
      NextRuns(After(front), e);
    }
  }

  /** In every history a run is listed for a commit if and only if it is of that repository and commit, of that app if the
      app id is positive, and has the status and the conclusion asked for, where an empty one asks for any. */
  lemma ListedIff(es: seq<Event>, id: int, key: Key, status: string, conclusion: string)
    ensures id in ByCommit(After(es), key, status, conclusion) <==>
            && LastInfo(es, id).Some?
            && var r := LastInfo(es, id).value;
               && r.key.repo == key.repo && r.key.sha == key.sha && (key.app <= 0 || r.key.app == key.app)
               && (status == "" || r.status == status) && (conclusion == "" || r.conclusion == conclusion)
  {
    hide After;
    RunIsLast(es, id);
  }

  // ---------- Suites ----------

  /** The event makes a suite for the key, if there is none. */
  predicate Asks(e: Event, key: Key) {
    (e.NewSuite? || (e.NewRun? && e.suite == 0)) && e.key == key
  }

  /** The first event of a history that asks for a suite of the key. */
  function FirstAsk(es: seq<Event>, key: Key): Option<Event> {
    if es == [] then None
    else
      var front, e := FirstAsk(es[..|es| - 1], key), es[|es| - 1];
      if front.Some? then front else if Asks(e, key) then Some(e) else None
  }

  /** The suites of the key, each as the event asked for it: queued, without a conclusion, on the branch named, if any. */
  ghost predicate SuiteAs(s: State, key: Key, ask: Option<Event>) {
    && (HasSuite(s, key) <==> ask.Some?)
    && forall k <- s.suites :: s.suites[k].key == key ==>
         ask.Some? && s.suites[k] == Suite(key, if ask.value.NewSuite? then ask.value.branch else "", "queued", "")
  }

  lemma SuiteNext(s: State, e: Event, key: Key, ask: Option<Event>)
    requires SuiteAs(s, key, ask) && forall k <- s.suites :: k < s.nextSuite
    ensures SuiteAs(Next(s, e), key, if ask.Some? then ask else if Asks(e, key) then Some(e) else None)
    ensures forall k <- Next(s, e).suites :: k < Next(s, e).nextSuite
  {
    hide SuiteOf;
    var t := Next(s, e);
    if !e.Update? && Asks(e, e.key) && !HasSuite(s, e.key) {
      assert t.suites[s.nextSuite].key == e.key;
    }
    if x :| x in s.suites && s.suites[x].key == key {
      assert x in t.suites && t.suites[x].key == key;
    }
  }

  /** In every history there is a suite for a key if and only if some event asked for one, and it is as the first of these
      asked. */
  lemma {:induction false} SuiteIsFirst(es: seq<Event>, key: Key)
    ensures SuiteAs(After(es), key, FirstAsk(es, key))
    ensures forall k <- After(es).suites :: k < After(es).nextSuite
  {
    if es != [] {
      var front, e := es[..|es| - 1], es[|es| - 1];
      SuiteIsFirst(front, key);
      hide After, SuiteAs;
      assert es == front + [e];
      AfterLast(front, e);
      SuiteNext(After(front), e, key, FirstAsk(front, key));
    }
  }
}
