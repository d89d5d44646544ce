/** The drain as one method, and the drain as steps of a run, are the same. */
module BrokerDrains {
  import opened Brokers
  import opened BrokerRuns
  import opened Options

  /** The steps of a drain that took n messages, from the first send on. */
  function Loop(d: nat, n: nat): seq<Step> {
    if n == 0 then [DrainPutsBack(d)] else [DrainSends(d)] + Loop(d, n - 1)
  }

  lemma RunFirst(s: State, a: Step, rest: seq<Step>)
    requires Enabled(s, a)
    ensures Run(s, [a] + rest) == Run(Next(s, a), rest)
  {
    hide Enabled, Next;
    assert ([a] + rest)[1..] == rest;
  }

  lemma DrainStepIs(s: State, d: nat)
    requires d in s.drains && s.drains[d].todo != []
    ensures var (todo, left) := (s.drains[d].todo, s.drains[d].left);
            var t := Next(s, DrainSends(d));
            && Enabled(s, DrainSends(d)) && t.store == AfterSend(s.store, todo[0])
            && d in t.drains && t.drains[d].todo == todo[1..]
            && t.drains[d].left == left + if Sends(s.store) then [] else [todo[0]]
  {
    hide Sends, Target, FirstRoom;
    if !Sends(s.store) {
      assert AfterSend(s.store, s.drains[d].todo[0]) == s.store;
    } else {
      assert s.drains[d].left + [] == s.drains[d].left;
    }
  }

  lemma {:induction false} LoopIsDrain(s: State, d: nat)
    requires d in s.drains
    ensures var (t, kept) := AfterDrain(s.store, s.drains[d].todo);
            var r := Run(s, Loop(d, |s.drains[d].todo|));
            r.Some? && r.value.store == t.(pending := s.drains[d].left + kept + s.store.pending)
    decreases if d in s.drains then |s.drains[d].todo| else 0
  {
    hide AfterSend, Sends, Next, Enabled;
    var (todo, left) := (s.drains[d].todo, s.drains[d].left);
    if todo == [] {
      RunFirst(s, DrainPutsBack(d), []) by {
        PutsBackIs(s, d);
      }
      PutsBackIs(s, d);
      assert [DrainPutsBack(d)] + [] == [DrainPutsBack(d)] && left + [] == left;
    } else {
      DrainStepIs(s, d);
      var t := Next(s, DrainSends(d));
      RunFirst(s, DrainSends(d), Loop(d, |todo| - 1));
      LoopIsDrain(t, d);
      SendKeepsPending(s.store, todo[0]);
      var kept := AfterDrain(t.store, todo[1..]).1;
      assert left + ([todo[0]] + kept) == (left + [todo[0]]) + kept;
      assert left + [] == left;
    }
  }

  lemma PutsBackIs(s: State, d: nat)
    requires d in s.drains && s.drains[d].todo == []
    ensures Enabled(s, DrainPutsBack(d))
    ensures Next(s, DrainPutsBack(d)).store == s.store.(pending := s.drains[d].left + s.store.pending)
  {
    hide Moved;
  }

  /** A drain that nothing interrupts is a run, and leaves the store as DrainPendingMessages does: so what every run keeps,
      the method keeps, above all that each message is in exactly one place. */
  lemma DrainIsRun(s: State, d: nat) returns (steps: seq<Step>)
    requires Inv(s) && d !in s.drains
    ensures Run(s, steps).Some? && Inv(Run(s, steps).value) && s.place.Keys <= Run(s, steps).value.place.Keys
    ensures var (t, left) := AfterDrain(s.store.(pending := []), s.store.pending);
            Run(s, steps).value.store == t.(pending := left)
  {
    hide Next, Enabled, Inv, AfterDrain, Loop, Run;
    TakesIs(s, d);
    var u := Next(s, DrainTakes(d));
    steps := [DrainTakes(d)] + Loop(d, |s.store.pending|);
    RunFirst(s, DrainTakes(d), Loop(d, |s.store.pending|));
    LoopIsDrain(u, d);
    var left := AfterDrain(u.store, s.store.pending).1;
    assert [] + left + [] == left;
    RunKeeps(s, steps);
  }

  lemma TakesIs(s: State, d: nat)
    requires d !in s.drains
    ensures Enabled(s, DrainTakes(d))
    ensures var u := Next(s, DrainTakes(d));
            u.store == s.store.(pending := []) && d in u.drains && u.drains[d] == Drain(s.store.pending, [])
  {
    hide Moved;
  }
}
