/** What an artifact holds, read off the history alone, and what recovery makes of any disk whatever. */
module ArtifactContents {
  import opened Bytes
  import opened Decimal
  import opened SortedKeys
  import opened Artifacts
  import opened ArtifactRuns
  import opened Options

  // ---------- Histories ----------

  /** An artifact as the events that concern it say. */
  datatype Info = Info(name: string, runID: string, data: seq<Byte>, finalized: bool)

  function CountCreates(es: seq<Event>): nat {
    if es == [] then 0 else CountCreates(es[..|es| - 1]) + if es[|es| - 1].Create? then 1 else 0
  }

  /** Created empty and open under the next number, counted from 1; each upload appends; finalizing seals; restarts change
      nothing. */
  function LastInfo(es: seq<Event>, id: int): Option<Info> {
    if es == [] then None
    else
      var front, e := es[..|es| - 1], es[|es| - 1];
      if e.Create? && id == CountCreates(front) + 1 then Some(Info(e.name, e.runID, [], false))
      else
        var i := LastInfo(front, id);
        if i.None? then None
        else if e.Upload? && e.id == id then Some(i.value.(data := i.value.data + e.chunk))
        else if e.Finalize? && e.id == id then Some(i.value.(finalized := true))
        else i
  }

  ghost predicate ArtifactAs(m: Memory, id: int, info: Option<Info>) {
    && (id in m.artifacts <==> info.Some?)
    && (id in m.artifacts ==>
          var a := m.artifacts[id];
          && info == Some(Info(a.meta.name, a.meta.runID, a.data, a.meta.finalized)) && a.meta.id == id)
  }

  lemma InfoNext(w: World, e: Event, id: int, info: Option<Info>)
    requires Mirrors(w.m, w.d) && ArtifactAs(w.m, id, info)
    ensures var t := Next(w, e).m;
            && t.nextID == w.m.nextID + (if e.Create? then 1 else 0)
            && ArtifactAs(t, id,
                 if e.Create? && id == w.m.nextID then Some(Info(e.name, e.runID, [], false))
                 else if info.None? then None
                 else if e.Upload? && e.id == id then Some(info.value.(data := info.value.data + e.chunk))
                 else if e.Finalize? && e.id == id then Some(info.value.(finalized := true))
                 else info)
  {
    hide Itoa, Load, SaveMeta, SaveChunk, MetaAt, DataAt, Mirrors;
    NextInRange(w.m, w.d);
    if e.Restart? {
      RecoveryExact(w.m, w.d);
    }
  }

  /** In every history, restarts included: the artifacts are those created, each with the name and run it was created for,
      all chunks uploaded to it one after the other, and sealed if and only if it was finalized. */
  lemma {:induction false} ContentExact(es: seq<Event>, id: int)
    requires |es| < MAX_INT
    ensures After(es).m.nextID == CountCreates(es) + 1
    ensures ArtifactAs(After(es).m, id, LastInfo(es, id))
  {
    hide Next, Mirrors, ArtifactAs;
    if es == [] {
      Start();
      NoArtifact(id);
    } else {
      var front, e := es[..|es| - 1], es[|es| - 1];
      ContentExact(front, id);
      AlwaysMirrors(front);
      InfoNext(After(front), e, id, LastInfo(front, id));
    }
  }

  lemma NoArtifact(id: int)
    ensures ArtifactAs(EMPTY, id, None) && EMPTY.nextID == 1
  {
  }

  // ---------- Any disk ----------

  /** Entry i of a list of names is a folder with metadata whose name reads as this number. */
  predicate IsEntry(names: seq<string>, d: Disk, id: int, i: nat) {
    i < |names| && Atoi(names[i]) == Some(id) && MetaAt(d, names[i]).Some?
  }

  /** The last entry with the number; different names can read as one, such as 7 and 07. */
  predicate IsLastEntry(names: seq<string>, d: Disk, id: int, i: nat) {
    IsEntry(names, d, id, i) && forall j: nat :: i < j < |names| ==> !IsEntry(names, d, id, j)
  }

  predicate IsRead(names: seq<string>, d: Disk, id: int, a: Artifact, i: nat) {
    IsLastEntry(names, d, id, i) && a == Artifact(MetaAt(d, names[i]).value, DataAt(d, names[i]))
  }

  ghost predicate LoadedFrom(names: seq<string>, d: Disk, m: Memory) {
    && m.nextID >= 1 && (m.nextID == 1 || m.nextID - 1 in m.artifacts)
    && (forall id <- m.artifacts :: id < m.nextID)
    && (forall id: int, i: nat :: IsEntry(names, d, id, i) ==> id in m.artifacts)
    && forall id <- m.artifacts :: exists i: nat :: IsRead(names, d, id, m.artifacts[id], i)
  }

  lemma EntryNext(names: seq<string>, name: string, d: Disk, id: int, i: nat)
    ensures IsEntry(names + [name], d, id, i) <==>
            IsEntry(names, d, id, i) || (i == |names| && Atoi(name) == Some(id) && MetaAt(d, name).Some?)
  {
    hide Atoi, MetaAt;
  }

  lemma StillRead(names: seq<string>, name: string, d: Disk, id: int, a: Artifact, i: nat)
    requires IsRead(names, d, id, a, i) && !(Atoi(name) == Some(id) && MetaAt(d, name).Some?)
    ensures IsRead(names + [name], d, id, a, i)
  {
    hide Atoi, MetaAt, DataAt, IsEntry;
    EntryNext(names, name, d, id, i);
    forall j: nat | i < j < |names + [name]|
      ensures !IsEntry(names + [name], d, id, j)
    {
      EntryNext(names, name, d, id, j);
      if IsEntry(names, d, id, j) {
        InNames(names, d, id, j);
      }
    }
    InNames(names, d, id, i);
    assert (names + [name])[i] == names[i];
  }

  lemma InNames(names: seq<string>, d: Disk, id: int, i: nat)
    requires IsEntry(names, d, id, i)
    ensures i < |names|
  {
  }

  lemma NowRead(names: seq<string>, name: string, d: Disk, id: int)
    requires Atoi(name) == Some(id) && MetaAt(d, name).Some?
    ensures IsRead(names + [name], d, id, Artifact(MetaAt(d, name).value, DataAt(d, name)), |names|)
  {
    hide Atoi, MetaAt, DataAt;
  }

  lemma LoadOneAny(names: seq<string>, name: string, d: Disk, m: Memory)
    requires LoadedFrom(names, d, m)
    ensures LoadedFrom(names + [name], d, LoadOne(m, name, d))
  {
    hide Atoi, MetaAt, DataAt, IsEntry, IsRead;
    var t := LoadOne(m, name, d);
    forall id: int, i: nat | IsEntry(names + [name], d, id, i)
      ensures id in t.artifacts
    {
      EntryNext(names, name, d, id, i);
    }
    forall id <- t.artifacts
      ensures exists i: nat :: IsRead(names + [name], d, id, t.artifacts[id], i)
    {
      if Atoi(name) == Some(id) && MetaAt(d, name).Some? {
        NowRead(names, name, d, id);
      } else {
        var i: nat :| IsRead(names, d, id, m.artifacts[id], i);
        StillRead(names, name, d, id, m.artifacts[id], i);
      }
    }
  }

  /** From whatever lies in the directory, recovery takes the folders with metadata whose names are numbers, the last one
      where several read as the same number, and nothing else; the next id is one above the largest, or 1. */
  lemma {:induction false} LoadAny(names: seq<string>, d: Disk)
    ensures LoadedFrom(names, d, Load(names, d))
  {
    hide LoadedFrom, LoadOne;
    if names == [] {
      LoadNothing(d);
    } else {
      var front, name := names[..|names| - 1], names[|names| - 1];
      assert names == front + [name];
      LoadAny(front, d);
      LoadOneAny(front, name, d, Load(front, d));
    }
  }

  lemma LoadNothing(d: Disk)
    ensures LoadedFrom([], d, EMPTY)
  {
    hide Atoi, MetaAt;
  }
}
