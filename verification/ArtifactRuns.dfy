/** Whole histories of the artifact store with a data directory, restarts included. */
module ArtifactRuns {
  import opened Bytes
  import opened Decimal
  import opened SortedKeys
  import opened Artifacts
  import opened Options

  /** Finalize names the artifact that the handler picked. */
  datatype Event =
    | Create(name: string, runID: string)
    | Upload(id: int, chunk: seq<Byte>)
    | Finalize(id: int)
    | Restart

  datatype World = World(m: Memory, d: Disk)

  ghost function Next(w: World, e: Event): World {
    match e
    case Create(name, runID) => World(Created(w.m, name, runID), SaveMeta(w.d, NewMeta(w.m, name, runID)))
    case Upload(id, chunk) =>
      if id in w.m.artifacts then
        World(Put(w.m, id, Grown(w.m.artifacts[id], chunk)), SaveChunk(w.d, w.m.artifacts[id].meta.id, chunk))
      else w
    case Finalize(id) =>
      if Open(w.m, id) then
        World(Put(w.m, id, Sealed(w.m.artifacts[id])), SaveMeta(w.d, Sealed(w.m.artifacts[id]).meta))
      else w
    case Restart => World(Load(SortingOf(w.d.Keys), w.d), w.d)
  }

  ghost function After(es: seq<Event>): World {
    if es == [] then World(EMPTY, map[]) else Next(After(es[..|es| - 1]), es[|es| - 1])
  }

  // ---------- Recovery after any history ----------

  lemma NextKeeps(w: World, e: Event)
    requires Mirrors(w.m, w.d) && w.m.nextID < MAX_INT
    ensures Mirrors(Next(w, e).m, Next(w, e).d) && Next(w, e).m.nextID <= w.m.nextID + 1
  {
    hide Mirrors, Load, Itoa, SaveMeta, SaveChunk;
    NextInRange(w.m, w.d);
    match e
    case Create(name, runID) => CreateKeeps(w.m, w.d, name, runID);
    case Upload(id, chunk) =>
      if id in w.m.artifacts {
        UploadKeeps(w.m, w.d, id, chunk);
      }
    case Finalize(id) =>
      if Open(w.m, id) {
        FinalizeKeeps(w.m, w.d, id);
      }
    case Restart =>
      RestartKeeps(w.m, w.d);
      RecoveryExact(w.m, w.d);
  }

  /** As long as ids fit 64 bits, memory and disk agree on everything but sizes. */
  lemma {:induction false} AlwaysMirrors(es: seq<Event>)
    requires |es| < MAX_INT
    ensures Mirrors(After(es).m, After(es).d) && After(es).m.nextID <= |es| + 1
  {
    hide Mirrors, Next;
    if es == [] {
      StartMirrors();
    } else {
      AlwaysMirrors(es[..|es| - 1]);
      NextKeeps(After(es[..|es| - 1]), es[|es| - 1]);
    }
  }

  lemma StartMirrors()
    ensures Mirrors(EMPTY, map[])
  {
  }

  /** Whenever the process stops, a new one finds the same artifacts, with the same names, runs, data and flags, and
      the same next id: all but the sizes, which are those of the last metadata written. */
  lemma RecoveryRefines(es: seq<Event>)
    requires |es| < MAX_INT
    ensures var w := After(es);
            var r := After(es + [Restart]).m;
            && r.nextID == w.m.nextID && r.artifacts.Keys == w.m.artifacts.Keys
            && forall id <- w.m.artifacts ::
                 r.artifacts[id].data == w.m.artifacts[id].data &&
                 r.artifacts[id].meta.(size := 0) == w.m.artifacts[id].meta.(size := 0)
  {
    hide Mirrors, Load, Itoa;
    AlwaysMirrors(es);
    assert (es + [Restart])[..|es|] == es;
    RecoveryExact(After(es).m, After(es).d);
  }

  // ---------- Sizes ----------

  /** Whether the size in memory, and the size on disk, are those of the data. */
  datatype SizeOk = SizeOk(memory: bool, disk: bool)

  /** Read off the history alone: uploads correct memory and outdate the disk unless they are empty, finalizing copies
      memory to disk, restarting copies the disk to memory. */
  ghost function Sizes(es: seq<Event>, id: int): SizeOk {
    if es == [] then SizeOk(true, true)
    else
      var front, e := es[..|es| - 1], es[|es| - 1];
      var s := Sizes(front, id);
      match e
      case Upload(k, chunk) =>
        if k == id && id in After(front).m.artifacts then SizeOk(true, s.disk && chunk == []) else s
      case Finalize(k) => if k == id && Open(After(front).m, id) then SizeOk(s.memory, s.memory) else s
      case Restart => SizeOk(s.disk, s.disk)
      case Create(_, _) => s
  }

  function SizeOnDisk(d: Disk, id: int): int {
    var m := MetaAt(d, Itoa(id));
    if m.Some? then m.value.size else 0
  }

  /** The sizes are at most the length of the data, and right or wrong as the history says. */
  ghost predicate SizesAre(w: World, id: int, s: SizeOk) {
    if id in w.m.artifacts then
      var a := w.m.artifacts[id];
      && 0 <= a.meta.size <= |a.data| && (a.meta.size == |a.data| <==> s.memory)
      && 0 <= SizeOnDisk(w.d, id) <= |a.data| && (SizeOnDisk(w.d, id) == |a.data| <==> s.disk)
    else s == SizeOk(true, true)
  }

  lemma OtherFolder(d: Disk, id: int, k: int, e: Entry)
    requires id != k
    ensures SizeOnDisk(d[Itoa(k) := e], id) == SizeOnDisk(d, id)
  {
    hide Itoa;
    if Itoa(k) == Itoa(id) {
      ItoaInjective(k, id);
    }
  }

  lemma SizesAfterCreate(w: World, id: int, s: SizeOk, name: string, runID: string)
    requires Mirrors(w.m, w.d) && SizesAre(w, id, s)
    ensures SizesAre(Next(w, Create(name, runID)), id, s)
  {
    hide Itoa, Mirrors;
    NextInRange(w.m, w.d);
    NextIsNew(w.m, w.d);
    var meta := NewMeta(w.m, name, runID);
    if id != w.m.nextID {
      OtherFolder(w.d, id, w.m.nextID, Folder(Some(meta), DataAt(w.d, Itoa(w.m.nextID))));
    } else {
      NextIsFree(w.m, w.d);
    }
  }

  lemma NextIsFree(m: Memory, d: Disk)
    requires Mirrors(m, d)
    ensures m.nextID !in m.artifacts
  {
    hide Itoa, Saved;
  }

  lemma SizesAfterUpload(w: World, id: int, s: SizeOk, k: int, chunk: seq<Byte>)
    requires Mirrors(w.m, w.d) && SizesAre(w, id, s) && k in w.m.artifacts
    ensures SizesAre(Next(w, Upload(k, chunk)), id, if k == id then SizeOk(true, s.disk && chunk == []) else s)
  {
    hide Itoa, Mirrors;
    NextInRange(w.m, w.d);
    ItsFolder(w.m, w.d, k);
    if id != k {
      OtherFolder(w.d, id, k, Folder(MetaAt(w.d, Itoa(k)), DataAt(w.d, Itoa(k)) + chunk));
    }
  }

  lemma SizesAfterFinalize(w: World, id: int, s: SizeOk, k: int)
    requires Mirrors(w.m, w.d) && SizesAre(w, id, s) && Open(w.m, k)
    ensures SizesAre(Next(w, Finalize(k)), id, if k == id then SizeOk(s.memory, s.memory) else s)
  {
    hide Itoa, Mirrors;
    NextInRange(w.m, w.d);
    if id != k {
      OtherFolder(w.d, id, k, Folder(Some(Sealed(w.m.artifacts[k]).meta), DataAt(w.d, Itoa(k))));
    }
  }

  lemma SizesAfterRestart(w: World, id: int, s: SizeOk)
    requires Mirrors(w.m, w.d) && SizesAre(w, id, s)
    ensures SizesAre(Next(w, Restart), id, SizeOk(s.disk, s.disk))
  {
    hide Itoa, Mirrors, Load;
    RecoveryExact(w.m, w.d);
  }

  /** After any history the size shown for an artifact is right exactly if the history says so, and so is the size that
      a restart would bring back. */
  lemma {:induction false} SizesExact(es: seq<Event>, id: int)
    requires |es| < MAX_INT
    ensures SizesAre(After(es), id, Sizes(es, id))
  {
    hide Mirrors, SizesAre, Next;
    if es == [] {
      StartSizes(id);
    } else {
      var front, e := es[..|es| - 1], es[|es| - 1];
      var w := After(front);
      SizesExact(front, id);
      AlwaysMirrors(front);
      SizesNext(w, id, Sizes(front, id), e);
    }
  }

  lemma StartSizes(id: int)
    ensures SizesAre(World(EMPTY, map[]), id, SizeOk(true, true))
  {
  }

  lemma SizesNext(w: World, id: int, s: SizeOk, e: Event)
    requires Mirrors(w.m, w.d) && SizesAre(w, id, s)
    ensures SizesAre(Next(w, e), id,
              match e
              case Upload(k, chunk) => if k == id && id in w.m.artifacts then SizeOk(true, s.disk && chunk == []) else s
              case Finalize(k) => if k == id && Open(w.m, id) then SizeOk(s.memory, s.memory) else s
              case Restart => SizeOk(s.disk, s.disk)
              case Create(_, _) => s)
  {
    hide Mirrors, SizesAre;
    match e
    case Create(name, runID) => SizesAfterCreate(w, id, s, name, runID);
    case Upload(k, chunk) =>
      if k in w.m.artifacts {
        SizesAfterUpload(w, id, s, k, chunk);
      }
    case Finalize(k) =>
      if Open(w.m, k) {
        SizesAfterFinalize(w, id, s, k);
      }
    case Restart => SizesAfterRestart(w, id, s);
  }

  lemma SizesLast(front: seq<Event>, e: Event, id: int)
    ensures After(front + [e]) == Next(After(front), e)
    ensures Sizes(front + [e], id) ==
            match e
            case Upload(k, chunk) =>
              if k == id && id in After(front).m.artifacts then SizeOk(true, Sizes(front, id).disk && chunk == [])
              else Sizes(front, id)
            case Finalize(k) =>
              if k == id && Open(After(front).m, id) then SizeOk(Sizes(front, id).memory, Sizes(front, id).memory)
              else Sizes(front, id)
            case Restart => SizeOk(Sizes(front, id).disk, Sizes(front, id).disk)
            case Create(_, _) => Sizes(front, id)
  {
    assert (front + [e])[..|front|] == front;
  }

  /** In a process that never restarted, sizes in memory are right. */
  lemma {:induction false} NeverRestarted(es: seq<Event>, id: int)
    requires Restart !in es
    ensures Sizes(es, id).memory
  {
    hide After, Next, Open;
    if es == [] {
    } else {
      NeverRestarted(es[..|es| - 1], id);
    }
  }

  /** An artifact that was finalized with the right size, and saw no further data, has that size after any number of
      restarts and whatever happened to others. */
  lemma {:induction false} FinalSizeStays(es: seq<Event>, more: seq<Event>, id: int)
    requires Sizes(es, id) == SizeOk(true, true)
    requires forall e <- more :: e.Upload? && e.id == id ==> e.chunk == []
    ensures Sizes(es + more, id) == SizeOk(true, true)
    decreases |more|
  {
    hide After, Next, Open, Sizes;
    if more == [] {
      assert es + more == es;
    } else {
      var front, e := more[..|more| - 1], more[|more| - 1];
      FinalSizeStays(es, front, id);
      assert es + more == (es + front) + [e];
      SizesLast(es + front, e, id);
    }
  }

  /** Uploads in one process, then finalizing in the same process, then no more data: whoever restarts the server later
      finds the size to be the length of the data. */
  lemma SizeSurvives(es: seq<Event>, id: int, more: seq<Event>)
    requires Restart !in es && Open(After(es).m, id)
    requires forall e <- more :: e.Upload? && e.id == id ==> e.chunk == []
    requires |es| + 1 + |more| < MAX_INT && id in After(es + [Finalize(id)] + more).m.artifacts
    ensures var a := After(es + [Finalize(id)] + more).m.artifacts[id];
            a.meta.size == |a.data|
  {
    hide After, Next, Open, Sizes, Itoa;
    NeverRestarted(es, id);
    SizesLast(es, Finalize(id), id);
    FinalSizeStays(es + [Finalize(id)], more, id);
    SizesExact(es + [Finalize(id)] + more, id);
  }

  /** But finalizing does not always save the right size: if the server restarted between the upload and the finalizing,
      it saves the outdated size that recovery brought back, and no later restart repairs it. */
  lemma FinalSizeWrong(name: string, run: string, b: Byte) returns (es: seq<Event>)
    ensures es == [Create(name, run), Upload(1, [b]), Restart, Finalize(1)]
    ensures 1 in After(es).m.artifacts
    ensures After(es).m.artifacts[1] == Artifact(Meta(1, name, run, 0, true), [b])
  {
    hide Load, Itoa, Sizes, After, Mirrors;
    var e1, e2, e3, e4 := Create(name, run), Upload(1, [b]), Restart, Finalize(1);
    Start();
    SizesLast([], e1, 1);
    SizesLast([] + [e1], e2, 1);
    SizesLast([] + [e1] + [e2], e3, 1);
    SizesLast([] + [e1] + [e2] + [e3], e4, 1);
    AlwaysMirrors([] + [e1] + [e2]);
    RecoveryExact(After([] + [e1] + [e2]).m, After([] + [e1] + [e2]).d);
    es := [] + [e1] + [e2] + [e3] + [e4];
  }

  lemma Start()
    ensures After([]) == World(EMPTY, map[])
  {
  }
}
