/** Build artifacts, in memory and on disk (bleephub/artifacts.go). A directory under artifacts/ is an entry of a map
    from names to folders; reading metadata back gives what was written. */
module Artifacts {
  import opened Bytes
  import opened Decimal
  import opened IntKeys
  import opened SortedKeys
  import opened Options

  datatype Meta = Meta(id: int, name: string, runID: string, size: int, finalized: bool)

  datatype Artifact = Artifact(meta: Meta, data: seq<Byte>)

  /** meta is None if meta.json is missing or is not metadata; data is empty if there is no data file. */
  datatype Entry = File | Folder(meta: Option<Meta>, data: seq<Byte>)

  type Disk = map<string, Entry>

  datatype Memory = Memory(artifacts: map<int, Artifact>, nextID: int)

  const EMPTY := Memory(map[], 1)

  // ---------- The critical sections ----------

  function Put(m: Memory, id: int, a: Artifact): Memory {
    m.(artifacts := m.artifacts[id := a])
  }

  function DataAt(d: Disk, name: string): seq<Byte> {
    if name in d && d[name].Folder? then d[name].data else []
  }

  function MetaAt(d: Disk, name: string): Option<Meta> {
    if name in d && d[name].Folder? then d[name].meta else None
  }

  /** persistMeta: writes meta.json and leaves the data file alone. */
  function SaveMeta(d: Disk, m: Meta): Disk {
    d[Itoa(m.id) := Folder(Some(m), DataAt(d, Itoa(m.id)))]
  }

  /** appendData: appends to the data file and leaves meta.json alone. */
  function SaveChunk(d: Disk, id: int, chunk: seq<Byte>): Disk {
    d[Itoa(id) := Folder(MetaAt(d, Itoa(id)), DataAt(d, Itoa(id)) + chunk)]
  }

  function NewMeta(m: Memory, name: string, runID: string): Meta {
    Meta(m.nextID, name, runID, 0, false)
  }

  function Created(m: Memory, name: string, runID: string): Memory {
    Put(m, m.nextID, Artifact(NewMeta(m, name, runID), [])).(nextID := m.nextID + 1)
  }

  function Grown(a: Artifact, chunk: seq<Byte>): Artifact {
    Artifact(a.meta.(size := |a.data| + |chunk|), a.data + chunk)
  }

  function Sealed(a: Artifact): Artifact {
    a.(meta := a.meta.(finalized := true))
  }

  predicate Open(m: Memory, id: int) {
    id in m.artifacts && !m.artifacts[id].meta.finalized
  }

  // ---------- Recovery ----------

  /** What recoverFromDisk has rebuilt after the entries of a list of names. */
  function Load(names: seq<string>, d: Disk): Memory {
    if names == [] then EMPTY
    else LoadOne(Load(names[..|names| - 1], d), names[|names| - 1], d)
  }

  function LoadOne(m: Memory, name: string, d: Disk): Memory {
    var id := Atoi(name);
    var meta := MetaAt(d, name);
    if id.None? || meta.None? then m
    else
      Memory(m.artifacts[id.value := Artifact(meta.value, DataAt(d, name))],
             if id.value >= m.nextID then id.value + 1 else m.nextID)
  }

  lemma LoadNone(d: Disk)
    ensures Load([], d) == EMPTY
  {
  }

  lemma LoadLast(names: seq<string>, n: nat, d: Disk)
    requires n < |names|
    ensures Load(names[..n + 1], d) == LoadOne(Load(names[..n], d), names[n], d)
  {
    assert names[..n + 1][..n] == names[..n];
  }

  // ---------- Memory and disk say the same, except for sizes ----------

  /** The disk has a folder for the artifact, with all it is but its size. */
  ghost predicate Saved(d: Disk, a: Artifact) {
    var name := Itoa(a.meta.id);
    && MetaAt(d, name).Some? && DataAt(d, name) == a.data
    && MetaAt(d, name).value.(size := 0) == a.meta.(size := 0)
  }

  /** Ids run from 1 without gaps; the disk has one folder for each artifact, and nothing else. */
  ghost predicate Mirrors(m: Memory, d: Disk) {
    && 1 <= m.nextID <= MAX_INT
    && (forall id :: id in m.artifacts <==> 1 <= id < m.nextID)
    && (forall id <- m.artifacts :: m.artifacts[id].meta.id == id && Saved(d, m.artifacts[id]))
    && (forall name <- d :: exists id :: id in m.artifacts && name == Itoa(id))
  }

  /** The artifact that the folder of an id holds. */
  function OnDisk(d: Disk, id: int): Artifact
    requires MetaAt(d, Itoa(id)).Some?
  {
    Artifact(MetaAt(d, Itoa(id)).value, DataAt(d, Itoa(id)))
  }

  /** The sizes of memory replaced by those last written to disk. */
  function WithSavedSizes(m: Memory, d: Disk): Memory
    requires forall id <- m.artifacts :: MetaAt(d, Itoa(id)).Some?
  {
    m.(artifacts := map id | id in m.artifacts ::
      m.artifacts[id].(meta := m.artifacts[id].meta.(size := MetaAt(d, Itoa(id)).value.size)))
  }

  ghost predicate Loaded(names: seq<string>, d: Disk, m: Memory) {
    && m.nextID >= 1 && (m.nextID == 1 || m.nextID - 1 in m.artifacts)
    && (forall id <- m.artifacts :: id < m.nextID)
    && (forall id :: id in m.artifacts <==> 1 <= id <= MAX_INT && Itoa(id) in names)
    && forall id <- m.artifacts :: MetaAt(d, Itoa(id)).Some? && m.artifacts[id] == OnDisk(d, id)
  }

  /** A name is the decimal text of an id and names a folder with metadata. */
  ghost predicate Proper(d: Disk, name: string) {
    MetaAt(d, name).Some? && exists id :: 1 <= id <= MAX_INT && name == Itoa(id)
  }

  lemma LoadOneExact(names: seq<string>, name: string, d: Disk, m: Memory)
    requires Loaded(names, d, m) && Proper(d, name)
    ensures Loaded(names + [name], d, LoadOne(m, name, d))
  {
    hide Itoa, Atoi;
    var id :| 1 <= id <= MAX_INT && name == Itoa(id);
    AtoiItoa(id);
    forall k
      ensures Itoa(k) == name <==> k == id
    {
      if Itoa(k) == name {
        ItoaInjective(k, id);
      }
    }
  }

  lemma {:induction false} LoadExact(names: seq<string>, d: Disk)
    requires forall name <- names :: Proper(d, name)
    ensures Loaded(names, d, Load(names, d))
  {
    if names == [] {
    } else {
      hide Loaded, Proper, LoadOne;
      var front, name := names[..|names| - 1], names[|names| - 1];
      assert names == front + [name] && name in names;
      LoadExact(front, d);
      LoadOneExact(front, name, d, Load(front, d));
    }
  }

  lemma FolderThere(m: Memory, d: Disk, id: int)
    requires Mirrors(m, d) && id in m.artifacts
    ensures Itoa(id) in d && MetaAt(d, Itoa(id)).Some?
  {
    hide Itoa;
    assert Saved(d, m.artifacts[id]);
  }

  lemma NameProper(m: Memory, d: Disk, name: string)
    requires Mirrors(m, d) && name in d
    ensures Proper(d, name)
  {
    hide Itoa, MetaAt, DataAt;
    var id :| id in m.artifacts && name == Itoa(id);
    FolderThere(m, d, id);
  }

  lemma NameOfArtifact(m: Memory, d: Disk, id: int)
    requires Mirrors(m, d) && Itoa(id) in d
    ensures id in m.artifacts
  {
    hide Itoa, MetaAt, DataAt;
    var k :| k in m.artifacts && Itoa(id) == Itoa(k);
    ItoaInjective(id, k);
  }

  lemma SameIds(m: Memory, d: Disk, names: seq<string>, r: Memory)
    requires Mirrors(m, d) && Elements(names) == d.Keys && Loaded(names, d, r)
    ensures r.artifacts.Keys == m.artifacts.Keys
  {
    hide Itoa, MetaAt, DataAt, Saved;
    assert forall name :: name in names <==> name in Elements(names);
    forall id
      ensures id in r.artifacts <==> id in m.artifacts
    {
      if id in m.artifacts {
        FolderThere(m, d, id);
      } else if id in r.artifacts {
        NameOfArtifact(m, d, id);
      }
    }
  }

  lemma SameNext(m: Memory, d: Disk, names: seq<string>, r: Memory)
    requires Mirrors(m, d) && Loaded(names, d, r) && r.artifacts.Keys == m.artifacts.Keys
    ensures r.nextID == m.nextID
  {
    hide Itoa, MetaAt, DataAt, Saved;
    assert forall id :: id in r.artifacts <==> id in m.artifacts;
    assert m.nextID > 1 ==> m.nextID - 1 in m.artifacts;
    assert r.nextID > 1 ==> r.nextID - 1 in m.artifacts;
  }

  lemma SameArtifact(m: Memory, d: Disk, names: seq<string>, r: Memory, id: int)
    requires Mirrors(m, d) && Loaded(names, d, r) && id in m.artifacts && id in r.artifacts
    ensures MetaAt(d, Itoa(id)).Some?
    ensures r.artifacts[id] == m.artifacts[id].(meta := m.artifacts[id].meta.(size := MetaAt(d, Itoa(id)).value.size))
  {
    hide Itoa, MetaAt, DataAt;
    assert Saved(d, m.artifacts[id]);
  }

  /** Recovery rebuilds memory, whatever was written before, except that sizes are those last written. */
  lemma RecoveryExact(m: Memory, d: Disk)
    requires Mirrors(m, d)
    ensures forall id <- m.artifacts :: MetaAt(d, Itoa(id)).Some?
    ensures Load(SortingOf(d.Keys), d) == WithSavedSizes(m, d)
  {
    hide Itoa, Load, MetaAt, DataAt, Loaded, Mirrors, Proper, Ascending;
    var names := SortingOf(d.Keys);
    forall name <- names
      ensures Proper(d, name)
    {
      assert name in Elements(names);
      NameProper(m, d, name);
    }
    LoadExact(names, d);
    var r := Load(names, d);
    SameIds(m, d, names, r);
    SameNext(m, d, names, r);
    forall id <- m.artifacts
      ensures MetaAt(d, Itoa(id)).Some?
    {
      FolderThere(m, d, id);
    }
    forall id <- m.artifacts
      ensures r.artifacts[id] == WithSavedSizes(m, d).artifacts[id]
    {
      SameArtifact(m, d, names, r, id);
    }
    assert r.artifacts == WithSavedSizes(m, d).artifacts;
  }

  // ---------- Every operation keeps memory and disk together ----------

  lemma OtherSaved(d: Disk, id: int, e: Entry, a: Artifact)
    requires Saved(d, a) && a.meta.id != id
    ensures Saved(d[Itoa(id) := e], a)
  {
    hide Itoa;
    if Itoa(id) == Itoa(a.meta.id) {
      ItoaInjective(id, a.meta.id);
    }
  }

  /** One artifact and its folder are rewritten, or added under the next id. */
  lemma PutKeeps(m: Memory, d: Disk, a: Artifact, meta: Meta, next: int)
    requires Mirrors(m, d) && 1 <= next <= MAX_INT && next == (if a.meta.id == m.nextID then m.nextID + 1 else m.nextID)
    requires 1 <= a.meta.id < next && meta.(size := 0) == a.meta.(size := 0)
    ensures Mirrors(Put(m, a.meta.id, a).(nextID := next), d[Itoa(a.meta.id) := Folder(Some(meta), a.data)])
  {
    hide Itoa, MetaAt, DataAt, Saved;
    var id := a.meta.id;
    var e := Folder(Some(meta), a.data);
    var m', d' := Put(m, a.meta.id, a).(nextID := next), d[Itoa(id) := e];
    NowSaved(d, a, meta);
    forall k <- m'.artifacts
      ensures Saved(d', m'.artifacts[k])
    {
      if k != id {
        OtherSaved(d, id, e, m.artifacts[k]);
      }
    }
    forall name <- d'
      ensures exists k :: k in m'.artifacts && name == Itoa(k)
    {
      var k := if name == Itoa(id) then id else var l :| l in m.artifacts && name == Itoa(l); l;
      assert k in m'.artifacts && name == Itoa(k);
    }
  }

  lemma NowSaved(d: Disk, a: Artifact, meta: Meta)
    requires meta.(size := 0) == a.meta.(size := 0)
    ensures Saved(d[Itoa(a.meta.id) := Folder(Some(meta), a.data)], a)
  {
    hide Itoa;
  }

  lemma CreateKeeps(m: Memory, d: Disk, name: string, runID: string)
    requires Mirrors(m, d) && m.nextID < MAX_INT
    ensures Mirrors(Created(m, name, runID), SaveMeta(d, NewMeta(m, name, runID)))
    ensures Itoa(m.nextID) !in d
  {
    hide Itoa, Mirrors, MetaAt;
    assert Itoa(m.nextID) !in d by {
      NextIsNew(m, d);
    }
    NextInRange(m, d);
    PutKeeps(m, d, Artifact(NewMeta(m, name, runID), []), NewMeta(m, name, runID), m.nextID + 1);
  }

  lemma NextIsNew(m: Memory, d: Disk)
    requires Mirrors(m, d)
    ensures Itoa(m.nextID) !in d
  {
    hide Itoa, MetaAt, DataAt, Saved;
    if Itoa(m.nextID) in d {
      NameOfArtifact(m, d, m.nextID);
      assert false;
    }
  }

  lemma NextInRange(m: Memory, d: Disk)
    requires Mirrors(m, d)
    ensures 1 <= m.nextID <= MAX_INT && forall id <- m.artifacts :: 1 <= id < m.nextID && m.artifacts[id].meta.id == id
  {
    hide Itoa, MetaAt, DataAt, Saved;
  }

  lemma ItsFolder(m: Memory, d: Disk, id: int)
    requires Mirrors(m, d) && id in m.artifacts
    ensures MetaAt(d, Itoa(id)).Some? && DataAt(d, Itoa(id)) == m.artifacts[id].data
    ensures MetaAt(d, Itoa(id)).value.(size := 0) == m.artifacts[id].meta.(size := 0)
  {
    hide Itoa, MetaAt, DataAt;
    assert Saved(d, m.artifacts[id]);
  }

  lemma UploadKeeps(m: Memory, d: Disk, id: int, chunk: seq<Byte>)
    requires Mirrors(m, d) && id in m.artifacts
    ensures Mirrors(Put(m, id, Grown(m.artifacts[id], chunk)), SaveChunk(d, id, chunk))
  {
    hide Itoa, Mirrors, MetaAt, DataAt;
    ItsFolder(m, d, id);
    NextInRange(m, d);
    PutKeeps(m, d, Grown(m.artifacts[id], chunk), MetaAt(d, Itoa(id)).value, m.nextID);
  }

  lemma FinalizeKeeps(m: Memory, d: Disk, id: int)
    requires Mirrors(m, d) && id in m.artifacts
    ensures Mirrors(Put(m, id, Sealed(m.artifacts[id])), SaveMeta(d, Sealed(m.artifacts[id]).meta))
  {
    hide Itoa, Mirrors, MetaAt, DataAt;
    ItsFolder(m, d, id);
    NextInRange(m, d);
    PutKeeps(m, d, Sealed(m.artifacts[id]), Sealed(m.artifacts[id]).meta, m.nextID);
  }

  lemma RestartKeeps(m: Memory, d: Disk)
    requires Mirrors(m, d)
    ensures Mirrors(Load(SortingOf(d.Keys), d), d)
  {
    hide Itoa, Load, MetaAt, DataAt;
    RecoveryExact(m, d);
    var r := WithSavedSizes(m, d);
    forall id <- r.artifacts
      ensures Saved(d, r.artifacts[id])
    {
      assert Saved(d, m.artifacts[id]);
    }
  }

  // ---------- The store ----------

  class ArtifactStore {
    var artifacts: map<int, Artifact>
    var nextID: int
    /** Whether there is a data directory. */
    const persistent: bool
    /** What is in it. */
    var disk: Disk

    ghost function Contents(): Memory
      reads this
    {
      Memory(artifacts, nextID)
    }

    constructor (persistent: bool, disk: Disk)
      ensures this.persistent == persistent && this.disk == disk
      ensures Contents() == if persistent then Load(SortingOf(disk.Keys), disk) else EMPTY
    {
      this.persistent := persistent;
      this.disk := disk;
      artifacts, nextID := map[], 1;
      new;
      if persistent {
        RecoverFromDisk();
      }
    }

    /** Scans the entries by name; what is no folder, no number, or without metadata is passed over. */
    method RecoverFromDisk()
      requires Contents() == EMPTY
      modifies this`artifacts, this`nextID
      ensures Contents() == Load(SortingOf(disk.Keys), disk)
    {
      hide Itoa, Atoi, Load, Ascending;
      var entries := Sorted(disk.Keys);
      SortingUnique(entries, SortingOf(disk.Keys));
      var n := 0;
      LoadNone(disk);
      while n < |entries|
        invariant 0 <= n <= |entries| && Contents() == Load(entries[..n], disk)
      {
        var name := entries[n];
        LoadLast(entries, n, disk);
        assert name in Elements(entries);
        n := n + 1;
        if disk[name].File? {
          continue;
        }
        var id := Atoi(name);
        if id.None? {
          continue;
        }
        if disk[name].meta.None? {
          continue;
        }
        artifacts := artifacts[id.value := Artifact(disk[name].meta.value, disk[name].data)];
        if id.value >= nextID {
          nextID := id.value + 1;
        }
      }
      assert entries[..n] == entries;
    }

    method PersistMeta(m: Meta)
      modifies this`disk
      ensures disk == if persistent then SaveMeta(old(disk), m) else old(disk)
    {
      hide Itoa;
      if !persistent {
        return;
      }
      var name := Itoa(m.id);
      disk := disk[name := Folder(Some(m), if name in disk && disk[name].Folder? then disk[name].data else [])];
    }

    method AppendData(id: int, chunk: seq<Byte>)
      modifies this`disk
      ensures disk == if persistent then SaveChunk(old(disk), id, chunk) else old(disk)
    {
      hide Itoa;
      if !persistent {
        return;
      }
      var name := Itoa(id);
      var folder := if name in disk && disk[name].Folder? then disk[name] else Folder(None, []);
      disk := disk[name := folder.(data := folder.data + chunk)];
    }

    method CreateArtifact(name: string, runID: string) returns (id: int)
      modifies this
      ensures Contents() == Created(old(Contents()), name, runID) && id == old(nextID)
      ensures disk == if persistent then SaveMeta(old(disk), NewMeta(old(Contents()), name, runID)) else old(disk)
    {
      id := nextID;
      nextID := nextID + 1;
      var art := Artifact(Meta(id, name, runID, 0, false), []);
      artifacts := artifacts[id := art];
      PersistMeta(art.meta);
    }

    /** A chunk is appended in memory and on disk; metadata on disk is not rewritten. */
    method UploadArtifact(id: int, chunk: seq<Byte>) returns (ok: bool)
      modifies this
      ensures ok == (id in old(artifacts))
      ensures Contents() == if ok then Put(old(Contents()), id, Grown(old(artifacts)[id], chunk)) else old(Contents())
      ensures disk == if ok && persistent then SaveChunk(old(disk), old(artifacts)[id].meta.id, chunk) else old(disk)
    {
      ok := id in artifacts;
      if ok {
        var art := artifacts[id];
        var data := art.data + chunk;
        artifacts := artifacts[id := Artifact(art.meta.(size := |data|), data)];
        AppendData(art.meta.id, chunk);
      }
    }

    /** Seals one open artifact with the name, whichever the map yields first, and saves its metadata. */
    method FinalizeArtifact(name: string) returns (found: Option<int>)
      modifies this
      ensures found.None? ==> Contents() == old(Contents()) && disk == old(disk) &&
                              forall k <- artifacts :: artifacts[k].meta.name == name ==> artifacts[k].meta.finalized
      ensures found.Some? ==> Open(old(Contents()), found.value) && old(artifacts)[found.value].meta.name == name
                              && !old(artifacts)[found.value].meta.finalized
      ensures found.Some? ==>
                && Contents() == Put(old(Contents()), found.value, Sealed(old(artifacts)[found.value]))
                && disk == if persistent then SaveMeta(old(disk), Sealed(old(artifacts)[found.value]).meta) else old(disk)
    {
      found := None;
      var todo := artifacts.Keys;
      while todo != {}
        invariant todo <= artifacts.Keys && artifacts == old(artifacts) && disk == old(disk) && nextID == old(nextID)
        invariant found.None?
        invariant forall k <- artifacts :: k !in todo && artifacts[k].meta.name == name ==> artifacts[k].meta.finalized
        decreases todo
      {
        SomeKey(todo);
        var k :| k in todo;
        var art := artifacts[k];
        if art.meta.name == name && !art.meta.finalized {
          art := art.(meta := art.meta.(finalized := true));
          artifacts := artifacts[k := art];
          found := Some(k);
          PersistMeta(art.meta);
          return;
        }
        todo := todo - {k};
      }
    }
  }
}
