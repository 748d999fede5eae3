// The FAT12 driver: a drive, the table of open files, and the operations on them.
module Fat12 {
  import opened Disk
  import opened Chains
  import opened Objects
  import opened Directory
  import opened Names
  import opened Paths
  import opened Tree
  import opened Store
  import opened Lookup
  import opened Options

  const MAX_OPEN_FILES := 256

  /** `struct open_file`. The path is kept in a buffer of 256 bytes with its NUL. */
  datatype OpenFile = OpenFile(
    used: bool, path: seq<byte>, first: nat, current: nat, cursor: nat, size: nat, parent: nat, idx: nat)

  ghost predicate Agrees(f: OpenFile, e: Raw) {
    !IsDir(e) && Cluster(e) == f.first && Size(e) == f.size && f.cursor <= f.size
  }

  /** The cached fields of a handle agree with the directory entry they were read from. */
  ghost predicate Coherent(t: Tree, f: OpenFile) {
    exists e :: EntryAt(t, (f.parent, f.idx), e) && Agrees(f, e)
  }

  function PathBuffer(path: CString): seq<byte> { path[..Min(|path|, 255)] }

  /** The handle that `fat12_open` fills in. */
  function Opened(path: CString, e: Raw, parent: nat, idx: nat): OpenFile {
    OpenFile(true, PathBuffer(path), Cluster(e), Cluster(e), 0, Size(e), parent, idx)
  }

  /** The parent directory of a path, and its last component, if the walk gets there. */
  ghost function ParentOf(t: Tree, path: CString): Option<nat> {
    if Keys(path) == [] then None else Walk(t, Keys(path)[..|Keys(path)| - 1])
  }

  function LastKey(path: CString): Key
    requires Keys(path) != []
  {
    Keys(path)[|Keys(path)| - 1]
  }

  lemma CursorMoves(t: Tree, f: OpenFile, n: nat)
    requires Coherent(t, f) && n <= f.size
    ensures Coherent(t, f.(cursor := n))
  {
    var e :| EntryAt(t, (f.parent, f.idx), e) && Agrees(f, e);
    assert Agrees(f.(cursor := n), e);
  }

  /** One step of a write through handle `f`: its file may grow and change, and its entry with it;
      everything else stays. */
  ghost predicate FileStep(o: Objs, t: Tree, f: OpenFile, o': Objs, t': Tree, f': OpenFile, ds: set<nat>) {
    && f' == f.(first := f'.first, cursor := f'.cursor, size := f'.size)
    && (f.first != 0 ==> f'.first == f.first)
    && (f.first == 0 && f'.first != 0 ==> f'.first !in o.secs)
    && SlotOnly(t, t', f.parent, f.idx)
    && FilesSame(o, o', ds, f'.first)
  }

  /** An empty file gets its first cluster `c` in the entry and in the handle. */
  lemma FirstClusterTree(t: Tree, home: Homes, f: OpenFile, e: Raw, c: nat, cap: nat)
    requires WellFormed(t, home, {}) && EntryAt(t, (f.parent, f.idx), e) && Agrees(f, e) && f.first == 0
    requires 0 < c < 4080 && c !in t.dirs && c !in t.caps
    ensures var t' := WithSlot(t, f.parent, f.idx, WithCluster(e, c)).(caps := t.caps[c := cap]);
            && WellFormed(t', home[c := (f.parent, f.idx)], {})
            && Coherent(t', f.(first := c))
    ensures WithCluster(e, c)[..26] == e[..26]
  {
    hide WellFormed, Cluster, Size, IsDir, SameStart, WithCluster, Ordinary;
    var e' := WithCluster(e, c);
    FieldsSameStart(e, c, 0);
    assert Cluster(e') == c;
    FirstClusterKeepsWF(t, home, f.parent, f.idx, e', c, cap);
    EntrySet(t, f.parent, f.idx, e', t.caps[c := cap]);
    assert Agrees(f.(first := c), e');
  }

  /** A step that changes only what the file of the handle can hold. */
  lemma CapacityStep(o: Objs, o': Objs, t: Tree, f: OpenFile, ds: set<nat>, cap: nat)
    requires FilesSame(o, o', ds, f.first) && Coherent(t, f)
    ensures FileStep(o, t, f, o', t.(caps := t.caps[f.first := cap]), f, ds)
    ensures Coherent(t.(caps := t.caps[f.first := cap]), f)
  {
    var t' := t.(caps := t.caps[f.first := cap]);
    var e :| EntryAt(t, (f.parent, f.idx), e) && Agrees(f, e);
    assert EntryAt(t', (f.parent, f.idx), e);
    SlotOnlySame(t, t', f.parent, f.idx);
  }

  /** The handle moves past what was written; its size and the size in the entry follow. */
  lemma SizeTree(t: Tree, home: Homes, f: OpenFile, e: Raw, n: nat)
    requires WellFormed(t, home, {}) && EntryAt(t, (f.parent, f.idx), e) && Agrees(f, e) && f.first != 0
    requires f.size <= n < 0x1_0000_0000 && f.first in t.caps && n <= t.caps[f.first]
    ensures var t' := WithSlot(t, f.parent, f.idx, WithSize(e, n));
            && WellFormed(t', home, {})
            && Coherent(t', f.(cursor := n, size := n))
            && SlotOnly(t, t', f.parent, f.idx)
  {
    hide WellFormed, Cluster, Size, IsDir, SameStart, WithSize, At, SlotOnly;
    EntryAtSlot(t, (f.parent, f.idx), e);
    var e' := WithSize(e, n);
    FieldsSameStart(e, 0, n);
    assert Size(e') == n;
    SizeKeepsWF(t, home, f.parent, f.idx, e');
    EntrySet(t, f.parent, f.idx, e', t.caps);
    assert Agrees(f.(cursor := n, size := n), e');
    SlotOnlyEntry(t, WithSlot(t, f.parent, f.idx, e'), f.parent, f.idx, e');
  }

  /** The cursor stands behind the last byte that the clusters of the file can hold. */
  ghost predicate AtEnd(o: Objs, f: OpenFile) {
    f.first in o.secs && f.cursor == 512 * |o.secs[f.first]|
  }

  /** Handle `f'` is handle `f` after `n` bytes were written through it. */
  predicate Written(f: OpenFile, f': OpenFile, n: nat) {
    f' == f.(first := f'.first, cursor := f.cursor + n, size := MaxNat(f.size, f.cursor + n))
  }

  /** What a write of `buf` through handle `f` that gets to `n` bytes has done: these bytes are
      spliced into the file at the cursor, the size in the handle and in the entry covers them, and
      nothing else changes. */
  ghost predicate Progress(o: Objs, t: Tree, f: OpenFile, o': Objs, t': Tree, f': OpenFile, ds: set<nat>,
                           buf: seq<byte>, n: nat)
  {
    && n <= |buf| && f.cursor <= f.size == |HandleBytes(o, f)|
    && Written(f, f', n) && Coherent(t', f')
    && HandleBytes(o', f') == Splice(HandleBytes(o, f), f.cursor, buf[..n])
    && FileStep(o, t, f, o', t', f', ds)
  }

  lemma ProgressTwice(o: Objs, t: Tree, f: OpenFile, o1: Objs, t1: Tree, f1: OpenFile,
                      o2: Objs, t2: Tree, f2: OpenFile, ds: set<nat>, buf: seq<byte>, n: nat, m: nat)
    requires Progress(o, t, f, o1, t1, f1, ds, buf, n) && Progress(o1, t1, f1, o2, t2, f2, ds, buf[n..], m)
    requires f1.first == f2.first
    ensures Progress(o, t, f, o2, t2, f2, ds, buf, n + m)
  {
    hide FileStep, FileBytes, Coherent, Splice;
    FileStepTwice(o, t, f, o1, t1, f1, o2, t2, f2, ds);
    SpliceMore(HandleBytes(o, f), f.cursor, buf, n, m);
  }

  lemma FirstProgress(o: Objs, t: Tree, f: OpenFile, o': Objs, t': Tree, f': OpenFile, ds: set<nat>, buf: seq<byte>)
    requires FileStep(o, t, f, o', t', f', ds) && Coherent(t', f') && f' == f.(first := f'.first)
    requires f.size == 0 == |HandleBytes(o, f)| && f.cursor == 0
    ensures Progress(o, t, f, o', t', f', ds, buf, 0)
  {
  }

  /** `o2` is `o1` with `bytes` stored at the cursor of handle `f`. */
  ghost predicate ChunkStored(o1: Objs, o2: Objs, f: OpenFile, bytes: seq<byte>) {
    && f.first in o1.secs && f.cursor % 512 + |bytes| <= 512 && f.cursor / 512 < |o1.secs[f.first]|
    && o2 == WithSector(o1, f.first, f.cursor / 512, Patch(o1.secs[f.first][f.cursor / 512], f.cursor % 512, bytes))
  }

  lemma StoredSize(o1: Objs, o2: Objs, f: OpenFile, bytes: seq<byte>)
    requires ChunkStored(o1, o2, f, bytes)
    ensures f.first in o2.secs && |o2.secs[f.first]| == |o1.secs[f.first]|
    ensures f.cursor + |bytes| <= 512 * |o1.secs[f.first]|
  {
  }

  /** What one round of the write loop has done, from its three parts: the file was extended (`o1`),
      the bytes were stored (`o2`), the cursor was advanced (`o3`). */
  lemma ChunkProgress(o0: Objs, t0: Tree, f: OpenFile, o1: Objs, t1: Tree, o2: Objs, t2: Tree, o3: Objs, t3: Tree,
                      f3: OpenFile, ds: set<nat>, buf: seq<byte>, m: nat)
    requires FileStep(o0, t0, f, o1, t1, f, ds) && FileStep(o1, t1, f, o2, t2, f, ds)
    requires FileStep(o2, t2, f, o3, t3, f3, ds)
    requires m <= |buf| && Written(f, f3, m) && f3.first == f.first && Coherent(t3, f3)
    requires HandleBytes(o1, f) == HandleBytes(o0, f) && f.cursor <= f.size == |HandleBytes(o0, f)|
    requires ChunkStored(o1, o2, f, buf[..m]) && f.size <= 512 * |o1.secs[f.first]|
    requires f.first in o3.secs && f.first in o2.secs && o3.secs[f.first] == o2.secs[f.first]
    ensures Progress(o0, t0, f, o3, t3, f3, ds, buf, m)
  {
    hide FileStep, Coherent, FileBytes, Splice, Patch;
    FileStepTwice(o0, t0, f, o1, t1, f, o2, t2, f, ds);
    FileStepTwice(o0, t0, f, o2, t2, f, o3, t3, f3, ds);
    PatchedBytes(o1, o2, f.first, f.cursor, buf[..m], f.size, f3.size);
    SameFileBytes(o2, o3, f.first, f3.size);
  }

  /** The condition under which `fat12_removefile` sees a handle as a use of the file. */
  predicate Blocks(f: OpenFile, path: CString, e: Raw) {
    f.used && f.first == Cluster(e) && (Cluster(e) != 0 || f.path == path)
  }

  function PlaceOf(f: OpenFile): Place { (f.parent, f.idx) }

  /** The entry at `p` and the clusters of its object are gone, and nothing else has changed: exactly
      these clusters are free now, and the slot of the entry is a tombstone. */
  ghost predicate Erased(o: Objs, t: Tree, fat: FatTable, o': Objs, t': Tree, fat': FatTable, p: Place) {
    && Removed(t, t', p, EntryIn(t, p))
    && o'.lost == o.lost
    && (if Cluster(EntryIn(t, p)) == 0 then o'.chains == o.chains && fat' == fat
        else Cluster(EntryIn(t, p)) in o.chains
             && o'.chains == o.chains - {Cluster(EntryIn(t, p))}
             && fat' == Zeroed(fat, o.chains[Cluster(EntryIn(t, p))]))
    && (forall h :: h in o.secs && h != Cluster(EntryIn(t, p)) && h != p.0 ==> h in o'.secs && o'.secs[h] == o.secs[h])
  }

  lemma CoherentIsFile(t: Tree, f: OpenFile, e: Raw)
    ensures Coherent(t, f) && EntryAt(t, PlaceOf(f), e) ==> !IsDir(e)
  {
  }

  lemma RemovedHandles(t: Tree, t': Tree, p: Place, e: Raw)
    requires Removed(t, t', p, e)
    requires IsDir(e) ==> p.0 != Cluster(e) && Empty(t, Cluster(e))
    ensures forall f :: Coherent(t', f) <==> Coherent(t, f) && PlaceOf(f) != p
  {
    forall f ensures Coherent(t', f) <==> Coherent(t, f) && PlaceOf(f) != p {
      RemovedCoherent(t, t', p, e, f);
    }
  }

  lemma ErasedBy(o: Objs, o1: Objs, o': Objs, t: Tree, t': Tree, fat: FatTable, fat': FatTable, p: Place, e: Raw)
    requires Removed(t, t', p, e)
    requires o1 == if Cluster(e) == 0 then o else Without(o, Cluster(e))
    requires OnlyDir(o1, o', p.0) && o'.chains == o1.chains
    requires if Cluster(e) == 0 then fat' == fat
             else Cluster(e) in o.chains && fat' == Zeroed(fat, o.chains[Cluster(e)])
    ensures Erased(o, t, fat, o', t', fat', p)
  {
  }

  lemma RemovedCoherent(t: Tree, t': Tree, p: Place, e: Raw, f: OpenFile)
    requires Removed(t, t', p, e)
    requires IsDir(e) ==> p.0 != Cluster(e) && Empty(t, Cluster(e))
    ensures Coherent(t', f) <==> Coherent(t, f) && PlaceOf(f) != p
    ensures IsDir(e) && Coherent(t, f) ==> PlaceOf(f) != p
  {
    if Coherent(t, f) {
      var x :| EntryAt(t, PlaceOf(f), x) && Agrees(f, x);
      RemovedKeeps(t, t', p, e, PlaceOf(f), x);
    }
    if Coherent(t', f) {
      var x :| EntryAt(t', PlaceOf(f), x) && Agrees(f, x);
      RemovedKeeps(t, t', p, e, PlaceOf(f), x);
    }
  }

  /** No directory can be made in directory `d`: no cluster is free for it, or no entry can be added
      once that cluster is taken. */
  ghost predicate NoRoomForDir(t: Tree, fat: FatTable, d: nat) {
    FirstFree(fat, -1) || exists c: nat :: c < 4080 && FirstFree(fat, c) && DirFull(t, Set(fat, c, 0xFFF), d)
  }

  /** A directory was made: a free cluster holds "." and ".." and nothing else, and the entry that
      names it is in the first reusable slot of its parent. */
  ghost predicate MadeDir(o: Objs, t: Tree, fat: FatTable, o': Objs, t': Tree, path: CString) {
    exists d: nat, i: nat, c: nat, t1 :: MadeDirAt(o, t, fat, o', t', path, d, i, c, t1)
  }

  ghost predicate MadeDirAt(o: Objs, t: Tree, fat: FatTable, o': Objs, t': Tree, path: CString,
                            d: nat, i: nat, c: nat, t1: Tree)
  {
    && Keys(path) != [] && ParentOf(t, path) == Some(d)
    && 2 <= c < 4080 && fat[c] == 0 && c !in o.secs
    && Inserted(t, t1, d, i, NewEntry(LastKey(path), DIR, c, 0))
    && c in t'.dirs && FreshDir(t'.dirs[c], c, d)
    && t' == WithDir(t1, c, t'.dirs[c])
    && o'.lost == o.lost
    && (forall h :: h in o.secs && h != d ==> h in o'.secs && o'.secs[h] == o.secs[h])
    && (forall h :: h in o.chains && h != d ==> h in o'.chains && o'.chains[h] == o.chains[h])
  }

  /** The drive-level work of `fat12_makedir`: from `o` a new object `c` (`o1`), laid out as an empty
      directory (`o2`), and named by entry `e` in slot `i` of directory `d` (`o3`). */
  ghost predicate DirPlaced(g: Geometry, o: Objs, o1: Objs, o2: Objs, o3: Objs, d: nat, key: Key, i: nat, e: Raw,
                            c: nat)
  {
    && e == NewEntry(key, DIR, c, 0)
    && NewObject(o, o1, c) && OnlyDir(o1, o2, c) && OnlyDir(o2, o3, d)
    && c in o2.secs && FreshDir(DirSlots(g, c, o2.secs[c]), c, d)
    && d in o2.secs && d in o3.secs && FirstReusable(DirSlots(g, d, o2.secs[d]), i)
    && InsertedAt(DirSlots(g, d, o2.secs[d]), DirSlots(g, d, o3.secs[d]), i, e)
  }

  /** The state at the end of a successful `fat12_makedir`. */
  lemma MakeDirDone(g: Geometry, o0: Objs, o1: Objs, o2: Objs, o: Objs, ds: set<nat>, home: Homes, fat: FatTable,
                    path: CString, d: nat, i: nat, e: Raw, c: nat)
    requires c < 4096 && Keys(path) != [] && DirPlaced(g, o0, o1, o2, o, d, LastKey(path), i, e, c) && d in ds
    requires d < 4080
    requires forall x :: x in ds ==> x in o0.secs
    requires WellFormed(TreeOf(g, o0, ds), home, {})
    requires fat[c] == 0 && ParentOf(TreeOf(g, o0, ds), path) == Some(d)
    requires PathKey(LastKey(path)) && NameFree(TreeOf(g, o0, ds), d, LastKey(path))
    ensures forall x :: x in ds + {c} ==> x in o.secs
    ensures WellFormed(TreeOf(g, o, ds + {c}), home[c := (d, i)], {})
    ensures MadeDir(o0, TreeOf(g, o0, ds), fat, o, TreeOf(g, o, ds + {c}), path)
    ensures forall f :: Coherent(TreeOf(g, o0, ds), f) ==> Coherent(TreeOf(g, o, ds + {c}), f)
  {
    hide WellFormed, Coherent, FirstReusable, InsertedAt, FreshDir, NewEntry, NameFree, Keys, Walk, DirSlots, TreeOf,
      Cluster;
    var t0 := TreeOf(g, o0, ds);
    var t1 := WithDir(t0, d, DirSlots(g, d, o.secs[d]));
    NewObjectTree(g, o0, o1, ds, c);
    TreeDirs(g, o0, ds, d);
    MakeDirTree(g, o0, o1, o2, o, ds, d, c);
    NewEntryStart(LastKey(path), DIR, c, 0);
    assert Cluster(e) == c;
    MakeDirWF(t0, t1, home, d, i, e, c, DirSlots(g, c, o2.secs[c]));
    MadeDirHere(o0, t0, fat, o, TreeOf(g, o, ds + {c}), path, d, i, c, t1);
  }

  /** A handle after a rename from `oldpath` to `newpath`. */
  function Repathed(f: OpenFile, oldpath: CString, newpath: CString): OpenFile {
    if f.used && f.path == oldpath then f.(path := PathBuffer(newpath)) else f
  }

  /** The entry that `oldpath` names was moved to the place and the name that `newpath` says; its
      object, and all other objects, keep their clusters and bytes. */
  ghost predicate Moved(o: Objs, t: Tree, o': Objs, t': Tree, ds: set<nat>, oldpath: CString, newpath: CString) {
    exists p: Place, e, d: nat, i: nat, t1 :: MovedAt(o, t, o', t', ds, oldpath, newpath, p, e, d, i, t1)
  }

  ghost predicate MovedAt(o: Objs, t: Tree, o': Objs, t': Tree, ds: set<nat>, oldpath: CString, newpath: CString,
                          p: Place, e: Raw, d: nat, i: nat, t1: Tree)
  {
    && Keys(newpath) != []
    && Resolve(t, Keys(oldpath)) == Some(p)
    && ParentOf(t, newpath) == Some(d)
    && NameFree(t, d, LastKey(newpath))
    && Renamed(t, t1, t', p, e, d, i, LastKey(newpath))
    && DirsOnly(o, o', ds)
  }

  /** A rename keeps the handles on all other entries, and breaks those on the renamed one. */
  lemma MovedHandles(t: Tree, t1: Tree, t': Tree, home: Homes, p: Place, e: Raw, d: nat, i: nat, key: Key, f: OpenFile)
    requires WellFormed(t, home, {}) && Renamed(t, t1, t', p, e, d, i, key) && key[0] != DOT
    requires PlaceOf(f) != (d, i)
    ensures Coherent(t', f) <==> Coherent(t, f) && PlaceOf(f) != p
  {
    hide WellFormed, Renamed, EntryAt;
    if Coherent(t, f) {
      var x :| EntryAt(t, PlaceOf(f), x) && Agrees(f, x);
      RenamedEntries(t, t1, t', home, p, e, d, i, key, PlaceOf(f), x);
    }
    if Coherent(t', f) {
      var x :| EntryAt(t', PlaceOf(f), x) && Agrees(f, x);
      RenamedEntries(t, t1, t', home, p, e, d, i, key, PlaceOf(f), x);
    }
  }

  lemma MovedHere(o: Objs, t: Tree, o': Objs, t': Tree, ds: set<nat>, oldpath: CString, newpath: CString,
                  p: Place, e: Raw, d: nat, i: nat, t1: Tree)
    requires MovedAt(o, t, o', t', ds, oldpath, newpath, p, e, d, i, t1)
    ensures Moved(o, t, o', t', ds, oldpath, newpath)
  {
  }

  lemma MovedHandlesAll(t: Tree, t1: Tree, t': Tree, home: Homes, p: Place, e: Raw, d: nat, i: nat, key: Key,
                        oldpath: CString, newpath: CString)
    requires WellFormed(t, home, {}) && Renamed(t, t1, t', p, e, d, i, key) && PathKey(key)
    ensures forall f :: Coherent(t, f) ==> (Coherent(t', Repathed(f, oldpath, newpath)) <==> PlaceOf(f) != p)
  {
    forall f | Coherent(t, f)
      ensures Coherent(t', Repathed(f, oldpath, newpath)) <==> PlaceOf(f) != p
    {
      assert PlaceOf(f) != (d, i);
      hide WellFormed, Renamed, EntryAt;
      MovedHandles(t, t1, t', home, p, e, d, i, key, f);
      RepathedCoherent(t', f, oldpath, newpath);
    }
  }

  lemma RepathedCoherent(t: Tree, f: OpenFile, oldpath: CString, newpath: CString)
    ensures Coherent(t, Repathed(f, oldpath, newpath)) <==> Coherent(t, f)
  {
    SamePlace(t, f, Repathed(f, oldpath, newpath));
  }

  lemma SamePlace(t: Tree, f: OpenFile, f': OpenFile)
    requires f' == f.(path := f'.path)
    ensures Coherent(t, f) <==> Coherent(t, f')
  {
    forall e
      ensures EntryAt(t, (f.parent, f.idx), e) && Agrees(f, e) <==> EntryAt(t, (f'.parent, f'.idx), e) && Agrees(f', e)
    {
    }
  }

  /** `contents_t`, with the name by value: the C string that the caller finds in the buffer. */
  datatype Item = Item(directory: bool, name: CString)

  /** The ordinary entries from slot `i` on, in slot order. */
  ghost function ListFrom(s: seq<Raw>, i: nat): seq<Item>
    decreases |s| - i
  {
    if i >= |s| then []
    else ItemsAt(s, i) + ListFrom(s, i + 1)
  }

  ghost function Listing(s: seq<Raw>): seq<Item> { ListFrom(s, 0) }

  /** A directory lists as empty exactly when it has no ordinary entry. */
  lemma ListingEmpty(s: seq<Raw>)
    ensures Listing(s) == [] <==> forall j: nat :: !Ordinary(s, j)
  {
    ListFromEmpty(s, 0);
  }

  lemma {:induction false} ListFromEmpty(s: seq<Raw>, i: nat)
    ensures ListFrom(s, i) == [] <==> forall j: nat :: i <= j ==> !Ordinary(s, j)
    decreases |s| - i
  {
    hide IsDot, Shown, KeyOf;
    if i < |s| {
      ListFromEmpty(s, i + 1);
      assert ListFrom(s, i) == ItemsAt(s, i) + ListFrom(s, i + 1);
      assert ItemsAt(s, i) == [] <==> !Ordinary(s, i);
    }
  }

  lemma {:induction false} ListEnds(s: seq<Raw>, i: nat)
    requires i >= |s| || s[i][0] == 0
    ensures ListFrom(s, i) == []
  {
    if i < |s| {
      QuietTail(s, i, i);
    }
  }

  lemma {:induction false} QuietTail(s: seq<Raw>, i: nat, j: nat)
    requires i < |s| && s[i][0] == 0 && i <= j
    ensures ListFrom(s, j) == []
    decreases |s| - j
  {
    if j < |s| {
      QuietTail(s, i, j + 1);
    }
  }

  /** What slot `i` adds to the listing. */
  ghost function ItemsAt(s: seq<Raw>, i: nat): seq<Item>
    requires i < |s|
  {
    if Ordinary(s, i) then [Item(IsDir(s[i]), Shown(KeyOf(s[i])))] else []
  }

  /** One round of the listing loop. */
  lemma ListStep(s: seq<Raw>, i: nat, items: seq<Item>)
    requires i < |s| && NoEnd(s, i) && s[i][0] != 0
    ensures NoEnd(s, i + 1)
    ensures Ordinary(s, i) <==> !(s[i][0] == FREE || Attr(s[i]) == LFN || IsDot(s[i]))
    ensures items + ListFrom(s, i) == items + ItemsAt(s, i) + ListFrom(s, i + 1)
  {
    hide IsDot, Attr, Shown, KeyOf, IsDir, ItemsAt;
    assert NoEnd(s, i + 1);
    assert ListFrom(s, i) == ItemsAt(s, i) + ListFrom(s, i + 1);
  }

  /** What a path lists. */
  ghost function ListedAt(t: Tree, path: CString): seq<Item> {
    if path == [] || path == [0x2F] || path == [0x2F, 0x2E] then (if 0 in t.dirs then Listing(t.dirs[0]) else [])
    else match Resolve(t, Keys(path))
      case None => []
      case Some(p) =>
        if !IsDir(EntryIn(t, p)) then [Item(false, Shown(KeyOf(EntryIn(t, p))))]
        else if Cluster(EntryIn(t, p)) in t.dirs then Listing(t.dirs[Cluster(EntryIn(t, p))]) else []
  }

  lemma NoRoomFact(g: Geometry, o: Objs, ds: set<nat>, fat: FatTable, d: nat, c: nat)
    requires c < 4080 && FirstFree(fat, c) && !FirstFree(fat, -1) && d in ds && d in o.secs
    ensures NoRoomForDir(TreeOf(g, o, ds), fat, d) <==>
              FirstReusable(DirSlots(g, d, o.secs[d]), |DirSlots(g, d, o.secs[d])|)
              && (d == 0 || FirstFree(Set(fat, c, 0xFFF), -1))
  {
    hide FirstReusable, TreeOf, DirSlots, FirstFree;
    TreeDirs(g, o, ds, d);
    forall b: nat | b < 4080 && FirstFree(fat, b) ensures b == c {
      FirstFreeUnique(fat, b, c);
    }
    assert NoRoomForDir(TreeOf(g, o, ds), fat, d) <==> DirFull(TreeOf(g, o, ds), Set(fat, c, 0xFFF), d);
  }

  lemma MadeDirHere(o: Objs, t: Tree, fat: FatTable, o': Objs, t': Tree, path: CString,
                    d: nat, i: nat, c: nat, t1: Tree)
    requires MadeDirAt(o, t, fat, o', t', path, d, i, c, t1)
    requires c !in t.dirs
    ensures MadeDir(o, t, fat, o', t', path)
    ensures forall f :: Coherent(t, f) ==> Coherent(t', f)
  {
    InsertedKeepsAll(t, t1, d, i, NewEntry(LastKey(path), DIR, c, 0));
    KeepsNewDir(t, t1, c, t'.dirs[c]);
    forall f ensures Coherent(t, f) ==> Coherent(t', f) {
      KeepsCoherent(t, t', f);
    }
  }

  lemma SpliceNothing(s: seq<byte>, at: nat)
    requires at <= |s|
    ensures forall buf: seq<byte> :: Splice(s, at, buf[..0]) == s
  {
  }

  lemma SpliceMore(s: seq<byte>, at: nat, buf: seq<byte>, done: nat, n: nat)
    requires at <= |s| && done + n <= |buf|
    ensures at + done <= |Splice(s, at, buf[..done])|
    ensures Splice(Splice(s, at, buf[..done]), at + done, buf[done..][..n]) == Splice(s, at, buf[..done + n])
  {
    assert buf[..done] + buf[done..][..n] == buf[..done + n];
  }

  lemma SliceMore(s: seq<byte>, at: nat, n: nat, m: nat)
    requires at + n + m <= |s|
    ensures s[at..at + n] + s[at + n..at + n + m] == s[at..at + n + m]
  {
  }

  lemma SameFileBytes(o: Objs, o': Objs, h: nat, n: nat)
    requires h in o.secs && h in o'.secs && o'.secs[h] == o.secs[h]
    ensures FileBytes(o', h, n) == FileBytes(o, h, n)
  {
  }

  lemma FileStepTwice(o: Objs, t: Tree, f: OpenFile, o1: Objs, t1: Tree, f1: OpenFile,
                      o2: Objs, t2: Tree, f2: OpenFile, ds: set<nat>)
    requires FileStep(o, t, f, o1, t1, f1, ds) && FileStep(o1, t1, f1, o2, t2, f2, ds) && f1.first == f2.first
    ensures FileStep(o, t, f, o2, t2, f2, ds)
  {
    FilesSameTwice(o, o1, o2, ds, f2.first);
    SlotOnlyTwice(t, t1, t2, f.parent, f.idx);
  }

  /** The bytes of the file behind a handle. */
  ghost function HandleBytes(o: Objs, f: OpenFile): (s: seq<byte>) {
    FileBytes(o, f.first, f.size)
  }

  function MaxNat(a: nat, b: nat): nat { if a < b then b else a }

  function MinInt(a: int, b: int): int { if a < b then a else b }

  /** No entry can be added to directory `d`: all slots are used, and it cannot be extended. */
  ghost predicate DirFull(t: Tree, fat: FatTable, d: nat) {
    d in t.dirs && FirstReusable(t.dirs[d], |t.dirs[d]|) && (d == 0 || FirstFree(fat, -1))
  }

  /** The path names a file, or nothing in a directory that has room. */
  ghost predicate CanOpen(t: Tree, fat: FatTable, path: CString) {
    match Resolve(t, Keys(path))
    case Some(p) => exists e :: EntryAt(t, p, e) && !IsDir(e)
    case None => ParentOf(t, path).Some? && !DirFull(t, fat, ParentOf(t, path).value)
  }

  /** The path names nothing, and nothing can be created there. */
  ghost predicate NoParent(t: Tree, path: CString) {
    Resolve(t, Keys(path)).None? && ParentOf(t, path).None?
  }

  predicate HasUnused(files: seq<OpenFile>) {
    exists i :: 0 <= i < |files| && !files[i].used
  }

  predicate FirstUnused(files: seq<OpenFile>, k: nat) {
    k < |files| && !files[k].used && forall j :: 0 <= j < k ==> files[j].used
  }

  /** All ordinary entries are still there, byte for byte. */
  ghost predicate Keeps(t: Tree, t': Tree) {
    forall p: Place, e :: EntryAt(t, p, e) ==> EntryAt(t', p, e)
  }

  lemma KeepsSame(t: Tree)
    ensures Keeps(t, t)
  {
  }

  lemma InsertedKeepsAll(t: Tree, t': Tree, d: nat, i: nat, e: Raw)
    requires Inserted(t, t', d, i, e)
    ensures Keeps(t, t')
  {
  }

  lemma KeepsNewDir(t: Tree, t1: Tree, c: nat, s: seq<Raw>)
    requires Keeps(t, t1) && c !in t.dirs
    ensures Keeps(t, WithDir(t1, c, s))
  {
    forall p: Place, e | EntryAt(t, p, e)
      ensures EntryAt(WithDir(t1, c, s), p, e)
    {
      assert EntryAt(t1, p, e) && p.0 != c;
    }
  }

  lemma KeepsCoherent(t: Tree, t': Tree, f: OpenFile)
    requires Keeps(t, t')
    ensures Coherent(t, f) ==> Coherent(t', f)
  {
  }

  /** Handle `f` was opened at `path`: it points to the entry that the path names, or that was
      created for it as an empty file, and carries its cluster and size. */
  ghost predicate OpenedAs(t: Tree, t': Tree, path: CString, f: OpenFile) {
    && (exists e :: EntryAt(t', (f.parent, f.idx), e) && !IsDir(e) && f == Opened(path, e, f.parent, f.idx))
    && match Resolve(t, Keys(path))
       case Some(p) => t' == t && p == (f.parent, f.idx)
       case None =>
         && ParentOf(t, path) == Some(f.parent) && Keys(path) != []
         && Inserted(t, t', f.parent, f.idx, NewEntry(LastKey(path), 0, 0, 0))
  }

  /** The last component does not start with the tombstone byte. */
  predicate NameOk(path: CString) {
    Keys(path) != [] ==> LastKey(path)[0] != FREE
  }

  /** The drive holds the objects `o`, and these form a well-formed tree with the directories `ds`. */
  ghost predicate Mountable(g: Geometry, disk: seq<Sector>, o: Objs, ds: set<nat>, home: Homes) {
    && g.Fits(disk) && Mirrored(g, disk) && Rep(g, Fat(g, disk), disk[g.RootStart()..], o)
    && (forall d :: d in ds ==> d in o.secs) && WellFormed(TreeOf(g, o, ds), home, {})
  }

  /** A drive whose sectors behind the reserved ones are all zero holds an empty volume. */
  lemma BlankDrive(g: Geometry, disk: seq<Sector>)
    requires g.Fits(disk) && g.last == 4079
    requires forall i :: g.reserved <= i < |disk| ==> disk[i] == ZeroSector()
    ensures Mountable(g, disk, Objs(map[], map[0 := Zeros(g.RootSectors())], {}), {0}, map[])
  {
    hide WellFormed, Rep, Mirrored, TreeOf, Fat;
    var o := Objs(map[], map[0 := Zeros(g.RootSectors())], {});
    BlankFat(g, disk);
    BlankRep(g, Fat(g, disk), disk[g.RootStart()..], o);
    BlankTree(g, o);
  }

  lemma BlankRep(g: Geometry, fat: FatTable, area: seq<Sector>, o: Objs)
    requires g.Ok() && g.last == 4079 && |area| >= g.RootSectors() + Times(g.last - 1, g.spc)
    requires (forall c :: 0 <= c < 4096 ==> fat[c] == 0) && forall i :: 0 <= i < |area| ==> area[i] == ZeroSector()
    requires o == Objs(map[], map[0 := Zeros(g.RootSectors())], {})
    ensures Rep(g, fat, area, o)
  {
    hide Times, ZeroSector, Geometry.RootSectors;
  }

  lemma BlankFat(g: Geometry, disk: seq<Sector>)
    requires g.Fits(disk) && forall i :: g.reserved <= i < |disk| ==> disk[i] == ZeroSector()
    ensures Mirrored(g, disk) && forall c :: 0 <= c < 4096 ==> Fat(g, disk)[c] == 0
  {
    forall f, k | 0 <= f < g.numFats && 0 <= k < g.spf ensures SameCopy(g, disk, f, k) {
      FatSectorInside(g, f, k);
      FatSectorInside(g, 0, k);
    }
    forall b | 0 <= b < 6144 ensures FatByte(g, disk, b) == 0 {
      FatSectorInside(g, 0, b / 512);
    }
  }

  lemma BlankTree(g: Geometry, o: Objs)
    requires o == Objs(map[], map[0 := Zeros(g.RootSectors())], {})
    ensures WellFormed(TreeOf(g, o, {0}), map[], {})
  {
    var s := DirSlots(g, 0, o.secs[0]);
    forall i | 0 <= i < |s| ensures s[i][0] == 0 {
      assert o.secs[0][i / 16] == ZeroSector();
    }
    var t := TreeOf(g, o, {0});
    assert t.dirs == map[0 := s];
    assert Ents(t).Keys == iset{};
  }

  class Volume {
    const g: Geometry
    var disk: seq<Sector>
    var files: seq<OpenFile>
    ghost var o: Objs
    ghost var ds: set<nat>
    ghost var home: Homes

    /** The driver after `detect_fat12` has read the boot sector; no file is open. */
    constructor (drive: seq<Sector>, last: nat, ghost objects: Objs, ghost dirs: set<nat>, ghost homes: Homes)
      requires |drive| > 0 && Mountable(GeometryOf(drive[0], last), drive, objects, dirs, homes)
      ensures g == GeometryOf(drive[0], last) && disk == drive
      ensures forall f: BootFields :: FieldsOk(f) && drive[0] == BootBytes(f) ==>
                && g.spc == f.sectorsPerCluster && g.reserved == f.reservedSectors && g.numFats == f.numFats
                && g.rootEntries == f.rootDirEntries && g.spf == f.sectorsPerFat && g.last == last
      ensures |files| == 256
      ensures o == objects && ds == dirs && home == homes
      ensures Valid() && forall i :: 0 <= i < |files| ==> !files[i].used
    {
      g := GeometryOf(drive[0], last);
      disk, o, ds, home := drive, objects, dirs, homes;
      files := seq(MAX_OPEN_FILES, _ => OpenFile(false, [], 0, 0, 0, 0, 0, 0));
      forall f: BootFields | FieldsOk(f) && drive[0] == BootBytes(f)
        ensures GeometryOf(drive[0], last) ==
                Geometry(f.sectorsPerCluster, f.reservedSectors, f.numFats, f.rootDirEntries, f.sectorsPerFat, last)
      {
        BootFieldsRead(f, last);
      }
    }

    /** The root directory and the data clusters. */
    ghost function Area(): seq<Sector>
      reads this`disk
      requires g.Fits(disk)
    {
      disk[g.RootStart()..]
    }

    ghost function Table(): FatTable
      reads this`disk
      requires g.Fits(disk)
    {
      Fat(g, disk)
    }

    // ---------- the file allocation table ----------

    /** `read_fat12_fat_bytes` for the two bytes of a cell. */
    method ReadFatBytes(at: nat) returns (lo: byte, hi: byte)
      requires g.Fits(disk) && at + 1 < 6144
      ensures lo == Bytes(g, disk)[at] && hi == Bytes(g, disk)[at + 1]
    {
      FatSectorInside(g, 0, at / 512);
      FatSectorInside(g, 0, (at + 1) / 512);
      lo := disk[g.reserved + at / 512][at % 512];
      hi := disk[g.reserved + (at + 1) / 512][(at + 1) % 512];
    }

    /** One round of `write_fat12_fat_bytes`: a byte is patched in the first copy of the FAT, and the
        whole sector is then written to every other copy. */
    method WriteFatByte(at: nat, b: byte)
      requires g.Fits(disk) && at < 6144
      modifies this`disk
      ensures |disk| == |old(disk)| && Area() == old(Area())
      ensures Bytes(g, disk) == old(Bytes(g, disk))[at := b]
      ensures forall f, k :: 0 <= f < g.numFats && 0 <= k < g.spf ==>
                (SameCopy(g, disk, f, k) <==> k == at / 512 || old(SameCopy(g, disk, f, k)))
    {
      var k := at / 512;
      FatSectorInside(g, 0, k);
      var sector := Patch(disk[g.reserved + k], at % 512, [b]);
      disk := disk[g.reserved + k := sector];
      assert StoreFatSector(g, old(disk), k, sector, 0) == old(disk);
      assert disk == StoreFatSector(g, old(disk), k, sector, 1);
      for f := 1 to g.numFats
        invariant disk == StoreFatSector(g, old(disk), k, sector, f)
      {
        FatSectorInside(g, f, k);
        TimesIsProduct(f, g.spf);
        disk := disk[g.reserved + k + f * g.spf := sector];
      }
      StoreFatSectorBytes(g, old(disk), at, b);
      StoreFatSectorArea(g, old(disk), k, sector, g.numFats);
      forall f, j | 0 <= f < g.numFats && 0 <= j < g.spf
        ensures SameCopy(g, disk, f, j) <==> j == k || old(SameCopy(g, disk, f, j))
      {
        StoreFatSectorMirror(g, old(disk), k, sector, f, j);
      }
    }

    /** `fat12_read_fat_entry`. */
    method ReadFatEntry(c: nat) returns (v: Cell12)
      requires g.Fits(disk) && c < 4096
      ensures v == Table()[c]
    {
      var lo, hi := ReadFatBytes(c * 3 / 2);
      v := Unpack(c, Word16(lo, hi));
    }

    /** `fat12_write_fat_entry`. */
    method WriteFatEntry(c: nat, v: nat)
      requires g.Fits(disk) && c < 4096
      modifies this`disk
      ensures |disk| == |old(disk)| && Area() == old(Area())
      ensures Table() == Set(old(Table()), c, v % 4096)
      ensures old(Mirrored(g, disk)) ==> Mirrored(g, disk)
    {
      var at := c * 3 / 2;
      var lo, hi := ReadFatBytes(at);
      var w := Pack(c, Word16(lo, hi), v);
      CellStore(Bytes(g, disk), c, v);
      WriteFatByte(at, w % 256);
      WriteFatByte(at + 1, w / 256);
    }

    /** `fat12_allocate_cluster`: the first free cluster, linked behind `current` unless that is 0. */
    method AllocateCluster(current: nat) returns (r: int)
      requires g.Fits(disk) && current < 4096
      modifies this`disk
      ensures |disk| == |old(disk)| && Area() == old(Area())
      ensures old(Mirrored(g, disk)) ==> Mirrored(g, disk)
      ensures FirstFree(old(Table()), r)
      ensures r >= 0 ==> 2 <= r < 4080 && old(Table())[r] == 0 && !FirstFree(old(Table()), -1)
      ensures r == -1 <==> forall b :: 2 <= b < 4080 ==> old(Table())[b] != 0
      ensures forall b :: 2 <= b < r ==> old(Table())[b] != 0
      ensures Table() == Taken(old(Table()), r, current)
      ensures r >= 0 ==> Table() == if current < 2 then old(Table())[r := 0xFFF]
                                    else old(Table())[r := 0xFFF][current := r]
      ensures r < 0 ==> disk == old(disk) && FirstFree(Table(), -1)
    {
      hide Fat, Mirrored;
      r := FindFree();
      if r >= 0 {
        WriteFatEntry(r, 0x0FFF);
        if current >= 2 {
          WriteFatEntry(current, r);
        }
      }
    }

    /** The scan of `fat12_allocate_cluster`. */
    method FindFree() returns (r: int)
      requires g.Fits(disk)
      ensures FirstFree(Table(), r)
    {
      for c := 2 to 4080
        invariant forall b :: 2 <= b < c ==> Table()[b] != 0
      {
        var v := ReadFatEntry(c);
        if v == 0 {
          return c;
        }
      }
      return -1;
    }

    /** `fat12_free_cluster_chain`: ends on every table, also on a damaged one. */
    method FreeClusterChain(start: nat)
      requires g.Fits(disk)
      modifies this`disk
      ensures |disk| == |old(disk)| && Area() == old(Area())
      ensures old(Mirrored(g, disk)) ==> Mirrored(g, disk)
      ensures Table() == FreeFrom(old(Table()), start)
    {
      var c: nat := start;
      while IsLink(c)
        invariant |disk| == |old(disk)| && Area() == old(Area())
        invariant old(Mirrored(g, disk)) ==> Mirrored(g, disk)
        invariant FreeFrom(Table(), c) == FreeFrom(old(Table()), start)
        decreases |NonZero(Table())|, if IsLink(c) then 1 else 0
      {
        ClearShrinks(Table(), c);
        var next := ReadFatEntry(c);
        WriteFatEntry(c, 0);
        c := next;
      }
    }

    // ---------- directory entries ----------

    /** The drive holds the objects `o`, and all FAT copies agree. */
    ghost predicate Sound()
      reads this`disk, this`o
    {
      g.Fits(disk) && Mirrored(g, disk) && Rep(g, Table(), Area(), o)
    }

    ghost function SlotsOf(d: nat): seq<Raw>
      reads this`o
      requires d in o.secs
    {
      DirSlots(g, d, o.secs[d])
    }

    /** Reads the 32 bytes of slot `i` from their sector. */
    method ReadSlot(sector: nat, offset: nat, ghost d: nat, ghost i: nat) returns (e: Raw)
      requires Sound() && d in o.secs && i < |SlotsOf(d)|
      requires i / 16 < |ListOf(g, o, d)| && sector == g.RootStart() + ListOf(g, o, d)[i / 16]
      requires offset == i % 16 * 32
      ensures e == SlotsOf(d)[i]
    {
      hide Fat, Mirrored, ChainsOk, Disjoint, Accounted, Stored, ListOf, DirSlots;
      SlotOnDrive(g, Area(), o, d, i);
      var buffer := disk[sector];
      e := buffer[offset..offset + 32];
    }

    /** `fat12_read_dir_entry`. */
    method ReadDirEntry(d: nat, i: nat) returns (found: bool, e: Raw)
      requires Sound() && d in o.secs
      ensures found <==> i < |SlotsOf(d)|
      ensures found ==> e == SlotsOf(d)[i]
    {
      hide Fat, Mirrored, ChainsOk, Disjoint, Accounted, Stored, ListOf, DirSlots, SlotCluster, SlotOffset;
      e := ZeroEntry();
      SlotCount(g, Area(), o, d);
      if d == 0 {
        if i >= g.rootEntries {
          return false, e;
        }
        SlotOnDrive(g, Area(), o, d, i);
        RootSector(g, Area(), o, i / 16);
        e := ReadSlot(g.RootStart() + i * 32 / 512, i * 32 % 512, d, i);
        return true, e;
      }
      var target := SlotCluster(g.spc, i);
      SlotAddress(g.spc, i);
      SlotBelow(g.spc, i, |o.chains[d]|);
      ChainHead(g, Table(), o, d);
      var c := d;
      for n := 0 to target
        invariant n < |o.chains[d]| && c == o.chains[d][n]
      {
        ChainStep(g, Table(), o, d, n);
        var next := ReadFatEntry(c);
        if !IsLink(next) {
          return false, e;
        }
        c := next;
      }
      var offset := SlotOffset(g.spc, i);
      ObjectSector(g, Area(), o, d, target, offset / 512);
      e := ReadSlot(g.RootStart() + g.DataSector(c, offset / 512), offset % 512, d, i);
      found := true;
    }

    /** Writes one sector of object `h`. */
    method WriteObjectSector(sector: nat, buffer: Sector, ghost h: nat, ghost q: nat)
      requires Sound() && h in o.secs && q < |o.secs[h]|
      requires q < |ListOf(g, o, h)| && sector == g.RootStart() + ListOf(g, o, h)[q]
      modifies this`disk, this`o
      ensures Sound() && o == WithSector(old(o), h, q, buffer)
      ensures Table() == old(Table())
    {
      hide Fat, Mirrored, ChainsOk, Disjoint, Accounted, Stored, ListOf, Clusters;
      ListDefined(g, Area(), o, h);
      WriteRep(g, Table(), Area(), o, h, q, buffer);
      AreaWrite(g, disk, ListOf(g, o, h)[q], buffer);
      disk := disk[sector := buffer];
      o := WithSector(o, h, q, buffer);
    }

    /** Patches the 32 bytes of slot `i` in their sector. */
    method WriteSlot(sector: nat, offset: nat, e: Raw, ghost d: nat, ghost i: nat)
      requires Sound() && d in o.secs && i < |SlotsOf(d)|
      requires i / 16 < |ListOf(g, o, d)| && sector == g.RootStart() + ListOf(g, o, d)[i / 16]
      requires offset == i % 16 * 32
      modifies this`disk, this`o
      ensures Sound() && Rewritten(old(o), o, d, i, e)
      ensures Table() == old(Table())
    {
      hide Fat, Mirrored, ChainsOk, Disjoint, Accounted, Stored, ListOf, DirSlots;
      SlotOnDrive(g, Area(), o, d, i);
      var buffer := disk[sector];
      WriteObjectSector(sector, Patch(buffer, offset, e), d, i / 16);
    }

    /** Zeroes cluster `c`, the last one of directory `d`. */
    method ZeroCluster(c: nat, ghost d: nat, ghost secs: seq<Sector>)
      requires Sound() && d in o.chains && d in o.secs
      requires |o.chains[d]| > 0 && c == o.chains[d][|o.chains[d]| - 1] && 2 <= c
      requires secs <= o.secs[d] && |secs| == Times(|o.chains[d]| - 1, g.spc) && |o.secs[d]| == |secs| + g.spc
      modifies this`disk, this`o
      ensures Sound() && Table() == old(Table())
      ensures o == old(o).(secs := old(o).secs[d := secs + Zeros(g.spc)])
    {
      hide Fat, Mirrored, ChainsOk, Disjoint, Accounted, Stored, ListOf;
      ghost var more := o.secs[d][|secs|..];
      ghost var n := |o.chains[d]| - 1;
      assert secs + Zeros(0) + more[0..] == o.secs[d];
      for s := 0 to g.spc
        invariant Sound() && Table() == old(Table())
        invariant o == old(o).(secs := old(o).secs[d := secs + Zeros(s) + more[s..]])
      {
        ObjectSector(g, Area(), o, d, n, s);
        WriteObjectSector(g.RootStart() + g.DataSector(c, s), ZeroSector(), d, Times(n, g.spc) + s);
        ZeroedTail(secs, more, s, g.spc);
      }
      ZeroedTail(secs, more, g.spc, g.spc);
    }

    /** Links a zeroed cluster behind the last cluster `prev` of directory `d`, if one is free. */
    method ExtendDirectory(prev: nat, ghost d: nat) returns (c: int)
      requires Sound() && d in o.chains
      requires |o.chains[d]| > 0 && prev == o.chains[d][|o.chains[d]| - 1] && 2 <= prev < 4096
      modifies this`disk, this`o
      ensures Sound()
      ensures c < 0 ==> disk == old(disk) && o == old(o) && FirstFree(Table(), -1)
      ensures c >= 0 ==> !FirstFree(old(Table()), -1)
      ensures c >= 0 ==> ZeroExtended(old(o), o, d, c, g.spc)
    {
      hide Fat, Mirrored, ChainsOk, Disjoint, Accounted, Stored, ListOf, DirSlots, FirstFree;
      c := AllocateCluster(prev);
      if c >= 0 {
        SecsLength(g, Area(), o, d);
        ExtendRep(g, old(Table()), Area(), o, d, c);
        o := WithMore(g, Area(), o, d, c);
        SecsLength(g, Area(), o, d);
        ZeroCluster(c, d, old(o).secs[d]);
      }
    }

    /** The walk of `fat12_write_dir_entry` to the cluster number `target` of a directory, which is
        extended by zeroed clusters (`m` sectors in all) where it is too short. */
    method WalkOrExtend(d: nat, target: nat) returns (c: int, ghost m: nat)
      requires Sound() && d in o.chains
      modifies this`disk, this`o
      ensures Sound() && Grown(old(o), o, d, m) && d in o.chains
      ensures c >= 0 ==> target < |o.chains[d]| && c == o.chains[d][target]
      ensures c < 0 ==> target >= |o.chains[d]| && FirstFree(Table(), -1)
      ensures if m == 0 then Table() == old(Table()) else !FirstFree(old(Table()), -1)
      ensures m == 0 && c < 0 ==> o == old(o)
      ensures target < |old(o).chains[d]| ==> m == 0
      ensures target == |old(o).chains[d]| ==> m == if c >= 0 then g.spc else 0
    {
      hide Fat, Mirrored, ChainsOk, Disjoint, Accounted, Stored, ListOf, Grown, FirstFree;
      SecsLength(g, Area(), o, d);
      NotGrown(o, d);
      ChainHead(g, Table(), o, d);
      m, c := 0, d;
      for n := 0 to target
        invariant Sound() && d in o.chains && n < |o.chains[d]| && c == o.chains[d][n]
        invariant Grown(old(o), o, d, m)
        invariant if m == 0 then o == old(o) && Table() == old(Table())
                  else |old(o).chains[d]| <= n && |o.chains[d]| == n + 1 && !FirstFree(old(Table()), -1)
        invariant m > 0 && n == |old(o).chains[d]| ==> m == g.spc
      {
        ChainStep(g, Table(), o, d, n);
        var next := ReadFatEntry(c);
        if IsLink(next) {
          c := next;
        } else {
          ghost var o1 := o;
          c := ExtendDirectory(c, d);
          if c < 0 {
            return;
          }
          GrownMore(old(o), o1, o, d, m, c, g.spc);
          m := m + g.spc;
        }
      }
    }

    /** `fat12_write_dir_entry` for the root directory. */
    method WriteRootEntry(i: nat, e: Raw) returns (ok: bool)
      requires Sound() && 0 in o.secs
      modifies this`disk, this`o
      ensures Sound() && Table() == old(Table())
      ensures ok <==> i < |old(SlotsOf(0))|
      ensures if ok then Rewritten(old(o), o, 0, i, e) else o == old(o)
    {
      hide Fat, Mirrored, ChainsOk, Disjoint, Accounted, Stored, ListOf, DirSlots;
      SlotCount(g, Area(), o, 0);
      ok := i < g.rootEntries;
      if ok {
        SlotOnDrive(g, Area(), o, 0, i);
        RootSector(g, Area(), o, i / 16);
        WriteSlot(g.RootStart() + i * 32 / 512, i * 32 % 512, e, 0, i);
      }
    }

    /** The end of `fat12_write_dir_entry`: slot `i` of directory `d` lies in cluster `c`. */
    method WriteClusterEntry(ghost d: nat, i: nat, e: Raw, c: nat)
      requires Sound() && d in o.chains && d in o.secs && i < |SlotsOf(d)|
      requires SlotCluster(g.spc, i) < |o.chains[d]| && c == o.chains[d][SlotCluster(g.spc, i)]
      modifies this`disk, this`o
      ensures Sound() && Table() == old(Table()) && Rewritten(old(o), o, d, i, e)
    {
      hide Fat, Mirrored, ChainsOk, Disjoint, Accounted, Stored, ListOf, DirSlots, SlotCluster, SlotOffset;
      SlotAddress(g.spc, i);
      var offset := SlotOffset(g.spc, i);
      ObjectSector(g, Area(), o, d, SlotCluster(g.spc, i), offset / 512);
      WriteSlot(g.RootStart() + g.DataSector(c, offset / 512), offset % 512, e, d, i);
    }

    /** `fat12_write_dir_entry`: writes slot `i` of directory `d`. A directory other than the root is
        first extended by zeroed clusters (`m` sectors) until it has that slot. */
    method WriteDirEntry(d: nat, i: nat, e: Raw) returns (ok: bool, ghost m: nat)
      requires Sound() && d in o.secs
      modifies this`disk, this`o
      ensures Sound() && OnlyDir(old(o), o, d) && d in o.secs
      ensures ok ==> i < |old(SlotsOf(d))| + 16 * m
      ensures SlotsOf(d) == if ok then (old(SlotsOf(d)) + ZeroSlots(16 * m))[i := e]
                            else old(SlotsOf(d)) + ZeroSlots(16 * m)
      ensures !ok ==> i >= |SlotsOf(d)| && (d == 0 || FirstFree(Table(), -1))
      ensures if m == 0 then Table() == old(Table()) && o.chains == old(o).chains else !FirstFree(old(Table()), -1)
      ensures m == 0 && !ok ==> o == old(o)
      ensures i < |old(SlotsOf(d))| || d == 0 ==> m == 0
      ensures i == |old(SlotsOf(d))| && d != 0 ==> m == if ok then g.spc else 0
    {
      hide Fat, Mirrored, ChainsOk, Disjoint, Accounted, Stored, ListOf, DirSlots, Grown, OnlyDir, Rewritten,
        SlotCluster, SlotOffset;
      SlotCount(g, Area(), o, d);
      if d == 0 {
        m := 0;
        NotGrown(o, d);
        GrownSlots(g, o, o, d, 0);
        ok := WriteRootEntry(i, e);
        if ok {
          RewrittenSlots(g, old(o), o, d, i, e);
        }
        return;
      }
      var target := SlotCluster(g.spc, i);
      SlotBelow(g.spc, i, |o.chains[d]|);
      SlotAtEnd(g.spc, i, |o.chains[d]|);
      var c;
      c, m := WalkOrExtend(d, target);
      ghost var mid := o;
      GrownSlots(g, old(o), o, d, m);
      SlotCount(g, Area(), o, d);
      SlotBelow(g.spc, i, |o.chains[d]|);
      ok := c >= 0;
      if ok {
        WriteClusterEntry(d, i, e, c);
        RewrittenSlots(g, mid, o, d, i, e);
        OnlyDirTwice(old(o), mid, o, d);
      }
    }

    // ---------- looking paths up ----------

    ghost function T(): Tree
      reads this`o, this`ds
    {
      TreeOf(g, o, ds)
    }

    /** The drive holds a well-formed tree. */
    ghost predicate VolumeOk()
      reads this`disk, this`o, this`ds, this`home
    {
      Sound() && (forall d :: d in ds ==> d in o.secs) && WellFormed(T(), home, {})
    }

    /** The scan that `fat12_find_entry` and `fat12_resolve_parent` share. */
    method ScanDirectory(d: nat, key: Key) returns (found: bool, idx: nat, e: Raw)
      requires Sound() && d in o.secs
      ensures found <==> Scan(SlotsOf(d), key) >= 0
      ensures found ==> idx == Scan(SlotsOf(d), key) && Hit(SlotsOf(d), idx, key) && e == SlotsOf(d)[idx]
    {
      hide Sound;
      idx, e := 0, ZeroEntry();
      ScanFails(SlotsOf(d), key);
      while true
        invariant idx <= |SlotsOf(d)| && NoEnd(SlotsOf(d), idx)
        invariant forall j: nat :: j < idx ==> !Hit(SlotsOf(d), j, key)
        decreases |SlotsOf(d)| - idx
      {
        found, e := ReadDirEntry(d, idx);
        if !found {
          return;
        }
        if e[0] == 0 {
          return false, idx, e;
        }
        if e[0] == FREE {
          idx := idx + 1;
          continue;
        }
        if Attr(e) == LFN {
          idx := idx + 1;
          continue;
        }
        if KeyOf(e) == key {
          ScanIs(SlotsOf(d), key, idx);
          return true, idx, e;
        }
        idx := idx + 1;
      }
    }

    /** `fat12_find_entry`. */
    method FindEntry(path: CString) returns (found: bool, e: Raw, idx: nat, dir: nat)
      requires VolumeOk()
      ensures found <==> Resolve(T(), Keys(path)).Some?
      ensures found ==> Resolve(T(), Keys(path)) == Some((dir, idx)) && e == T().dirs[dir][idx]
    {
      hide Sound, WellFormed, TreeOf, DirSlots, Hit, Components, IsDir, Cluster, Scan, Walk, Found, Enter, Resolve;
      e, idx, dir := ZeroEntry(), 0, 0;
      var ok, component, offset := NextComponent(path, 0);
      assert path[0..] == path;
      if !ok {
        ResolveNothing(T());
        return false, e, idx, dir;
      }
      ghost var ks, n := Keys(path), 0;
      WalkNothing(T(), ks);
      while true
        invariant offset <= |path| && n < |ks|
        invariant component == Components(path)[n] && Components(path[offset..]) == Components(path)[n + 1..]
        invariant Walk(T(), ks[..n]) == Some(dir)
        decreases |ks| - n
      {
        ComponentsOk(path, n);
        WalkOkAt(path, n);
        var key := ToFat12Name(component);
        ok, idx, e := ScanDirectory(dir, key);
        ScanTells(T(), dir, ks[n]);
        WalkStops(T(), ks, n);
        WalkStep(T(), ks, n);
        if !ok {
          return false, e, idx, dir;
        }
        var more, nextComponent, nextOffset := NextComponent(path, offset);
        if !more {
          return true, e, idx, dir;
        }
        if !IsDir(e) {
          return false, e, idx, dir;
        }
        dir, offset, component, n := Cluster(e), nextOffset, nextComponent, n + 1;
      }
    }

    /** `fat12_resolve_parent`. */
    method ResolveParent(path: CString) returns (ok: bool, parent: nat, key: Key)
      requires VolumeOk()
      ensures ok <==> Keys(path) != [] && Walk(T(), Keys(path)[..|Keys(path)| - 1]).Some?
      ensures ok ==> Walk(T(), Keys(path)[..|Keys(path)| - 1]) == Some(parent) && key == Keys(path)[|Keys(path)| - 1]
      ensures ok ==> parent in ds
    {
      hide Sound, WellFormed, TreeOf, DirSlots, Hit, Components, IsDir, Cluster, Scan, Walk, Found, Enter;
      parent, key := 0, ZeroEntry()[..11];
      var more, component, offset := NextComponent(path, 0);
      assert path[0..] == path;
      if !more {
        return false, parent, key;
      }
      ghost var ks, n := Keys(path), 0;
      WalkNothing(T(), ks);
      while true
        invariant offset <= |path| && n < |ks|
        invariant component == Components(path)[n] && Components(path[offset..]) == Components(path)[n + 1..]
        invariant Walk(T(), ks[..n]) == Some(parent)
        decreases |ks| - n
      {
        ComponentsOk(path, n);
        WalkOkAt(path, n);
        key := ToFat12Name(component);
        ScanTells(T(), parent, ks[n]);
        WalkStops(T(), ks, n);
        WalkStep(T(), ks, n);
        var nextComponent, nextOffset;
        more, nextComponent, nextOffset := NextComponent(path, offset);
        if !more {
          return true, parent, key;
        }
        var found, idx, e := ScanDirectory(parent, key);
        if !found || !IsDir(e) {
          return false, parent, key;
        }
        parent, offset, component, n := Cluster(e), nextOffset, nextComponent, n + 1;
      }
    }

    /** The directory in which the walk along a path stands is one of the stored directories. */
    lemma WalkOkAt(path: CString, n: nat)
      requires VolumeOk() && n < |Keys(path)| && Walk(T(), Keys(path)[..n]).Some?
      ensures var d := Walk(T(), Keys(path)[..n]).value;
              d in ds && d in o.secs && d in T().dirs && T().dirs[d] == SlotsOf(d)
    {
      forall i | 0 <= i < n
        ensures PathKey(Keys(path)[i])
      {
        KeysStart(path, i);
      }
      WalkInside(T(), home, Keys(path)[..n]);
    }

    // ---------- creating entries ----------

    /** The scan of `fat12_create_entry` for a slot to reuse. */
    method FindReusable(d: nat) returns (idx: nat)
      requires Sound() && d in o.secs
      ensures FirstReusable(SlotsOf(d), idx)
    {
      hide Sound;
      idx := 0;
      while true
        invariant idx <= |SlotsOf(d)|
        invariant forall j :: 0 <= j < idx ==> SlotsOf(d)[j][0] != 0 && SlotsOf(d)[j][0] != FREE
        decreases |SlotsOf(d)| - idx
      {
        var found, e := ReadDirEntry(d, idx);
        if !found || e[0] == 0 || e[0] == FREE {
          return;
        }
        idx := idx + 1;
      }
    }

    /** `fat12_create_entry`. It fails exactly when no slot can be reused and the directory cannot be
        extended: it is the root, or no cluster is free. */
    method CreateEntry(parent: nat, key: Key, attr: byte, first: nat, size: nat) returns (idx: int, e: Raw)
      requires Sound() && parent in o.secs
      requires key[0] != 0 && key[0] != FREE && first < 0x1_0000 && size < 0x1_0000_0000
      modifies this`disk, this`o
      ensures Sound()
      ensures e == NewEntry(key, attr, first, size)
      ensures idx < 0 <==> FirstReusable(old(SlotsOf(parent)), |old(SlotsOf(parent))|)
                           && (parent == 0 || FirstFree(old(Table()), -1))
      ensures idx < 0 ==> o == old(o) && Table() == old(Table())
      ensures idx >= 0 ==> OnlyDir(old(o), o, parent) && parent in o.secs
      ensures idx >= 0 ==> FirstReusable(old(SlotsOf(parent)), idx)
      ensures idx >= 0 ==> InsertedAt(old(SlotsOf(parent)), SlotsOf(parent), idx, e)
    {
      hide Sound, OnlyDir, FirstReusable, InsertedAt, NewEntry, FirstFree;
      e := NewEntry(key, attr, first, size);
      NewEntryStart(key, attr, first, size);
      ghost var s := SlotsOf(parent);
      var k := FindReusable(parent);
      ReusableFacts(s, k);
      var found, check := ReadDirEntry(parent, k);
      if !found && parent == 0 {
        return -1, e;
      }
      ghost var m;
      var ok;
      ok, m := WriteDirEntry(parent, k, e);
      if !ok {
        return -1, e;
      }
      if found && check[0] == 0 {
        ghost var o1, s1 := o, SlotsOf(parent);
        ok, m := WriteDirEntry(parent, k + 1, ZeroEntry());
        OnlyDirTwice(old(o), o1, o, parent);
        CreateAtMarker(s, s1, SlotsOf(parent), k, e, 16 * m, ok);
      } else {
        CreateInserts(s, k, e, 16 * m);
      }
      idx := k;
    }

    // ---------- open and close ----------

    ghost predicate Valid()
      reads this
    {
      VolumeOk() && |files| == MAX_OPEN_FILES
    }

    /** Handle `i`, if it is in use, agrees with the drive. */
    ghost predicate Good(i: nat)
      reads this
    {
      i < |files| && (files[i].used ==> Coherent(T(), files[i]))
    }

    lemma CreatedTree(o0: Objs, d: nat)
      requires OnlyDir(o0, o, d) && d in ds
      ensures T() == WithDir(TreeOf(g, o0, ds), d, SlotsOf(d))
    {
      TreeChange(g, o0, o, ds, d);
    }

    /** What `fat12_create_entry` does for a path whose parent exists and that names nothing. */
    method CreateFile(parent: nat, key: Key) returns (idx: int, e: Raw)
      requires VolumeOk() && parent in ds && NameFree(T(), parent, key) && PathKey(key) && key[0] != FREE
      modifies this`disk, this`o
      ensures VolumeOk()
      ensures e == NewEntry(key, 0, 0, 0)
      ensures idx < 0 ==> o == old(o) && Table() == old(Table())
      ensures idx < 0 <==> FirstReusable(old(T()).dirs[parent], |old(T()).dirs[parent]|)
                           && (parent == 0 || FirstFree(old(Table()), -1))
      ensures idx >= 0 ==> OnlyDir(old(o), o, parent)
      ensures idx >= 0 ==> Inserted(old(T()), T(), parent, idx, e) && EntryAt(T(), (parent, idx), e)
    {
      hide Sound, WellFormed, OnlyDir, InsertedAt, FirstReusable, FirstFree, NewEntry, EntryAt;
      idx, e := CreateEntry(parent, key, 0, 0, 0);
      if idx >= 0 {
        CreatedTree(old(o), parent);
        NewEntryStart(key, 0, 0, 0);
        CreateFileWF(old(T()), T(), home, parent, idx, e);
        CreatedInside(old(o), parent);
      }
    }

    lemma CreatedInside(o0: Objs, d: nat)
      requires OnlyDir(o0, o, d) && d in ds && forall x :: x in ds ==> x in o0.secs
      ensures forall x :: x in ds ==> x in o.secs
    {
    }

    lemma ParentFacts(path: CString)
      requires VolumeOk() && ParentOf(T(), path).Some?
      ensures ParentOf(T(), path).value in ds && PathKey(LastKey(path))
      ensures Resolve(T(), Keys(path)) == Found(T(), ParentOf(T(), path).value, LastKey(path))
      ensures Resolve(T(), Keys(path)).None? ==> NameFree(T(), ParentOf(T(), path).value, LastKey(path))
    {
      var n := |Keys(path)| - 1;
      WalkOkAt(path, n);
      KeysStart(path, n);
      ScanFails(T().dirs[ParentOf(T(), path).value], LastKey(path));
    }

    lemma ResolvedFacts(path: CString)
      requires VolumeOk() && Resolve(T(), Keys(path)).Some?
      ensures var p := Resolve(T(), Keys(path)).value;
              && ParentOf(T(), path) == Some(p.0) && p.0 in ds && T().dirs[p.0] == SlotsOf(p.0)
              && p.1 < |SlotsOf(p.0)| && EntryAt(T(), p, SlotsOf(p.0)[p.1])
              && EntryOk(ds, T().caps, SlotsOf(p.0)[p.1])
              && Claimed(home, p, Cluster(SlotsOf(p.0)[p.1]))
              && KeyOf(SlotsOf(p.0)[p.1]) == LastKey(path)
    {
      forall i | 0 <= i < |Keys(path)|
        ensures PathKey(Keys(path)[i])
      {
        KeysStart(path, i);
      }
      ResolveAt(T(), home, Keys(path));
      assert T().dirs.Keys == ds;
    }

    /** The scan of `fat12_open` for an unused handle. */
    method FreeHandle() returns (index: int)
      ensures -1 <= index < |files|
      ensures if index < 0 then !HasUnused(files) else HasUnused(files) && FirstUnused(files, index)
    {
      for i := 0 to |files|
        invariant forall j :: 0 <= j < i ==> files[j].used
      {
        if !files[i].used {
          return i;
        }
      }
      return -1;
    }

    /** The middle part of `fat12_open`: the entry of the file, which is created if it is missing. */
    method LocateOrCreate(path: CString) returns (code: int, e: Raw, parent: nat, idx: nat)
      requires VolumeOk() && NameOk(path)
      modifies this`disk, this`o
      ensures VolumeOk() && code <= 0
      ensures code < 0 ==> code == if NoParent(old(T()), path) then -9 else -1
      ensures code == 0 <==> CanOpen(old(T()), old(Table()), path)
      ensures code < 0 ==> o == old(o) && Table() == old(Table())
      ensures code == 0 ==> EntryAt(T(), (parent, idx), e) && !IsDir(e)
      ensures code == 0 && old(Resolve(T(), Keys(path))).Some? ==>
                o == old(o) && old(Resolve(T(), Keys(path))) == Some((parent, idx))
      ensures code == 0 && old(Resolve(T(), Keys(path))).None? ==>
                && old(ParentOf(T(), path)) == Some(parent) && OnlyDir(old(o), o, parent)
                && e == NewEntry(LastKey(path), 0, 0, 0) && Inserted(old(T()), T(), parent, idx, e)
      ensures Keeps(old(T()), T())
    {
      hide Sound, WellFormed, OnlyDir, Inserted, FirstReusable, FirstFree, NewEntry, At, TreeOf, Keys, Walk, Resolve,
        Found, Keeps, NameFree, PathKey, EntryOk, Claimed, EntryAt;
      KeepsSame(T());
      var found;
      found, e, idx, parent := FindEntry(path);
      if found {
        ResolvedFacts(path);
        EntryAtUnique(T(), (parent, idx));
        return if IsDir(e) then -1 else 0, e, parent, idx;
      }
      var ok, key;
      ok, parent, key := ResolveParent(path);
      if !ok {
        return -9, e, parent, idx;
      }
      ParentFacts(path);
      var slot;
      slot, e := CreateFile(parent, key);
      if slot < 0 {
        return -1, e, parent, idx;
      }
      idx, code := slot, 0;
      InsertedKeepsAll(old(T()), T(), parent, idx, e);
    }

    /** `fat12_open`. An existing file is opened as it is; a path that names nothing, in a directory
        that exists, is created as an empty file. */
    method Open(path: CString) returns (fd: int)
      requires Valid() && NameOk(path)
      modifies this`disk, this`o, this`files
      ensures Valid()
      ensures fd >= 0 <==> HasUnused(old(files)) && CanOpen(old(T()), old(Table()), path)
      ensures fd < 0 ==> o == old(o) && files == old(files) && Table() == old(Table())
      ensures fd < 0 ==> fd == if HasUnused(files) && NoParent(old(T()), path) then -9 else -1
      ensures fd >= 0 ==> 3 <= fd < 3 + MAX_OPEN_FILES && FirstUnused(old(files), fd - 3)
      ensures fd >= 0 ==> files == old(files)[fd - 3 := files[fd - 3]] && Good(fd - 3)
      ensures fd >= 0 ==> OpenedAs(old(T()), T(), path, files[fd - 3])
      ensures fd >= 0 ==> o == old(o) || OnlyDir(old(o), o, files[fd - 3].parent)
      ensures forall j: nat :: old(Good(j)) ==> Good(j)
    {
      hide Sound, WellFormed, OnlyDir, Inserted, CanOpen, NewEntry, TreeOf, Keys, Walk, Resolve, Found, Keeps, Ordinary,
        HasUnused, NoParent;
      var index := FreeHandle();
      if index < 0 {
        return -1;
      }
      var code, e, parent, idx := LocateOrCreate(path);
      if code < 0 {
        return code;
      }
      files := files[index := Opened(path, e, parent, idx)];
      forall j: nat | old(Good(j)) ensures Good(j) {
        KeepsCoherent(old(T()), T(), old(files)[j]);
      }
      fd := index + 3;
    }

    /** `fileno` does not name a handle in use. */
    predicate BadHandle(fileno: int)
      reads this`files
    {
      fileno < 3 || fileno - 3 >= |files| || !files[fileno - 3].used
    }

    /** `fat12_close`. */
    method Close(fileno: int) returns (r: int)
      requires Valid()
      modifies this`files
      ensures Valid()
      ensures r == if old(BadHandle(fileno)) then -5 else 0
      ensures old(BadHandle(fileno)) ==> files == old(files)
      ensures !old(BadHandle(fileno)) ==> files == old(files)[fileno - 3 := old(files)[fileno - 3].(used := false)]
      ensures forall j: nat :: old(Good(j)) ==> Good(j)
    {
      hide VolumeOk, Coherent;
      if BadHandle(fileno) {
        return -5;
      }
      files := files[fileno - 3 := files[fileno - 3].(used := false)];
      r := 0;
    }

    // ---------- reading ----------

    /** What a handle that agrees with the drive stands for: nothing yet, or a stored file that is long
        enough. */
    lemma HandleFile(f: OpenFile)
      requires VolumeOk() && Coherent(T(), f)
      ensures f.parent in ds && f.parent in o.secs && f.idx < |SlotsOf(f.parent)|
      ensures EntryAt(T(), (f.parent, f.idx), SlotsOf(f.parent)[f.idx]) && Agrees(f, SlotsOf(f.parent)[f.idx])
      ensures if f.first == 0 then f.size == 0 && HandleBytes(o, f) == []
              else f.first in o.chains && f.first in o.secs && f.first !in ds && f.size <= 512 * |o.secs[f.first]|
      ensures |HandleBytes(o, f)| == f.size
      ensures f.first != 0 ==> f.first in T().caps && f.first in home && home[f.first] == (f.parent, f.idx)
    {
      assert T().dirs.Keys == ds;
      var e :| EntryAt(T(), (f.parent, f.idx), e) && Agrees(f, e);
      assert Ents(T())[(f.parent, f.idx)] == e;
      assert EntryOk(T().dirs.Keys, T().caps, e);
    }

    /** `fat12_get_size`. Through a handle that agrees with the drive it is the length of the file, which is
        also the size that the directory entry has. */
    method GetSize(fileno: int) returns (n: nat)
      ensures BadHandle(fileno) ==> n == 0
      ensures !BadHandle(fileno) ==> n == files[fileno - 3].size
      ensures !BadHandle(fileno) && VolumeOk() && Coherent(T(), files[fileno - 3]) ==>
                && n == |HandleBytes(o, files[fileno - 3])|
                && exists e :: EntryAt(T(), PlaceOf(files[fileno - 3]), e) && !IsDir(e) && n == Size(e)
    {
      n := if BadHandle(fileno) then 0 else files[fileno - 3].size;
      if !BadHandle(fileno) && VolumeOk() && Coherent(T(), files[fileno - 3]) {
        HandleFile(files[fileno - 3]);
      }
    }

    /** The walk of `fat12_read` to cluster number `n` of a file. */
    method SeekCluster(first: nat, n: nat) returns (ok: bool, c: nat)
      requires Sound() && first in o.chains
      ensures ok <==> n < |o.chains[first]|
      ensures ok ==> c == o.chains[first][n]
    {
      hide Fat, Mirrored, ChainsOk, Disjoint, Accounted, Stored;
      ChainHead(g, Table(), o, first);
      c := first;
      for i := 0 to n
        invariant i < |o.chains[first]| && c == o.chains[first][i]
      {
        ChainStep(g, Table(), o, first, i);
        var next := ReadFatEntry(c);
        if !IsLink(next) {
          return false, c;
        }
        c := next;
      }
      ok := true;
    }

    /** The sector that holds byte `cursor` of a file, and its number on the drive. */
    method LocateByte(first: nat, cursor: nat, c: nat) returns (sector: nat)
      requires Sound() && first in o.chains && ByteCluster(g.spc, cursor) < |o.chains[first]|
      requires c == o.chains[first][ByteCluster(g.spc, cursor)]
      ensures first in o.secs && cursor / 512 < |o.secs[first]| && g.RootStart() <= sector < |disk|
      ensures disk[sector] == o.secs[first][cursor / 512]
      ensures cursor / 512 < |ListOf(g, o, first)| && sector == g.RootStart() + ListOf(g, o, first)[cursor / 512]
      ensures g.spc >= 1 && ByteOffset(g.spc, cursor) % 512 == cursor % 512
    {
      hide Fat, Mirrored, ChainsOk, Disjoint, Accounted, Stored, ListOf, ByteCluster, ByteOffset;
      ByteAddress(g.spc, cursor);
      ObjectSector(g, Area(), o, first, ByteCluster(g.spc, cursor), ByteOffset(g.spc, cursor) / 512);
      sector := g.RootStart() + g.DataSector(c, ByteOffset(g.spc, cursor) / 512);
    }

    /** One round of `fat12_read`: the bytes from `cursor` to the end of its sector, of the file, or of
        the request, whichever comes first. */
    method ReadChunk(f: OpenFile, wanted: nat) returns (ok: bool, bytes: seq<byte>)
      requires VolumeOk() && Coherent(T(), f) && f.cursor < f.size && wanted > 0
      ensures ok && 0 < |bytes| <= wanted && f.cursor + |bytes| <= f.size
      ensures |HandleBytes(o, f)| == f.size && bytes == HandleBytes(o, f)[f.cursor..f.cursor + |bytes|]
    {
      hide Sound, WellFormed, ByteCluster, ByteOffset;
      HandleFile(f);
      LengthFact(f.first);
      ByteBelow(g.spc, f.cursor, |o.chains[f.first]|);
      var c;
      ok, c := SeekCluster(f.first, ByteCluster(g.spc, f.cursor));
      var sector := LocateByte(f.first, f.cursor, c);
      var buffer := disk[sector];
      var offset := ByteOffset(g.spc, f.cursor) % 512;
      var n := MinInt(MinInt(wanted, 512 - offset), f.size - f.cursor);
      bytes := buffer[offset..offset + n];
      PrefixSlice(o.secs[f.first], f.size, f.cursor, n);
    }

    lemma HandleLimits(f: OpenFile)
      requires VolumeOk() && Coherent(T(), f)
      ensures f.cursor <= f.size == |HandleBytes(o, f)| && (f.first < 2 ==> f.size == 0)
    {
      HandleFile(f);
      if f.first != 0 {
        LengthFact(f.first);
      }
    }

    lemma LengthFact(h: nat)
      requires Sound() && h in o.chains
      ensures h in o.secs && |o.secs[h]| == Times(|o.chains[h]|, g.spc) && g.spc >= 1 && 2 <= h < 4080
    {
      ChainHead(g, Table(), o, h);
      SecsLength(g, Area(), o, h);
    }

    /** `fat12_read`. It returns the bytes of the file from the cursor on, as many as were asked for or
        as there are, and advances the cursor over them. */
    method Read(fileno: int, count: nat) returns (r: int, data: seq<byte>)
      requires Valid() && (!BadHandle(fileno) ==> Good(fileno - 3))
      modifies this`files
      ensures Valid()
      ensures old(BadHandle(fileno)) ==> r == -5 && data == [] && files == old(files)
      ensures !old(BadHandle(fileno)) ==>
                var f := old(files)[fileno - 3];
                && r == |data| == MinInt(count, f.size - f.cursor)
                && |HandleBytes(o, f)| == f.size && data == HandleBytes(o, f)[f.cursor..f.cursor + r]
                && files == old(files)[fileno - 3 := f.(cursor := f.cursor + r)]
      ensures forall j: nat :: old(Good(j)) ==> Good(j)
    {
      hide VolumeOk, Coherent, FileBytes;
      data := [];
      if BadHandle(fileno) {
        return -5, data;
      }
      var index := fileno - 3;
      ghost var f := files[index];
      HandleLimits(f);
      while |data| < count
        invariant |data| <= count && f.cursor + |data| <= f.size && |HandleBytes(o, f)| == f.size
        invariant data == HandleBytes(o, f)[f.cursor..f.cursor + |data|]
        invariant files == old(files)[index := f.(cursor := f.cursor + |data|)] && Coherent(T(), files[index])
        decreases count - |data|
      {
        if files[index].cursor >= files[index].size {
          break;
        }
        if files[index].first < 2 {
          break;
        }
        var ok, bytes := ReadChunk(files[index], count - |data|);
        if !ok {
          break;
        }
        SliceMore(HandleBytes(o, f), f.cursor, |data|, |bytes|);
        data := data + bytes;
        CursorMoves(T(), files[index], files[index].cursor + |bytes|);
        files := files[index := files[index].(cursor := files[index].cursor + |bytes|)];
      }
      r := |data|;
    }

    // ---------- writing ----------

    /** `fat12_allocate_cluster` for a new object. */
    method AllocateObject() returns (c: int)
      requires Sound()
      modifies this`disk, this`o
      ensures Sound()
      ensures c < 0 ==> o == old(o) && Table() == old(Table()) && FirstFree(Table(), -1)
      ensures c >= 0 ==> NewObject(old(o), o, c) && |o.secs[c]| == g.spc >= 1
      ensures c >= 0 ==> Table() == Set(old(Table()), c, 0xFFF) && old(Table())[c] == 0
      ensures FirstFree(old(Table()), c)
      ensures c >= 0 ==> !FirstFree(old(Table()), -1)
    {
      hide Fat, Mirrored, ChainsOk, Disjoint, Accounted, FirstFree;
      c := AllocateCluster(0);
      if c >= 0 {
        NewRep(g, old(Table()), Area(), o, c);
        o := WithNew(g, Area(), o, c);
      }
    }

    /** The part of `fat12_write` that gives an empty file its first cluster. */
    method EnsureFirst(index: nat) returns (ok: bool)
      requires Valid() && index < |files| && Coherent(T(), files[index]) && files[index].first == 0
      modifies this`disk, this`o, this`home, this`files
      ensures Valid()
      ensures !ok ==> o == old(o) && files == old(files) && home == old(home)
      ensures !ok ==> Table() == old(Table()) && FirstFree(Table(), -1)
      ensures |files| == |old(files)| && files == old(files)[index := files[index]]
      ensures ok ==> Coherent(T(), files[index]) && files[index] == old(files)[index].(first := files[index].first)
      ensures ok ==> files[index].first != 0 && FileStep(old(o), old(T()), old(files)[index], o, T(), files[index], ds)
    {
      hide Sound, FirstFree, WellFormed, TreeOf, DirSlots, FileStep, Coherent, EntryAt, OnlyDir, NewObject;
      ghost var f, o0 := files[index], o;
      HandleFile(f);
      var c := AllocateObject();
      ok := c >= 0;
      if ok {
        ghost var o1 := o;
        NewObjectDirs(o0, c, f.parent);
        files := files[index := files[index].(first := c)];
        var found, e := ReadDirEntry(files[index].parent, files[index].idx);
        if found {
          ghost var m;
          ok, m := WriteDirEntry(files[index].parent, files[index].idx, WithCluster(e, c));
          NoGrowth(DirSlots(g, f.parent, o1.secs[f.parent]), m);
        }
        home := home[c := (f.parent, f.idx)];
        FirstClusterDone(o0, o1, old(home), f, e, c);
      }
    }

    lemma NewObjectDirs(o0: Objs, c: nat, d: nat)
      requires NewObject(o0, o, c) && d in o0.secs && forall x :: x in ds ==> x in o0.secs
      ensures d in o.secs && SlotsOf(d) == DirSlots(g, d, o0.secs[d])
      ensures c !in ds && 2 <= c < 4080
    {
    }

    /** The state after an empty file got its first cluster `c`: `o1` is the state right after the
        allocation. */
    lemma FirstClusterDone(o0: Objs, o1: Objs, home0: Homes, f: OpenFile, e: Raw, c: nat)
      requires forall x :: x in ds ==> x in o0.secs
      requires NewObject(o0, o1, c) && |o1.secs[c]| == g.spc && OnlyDir(o1, o, f.parent) && f.parent in ds
      requires WellFormed(TreeOf(g, o0, ds), home0, {}) && Coherent(TreeOf(g, o0, ds), f) && f.first == 0
      requires f.parent in o0.secs && f.idx < |DirSlots(g, f.parent, o0.secs[f.parent])|
      requires e == DirSlots(g, f.parent, o0.secs[f.parent])[f.idx]
      requires f.parent in o.secs
      requires SlotsOf(f.parent) == DirSlots(g, f.parent, o0.secs[f.parent])[f.idx := WithCluster(e, c)]
      ensures forall x :: x in ds ==> x in o.secs
      ensures WellFormed(T(), home0[c := (f.parent, f.idx)], {})
      ensures Coherent(T(), f.(first := c))
      ensures FileStep(o0, TreeOf(g, o0, ds), f, o, T(), f.(first := c), ds)
    {
      hide DirSlots, WellFormed, FilesSame, OnlyDir, NewObject, SlotOnly, At, TreeOf;
      var t0, e', d := TreeOf(g, o0, ds), WithCluster(e, c), f.parent;
      NewObjectTree(g, o0, o1, ds, c);
      var cap := 512 * |o1.secs[c]|;
      TreeDirs(g, o0, ds, d);
      OnlyDirTree(g, o1, o, ds, d, f.idx, e');
      EntryAtUnique(t0, (d, f.idx));
      FirstClusterTree(t0, home0, f, e, c, cap);
      assert T() == WithSlot(t0, d, f.idx, e').(caps := t0.caps[c := cap]);
      SlotOnlyEntry(t0, T(), d, f.idx, e');
      OnlyDirFiles(o1, o, ds, d, c);
      FilesSameTwice(o0, o1, o, ds, c);
    }

    /** Links a free cluster behind the last cluster `prev` of file `h`, if there is one. */
    method ExtendFile(prev: nat, ghost h: nat) returns (c: int)
      requires Sound() && h in o.chains
      requires |o.chains[h]| > 0 && prev == o.chains[h][|o.chains[h]| - 1] && 2 <= prev < 4096
      modifies this`disk, this`o
      ensures Sound()
      ensures c < 0 ==> o == old(o) && Table() == old(Table()) && FirstFree(Table(), -1)
      ensures c >= 0 ==> FileGrown(old(o), o, h, c)
    {
      hide Fat, Mirrored, ChainsOk, Disjoint, Accounted, Stored, ListOf, FirstFree;
      SecsLength(g, Area(), o, h);
      c := AllocateCluster(prev);
      if c >= 0 {
        ExtendRep(g, old(Table()), Area(), o, h, c);
        o := WithMore(g, Area(), o, h, c);
      }
    }

    /** The walk of `fat12_write` to cluster number `n` of a file, which is extended if it is one short. */
    method WalkOrExtendFile(h: nat, n: nat) returns (ok: bool, c: nat)
      requires Sound() && h in o.chains && n <= |o.chains[h]|
      modifies this`disk, this`o
      ensures Sound()
      ensures !ok ==> o == old(o) && Table() == old(Table()) && FirstFree(Table(), -1)
      ensures ok ==> h in o.chains && n < |o.chains[h]| && c == o.chains[h][n]
      ensures !ok ==> n == |o.chains[h]|
      ensures ok && n < |old(o).chains[h]| ==> o == old(o)
      ensures ok && n == |old(o).chains[h]| ==> FileGrown(old(o), o, h, c)
    {
      hide Fat, Mirrored, ChainsOk, Disjoint, Accounted, Stored, FirstFree;
      ChainHead(g, Table(), o, h);
      c, ok := h, true;
      for i := 0 to n
        invariant Sound() && h in o.chains && i < |o.chains[h]| && c == o.chains[h][i]
        invariant if i < |old(o).chains[h]| then o == old(o) && Table() == old(Table())
                  else i == n && FileGrown(old(o), o, h, c)
      {
        ChainStep(g, Table(), o, h, i);
        var next := ReadFatEntry(c);
        if IsLink(next) {
          c := next;
        } else {
          var more := ExtendFile(c, h);
          if more < 0 {
            return false, c;
          }
          c := more;
        }
      }
    }

    /** The cluster for the next bytes of `fat12_write`; the file is extended if the cursor stands at
        the end of its last cluster. */
    method SeekForWrite(index: nat) returns (ok: bool, c: nat)
      requires Valid() && index < |files| && Coherent(T(), files[index]) && files[index].first != 0
      modifies this`disk, this`o
      ensures Valid() && Coherent(T(), files[index])
      ensures !ok ==> o == old(o) && Table() == old(Table()) && FirstFree(Table(), -1) && AtEnd(o, files[index])
      ensures ok ==> files[index].first in o.chains
      ensures ok ==> ByteCluster(g.spc, files[index].cursor) < |o.chains[files[index].first]|
      ensures ok ==> c == o.chains[files[index].first][ByteCluster(g.spc, files[index].cursor)]
      ensures FileStep(old(o), old(T()), files[index], o, T(), files[index], ds)
      ensures HandleBytes(o, files[index]) == old(HandleBytes(o, files[index]))
    {
      hide Sound, FirstFree, WellFormed, TreeOf, DirSlots, FileStep, Coherent, EntryAt, FileGrown, ByteCluster;
      ghost var f, o0, t0 := files[index], o, T();
      HandleFile(f);
      LengthFact(f.first);
      ByteBelow(g.spc, f.cursor, |o.chains[f.first]|);
      SameStep(f);
      ok, c := WalkOrExtendFile(files[index].first, ByteCluster(g.spc, files[index].cursor));
      if o != o0 {
        FileGrownTree(g, o0, o, ds, f.first, c);
        FileGrownBytes(o0, o, f.first, c, f.size);
        CapacityStep(o0, o, t0, f, ds, 512 * |o.secs[f.first]|);
        GrowCapKeepsWF(t0, home, f.first, 512 * |o.secs[f.first]|);
      }
    }

    lemma SameStep(f: OpenFile)
      requires VolumeOk() && Coherent(T(), f)
      ensures FileStep(o, T(), f, o, T(), f, ds)
    {
      HandleFile(f);
      SlotOnlySame(T(), T(), f.parent, f.idx);
    }

    /** The part of `fat12_write` that patches the bytes into their sector. */
    method StoreChunk(f: OpenFile, bytes: seq<byte>, c: nat)
      requires VolumeOk() && Coherent(T(), f) && f.first in o.chains && f.first in o.secs && f.first !in ds
      requires f.cursor % 512 + |bytes| <= 512 && ByteCluster(g.spc, f.cursor) < |o.chains[f.first]|
      requires c == o.chains[f.first][ByteCluster(g.spc, f.cursor)]
      modifies this`disk, this`o
      ensures VolumeOk() && Coherent(T(), f)
      ensures f.cursor / 512 < |old(o).secs[f.first]|
      ensures o == WithSector(old(o), f.first, f.cursor / 512,
                              Patch(old(o).secs[f.first][f.cursor / 512], f.cursor % 512, bytes))
      ensures FileStep(old(o), old(T()), f, o, T(), f, ds)
    {
      hide Sound, WellFormed, TreeOf, DirSlots, FileStep, Coherent, EntryAt, ByteCluster, ByteOffset, FilesSame;
      ghost var o0, t0 := o, T();
      var sector := LocateByte(f.first, f.cursor, c);
      var offset := ByteOffset(g.spc, f.cursor) % 512;
      ghost var q := f.cursor / 512;
      var buffer := Patch(disk[sector], offset, bytes);
      WriteObjectSector(sector, buffer, f.first, q);
      PatchedTree(g, o0, o, ds, f.first, q, buffer);
      GrowCapKeepsWF(t0, home, f.first, 512 * |o0.secs[f.first]|);
      CapacityStep(o0, o, t0, f, ds, 512 * |o0.secs[f.first]|);
    }

    /** The part of `fat12_write` that advances the cursor over `n` bytes and, when the file has become
        longer, stores the new size in the handle and in the entry. */
    method AdvanceCursor(index: nat, n: nat)
      requires Valid() && index < |files| && Coherent(T(), files[index]) && files[index].first != 0
      requires files[index].first in o.secs && files[index].cursor + n <= 512 * |o.secs[files[index].first]|
      modifies this`disk, this`o, this`files
      ensures Valid() && |files| == |old(files)| && files == old(files)[index := files[index]]
      ensures files[index] == old(files)[index].(cursor := old(files)[index].cursor + n,
                                                 size := MaxNat(old(files)[index].size, old(files)[index].cursor + n))
      ensures Coherent(T(), files[index])
      ensures FileStep(old(o), old(T()), old(files)[index], o, T(), files[index], ds)
      ensures files[index].first in o.secs && o.secs[files[index].first] == old(o).secs[files[index].first]
    {
      hide Sound, WellFormed, TreeOf, DirSlots, FileStep, Coherent, EntryAt, FilesSame, OnlyDir;
      ghost var f, o0, t0 := files[index], o, T();
      HandleFile(f);
      HandleFits(f.first);
      files := files[index := files[index].(cursor := files[index].cursor + n)];
      if files[index].cursor > files[index].size {
        files := files[index := files[index].(size := files[index].cursor)];
        var found, e := ReadDirEntry(files[index].parent, files[index].idx);
        if found {
          ghost var m;
          var ok;
          ok, m := WriteDirEntry(files[index].parent, files[index].idx, WithSize(e, files[index].size));
          NoGrowth(DirSlots(g, f.parent, o0.secs[f.parent]), m);
        }
        SizeDone(o0, f, e, f.cursor + n);
      } else {
        CursorMoves(t0, f, f.cursor + n);
        CursorStep(o0, t0, f, f.cursor + n);
      }
    }

    lemma HandleFits(h: nat)
      requires VolumeOk() && h in o.chains && h !in ds
      ensures h in o.secs && 512 * |o.secs[h]| < 0x1_0000_0000 && h in T().caps && T().caps[h] == 512 * |o.secs[h]|
    {
      SizeFits(g, Table(), Area(), o, h);
    }

    lemma CursorStep(o0: Objs, t0: Tree, f: OpenFile, n: nat)
      requires VolumeOk() && Coherent(T(), f) && o0 == o && t0 == T()
      ensures FileStep(o0, t0, f, o, T(), f.(cursor := n), ds)
    {
      HandleFile(f);
      SlotOnlySame(T(), T(), f.parent, f.idx);
    }

    lemma SizeDone(o0: Objs, f: OpenFile, e: Raw, n: nat)
      requires forall x :: x in ds ==> x in o0.secs
      requires OnlyDir(o0, o, f.parent) && f.parent in ds && f.first !in ds && f.first in o0.secs
      requires WellFormed(TreeOf(g, o0, ds), home, {}) && Coherent(TreeOf(g, o0, ds), f) && f.first != 0
      requires f.size <= n < 0x1_0000_0000 && n <= 512 * |o0.secs[f.first]|
      requires f.parent in o0.secs && f.idx < |DirSlots(g, f.parent, o0.secs[f.parent])|
      requires e == DirSlots(g, f.parent, o0.secs[f.parent])[f.idx]
      requires f.parent in o.secs
      requires SlotsOf(f.parent) == DirSlots(g, f.parent, o0.secs[f.parent])[f.idx := WithSize(e, n)]
      ensures forall x :: x in ds ==> x in o.secs
      ensures WellFormed(T(), home, {}) && Coherent(T(), f.(cursor := n, size := n))
      ensures FileStep(o0, TreeOf(g, o0, ds), f, o, T(), f.(cursor := n, size := n), ds)
      ensures f.first in o.secs && o.secs[f.first] == o0.secs[f.first]
    {
      hide DirSlots, WellFormed, FilesSame, SlotOnly, At, TreeOf;
      var t0 := TreeOf(g, o0, ds);
      TreeDirs(g, o0, ds, f.parent);
      TreeCaps(g, o0, ds, f.first);
      OnlyDirTree(g, o0, o, ds, f.parent, f.idx, WithSize(e, n));
      EntryAtUnique(t0, (f.parent, f.idx));
      SizeTree(t0, home, f, e, n);
      OnlyDirFiles(o0, o, ds, f.parent, f.first);
    }

    /** One round of `fat12_write` through a handle whose file has a first cluster: the bytes up to the end
        of the sector of the cursor. Nothing is written if the file is full and no cluster is free. */
    method WriteChunk(index: nat, buf: seq<byte>) returns (n: int)
      requires Valid() && index < |files| && Coherent(T(), files[index]) && files[index].first != 0 && buf != []
      modifies this`disk, this`o, this`files
      ensures Valid() && |files| == |old(files)| && files == old(files)[index := files[index]]
      ensures Coherent(T(), files[index])
      ensures files[index].first == old(files)[index].first
      ensures n < 0 ==> files == old(files) && o == old(o) && FirstFree(Table(), -1) && AtEnd(o, files[index])
      ensures n >= 0 ==> 0 < n <= |buf|
      ensures n >= 0 ==> Progress(old(o), old(T()), old(files)[index], o, T(), files[index], ds, buf, n)
    {
      hide Sound, FirstFree, WellFormed, TreeOf, FileStep, Coherent, ByteCluster, FileBytes, WithSector, FilesSame;
      HandleFile(files[index]);
      ghost var f, o0, t0 := files[index], o, T();
      var ok, c := SeekForWrite(index);
      if !ok {
        return -1;
      }
      HandleFile(f);
      ghost var o1, t1 := o, T();
      OffsetFact(files[index].cursor);
      var room := 512 - ByteOffset(g.spc, files[index].cursor) % 512;
      var m := if |buf| > room then room else |buf|;
      StoreChunk(files[index], buf[..m], c);
      ghost var o2, t2 := o, T();
      StoredSize(o1, o2, f, buf[..m]);
      AdvanceCursor(index, m);
      ChunkProgress(o0, t0, f, o1, t1, o2, t2, o, T(), files[index], ds, buf, m);
      n := m;
    }

    lemma OffsetFact(p: nat)
      requires Sound()
      ensures g.spc >= 1 && ByteOffset(g.spc, p) % 512 == p % 512
    {
      ByteAddress(g.spc, p);
    }

    /** The loop of `fat12_write`. */
    method WriteAll(index: nat, buf: seq<byte>) returns (r: int)
      requires Valid() && index < |files| && Coherent(T(), files[index])
      modifies this`disk, this`o, this`home, this`files
      ensures Valid() && files == old(files)[index := files[index]]
      ensures -1 <= r <= |buf|
      ensures r < |buf| ==> FirstFree(Table(), -1)
      ensures r < |buf| ==> if r < 0 then files[index].first == 0 else AtEnd(o, files[index])
      ensures r < 0 ==> o == old(o) && files == old(files)
      ensures r >= 0 ==> Progress(old(o), old(T()), old(files)[index], o, T(), files[index], ds, buf, r)
    {
      hide FirstFree, VolumeOk, FileStep, Coherent, FileBytes, Progress;
      ghost var f, o0, t0 := files[index], o, T();
      NoProgress(f, buf);
      var done := 0;
      while done < |buf|
        invariant Valid() && done <= |buf| && files == old(files)[index := files[index]] && Coherent(T(), files[index])
        invariant Progress(o0, t0, f, o, T(), files[index], ds, buf, done)
        invariant files[index].first == 0 ==> done == 0 && o == o0 && files == old(files)
      {
        if files[index].first == 0 {
          HandleFile(files[index]);
          var ok := EnsureFirst(index);
          if !ok {
            return -1;
          }
          FirstProgress(o0, t0, f, o, T(), files[index], ds, buf);
        }
        ghost var o1, t1, f1 := o, T(), files[index];
        var n := WriteChunk(index, buf[done..]);
        if n < 0 {
          break;
        }
        ProgressTwice(o0, t0, f, o1, t1, f1, o, T(), files[index], ds, buf, done, n);
        done := done + n;
      }
      r := done;
    }

    lemma NoProgress(f: OpenFile, buf: seq<byte>)
      requires VolumeOk() && Coherent(T(), f)
      ensures Progress(o, T(), f, o, T(), f, ds, buf, 0)
    {
      HandleFile(f);
      SameStep(f);
      SpliceNothing(HandleBytes(o, f), f.cursor);
    }

    /** `fat12_write`. As many bytes are written as there is room for; the call falls short only when
        no cluster is free and the file fills its last cluster, or has none. */
    method Write(fileno: int, buf: seq<byte>) returns (r: int)
      requires Valid() && (!BadHandle(fileno) ==> Good(fileno - 3))
      modifies this`disk, this`o, this`home, this`files
      ensures Valid()
      ensures old(BadHandle(fileno)) ==> r == -5 && o == old(o) && files == old(files) && home == old(home)
      ensures !old(BadHandle(fileno)) ==> -1 <= r <= |buf| && files == old(files)[fileno - 3 := files[fileno - 3]]
      ensures !old(BadHandle(fileno)) && r < |buf| ==> FirstFree(Table(), -1)
      ensures !old(BadHandle(fileno)) && r < |buf| ==> forall b :: 2 <= b < 4080 ==> Table()[b] != 0
      ensures !old(BadHandle(fileno)) && r < |buf| ==>
                if r < 0 then files[fileno - 3].first == 0 else AtEnd(o, files[fileno - 3])
      ensures !old(BadHandle(fileno)) && r < 0 ==> o == old(o) && files == old(files)
      ensures !old(BadHandle(fileno)) && r >= 0 ==>
                Progress(old(o), old(T()), old(files)[fileno - 3], o, T(), files[fileno - 3], ds, buf, r)
    {
      hide FirstFree, VolumeOk, Coherent, Progress;
      if BadHandle(fileno) {
        return -5;
      }
      r := WriteAll(fileno - 3, buf);
      if r == |buf| {
        return;
      }
      NoClusterFree();
    }

    lemma NoClusterFree()
      requires VolumeOk() && FirstFree(Table(), -1)
      ensures forall b :: 2 <= b < 4080 ==> Table()[b] != 0
    {
      hide WellFormed;
      NoneFree(Table());
    }

    // ---------- removing ----------

    /** `fat12_free_cluster_chain` on a stored object. */
    method FreeObject(h: nat)
      requires Sound() && h in o.chains
      modifies this`disk, this`o
      ensures Sound() && o == Without(old(o), h)
      ensures Table() == Zeroed(old(Table()), old(o).chains[h])
    {
      hide Fat, Mirrored, ChainsOk, Disjoint, Accounted, Stored, FreeFrom, Zeroed;
      FreeRep(g, Table(), Area(), o, h);
      FreeClusterChain(h);
      o := Without(o, h);
    }

    /** The test of `fat12_removefile` for a handle on the file. */
    method InUse(path: CString, e: Raw) returns (busy: bool)
      requires |files| == MAX_OPEN_FILES
      ensures busy <==> exists i :: 0 <= i < |files| && Blocks(files[i], path, e)
    {
      for i := 0 to MAX_OPEN_FILES
        invariant forall j :: 0 <= j < i ==> !Blocks(files[j], path, e)
      {
        if files[i].used && files[i].first == Cluster(e) {
          if Cluster(e) != 0 || files[i].path == path {
            return true;
          }
        }
      }
      return false;
    }

    /** The end of `fat12_removefile` and `fat12_removedir`: the clusters are freed, the entry becomes
        a tombstone. */
    method Erase(parent: nat, idx: nat, e: Raw) returns (ok: bool)
      requires VolumeOk() && EntryAt(T(), (parent, idx), e)
      requires IsDir(e) ==> Cluster(e) in o.secs && forall j: nat :: !Ordinary(SlotsOf(Cluster(e)), j)
      modifies this`disk, this`o, this`ds, this`home
      ensures VolumeOk() && ok
      ensures Erased(old(o), old(T()), old(Table()), o, T(), Table(), (parent, idx))
      ensures forall f :: Coherent(T(), f) <==> Coherent(old(T()), f) && PlaceOf(f) != (parent, idx)
    {
      hide Sound, WellFormed, TreeOf, DirSlots, EntryAt, OnlyDir, Removed, Zeroed, Coherent, Erased;
      SoundFits();
      ghost var h, o0, t0, ds0, fat := Cluster(e), o, T(), ds, Table();
      EntryOnVolume((parent, idx), e);
      EraseParent((parent, idx), e);
      if Cluster(e) >= 2 {
        FreeObject(Cluster(e));
      }
      ghost var o1, s1 := o, SlotsOf(parent);
      ghost var m;
      ok, m := WriteDirEntry(parent, idx, Tombstone(e));
      NoGrowth(s1, m);
      ds := if IsDir(e) then ds - {h} else ds;
      home := home - {h};
      FreedTree(g, o0, o1, o, ds0, h, (parent, idx), e);
      FreedInside(o0, o1, o, ds0, h, parent);
      if IsDir(e) {
        RemoveDirWF(t0, T(), old(home), (parent, idx), e);
      } else {
        RemoveFileWF(t0, T(), old(home), (parent, idx), e);
      }
      SoundFits();
      ErasedBy(o0, o1, o, t0, T(), fat, Table(), (parent, idx), e);
      RemovedHandles(t0, T(), (parent, idx), e);
    }

    lemma SoundFits()
      requires Sound()
      ensures g.Fits(disk)
    {
    }

    lemma EraseParent(p: Place, e: Raw)
      requires VolumeOk() && EntryAt(T(), p, e)
      requires IsDir(e) ==> Cluster(e) in o.secs && forall j: nat :: !Ordinary(SlotsOf(Cluster(e)), j)
      ensures Cluster(e) != 0 ==> p.0 != Cluster(e)
    {
      EntryOnVolume(p, e);
      EntryAtSlot(T(), p, e);
    }

    lemma FreedInside(o0: Objs, o1: Objs, o2: Objs, ds0: set<nat>, h: nat, d: nat)
      requires forall x :: x in ds0 ==> x in o0.secs
      requires o1 == (if h == 0 then o0 else Without(o0, h)) && OnlyDir(o1, o2, d)
      ensures forall x :: x in ds0 && x != h ==> x in o2.secs
      ensures h == 0 ==> forall x :: x in ds0 ==> x in o2.secs
    {
    }

    /** What the volume guarantees about an ordinary entry. */
    lemma EntryOnVolume(p: Place, e: Raw)
      requires VolumeOk() && EntryAt(T(), p, e)
      ensures p.0 in ds && p.0 in o.secs && p.1 < |SlotsOf(p.0)| && SlotsOf(p.0)[p.1] == e && 0 in ds
      ensures T().dirs[p.0] == SlotsOf(p.0) && T().dirs.Keys == ds
      ensures Cluster(e) in o.secs && Claimed(home, p, Cluster(e)) && EntryOk(ds, T().caps, e)
      ensures if IsDir(e) then Cluster(e) in ds && Cluster(e) != 0 else Cluster(e) == 0 || Cluster(e) !in ds
      ensures Cluster(e) != 0 ==> 2 <= Cluster(e) && Cluster(e) in o.chains
      ensures IsDir(e) ==> T().dirs[Cluster(e)] == SlotsOf(Cluster(e))
    {
      assert T().dirs.Keys == ds;
      EntryFacts(T(), home, p, e);
      if Cluster(e) != 0 {
        LengthFact(Cluster(e));
      }
    }

    /** `fat12_removefile`. The handles that stay good are exactly those on other entries. */
    method RemoveFile(path: CString) returns (r: int)
      requires Valid()
      modifies this`disk, this`o, this`ds, this`home
      ensures Valid()
      ensures r == match old(Resolve(T(), Keys(path)))
                   case None => -9
                   case Some(p) =>
                     if IsDir(EntryIn(old(T()), p)) then -9
                     else if exists i :: 0 <= i < |files| && Blocks(files[i], path, EntryIn(old(T()), p)) then -11
                     else 0
      ensures r != 0 ==> o == old(o) && ds == old(ds) && home == old(home) && Table() == old(Table())
      ensures r == 0 ==> Erased(old(o), old(T()), old(Table()), o, T(), Table(), old(Resolve(T(), Keys(path))).value)
      ensures r == 0 ==> forall j :: 0 <= j < |files| && files[j].used ==>
                (Good(j) <==> old(Good(j)) && PlaceOf(files[j]) != old(Resolve(T(), Keys(path))).value)
    {
      hide Sound, WellFormed, TreeOf, Keys, Resolve, EntryAt, Coherent, Erased;
      var found, e, idx, parent := FindEntry(path);
      if !found {
        return -9;
      }
      ResolvedFacts(path);
      EntryAtSlot(T(), (parent, idx), e);
      if IsDir(e) {
        return -9;
      }
      var busy := InUse(path, e);
      if busy {
        return -11;
      }
      var ok := Erase(parent, idx, e);
      if !ok {
        return -1;
      }
      r := 0;
    }

    /** `fat12_is_dir_empty`. */
    method IsDirEmpty(d: nat) returns (empty: bool)
      requires Sound() && d in o.secs
      ensures empty <==> forall j: nat :: !Ordinary(SlotsOf(d), j)
    {
      hide Sound;
      var idx := 0;
      while true
        invariant idx <= |SlotsOf(d)| && NoEnd(SlotsOf(d), idx)
        invariant forall j: nat :: j < idx ==> !Ordinary(SlotsOf(d), j)
        decreases |SlotsOf(d)| - idx
      {
        var found, e := ReadDirEntry(d, idx);
        if !found || e[0] == 0 {
          return true;
        }
        if !(e[0] == FREE || Attr(e) == LFN || IsDot(e)) {
          assert Ordinary(SlotsOf(d), idx);
          return false;
        }
        idx := idx + 1;
      }
    }

    /** `fat12_removedir`. */
    method RemoveDir(path: CString) returns (r: int)
      requires Valid()
      modifies this`disk, this`o, this`ds, this`home
      ensures Valid()
      ensures r == match old(Resolve(T(), Keys(path)))
                   case None => -9
                   case Some(p) =>
                     if !IsDir(EntryIn(old(T()), p)) then -9
                     else if !Empty(old(T()), Cluster(EntryIn(old(T()), p))) then -11
                     else 0
      ensures r != 0 ==> o == old(o) && ds == old(ds) && home == old(home) && Table() == old(Table())
      ensures r == 0 ==> Erased(old(o), old(T()), old(Table()), o, T(), Table(), old(Resolve(T(), Keys(path))).value)
      ensures forall j: nat :: old(Good(j)) ==> Good(j)
    {
      hide Sound, WellFormed, TreeOf, Keys, Resolve, EntryAt, Coherent, Erased;
      var found, e, idx, parent := FindEntry(path);
      if !found {
        return -9;
      }
      ResolvedFacts(path);
      EntryOnVolume((parent, idx), e);
      if !IsDir(e) {
        return -9;
      }
      var empty := IsDirEmpty(Cluster(e));
      assert T().dirs[Cluster(e)] == SlotsOf(Cluster(e));
      assert empty <==> Empty(T(), Cluster(e));
      if !empty {
        return -11;
      }
      var ok := Erase(parent, idx, e);
      if !ok {
        return -1;
      }
      r := 0;
      forall f ensures Coherent(old(T()), f) ==> PlaceOf(f) != (parent, idx) {
        CoherentIsFile(old(T()), f, e);
      }
    }

    // ---------- making directories ----------

    /** `fat12_init_dir_cluster`. The rest of the cluster keeps what it held. */
    method InitDirCluster(c: nat, parent: nat)
      requires Sound() && c in o.secs && |SlotsOf(c)| >= 3 && c != 0
      modifies this`disk, this`o
      ensures Sound() && Table() == old(Table())
      ensures OnlyDir(old(o), o, c) && o.chains == old(o).chains && c in o.secs
      ensures FreshDir(SlotsOf(c), c, parent)
    {
      hide Sound, DirSlots, OnlyDir, NewEntry;
      ghost var o0, s0 := o, SlotsOf(c);
      ghost var m;
      var ok;
      ok, m := WriteDirEntry(c, 0, NewEntry(DOT_KEY, DIR, c, 0));
      NoGrowth(s0, m);
      ghost var o1, s1 := o, SlotsOf(c);
      ok, m := WriteDirEntry(c, 1, NewEntry(DOTDOT_KEY, DIR, parent, 0));
      NoGrowth(s1, m);
      OnlyDirTwice(o0, o1, o, c);
      ghost var o2, s2 := o, SlotsOf(c);
      ok, m := WriteDirEntry(c, 2, ZeroEntry());
      NoGrowth(s2, m);
      OnlyDirTwice(o0, o2, o, c);
    }

    /** A free cluster becomes an object that is laid out as an empty directory; `o1` is the state
        before its slots were written. */
    method NewDirObject(parent: nat) returns (c: int, ghost o1: Objs)
      requires Sound()
      modifies this`disk, this`o
      ensures Sound() && FirstFree(old(Table()), c)
      ensures c < 0 ==> o == old(o) && Table() == old(Table()) && FirstFree(Table(), -1)
      ensures c >= 0 ==> 2 <= c < 4080 && c in o.secs
      ensures c >= 0 ==> NewObject(old(o), o1, c) && OnlyDir(o1, o, c) && o.chains == o1.chains
      ensures c >= 0 ==> FreshDir(SlotsOf(c), c, parent)
      ensures c >= 0 ==> Table() == Set(old(Table()), c, 0xFFF) && old(Table())[c] == 0 && !FirstFree(old(Table()), -1)
    {
      c := AllocateObject();
      o1 := o;
      if c >= 0 {
        hide Sound, OnlyDir, FirstFree, FreshDir, DirSlots;
        InitDirCluster(c, parent);
      }
    }

    /** The part of `fat12_makedir` after the checks, as far as the drive is concerned: a cluster is taken
        and filled (`o1`, `o2`), the entry is added, and the cluster is given back if that fails. */
    method PlaceDir(parent: nat, key: Key) returns (idx: int, e: Raw, c: int, ghost o1: Objs, ghost o2: Objs)
      requires VolumeOk() && parent in o.secs && key[0] != 0 && key[0] != FREE
      modifies this`disk, this`o
      ensures Sound() && ds == old(ds) && home == old(home)
      ensures idx < 0 ==> VolumeOk() && o == old(o) && Table() == old(Table())
      ensures FirstFree(old(Table()), c)
      ensures c < 0 ==> idx < 0 && FirstFree(old(Table()), -1)
      ensures c >= 0 ==> c < 4080 && !FirstFree(old(Table()), -1)
      ensures c >= 0 ==> (idx < 0 <==> FirstReusable(old(SlotsOf(parent)), |old(SlotsOf(parent))|)
                                       && (parent == 0 || FirstFree(Set(old(Table()), c, 0xFFF), -1)))
      ensures idx >= 0 ==> old(Table())[c] == 0 && DirPlaced(g, old(o), o1, o2, o, parent, key, idx, e, c)
    {
      hide Sound, WellFormed, TreeOf, OnlyDir, NewObject, InsertedAt, FirstFree, FreshDir, Zeroed, NewEntry, DirSlots,
        FirstReusable, Set, Without;
      SoundFits();
      ghost var o0, fat := o, Table();
      idx, e := -1, ZeroEntry();
      c, o1 := NewDirObject(parent);
      o2 := o;
      if c >= 0 {
        SlotsBeside(g, o0, o1, o2, parent, c);
        idx, e := CreateEntry(parent, key, DIR, c, 0);
        if idx < 0 {
          GiveUp(o0, o1, o2, c);
          FreeObject(c);
          UndoTable(fat, c);
        }
      }
    }

    /** Records which objects are directories now, and where the entries of the objects are. */
    ghost method Register(ds1: set<nat>, home1: Homes)
      requires Sound() && (forall d :: d in ds1 ==> d in o.secs)
      requires WellFormed(TreeOf(g, o, ds1), home1, {})
      modifies this`ds, this`home
      ensures VolumeOk() && T() == TreeOf(g, o, ds1) && ds == ds1 && home == home1
    {
      hide WellFormed, TreeOf;
      ds := ds1;
      home := home1;
    }

    ghost method FinishDir(o0: Objs, o1: Objs, o2: Objs, fat: FatTable, path: CString, d: nat, i: nat, e: Raw, c: nat)
      requires Sound()
      requires c < 4096 && Keys(path) != [] && DirPlaced(g, o0, o1, o2, o, d, LastKey(path), i, e, c) && d in ds
      requires d < 4080
      requires forall x :: x in ds ==> x in o0.secs
      requires WellFormed(TreeOf(g, o0, ds), home, {})
      requires fat[c] == 0 && ParentOf(TreeOf(g, o0, ds), path) == Some(d)
      requires PathKey(LastKey(path)) && NameFree(TreeOf(g, o0, ds), d, LastKey(path))
      modifies this`ds, this`home
      ensures VolumeOk()
      ensures MadeDir(o0, TreeOf(g, o0, old(ds)), fat, o, T(), path)
      ensures forall f :: Coherent(TreeOf(g, o0, old(ds)), f) ==> Coherent(T(), f)
    {
      hide Sound, WellFormed, TreeOf, Keys, Walk, Coherent, NameFree, PathKey, MadeDir, DirPlaced, ParentOf, LastKey;
      MakeDirDone(g, o0, o1, o2, o, ds, home, fat, path, d, i, e, c);
      Register(ds + {c}, home[c := (d, i)]);
    }

    /** `fat12_makedir` after the checks. */
    method BuildDir(parent: nat, key: Key, ghost path: CString) returns (r: int)
      requires VolumeOk() && Keys(path) != [] && key == LastKey(path) && key[0] != FREE && PathKey(key)
      requires ParentOf(T(), path) == Some(parent) && parent in ds && NameFree(T(), parent, key)
      modifies this`disk, this`o, this`ds, this`home
      ensures VolumeOk()
      ensures r == 0 || r == -1
      ensures r == -1 <==> NoRoomForDir(old(T()), old(Table()), parent)
      ensures r != 0 ==> o == old(o) && ds == old(ds) && home == old(home) && Table() == old(Table())
      ensures r == 0 ==> MadeDir(old(o), old(T()), old(Table()), o, T(), path)
      ensures r == 0 ==> forall f :: Coherent(old(T()), f) ==> Coherent(T(), f)
    {
      assert key[0] != 0;
      hide Sound, WellFormed, TreeOf, Keys, Walk, Coherent, OnlyDir, NewObject, InsertedAt, FirstFree, FreshDir, Zeroed,
        NewEntry, NameFree, PathKey, MadeDir, DirSlots, Inserted, FirstReusable, NoRoomForDir, Set, ParentOf, LastKey,
        Fat, DirPlaced, DirFull;
      SoundFits();
      DirNumber(parent);
      ghost var o0, t0, fat := o, T(), Table();
      ghost var o1, o2;
      var idx, e, c;
      idx, e, c, o1, o2 := PlaceDir(parent, key);
      if c >= 0 {
        NoRoomFact(g, o0, ds, fat, parent, c);
      }
      if idx < 0 {
        return -1;
      }
      FinishDir(o0, o1, o2, fat, path, parent, idx, e, c);
      r := 0;
    }

    /** `fat12_makedir`. A call that fails leaves every FAT entry and every object as it was. */
    method MakeDir(path: CString) returns (r: int)
      requires Valid() && NameOk(path)
      modifies this`disk, this`o, this`ds, this`home
      ensures Valid()
      ensures r == if old(ParentOf(T(), path)).None? then -9
                   else if old(Resolve(T(), Keys(path))).Some?
                           || NoRoomForDir(old(T()), old(Table()), old(ParentOf(T(), path)).value) then -1
                   else 0
      ensures r != 0 ==> o == old(o) && ds == old(ds) && home == old(home) && Table() == old(Table())
      ensures r == 0 ==> MadeDir(old(o), old(T()), old(Table()), o, T(), path)
      ensures forall j: nat :: old(Good(j)) ==> Good(j)
    {
      hide Sound, WellFormed, TreeOf, Keys, Resolve, Walk, EntryAt, Coherent, NameFree, NoRoomForDir, MadeDir, PathKey;
      var ok, parent, key := ResolveParent(path);
      if !ok {
        return -9;
      }
      ParentFacts(path);
      var found, existing, i, d := FindEntry(path);
      if found {
        return -1;
      }
      r := BuildDir(parent, key, path);
    }

    lemma DirNumber(d: nat)
      requires VolumeOk() && d in ds
      ensures d < 4080
    {
      if d != 0 {
        LengthFact(d);
      }
    }

    // ---------- renaming ----------

    /** Every directory is stored. */
    ghost predicate Inside()
      reads this`o, this`ds
    {
      forall d :: d in ds ==> d in o.secs
    }

    /** `fat12_write_dir_entry` on a slot that exists. */
    method RewriteSlot(d: nat, i: nat, e: Raw)
      requires Sound() && Inside() && d in ds && i < |SlotsOf(d)|
      modifies this`disk, this`o
      ensures Sound() && Inside() && Table() == old(Table())
      ensures OnlyDir(old(o), o, d)
      ensures T() == WithSlot(old(T()), d, i, e)
    {
      hide Sound, TreeOf, DirSlots, OnlyDir;
      ghost var o0, s0 := o, SlotsOf(d);
      TreeDirs(g, o, ds, d);
      ghost var m;
      var ok;
      ok, m := WriteDirEntry(d, i, e);
      NoGrowth(s0, m);
      OnlyDirTree(g, o0, o, ds, d, i, e);
    }

    /** The part of `fat12_rename` that redirects the ".." of a moved directory. */
    method RedirectDotDot(x: nat, parent: nat)
      requires Sound() && Inside() && x in ds && 1 < |SlotsOf(x)|
      modifies this`disk, this`o
      ensures Sound() && Inside()
      ensures OnlyDir(old(o), o, x)
      ensures T() == WithSlot(old(T()), x, 1, WithCluster(old(SlotsOf(x))[1], parent))
    {
      hide Sound, TreeOf, DirSlots, OnlyDir;
      var found, dotdot := ReadDirEntry(x, 1);
      if found {
        RewriteSlot(x, 1, WithCluster(dotdot, parent));
      }
    }

    /** `fat12_create_entry` in a directory of the tree. */
    method AddEntry(parent: nat, key: Key, attr: byte, first: nat, size: nat) returns (idx: int, e: Raw)
      requires Sound() && Inside() && parent in ds
      requires key[0] != 0 && key[0] != FREE && first < 0x1_0000 && size < 0x1_0000_0000
      modifies this`disk, this`o
      ensures Sound() && Inside()
      ensures e == NewEntry(key, attr, first, size)
      ensures idx < 0 <==> DirFull(old(T()), old(Table()), parent)
      ensures idx < 0 ==> o == old(o) && Table() == old(Table())
      ensures idx >= 0 ==> OnlyDir(old(o), o, parent) && Inserted(old(T()), T(), parent, idx, e)
    {
      hide Sound, TreeOf, OnlyDir, InsertedAt, FirstReusable, FirstFree, DirSlots, NewEntry;
      ghost var o0 := o;
      TreeDirs(g, o, ds, parent);
      idx, e := CreateEntry(parent, key, attr, first, size);
      if idx >= 0 {
        OnlyDirWith(g, o0, o, ds, parent);
      }
    }

    /** The end of `fat12_rename`: the ".." of a moved directory is redirected, and the old entry
        becomes a tombstone. */
    method FinishMove(p: Place, e: Raw, parent: nat)
      requires Sound() && Inside() && p.0 in ds
      requires IsDir(e) ==> Cluster(e) in ds && Cluster(e) >= 2 && Cluster(e) in T().dirs && 1 < |T().dirs[Cluster(e)]|
      requires p.0 in Redirected(T(), e, parent).dirs && p.1 < |Redirected(T(), e, parent).dirs[p.0]|
      modifies this`disk, this`o
      ensures Sound() && Inside()
      ensures T() == WithSlot(Redirected(old(T()), e, parent), p.0, p.1, Tombstone(e))
      ensures DirsOnly(old(o), o, ds)
    {
      hide Sound, TreeOf, OnlyDir, DirsOnly, DirSlots;
      ghost var o0 := o;
      if IsDir(e) && Cluster(e) >= 2 {
        TreeDirs(g, o, ds, Cluster(e));
        RedirectDotDot(Cluster(e), parent);
        DirsOnlyStep(o0, o0, o, ds, Cluster(e));
      }
      ghost var o1 := o;
      TreeDirs(g, o, ds, p.0);
      RewriteSlot(p.0, p.1, Tombstone(e));
      DirsOnlyStep(o0, o1, o, ds, p.0);
    }

    /** The middle part of `fat12_rename`: the entry is copied to its new place, and taken away from the
        old one. */
    method MoveEntry(p: Place, e: Raw, parent: nat, key: Key) returns (idx: int, ghost t1: Tree)
      requires VolumeOk() && EntryAt(T(), p, e) && parent in ds && NameFree(T(), parent, key)
      requires PathKey(key) && key[0] != FREE
      modifies this`disk, this`o
      ensures Sound() && Inside()
      ensures idx < 0 <==> DirFull(old(T()), old(Table()), parent)
      ensures idx < 0 ==> o == old(o) && Table() == old(Table())
      ensures idx >= 0 ==> Renamed(old(T()), t1, T(), p, e, parent, idx, key)
      ensures idx >= 0 ==> WellFormed(T(), Rehomed(home, e, (parent, idx)), {})
      ensures idx >= 0 ==> DirsOnly(old(o), o, ds)
    {
      hide Sound, WellFormed, TreeOf, OnlyDir, DirsOnly, Inserted, DirFull, NameFree, DirSlots, EntryAt, Redirected,
        NewEntry;
      ghost var o0, t0 := o, T();
      EntryOnVolume(p, e);
      DirNumber(parent);
      FieldBounds(e);
      var f;
      idx, f := AddEntry(parent, key, Attr(e), Cluster(e), Size(e));
      t1 := T();
      if idx >= 0 {
        ghost var o1 := o;
        DirsOnlyStep(o0, o0, o1, ds, parent);
        RenameWF(t0, t1, home, p, e, parent, idx, key);
        if IsDir(e) {
          CopyKeepsDots(t0, t1, home, parent, idx, f, Cluster(e));
        }
        FinishMove(p, e, parent);
        DirsOnlyTwice(o0, o1, o, ds);
      }
    }

    /** The loop of `fat12_rename` over the handles: those whose path is spelled `oldpath` get the new one. */
    method RepathHandles(oldpath: CString, newpath: CString)
      requires |files| == MAX_OPEN_FILES
      modifies this`files
      ensures |files| == MAX_OPEN_FILES
      ensures forall j :: 0 <= j < MAX_OPEN_FILES ==> files[j] == Repathed(old(files)[j], oldpath, newpath)
    {
      for i := 0 to MAX_OPEN_FILES
        invariant |files| == MAX_OPEN_FILES
        invariant forall j :: 0 <= j < i ==> files[j] == Repathed(old(files)[j], oldpath, newpath)
        invariant forall j :: i <= j < MAX_OPEN_FILES ==> files[j] == old(files)[j]
      {
        if files[i].used && files[i].path == oldpath {
          files := files[i := files[i].(path := PathBuffer(newpath))];
        }
      }
    }

    /** `fat12_rename` after the checks. */
    method CompleteRename(oldpath: CString, newpath: CString, p: Place, e: Raw, parent: nat, key: Key) returns (r: int)
      requires Valid() && EntryAt(T(), p, e) && Resolve(T(), Keys(oldpath)) == Some(p)
      requires Keys(newpath) != [] && key == LastKey(newpath) && PathKey(key) && key[0] != FREE
      requires ParentOf(T(), newpath) == Some(parent) && parent in ds && NameFree(T(), parent, key)
      modifies this`disk, this`o, this`home, this`files
      ensures Valid()
      ensures r == if DirFull(old(T()), old(Table()), parent) then -1 else 0
      ensures r != 0 ==> o == old(o) && home == old(home) && files == old(files) && Table() == old(Table())
      ensures r == 0 ==> Moved(old(o), old(T()), o, T(), ds, oldpath, newpath)
      ensures r == 0 ==> forall j :: 0 <= j < |files| ==> files[j] == Repathed(old(files)[j], oldpath, newpath)
      ensures r == 0 ==> forall j :: 0 <= j < |files| && files[j].used && old(Good(j)) ==>
                (Good(j) <==> PlaceOf(files[j]) != p)
    {
      hide Sound, WellFormed, TreeOf, Keys, Resolve, Walk, EntryAt, Coherent, NameFree, DirFull, PathKey, Renamed,
        DirsOnly, Moved, LastKey, ParentOf, Rehomed;
      ghost var o0, t0, home0 := o, T(), home;
      ghost var t1;
      var idx;
      idx, t1 := MoveEntry(p, e, parent, key);
      if idx < 0 {
        return -1;
      }
      home := Rehomed(home, e, (parent, idx));
      MovedHere(o0, t0, o, T(), ds, oldpath, newpath, p, e, parent, idx, t1);
      MovedHandlesAll(t0, t1, T(), home0, p, e, parent, idx, key, oldpath, newpath);
      RepathHandles(oldpath, newpath);
      r := 0;
    }

    /** `fat12_rename`. The handles that stay good are exactly those that are not on the renamed entry. */
    method Rename(oldpath: CString, newpath: CString) returns (r: int)
      requires Valid() && NameOk(newpath)
      modifies this`disk, this`o, this`home, this`files
      ensures Valid()
      ensures r == if old(Resolve(T(), Keys(oldpath))).None? then -9
                   else if old(Resolve(T(), Keys(newpath))).Some? then -1
                   else if old(ParentOf(T(), newpath)).None? then -9
                   else if DirFull(old(T()), old(Table()), old(ParentOf(T(), newpath)).value) then -1
                   else 0
      ensures r != 0 ==> o == old(o) && home == old(home) && files == old(files) && Table() == old(Table())
      ensures r == 0 ==> Moved(old(o), old(T()), o, T(), ds, oldpath, newpath)
      ensures r == 0 ==> forall j :: 0 <= j < |files| ==> files[j] == Repathed(old(files)[j], oldpath, newpath)
      ensures r == 0 ==> forall j :: 0 <= j < |files| && files[j].used && old(Good(j)) ==>
                (Good(j) <==> PlaceOf(files[j]) != old(Resolve(T(), Keys(oldpath))).value)
    {
      hide Sound, WellFormed, TreeOf, Keys, Resolve, Walk, EntryAt, Coherent, NameFree, DirFull, PathKey, Renamed,
        DirsOnly, Repathed, Moved;
      var found, e, idx, dir := FindEntry(oldpath);
      if !found {
        return -9;
      }
      ResolvedFacts(oldpath);
      var exists_, e', idx', dir' := FindEntry(newpath);
      if exists_ {
        return -1;
      }
      var ok, parent, key := ResolveParent(newpath);
      if !ok {
        return -9;
      }
      ParentFacts(newpath);
      r := CompleteRename(oldpath, newpath, (dir, idx), e, parent, key);
    }

    // ---------- listing ----------

    /** The loop of `fat12_listcontent` over a directory. */
    method ListDirectory(d: nat, count: nat) returns (items: seq<Item>)
      requires Sound() && d in o.secs
      ensures items == Listing(SlotsOf(d))[..Min(count, |Listing(SlotsOf(d))|)]
    {
      hide Sound, ListFrom, DirSlots, IsDot, Attr, FromKey, CutAtNul, KeyOf;
      items := [];
      var idx := 0;
      while |items| < count
        invariant idx <= |SlotsOf(d)| && NoEnd(SlotsOf(d), idx) && |items| <= count
        invariant Listing(SlotsOf(d)) == items + ListFrom(SlotsOf(d), idx)
        decreases |SlotsOf(d)| - idx
      {
        var found, e := ReadDirEntry(d, idx);
        if !found || e[0] == 0 {
          ListEnds(SlotsOf(d), idx);
          assert Listing(SlotsOf(d)) == items;
          return;
        }
        ListStep(SlotsOf(d), idx, items);
        if e[0] == FREE || Attr(e) == LFN || IsDot(e) {
          idx := idx + 1;
          continue;
        }
        var name := FromFat12Name(KeyOf(e));
        items := items + [Item(IsDir(e), CutAtNul(name))];
        idx := idx + 1;
      }
    }

    /** `fat12_listcontent`. A directory lists its ordinary entries in slot order, a file lists itself. */
    method ListContent(path: CString, count: nat) returns (r: int, items: seq<Item>)
      requires VolumeOk()
      ensures r == 0 ==> items == ListedAt(T(), path)[..Min(count, |ListedAt(T(), path)|)]
      ensures r == if path == [] || path == [0x2F] || path == [0x2F, 0x2E] then 0
                   else if Resolve(T(), Keys(path)).Some? then 0 else -9
      ensures r != 0 ==> items == []
    {
      hide Sound, WellFormed, TreeOf, Keys, Resolve, Listing, DirSlots, FromKey, CutAtNul, KeyOf, IsDir, Cluster;
      r, items := 0, [];
      if path == [SLASH] || path == [] || path == [SLASH, DOT] {
        RootInside();
        items := ListDirectory(0, count);
        return;
      }
      var found, e, idx, dir := FindEntry(path);
      if !found {
        return -9, [];
      }
      ResolvedFacts(path);
      EntryOnVolume((dir, idx), e);
      if IsDir(e) {
        items := ListDirectory(Cluster(e), count);
      } else if count > 0 {
        var name := FromFat12Name(KeyOf(e));
        items := [Item(false, CutAtNul(name))];
      }
    }

    lemma RootInside()
      requires VolumeOk()
      ensures 0 in o.secs && 0 in T().dirs && T().dirs[0] == SlotsOf(0)
    {
    }
  }
}
