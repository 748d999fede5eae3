// The first volume, and concrete runs in which the promises that do not hold in full are broken.
module Witnesses {
  import opened Disk
  import opened Chains
  import opened Objects
  import opened Directory
  import opened Names
  import opened Paths
  import opened Tree
  import opened Store
  import opened Lookup
  import opened Namespace
  import opened View
  import opened Fat12
  import opened Session
  import opened Client
  import opened Options

  // ---------- a freshly mounted volume ----------

  /** A drive whose sectors behind the boot sector and the other reserved ones are all zero, with room for
      one root entry. */
  ghost predicate Blank(drive: seq<Sector>) {
    && |drive| > 0 && GeometryOf(drive[0], 4079).Fits(drive) && GeometryOf(drive[0], 4079).rootEntries > 0
    && forall i :: GeometryOf(drive[0], 4079).reserved <= i < |drive| ==> drive[i] == ZeroSector()
  }

  /** What a client knows of an empty volume. */
  ghost function EmptyClient(): Client {
    Client(View(iset{[]}, imap[]), seq(MAX_OPEN_FILES, _ => None))
  }

  /** A tree whose one directory is the root, without any used slot. */
  ghost predicate BareTree(t: Tree) {
    t.dirs.Keys == {0} && |t.dirs[0]| > 0 && t.dirs[0][0][0] == 0
  }

  lemma BareScan(t: Tree, key: Key)
    requires BareTree(t)
    ensures Scan(t.dirs[0], key) < 0
  {
    ScanFails(t.dirs[0], key);
  }

  lemma BareNamed(t: Tree, ks: Path)
    requires BareTree(t)
    ensures Walk(t, ks) == if ks == [] then Some(0) else None
    ensures Named(t, ks).None? && Resolve(t, ks).None?
    decreases |ks|
  {
    if ks != [] {
      BareNamed(t, Init(ks));
      BareScan(t, Last(ks));
    }
  }

  lemma BareView(o: Objs, t: Tree)
    requires BareTree(t)
    ensures ViewOf(o, t) == View(iset{[]}, imap[]) && Rooted(t)
  {
    hide ViewOf, Walk, Named, BareTree;
    var empty := View(iset{[]}, imap[]);
    forall ks: Path ensures SeenAt(ViewOf(o, t), empty, ks) {
      ViewAt(o, t, ks);
      BareNamed(t, ks);
    }
    ViewsEqual(ViewOf(o, t), empty);
    BareRooted(t);
  }

  lemma BareRooted(t: Tree)
    requires BareTree(t)
    ensures Rooted(t)
  {
    var ks: Path := [];
    assert PathKeys(ks) && Walk(t, ks) == Some(0);
  }

  lemma BlankBare(g: Geometry, o: Objs)
    requires g.rootEntries > 0 && o == Objs(map[], map[0 := Zeros(g.RootSectors())], {})
    ensures BareTree(TreeOf(g, o, {0}))
  {
    var s := DirSlots(g, 0, o.secs[0]);
    assert o.secs[0][0] == ZeroSector();
    assert s[0][0] == 0;
    assert TreeOf(g, o, {0}).dirs == map[0 := s];
  }

  /** A freshly mounted blank drive is clean and shows an empty root directory. */
  method Mount(drive: seq<Sector>) returns (v: Volume)
    requires Blank(drive)
    ensures fresh(v) && Matches(v, EmptyClient()) && v.o.lost == {}
    ensures BareTree(v.T()) && forall c :: 0 <= c < 4096 ==> v.Table()[c] == 0
    ensures forall i :: 0 <= i < |v.files| ==> !v.files[i].used
  {
    ghost var g := GeometryOf(drive[0], 4079);
    ghost var o := Objs(map[], map[0 := Zeros(g.RootSectors())], {});
    BlankDrive(g, drive);
    BlankFat(g, drive);
    BlankBare(g, o);
    BareView(o, TreeOf(g, o, {0}));
    hide Mountable, Blank, Volume.VolumeOk, TreeOf, ViewOf, Rooted, BareTree;
    v := new Volume(drive, 4079, o, {0}, map[]);
  }

  /** A boot sector: one sector per cluster, two FATs of 12 sectors, 16 root entries. */
  function BootSector(): (s: Sector)
    ensures s[13] == s[14] == 1 && s[15] == 0 && s[16] == 2 && s[17] == 16 && s[18] == 0 && s[22] == 12 && s[23] == 0
  {
    seq(512, i requires 0 <= i < 512 => BootByte(i))
  }

  function BootByte(i: nat): byte {
    match i
    case 13 => 1
    case 14 => 1
    case 16 => 2
    case 17 => 16
    case 22 => 12
    case _ => 0
  }

  function SampleDrive(): seq<Sector> { [BootSector()] + seq(4103, _ => ZeroSector()) }

  lemma BootGeometry()
    ensures GeometryOf(BootSector(), 4079) == Geometry(1, 1, 2, 16, 12, 4079)
  {
    hide BootSector;
  }

  lemma SampleRegions(g: Geometry)
    requires g == Geometry(1, 1, 2, 16, 12, 4079)
    ensures g.RootStart() == 25 && g.RootSectors() == 1 && Times(g.last - 1, g.spc) == 4078
  {
    hide Times;
    TimesIsProduct(g.numFats, g.spf);
    TimesIsProduct(g.last - 1, g.spc);
  }

  lemma SampleBlank()
    ensures Blank(SampleDrive())
  {
    hide BootSector, GeometryOf, Times, Geometry.RootStart, Geometry.RootSectors;
    var g := GeometryOf(SampleDrive()[0], 4079);
    assert SampleDrive()[0] == BootSector();
    BootGeometry();
    SampleRegions(g);
    assert g.Ok() && g.Fits(SampleDrive());
  }

  // ---------- a directory that is moved below itself ----------

  /** On a clean volume, the driver carries out a rename of a directory to a free path below itself when its
      parent there has room. Then the new path names nothing, and some directory cannot be reached. */
  method RenameBelowItself(v: Volume, a: CString, b: CString) returns (r: int)
    requires Clean(v) && NameOk(b) && Keys(a) != [] && Keys(a) in Seen(v).dirs && Keys(a) <= Keys(b)
    requires HasParent(Seen(v), Keys(b)) && !HasPath(Seen(v), Keys(b))
    requires ParentOf(v.T(), b).Some? && !DirFull(v.T(), v.Table(), ParentOf(v.T(), b).value)
    modifies v
    ensures r == 0 && v.Valid()
    ensures !Rooted(v.T()) && !HasPath(Seen(v), Keys(a)) && !HasPath(Seen(v), Keys(b))
  {
    hide WellFormed, Volume.Sound, TreeOf, ViewOf, Keys, Resolve, Rooted, Coherent, Moved, ParentOf, DirFull,
      PathsFollow, Shifted, HasParent;
    ghost var o0, home0, t0 := v.o, v.home, v.T();
    CleanTree(v);
    ViewCodes(v.o, v.T(), a);
    ViewCodes(v.o, v.T(), b);
    r := v.Rename(a, b);
    CleanTree(v);
    RenameEffect(v.g, o0, v.ds, home0, v.o, v.home, a, b);
    ShiftedGone(ViewOf(o0, t0), Keys(a), Keys(b));
  }

  lemma ShiftedGone(v: View, src: Path, dst: Path)
    requires src <= dst
    ensures !HasPath(Shifted(v, src, dst), src) && !HasPath(Shifted(v, src, dst), dst)
  {
  }

  const A: byte := 0x41

  /** The path A. */
  function PathA(): CString { [A] }

  /** The path A/A. */
  function PathAA(): CString { [A, SLASH, A] }

  lemma KeysA()
    ensures |Keys(PathA())| == 1 && Keys(PathAA()) == Keys(PathA()) + Keys(PathA())
    ensures NameOk(PathA()) && NameOk(PathAA())
  {
    var a, aa := PathA(), PathAA();
    FirstRun(a, 1);
    FirstRun(aa, 1);
    assert a[..1] == a && aa[..1] == a && Cut(a) == a;
    assert a[1..] == [] && aa[1..][1..] == a;
    assert Components(a) == [a] && Components(aa) == [a, a];
    KeyStart(a);
    assert Keys(a)[0] == ToKey(a) && Keys(aa)[0] == ToKey(a) && Keys(aa)[1] == ToKey(a);
  }

  lemma BareRoom(t: Tree, fat: FatTable)
    requires BareTree(t) && forall c :: 0 <= c < 4096 ==> fat[c] == 0
    ensures !NoRoomForDir(t, fat, 0) && !DirFull(t, fat, 0)
  {
    assert fat[2] == 0;
  }

  lemma FreshRoom(t: Tree, fat: FatTable, c: nat, d: nat)
    requires c in t.dirs && FreshDir(t.dirs[c], c, d)
    ensures !DirFull(t, fat, c)
  {
  }

  lemma BareParent(t: Tree)
    ensures ParentOf(t, PathA()) == Some(0)
  {
    hide PathA, Components;
    KeysA();
  }

  /** Once A is a directory without entries, it is the parent of A/A and has room for it. */
  lemma ParentAA(o: Objs, t: Tree, fat: FatTable, v: View)
    requires ViewOf(o, t) == WithPath(v, Keys(PathA()), true) && v == View(iset{[]}, imap[])
    requires exists c, d :: Walk(t, Keys(PathA())) == Some(c) && c in t.dirs && FreshDir(t.dirs[c], c, d)
    ensures HasParent(ViewOf(o, t), Keys(PathAA())) && !HasPath(ViewOf(o, t), Keys(PathAA()))
    ensures ParentOf(t, PathAA()).Some? && !DirFull(t, fat, ParentOf(t, PathAA()).value)
    ensures Keys(PathA()) <= Keys(PathAA()) && Keys(PathA()) != [] && Keys(PathA()) in ViewOf(o, t).dirs
  {
    hide PathA, PathAA, Keys, ViewOf, Walk, FreshDir, DirFull;
    KeysA();
    assert Keys(PathAA())[..|Keys(PathAA())| - 1] == Keys(PathA());
    var c, d :| Walk(t, Keys(PathA())) == Some(c) && c in t.dirs && FreshDir(t.dirs[c], c, d);
    FreshRoom(t, fat, c, d);
  }

  /** makedir("A") on a blank drive. */
  method MountWithA() returns (v: Volume, r: int)
    ensures fresh(v) && Clean(v) && r == 0
    ensures Keys(PathA()) in Seen(v).dirs && HasParent(Seen(v), Keys(PathAA())) && !HasPath(Seen(v), Keys(PathAA()))
    ensures ParentOf(v.T(), PathAA()).Some? && !DirFull(v.T(), v.Table(), ParentOf(v.T(), PathAA()).value)
  {
    hide Keys, NameOk, Blank, Volume.VolumeOk, TreeOf, ViewOf, Rooted, Coherent, NoRoomForDir, DirFull, FreshDir,
      BareTree, Walk, Resolve, HandlesShown, PathA, PathAA, Apart, PathsBut;
    SampleBlank();
    KeysA();
    v := Mount(SampleDrive());
    CleanTree(v);
    BareRoom(v.T(), v.Table());
    BareParent(v.T());
    ViewCodes(v.o, v.T(), PathA());
    r := StepMakeDir(v, PathA());
    CleanTree(v);
    ParentAA(v.o, v.T(), v.Table(), EmptyClient().view);
  }

  /** A run of two calls on a blank drive, makedir("A") and rename("A", "A/A"): both succeed, and the
      directory is lost. */
  method LostDirectory() returns (v: Volume, r: int, s: int)
    ensures fresh(v) && v.Valid() && r == 0 && s == 0
    ensures !Rooted(v.T()) && !HasPath(Seen(v), Keys(PathA())) && !HasPath(Seen(v), Keys(PathAA()))
  {
    hide Keys, NameOk, Clean, Seen, Volume.T, Volume.VolumeOk, DirFull, PathA, PathAA, HasParent, HasPath, Rooted;
    KeysA();
    v, r := MountWithA();
    s := RenameBelowItself(v, PathA(), PathAA());
  }

  // ---------- an open file that is removed ----------

  /** On a clean volume, a file that was just created and is still open is removed under the spelling of its
      path with a slash in front; only another handle without clusters and of that spelling prevents it.
      The open handle is stale then. */
  method RemoveWhileOpen(v: Volume, path: CString) returns (fd: int, r: int)
    requires Clean(v) && NameOk(path) && Resolve(v.T(), Keys(path)).None? && Openable(v, path)
    requires forall i :: 0 <= i < |v.files| && v.files[i].used && v.files[i].first == 0 ==>
              v.files[i].path != [SLASH] + path
    modifies v
    ensures 3 <= fd < 3 + MAX_OPEN_FILES && |v.files| == MAX_OPEN_FILES && FirstUnused(old(v.files), fd - 3) && r == 0
    ensures v.files[fd - 3].used && !v.Good(fd - 3) && v.Valid()
  {
    hide WellFormed, Volume.Sound, TreeOf, Keys, Resolve, Rooted, Coherent, OpenedAs, OnlyDir, CanOpen, PathsBut,
      Erased;
    ghost var t0, home0 := v.T(), v.home;
    CleanTree(v);
    fd := v.Open(path);
    CleanTree(v);
    OtherSpelling(path);
    OpenedEmpty(t0, home0, v.T(), v.home, v.o, path, v.files[fd - 3]);
    ghost var k: nat := fd - 3;
    r := v.RemoveFile([SLASH] + path);
    assert !v.Good(k);
  }

  /** A file that open created has no cluster, and its path names its entry. */
  lemma OpenedEmpty(t: Tree, home: Homes, t': Tree, home': Homes, o': Objs, path: CString, f: OpenFile)
    requires WellFormed(t, home, {}) && WellFormed(t', home', {}) && Resolve(t, Keys(path)).None?
    requires OpenedAs(t, t', path, f)
    ensures Resolve(t', Keys(path)) == Some(PlaceOf(f)) && f.used && f.first == 0 && f.path != [SLASH] + path
    ensures !IsDir(EntryIn(t', PlaceOf(f))) && Cluster(EntryIn(t', PlaceOf(f))) == 0
  {
    hide WellFormed, Inserted, Keys, Resolve, Walk, NewEntry, Named;
    OpenedHolds(t, home, t', home', o', path, f);
    NamedResolve(t', Keys(path));
    InsertedSlot(t, t', f.parent, f.idx, NewEntry(LastKey(path), 0, 0, 0));
    var x :| EntryAt(t', (f.parent, f.idx), x) && !IsDir(x) && f == Opened(path, x, f.parent, f.idx);
    EntryAtSlot(t', PlaceOf(f), x);
    assert |f.path| != |[SLASH] + path|;
  }

  /** A run of two calls on a blank drive, open("A") and removefile("/A"): both succeed, although the file is
      open. */
  method LostFile() returns (v: Volume, fd: int, r: int)
    ensures fresh(v) && v.Valid() && 3 <= fd < 3 + MAX_OPEN_FILES && r == 0
    ensures v.files[fd - 3].used && !v.Good(fd - 3)
  {
    hide Keys, NameOk, Clean, Seen, Blank, Volume.VolumeOk, Volume.T, Volume.Good, Coherent, BareTree, Resolve,
      HandlesShown, PathA, CanOpen, Openable;
    SampleBlank();
    KeysA();
    v := Mount(SampleDrive());
    BareOpen(v);
    fd, r := RemoveWhileOpen(v, PathA());
  }

  lemma BareOpen(v: Volume)
    requires Clean(v) && BareTree(v.T()) && forall c :: 0 <= c < 4096 ==> v.Table()[c] == 0
    requires forall i :: 0 <= i < |v.files| ==> !v.files[i].used
    ensures Resolve(v.T(), Keys(PathA())).None? && v.Valid() && Openable(v, PathA())
  {
    hide BareTree, PathA, Keys, DirFull, Resolve, TreeOf, WellFormed, Rooted;
    BareNamed(v.T(), Keys(PathA()));
    BareParent(v.T());
    BareRoom(v.T(), v.Table());
    assert !v.files[0].used;
  }
}
