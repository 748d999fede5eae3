// Whole calls seen by a client: what each call does to the view, and what every run of calls keeps.
module Session {
  import opened Disk
  import opened Chains
  import opened Objects
  import opened Directory
  import opened Names
  import opened Paths
  import opened Tree
  import opened Store
  import opened Lookup
  import opened Namespace
  import opened View
  import opened Fat12
  import opened Options

  /** The objects `o` with directories `ds` form a well-formed tree. */
  ghost predicate TreeOk(g: Geometry, o: Objs, ds: set<nat>, home: Homes) {
    (forall d :: d in ds ==> d in o.secs) && WellFormed(TreeOf(g, o, ds), home, {})
  }

  /** An ordinary file entry is empty or names a stored file. */
  lemma FileEntry(g: Geometry, o: Objs, ds: set<nat>, home: Homes, r: Place, h: Raw)
    requires TreeOk(g, o, ds, home) && EntryAt(TreeOf(g, o, ds), r, h) && !IsDir(h)
    ensures if Cluster(h) == 0 then Size(h) == 0
            else Cluster(h) in o.secs && Cluster(h) !in ds && Cluster(h) in home && home[Cluster(h)] == r
  {
    EntryFacts(TreeOf(g, o, ds), home, r, h);
  }

  lemma DirsKeepContents(g: Geometry, o: Objs, ds: set<nat>, home: Homes, o': Objs)
    requires TreeOk(g, o, ds, home) && forall x :: x in o.secs && x !in ds ==> x in o'.secs && o'.secs[x] == o.secs[x]
    ensures SameContents(o, o', TreeOf(g, o, ds))
  {
    forall r, h | EntryAt(TreeOf(g, o, ds), r, h) && !IsDir(h) ensures Contents(o', h) == Contents(o, h) {
      FileEntry(g, o, ds, home, r, h);
    }
  }

  /** The keys of a path are path keys, and the path leads to its parent directory. */
  lemma PathLeads(t: Tree, path: CString, d: nat)
    requires ParentOf(t, path) == Some(d)
    ensures Leads(t, Keys(path), d, LastKey(path))
  {
    KeysOk(path);
  }

  lemma KeysOk(path: CString)
    ensures PathKeys(Keys(path))
  {
    forall i | 0 <= i < |Keys(path)| ensures PathKey(Keys(path)[i]) {
      KeysStart(path, i);
    }
  }

  // ---------- open ----------

  /** Opening shows an existing file as it is, and creates a missing one without contents. */
  lemma OpenEffect(g: Geometry, o: Objs, ds: set<nat>, home: Homes, o': Objs, path: CString, f: OpenFile)
    requires TreeOk(g, o, ds, home) && TreeOk(g, o', ds, home)
    requires OpenedAs(TreeOf(g, o, ds), TreeOf(g, o', ds), path, f)
    requires o' == o || OnlyDir(o, o', f.parent)
    ensures var v := ViewOf(o, TreeOf(g, o, ds));
            ViewOf(o', TreeOf(g, o', ds)) == if Keys(path) in v.files then v else WithPath(v, Keys(path), false)
  {
    hide WellFormed, TreeOf, ViewOf, Inserted, OnlyDir, Keys, Resolve, Walk;
    var t, t' := TreeOf(g, o, ds), TreeOf(g, o', ds);
    KeysOk(path);
    if Resolve(t, Keys(path)).Some? {
      OpenOld(g, o, ds, home, o', path, f);
    } else {
      OpenNew(g, o, ds, home, o', path, f);
    }
  }

  lemma OpenedDirs(g: Geometry, o: Objs, ds: set<nat>, home: Homes, o': Objs, path: CString, f: OpenFile)
    requires TreeOk(g, o, ds, home) && TreeOk(g, o', ds, home)
    requires OpenedAs(TreeOf(g, o, ds), TreeOf(g, o', ds), path, f)
    requires o' == o || OnlyDir(o, o', f.parent)
    ensures SameContents(o, o', TreeOf(g, o, ds))
    ensures TreeOf(g, o', ds).dirs.Keys == TreeOf(g, o, ds).dirs.Keys
  {
    hide WellFormed;
    var e :| EntryAt(TreeOf(g, o', ds), (f.parent, f.idx), e);
    assert f.parent in ds;
    assert forall x :: x in o.secs && x !in ds ==> x in o'.secs && o'.secs[x] == o.secs[x];
    DirsKeepContents(g, o, ds, home, o');
  }

  lemma OpenOld(g: Geometry, o: Objs, ds: set<nat>, home: Homes, o': Objs, path: CString, f: OpenFile)
    requires TreeOk(g, o, ds, home) && TreeOk(g, o', ds, home)
    requires OpenedAs(TreeOf(g, o, ds), TreeOf(g, o', ds), path, f)
    requires Resolve(TreeOf(g, o, ds), Keys(path)).Some?
    requires o' == o || OnlyDir(o, o', f.parent)
    ensures var v := ViewOf(o, TreeOf(g, o, ds));
            Keys(path) in v.files && ViewOf(o', TreeOf(g, o', ds)) == v
  {
    hide WellFormed, TreeOf, ViewOf, Inserted, OnlyDir, Keys, Resolve, Walk, TreeOk, Named;
    var t := TreeOf(g, o, ds);
    OpenedDirs(g, o, ds, home, o', path, f);
    KeysOk(path);
    NamedResolve(t, Keys(path));
    var e :| EntryAt(t, (f.parent, f.idx), e) && !IsDir(e);
    EntryAtSlot(t, (f.parent, f.idx), e);
    ViewAt(o, t, Keys(path));
    SameView(o, o', t);
  }

  lemma SameView(o: Objs, o': Objs, t: Tree)
    requires SameContents(o, o', t)
    ensures ViewOf(o', t) == ViewOf(o, t)
  {
    hide Named, Contents, EntryAt, ViewOf;
    forall ks: Path ensures SeenAt(ViewOf(o', t), ViewOf(o, t), ks) {
      ViewAt(o, t, ks);
      ViewAt(o', t, ks);
      if PathKeys(ks) && Named(t, ks).Some? {
        NamedEntry(t, ks);
      }
    }
    ViewsEqual(ViewOf(o', t), ViewOf(o, t));
  }

  lemma OpenNew(g: Geometry, o: Objs, ds: set<nat>, home: Homes, o': Objs, path: CString, f: OpenFile)
    requires TreeOk(g, o, ds, home) && TreeOk(g, o', ds, home)
    requires OpenedAs(TreeOf(g, o, ds), TreeOf(g, o', ds), path, f)
    requires Resolve(TreeOf(g, o, ds), Keys(path)).None?
    requires o' == o || OnlyDir(o, o', f.parent)
    ensures var v := ViewOf(o, TreeOf(g, o, ds));
            Keys(path) !in v.files && ViewOf(o', TreeOf(g, o', ds)) == WithPath(v, Keys(path), false)
  {
    hide WellFormed, TreeOf, ViewOf, Inserted, OnlyDir, Keys, Resolve, Walk, Named, NewEntry, Leads, NameFree, PathKeys;
    var t, t', q := TreeOf(g, o, ds), TreeOf(g, o', ds), (f.parent, f.idx);
    var e := NewEntry(LastKey(path), 0, 0, 0);
    OpenedDirs(g, o, ds, home, o', path, f);
    PathLeads(t, path, f.parent);
    NamedResolve(t, Keys(path));
    ViewAt(o, t, Keys(path));
    FreeAt(t, path, f.parent);
    InsertedAdds(t, t', f.parent, f.idx, e);
    AddedView(o, t, home, o', t', home, q, e, Keys(path));
  }

  lemma FreeAt(t: Tree, path: CString, d: nat)
    requires ParentOf(t, path) == Some(d) && Resolve(t, Keys(path)).None? && d in t.dirs
    ensures NameFree(t, d, LastKey(path)) && PathKey(LastKey(path))
  {
    KeysStart(path, |Keys(path)| - 1);
    ScanFails(t.dirs[d], LastKey(path));
  }

  // ---------- write ----------

  /** A write changes one entry, and there neither the name nor the kind. */
  lemma WriteChanges(o: Objs, t: Tree, f: OpenFile, o': Objs, t': Tree, f': OpenFile, ds: set<nat>, buf: seq<byte>,
                     n: nat)
    requires Progress(o, t, f, o', t', f', ds, buf, n) && Coherent(t, f)
    ensures Changes(t, t', PlaceOf(f), EntryIn(t, PlaceOf(f)), EntryIn(t', PlaceOf(f)))
    ensures Agrees(f, EntryIn(t, PlaceOf(f))) && Agrees(f', EntryIn(t', PlaceOf(f)))
  {
    hide Splice, FileBytes, FilesSame, EntryAt, SlotOnly;
    var e :| EntryAt(t, (f.parent, f.idx), e) && Agrees(f, e);
    var e' :| EntryAt(t', (f'.parent, f'.idx), e') && Agrees(f', e');
    EntryAtSlot(t, PlaceOf(f), e);
    EntryAtSlot(t', PlaceOf(f), e');
    SlotChanges(t, t', f.parent, f.idx, e, e');
  }

  lemma SlotChanges(t: Tree, t': Tree, d: nat, i: nat, e: Raw, e': Raw)
    requires SlotOnly(t, t', d, i) && EntryAt(t, (d, i), e) && EntryAt(t', (d, i), e')
    ensures KeyOf(e') == KeyOf(e)
    ensures forall r, h :: EntryAt(t', r, h) <==> (r == (d, i) && h == e') || (r != (d, i) && EntryAt(t, r, h))
  {
    assert e'[..12] == e'[..26][..12] == e[..26][..12] == e[..12];
    assert KeyOf(e') == e'[..12][..11] == KeyOf(e);
    SlotsUpdate(t.dirs[d], i, e');
  }

  lemma WriteKeepsOthers(g: Geometry, o: Objs, ds: set<nat>, home: Homes, o': Objs, f: OpenFile, f': OpenFile, e: Raw,
                         r: Place, h: Raw)
    requires TreeOk(g, o, ds, home) && EntryAt(TreeOf(g, o, ds), PlaceOf(f), e) && Agrees(f, e)
    requires FilesSame(o, o', ds, f'.first)
    requires (f.first != 0 ==> f'.first == f.first) && (f.first == 0 && f'.first != 0 ==> f'.first !in o.secs)
    requires r != PlaceOf(f) && EntryAt(TreeOf(g, o, ds), r, h) && !IsDir(h)
    ensures Contents(o', h) == Contents(o, h)
  {
    hide TreeOk, EntryAt;
    FileEntry(g, o, ds, home, PlaceOf(f), e);
    FileEntry(g, o, ds, home, r, h);
  }

  /** A write splices its bytes into the file at the cursor, and no other file or directory changes. */
  lemma WriteEffect(g: Geometry, o: Objs, ds: set<nat>, home: Homes, o': Objs, home': Homes, f: OpenFile, f': OpenFile,
                    buf: seq<byte>, n: nat)
    requires TreeOk(g, o, ds, home) && TreeOk(g, o', ds, home')
    requires Progress(o, TreeOf(g, o, ds), f, o', TreeOf(g, o', ds), f', ds, buf, n) && Coherent(TreeOf(g, o, ds), f)
    ensures n <= |buf| && f.cursor <= |HandleBytes(o, f)|
    ensures ViewOf(o', TreeOf(g, o', ds)) ==
              Rewrote(ViewOf(o, TreeOf(g, o, ds)), TreeOf(g, o, ds), PlaceOf(f), EntryIn(TreeOf(g, o, ds), PlaceOf(f)),
                      Splice(HandleBytes(o, f), f.cursor, buf[..n]))
  {
    hide WellFormed, TreeOf, ViewOf, FilesSame, EntryAt, Rewrote, FileBytes, Splice, EntryIn, Coherent;
    var t, t', p := TreeOf(g, o, ds), TreeOf(g, o', ds), PlaceOf(f);
    var e := EntryIn(t, p);
    WriteChanges(o, t, f, o', t', f', ds, buf, n);
    ChangedKinds(t, t', p, e, EntryIn(t', p));
    forall r, h | r != p && EntryAt(t, r, h) && !IsDir(h) ensures Contents(o', h) == Contents(o, h) {
      WriteKeepsOthers(g, o, ds, home, o', f, f', e, r, h);
    }
    ChangedView(o, t, home, o', t', home', p, e, EntryIn(t', p));
  }

  lemma WriteKeepsHandles(o: Objs, t: Tree, f: OpenFile, o': Objs, t': Tree, f': OpenFile, ds: set<nat>,
                          buf: seq<byte>, n: nat, x: OpenFile)
    requires Progress(o, t, f, o', t', f', ds, buf, n) && Coherent(t, f) && Coherent(t, x) && PlaceOf(x) != PlaceOf(f)
    ensures Coherent(t', x)
  {
    hide Progress, EntryAt;
    WriteChanges(o, t, f, o', t', f', ds, buf, n);
    var e :| EntryAt(t, PlaceOf(x), e) && Agrees(x, e);
    assert EntryAt(t', PlaceOf(x), e);
  }

  lemma {:induction false} ListSame(s: seq<Raw>, s': seq<Raw>, i: nat, e: Raw, n: nat)
    requires i < |s| && s' == s[i := e] && Ordinary(s, i) && e[..26] == s[i][..26]
    requires forall j: nat :: Ordinary(s', j) <==> Ordinary(s, j)
    ensures ListFrom(s', n) == ListFrom(s, n)
    decreases |s| - n
  {
    hide Ordinary, IsDir, Shown, KeyOf;
    if n < |s| {
      ListSame(s, s', i, e, n + 1);
      if n == i {
        SameItem(s[i], e);
      }
      assert ItemsAt(s', n) == ItemsAt(s, n);
    }
  }

  lemma SameItem(e: Raw, f: Raw)
    requires f[..26] == e[..26]
    ensures SameStart(f, e) && IsDir(f) == IsDir(e) && KeyOf(f) == KeyOf(e)
  {
    assert f[..12] == f[..26][..12] == e[..26][..12] == e[..12];
    SameKind(f, e);
    SameStartFacts(f, e);
  }

  /** A write changes no directory listing. */
  lemma WriteKeepsListings(o: Objs, t: Tree, f: OpenFile, o': Objs, t': Tree, f': OpenFile, ds: set<nat>,
                           buf: seq<byte>, n: nat, d: nat)
    requires Progress(o, t, f, o', t', f', ds, buf, n) && Coherent(t, f) && d in t.dirs
    ensures d in t'.dirs && Listing(t'.dirs[d]) == Listing(t.dirs[d])
  {
    hide Splice, FileBytes, FilesSame, ListFrom;
    if d == f.parent {
      var e :| EntryAt(t, PlaceOf(f), e) && Agrees(f, e);
      var s, s' := t.dirs[d], t'.dirs[d];
      SameItem(s[f.idx], s'[f.idx]);
      SlotsUpdate(s, f.idx, s'[f.idx]);
      ListSame(s, s', f.idx, s'[f.idx], 0);
    }
  }

  // ---------- making and removing ----------

  lemma FreshQuiet(s: seq<Raw>, x: nat, p: nat)
    requires FreshDir(s, x, p)
    ensures forall j: nat :: !Ordinary(s, j)
  {
    hide NewEntry, Live, IsDot, KeyOf;
    assert KeyOf(s[0]) == DOT_KEY && KeyOf(s[1]) == DOTDOT_KEY;
    DotKeyed(s[0]);
    DotKeyed(s[1]);
    FreshLive(s);
  }

  /** The new directory lists as empty. */
  lemma NewDirListing(o: Objs, t: Tree, fat: FatTable, o': Objs, t': Tree, path: CString,
                      d: nat, i: nat, c: nat, t1: Tree)
    requires MadeDirAt(o, t, fat, o', t', path, d, i, c, t1)
    ensures Listing(t'.dirs[c]) == []
  {
    FreshQuiet(t'.dirs[c], c, d);
    ListingEmpty(t'.dirs[c]);
  }

  lemma QuietAdds(t: Tree, t1: Tree, t': Tree, q: Place, e: Raw, c: nat)
    requires Adds(t, t1, q, e) && c !in t1.dirs && c in t'.dirs && t' == WithDir(t1, c, t'.dirs[c])
    requires forall j: nat :: !Ordinary(t'.dirs[c], j)
    ensures Adds(t, t', q, e)
  {
    forall r, h ensures EntryAt(t', r, h) <==> EntryAt(t1, r, h) {
    }
  }

  lemma NewDirEntry(key: Key, c: nat)
    requires c < 0x1_0000
    ensures var e := NewEntry(key, DIR, c, 0);
            IsDir(e) && KeyOf(e) == key && Cluster(e) == c && Size(e) == 0 && Attr(e) != LFN
  {
    hide NewEntry, Attr, KeyOf, Cluster, Size;
  }

  lemma MadeDirAdds(o: Objs, t: Tree, fat: FatTable, o': Objs, t': Tree, path: CString, d: nat, i: nat, c: nat,
                    t1: Tree)
    requires MadeDirAt(o, t, fat, o', t', path, d, i, c, t1) && c !in t.dirs && PathKey(LastKey(path))
    ensures Adds(t, t', (d, i), NewEntry(LastKey(path), DIR, c, 0))
    ensures t'.dirs.Keys == t.dirs.Keys + {c} && d in t.dirs
  {
    hide NewEntry, Adds, FreshDir, InsertedAt, FirstReusable, PathKey, Keys, Walk;
    NewDirEntry(LastKey(path), c);
    FreshQuiet(t'.dirs[c], c, d);
    InsertedAdds(t, t1, d, i, NewEntry(LastKey(path), DIR, c, 0));
    QuietAdds(t, t1, t', (d, i), NewEntry(LastKey(path), DIR, c, 0), c);
  }

  /** A made directory appears at its path, and nothing else changes. */
  lemma MakeDirEffect(g: Geometry, o: Objs, ds: set<nat>, home: Homes, fat: FatTable,
                      o': Objs, ds': set<nat>, home': Homes, path: CString)
    requires TreeOk(g, o, ds, home) && TreeOk(g, o', ds', home')
    requires MadeDir(o, TreeOf(g, o, ds), fat, o', TreeOf(g, o', ds'), path)
    requires Resolve(TreeOf(g, o, ds), Keys(path)).None?
    ensures ViewOf(o', TreeOf(g, o', ds')) == WithPath(ViewOf(o, TreeOf(g, o, ds)), Keys(path), true)
    ensures Rooted(TreeOf(g, o, ds)) ==> Rooted(TreeOf(g, o', ds'))
    ensures PathsBut(TreeOf(g, o, ds), TreeOf(g, o', ds'), Keys(path)) && o'.lost == o.lost
    ensures var t' := TreeOf(g, o', ds');
            exists c, d :: Walk(t', Keys(path)) == Some(c) && c in t'.dirs && FreshDir(t'.dirs[c], c, d)
  {
    hide WellFormed, TreeOf, ViewOf, NewEntry, FreshDir, InsertedAt, FirstReusable, PathKey, Keys, Resolve, Walk,
      Inserted, Adds, Leads, NameFree, PathKeys, Rooted, PathsBut;
    var t, t' := TreeOf(g, o, ds), TreeOf(g, o', ds');
    var d: nat, i: nat, c: nat, t1 :| MadeDirAt(o, t, fat, o', t', path, d, i, c, t1);
    var e := NewEntry(LastKey(path), DIR, c, 0);
    StoredDirs(g, o, ds);
    assert d in t.dirs by { InsertedDir(t, t1, d, i, e); }
    FreeAt(t, path, d);
    PathLeads(t, path, d);
    NewDirEntry(LastKey(path), c);
    MadeDirAdds(o, t, fat, o', t', path, d, i, c, t1);
    DirsKeepContents(g, o, ds, home, o');
    AddedView(o, t, home, o', t', home', (d, i), e, Keys(path));
    AddedPlaces(t, home, t', home', (d, i), e, Keys(path));
    KeysOk(path);
    AddedPaths(t, home, t', home', (d, i), e, Keys(path), Keys(path));
    if Rooted(t) {
      AddedRooted(t, home, t', home', (d, i), e, Keys(path));
    }
  }

  lemma InsertedDir(t: Tree, t1: Tree, d: nat, i: nat, e: Raw)
    requires Inserted(t, t1, d, i, e)
    ensures d in t.dirs
  {
  }

  lemma StoredDirs(g: Geometry, o: Objs, ds: set<nat>)
    ensures forall x :: x in TreeOf(g, o, ds).dirs <==> x in ds && x in o.secs
  {
  }

  /** What a removed path named is gone from the view, and nothing else changes. */
  lemma EraseEffect(g: Geometry, o: Objs, ds: set<nat>, home: Homes, fat: FatTable,
                    o': Objs, ds': set<nat>, home': Homes, fat': FatTable, path: CString, p: Place)
    requires TreeOk(g, o, ds, home) && TreeOk(g, o', ds', home')
    requires Resolve(TreeOf(g, o, ds), Keys(path)) == Some(p)
    requires Erased(o, TreeOf(g, o, ds), fat, o', TreeOf(g, o', ds'), fat', p)
    requires IsDir(EntryIn(TreeOf(g, o, ds), p)) ==> Empty(TreeOf(g, o, ds), Cluster(EntryIn(TreeOf(g, o, ds), p)))
    ensures ViewOf(o', TreeOf(g, o', ds')) == WithoutPath(ViewOf(o, TreeOf(g, o, ds)), Keys(path))
    ensures Rooted(TreeOf(g, o, ds)) ==> Rooted(TreeOf(g, o', ds'))
    ensures PathsBut(TreeOf(g, o, ds), TreeOf(g, o', ds'), Keys(path)) && o'.lost == o.lost
  {
    hide WellFormed, TreeOf, ViewOf, Keys, Walk, Empty, Leads, PathKeys, Rooted, Drops, EntryAt, PathsBut;
    var t, t' := TreeOf(g, o, ds), TreeOf(g, o', ds');
    var e := EntryIn(t, p);
    EraseLeads(t, home, path, p);
    EraseBeside(t, p, e);
    RemovedDrops(t, t', p, e);
    EraseContents(g, o, ds, home, o', t', p, e);
    DroppedView(o, t, home, o', t', home', p, e, Keys(path));
    DroppedPlaces(t, home, t', home', p, e, Keys(path));
    if Rooted(t) {
      DroppedRooted(t, home, t', home', p, e, Keys(path));
    }
  }

  lemma EraseLeads(t: Tree, home: Homes, path: CString, p: Place)
    requires WellFormed(t, home, {}) && Resolve(t, Keys(path)) == Some(p)
    ensures EntryAt(t, p, EntryIn(t, p)) && Leads(t, Keys(path), p.0, KeyOf(EntryIn(t, p)))
  {
    hide WellFormed, Keys, Walk;
    KeysOk(path);
    NamedResolve(t, Keys(path));
    LookEntry(t, p.0, Last(Keys(path)));
  }

  lemma EraseBeside(t: Tree, p: Place, e: Raw)
    requires EntryAt(t, p, e) && (IsDir(e) ==> Empty(t, Cluster(e)))
    ensures IsDir(e) ==> p.0 != Cluster(e)
  {
  }

  lemma EraseContents(g: Geometry, o: Objs, ds: set<nat>, home: Homes, o': Objs, t': Tree, p: Place, e: Raw)
    requires TreeOk(g, o, ds, home) && Drops(TreeOf(g, o, ds), t', p, e)
    requires forall h :: h in o.secs && h != Cluster(e) && h != p.0 ==> h in o'.secs && o'.secs[h] == o.secs[h]
    ensures SameContents(o, o', t')
  {
    hide TreeOk, Contents, TreeOf;
    forall r, h | EntryAt(t', r, h) && !IsDir(h) ensures Contents(o', h) == Contents(o, h) {
      EraseOther(g, o, ds, home, o', p, e, r, h);
    }
  }

  lemma EraseOther(g: Geometry, o: Objs, ds: set<nat>, home: Homes, o': Objs, p: Place, e: Raw, r: Place, h: Raw)
    requires TreeOk(g, o, ds, home) && EntryAt(TreeOf(g, o, ds), p, e)
    requires forall h :: h in o.secs && h != Cluster(e) && h != p.0 ==> h in o'.secs && o'.secs[h] == o.secs[h]
    requires r != p && EntryAt(TreeOf(g, o, ds), r, h) && !IsDir(h)
    ensures Contents(o', h) == Contents(o, h)
  {
    hide WellFormed;
    FileEntry(g, o, ds, home, r, h);
    EntryFacts(TreeOf(g, o, ds), home, p, e);
  }

  // ---------- renaming ----------

  lemma RenamedMove(t: Tree, t1: Tree, home: Homes, t': Tree, home': Homes, p: Place, e: Raw, d: nat, i: nat,
                    oldpath: CString, newpath: CString)
    requires WellFormed(t, home, {}) && WellFormed(t', home', {})
    requires Resolve(t, Keys(oldpath)) == Some(p) && ParentOf(t, newpath) == Some(d)
    requires Keys(newpath) != [] && NameFree(t, d, LastKey(newpath)) && PathKey(LastKey(newpath))
    requires Renamed(t, t1, t', p, e, d, i, LastKey(newpath))
    ensures Move(t, home, t', home', p, e, (d, i), Copied(LastKey(newpath), e), Keys(oldpath), Keys(newpath))
  {
    hide WellFormed, Keys, Walk, Inserted, EntryAt, NameFree, Leads, PathKeys;
    EraseLeads(t, home, oldpath, p);
    EntryAtUnique(t, p);
    PathLeads(t, newpath, d);
    InsertedBefore(t, t1, d, i, Copied(LastKey(newpath), e));
    forall r, h
      ensures EntryAt(t', r, h) <==> (r == (d, i) && h == Copied(LastKey(newpath), e)) || (r != p && EntryAt(t, r, h))
    {
      RenamedEntries(t, t1, t', home, p, e, d, i, LastKey(newpath), r, h);
      NotThere(t, (d, i), h);
    }
  }

  lemma InsertedBefore(t: Tree, t1: Tree, d: nat, i: nat, e: Raw)
    requires Inserted(t, t1, d, i, e)
    ensures !At(t, (d, i))
  {
  }

  lemma NotThere(t: Tree, q: Place, h: Raw)
    requires !At(t, q)
    ensures !EntryAt(t, q, h)
  {
  }

  /** A rename moves everything at or below the old path to the new path, and changes nothing else. It
      loses directories exactly when a directory is moved below itself. */
  lemma RenameEffect(g: Geometry, o: Objs, ds: set<nat>, home: Homes, o': Objs, home': Homes, oldpath: CString,
                     newpath: CString)
    requires TreeOk(g, o, ds, home) && TreeOk(g, o', ds, home')
    requires Moved(o, TreeOf(g, o, ds), o', TreeOf(g, o', ds), ds, oldpath, newpath)
    ensures ViewOf(o', TreeOf(g, o', ds)) == Shifted(ViewOf(o, TreeOf(g, o, ds)), Keys(oldpath), Keys(newpath))
    ensures Rooted(TreeOf(g, o, ds)) ==>
              (Rooted(TreeOf(g, o', ds)) <==>
                  !(Keys(oldpath) in ViewOf(o, TreeOf(g, o, ds)).dirs && Keys(oldpath) <= Keys(newpath)))
    ensures !(Keys(oldpath) in ViewOf(o, TreeOf(g, o, ds)).dirs && Keys(oldpath) <= Keys(newpath)) ==>
              PathsFollow(TreeOf(g, o, ds), TreeOf(g, o', ds), Keys(oldpath), Keys(newpath))
    ensures o'.lost == o.lost
  {
    hide WellFormed, TreeOf, ViewOf, Keys, Walk, Rooted, EntryAt, NameFree, Resolve, Shifted, Move, Renamed, ParentOf,
      Copied, PathsFollow;
    var t, t' := TreeOf(g, o, ds), TreeOf(g, o', ds);
    var p: Place, e, d: nat, i: nat, t1 :| MovedAt(o, t, o', t', ds, oldpath, newpath, p, e, d, i, t1);
    KeysOk(newpath);
    RenamedMove(t, t1, home, t', home', p, e, d, i, oldpath, newpath);
    DirsKeepContents(g, o, ds, home, o');
    var f := Copied(LastKey(newpath), e);
    MovedView(o, t, home, o', t', home', p, e, (d, i), f, Keys(oldpath), Keys(newpath));
    StoredDirs(g, o, ds);
    StoredDirs(g, o', ds);
    MoveEnds(t, home, t', home', p, e, (d, i), f, Keys(oldpath), Keys(newpath));
    ViewAt(o, t, Keys(oldpath));
    if Rooted(t) {
      MovedRooted(t, home, t', home', p, e, (d, i), f, Keys(oldpath), Keys(newpath));
    }
    if !(IsDir(e) && Keys(oldpath) <= Keys(newpath)) {
      MovedPlaces(t, home, t', home', p, e, (d, i), f, Keys(oldpath), Keys(newpath));
    }
  }

  // ---------- runs of calls ----------

  ghost function Seen(v: Volume): View
    reads v
  {
    ViewOf(v.o, v.T())
  }

  /** No two handles in use are on the same entry. */
  ghost predicate Apart(files: seq<OpenFile>) {
    forall i, j :: 0 <= i < j < |files| && files[i].used && files[j].used ==> PlaceOf(files[i]) != PlaceOf(files[j])
  }

  /** What every run of disciplined calls keeps: the volume is well formed, every handle in use agrees
      with the drive, no two of them share an entry, and every directory can be reached by a path. */
  ghost predicate Clean(v: Volume)
    reads v
  {
    && v.Valid() && Rooted(v.T()) && Apart(v.files)
    && forall i: nat :: i < MAX_OPEN_FILES ==> v.Good(i)
  }

  /** No handle in use is on the entry that the path names. */
  ghost predicate Unopened(v: Volume, path: CString)
    reads v
  {
    match Resolve(v.T(), Keys(path))
    case None => true
    case Some(p) => forall i :: 0 <= i < |v.files| && v.files[i].used ==> PlaceOf(v.files[i]) != p
  }

  /** Cluster `c` is on the chain of one object and of no other, and this object is named by an entry. */
  ghost predicate OnOneChain(o: Objs, home: Homes, c: nat) {
    exists h :: h in home && h in o.chains && c in o.chains[h]
                && forall k :: k in o.chains && c in o.chains[k] ==> k == h
  }

  lemma OneChain(g: Geometry, fat: FatTable, o: Objs, home: Homes, c: nat)
    requires Accounted(g, fat, o) && Disjoint(o) && 2 <= c < 4080 && fat[c] != 0 && c !in o.lost
    requires forall h :: h in o.chains ==> h in home
    ensures OnOneChain(o, home, c)
  {
    assert Owned(o, c);
    var h :| h in o.chains && c in o.chains[h];
    forall k | k in o.chains && c in o.chains[k] ensures k == h {
      OneOwner(o, k, h, c);
    }
  }

  /** Every object but the root is named by an entry. */
  lemma ChainsNamed(v: Volume)
    requires v.VolumeOk()
    ensures forall h :: h in v.o.chains ==> h in v.home
  {
  }

  /** On a valid volume a cell that is not 0 belongs to one object, unless its cluster is lost. */
  lemma Accountable(v: Volume)
    requires Clean(v)
    ensures forall c :: 2 <= c < 4080 && v.Table()[c] != 0 && c !in v.o.lost ==> OnOneChain(v.o, v.home, c)
  {
    hide Rooted, Mirrored, ChainsOk, Fat, WellFormed, OnOneChain, Accounted, Disjoint, Stored;
    ChainsNamed(v);
    forall c: nat | 2 <= c < 4080 && v.Table()[c] != 0 && c !in v.o.lost ensures OnOneChain(v.o, v.home, c) {
      OneChain(v.g, v.Table(), v.o, v.home, c);
    }
  }

  /** How the driver's first checks read in the view. */
  lemma ViewCodes(o: Objs, t: Tree, path: CString)
    ensures var v := ViewOf(o, t);
            && (ParentOf(t, path).Some? <==> Keys(path) != [] && Init(Keys(path)) in v.dirs)
            && (Resolve(t, Keys(path)).Some? <==> Keys(path) != [] && HasPath(v, Keys(path)))
            && (Resolve(t, Keys(path)).Some? ==>
                  (if IsDir(EntryIn(t, Resolve(t, Keys(path)).value)) then Keys(path) in v.dirs
                   else Keys(path) in v.files))
            && (Keys(path) in v.files ==> Keys(path) != [] && Keys(path) !in v.dirs)
  {
    hide ViewOf, Keys, Walk, PathKeys;
    KeysOk(path);
    NamedResolve(t, Keys(path));
    ViewAt(o, t, Keys(path));
    if Keys(path) != [] {
      PathKeysInit(Keys(path));
      ViewAt(o, t, Init(Keys(path)));
      ViewNames(o, t, Keys(path));
    }
  }

  /** The path is a directory or a file of the view. */
  ghost predicate HasPath(v: View, ks: Path) { ks in v.dirs || ks in v.files }

  /** Nothing is below a directory without entries. */
  lemma EmptyBelow(o: Objs, t: Tree, a: Path, ks: Path)
    requires PathKeys(a) && Walk(t, a).Some? && Empty(t, Walk(t, a).value) && a < ks
    ensures !HasPath(ViewOf(o, t), ks)
  {
    hide ViewOf, Walk, Empty, Named;
    ViewAt(o, t, ks);
    if PathKeys(ks) {
      var b := ks[..|a| + 1];
      assert Init(b) == a && PathKeys(b);
      WalkLast(t, b);
      EmptyLook(t, Walk(t, a).value, Last(b));
      EnterLook(t, Walk(t, a).value, Last(b));
      WalkPrefix(t, b, ks);
      NoneNamed(t, a, b, ks);
    }
  }

  lemma NoneNamed(t: Tree, a: Path, b: Path, ks: Path)
    requires b <= ks && b != [] && a == Init(b) && Walk(t, a).Some? && Look(t, Walk(t, a).value, Last(b)).None?
    requires Walk(t, b).None?
    ensures Named(t, ks).None?
  {
    if b != ks {
      assert b <= Init(ks);
      WalkPrefix(t, b, Init(ks));
    }
  }

  lemma CleanTree(v: Volume)
    requires v.VolumeOk()
    ensures TreeOk(v.g, v.o, v.ds, v.home) && v.g.Fits(v.disk)
  {
  }

  lemma CleanHome(v: Volume)
    requires Clean(v)
    ensures WellFormed(v.T(), v.home, {}) && |v.files| == MAX_OPEN_FILES && v.VolumeOk()
  {
  }

  lemma CleanHandles(v: Volume)
    requires Clean(v)
    ensures |v.files| == MAX_OPEN_FILES
    ensures forall i :: 0 <= i < |v.files| && v.files[i].used ==> Coherent(v.T(), v.files[i])
  {
    forall i: nat | i < |v.files| && v.files[i].used ensures Coherent(v.T(), v.files[i]) {
      assert v.Good(i);
    }
  }

  /** Opening keeps every directory within reach, and no path but the opened one names anything new. */
  lemma OpenPaths(g: Geometry, o: Objs, ds: set<nat>, home: Homes, o': Objs, path: CString, f: OpenFile)
    requires TreeOk(g, o, ds, home) && TreeOk(g, o', ds, home)
    requires OpenedAs(TreeOf(g, o, ds), TreeOf(g, o', ds), path, f)
    requires o' == o || OnlyDir(o, o', f.parent)
    ensures Rooted(TreeOf(g, o, ds)) ==> Rooted(TreeOf(g, o', ds))
    ensures PathsBut(TreeOf(g, o, ds), TreeOf(g, o', ds), Keys(path))
    ensures Resolve(TreeOf(g, o', ds), Keys(path)) == Some(PlaceOf(f)) && f.used && f.cursor == 0 && o'.lost == o.lost
  {
    hide WellFormed, TreeOf, Inserted, Keys, Resolve, Walk, Named, NewEntry, Leads, NameFree, PathKeys, Rooted;
    var t, t', q := TreeOf(g, o, ds), TreeOf(g, o', ds), (f.parent, f.idx);
    if Resolve(t, Keys(path)).None? {
      hide OnlyDir;
      var e := NewEntry(LastKey(path), 0, 0, 0);
      OpenedDirs(g, o, ds, home, o', path, f);
      PathLeads(t, path, f.parent);
      InsertedDir(t, t', f.parent, f.idx, e);
      FreeAt(t, path, f.parent);
      InsertedAdds(t, t', f.parent, f.idx, e);
      AddedPlaces(t, home, t', home, q, e, Keys(path));
      if Rooted(t) {
        AddedRooted(t, home, t', home, q, e, Keys(path));
      }
    }
  }

  lemma OpenApart(v: Tree, v': Tree, path: CString, files: seq<OpenFile>, k: nat, f: OpenFile)
    requires k < |files| && OpenedAs(v, v', path, f) && Apart(files)
    requires forall i :: 0 <= i < |files| && files[i].used ==> Coherent(v, files[i])
    requires Resolve(v, Keys(path)).Some? ==>
               forall i :: 0 <= i < |files| && files[i].used ==> PlaceOf(files[i]) != Resolve(v, Keys(path)).value
    ensures Apart(files[k := f])
  {
    hide Keys, Resolve, Walk, NewEntry;
    if Resolve(v, Keys(path)).None? {
      InsertedBefore(v, v', f.parent, f.idx, NewEntry(LastKey(path), 0, 0, 0));
    }
    forall i | 0 <= i < |files| && files[i].used ensures PlaceOf(files[i]) != PlaceOf(f) {
      var e :| EntryAt(v, (files[i].parent, files[i].idx), e);
    }
  }

  /** The path has a parent directory in the view. */
  ghost predicate HasParent(v: View, ks: Path) { ks != [] && Init(ks) in v.dirs }

  /** The directory in which `path` would be created has no room for an entry. */
  ghost predicate NoRoomAt(t: Tree, fat: FatTable, path: CString) {
    ParentOf(t, path).Some? && DirFull(t, fat, ParentOf(t, path).value)
  }

  /** The directory in which `path` would be made has no room for one, or no cluster is free for it. */
  ghost predicate NoDirRoomAt(t: Tree, fat: FatTable, path: CString) {
    ParentOf(t, path).Some? && NoRoomForDir(t, fat, ParentOf(t, path).value)
  }

  /** The directory that `path` names has an ordinary entry. */
  ghost predicate HasEntries(t: Tree, path: CString) {
    Resolve(t, Keys(path)).Some? && !Empty(t, Cluster(EntryIn(t, Resolve(t, Keys(path)).value)))
  }

  /** The file that `path` names has no clusters, and a handle in use without clusters keeps this spelling. */
  ghost predicate Shielded(t: Tree, files: seq<OpenFile>, path: CString) {
    && Resolve(t, Keys(path)).Some? && Cluster(EntryIn(t, Resolve(t, Keys(path)).value)) == 0
    && exists i :: 0 <= i < |files| && files[i].used && files[i].first == 0 && files[i].path == path
  }

  /** How `fat12_open` decides: in terms of the view, but for the room that a new entry needs. */
  lemma OpenCodes(o: Objs, t: Tree, fat: FatTable, path: CString)
    ensures var v := ViewOf(o, t);
            CanOpen(t, fat, path) <==> HasParent(v, Keys(path)) && Keys(path) !in v.dirs
                                       && (Keys(path) in v.files || !NoRoomAt(t, fat, path))
    ensures NoParent(t, path) <==> !HasParent(ViewOf(o, t), Keys(path))
  {
    hide ViewOf, Keys, Walk, PathKeys, DirFull, EntryAt;
    ViewCodes(o, t, path);
    KeysOk(path);
    if Resolve(t, Keys(path)).Some? {
      NamedResolve(t, Keys(path));
      NamedEntry(t, Keys(path));
      var p := Resolve(t, Keys(path)).value;
      assert EntryAt(t, p, EntryIn(t, p));
      if CanOpen(t, fat, path) {
        EntryAtUnique(t, p);
      }
    }
  }

  /** Handle `k` was opened at `path`; the other handles are as before. */
  ghost predicate OpenedHandle(files: seq<OpenFile>, files': seq<OpenFile>, t': Tree, path: CString, k: int) {
    && 0 <= k < |files| == |files'| && FirstUnused(files, k) && files' == files[k := files'[k]]
    && files'[k].used && files'[k].cursor == 0 && Resolve(t', Keys(path)) == Some(PlaceOf(files'[k]))
  }

  /** Opening, step by step. */
  method StepOpen(v: Volume, path: CString) returns (fd: int)
    requires Clean(v) && NameOk(path) && Unopened(v, path)
    modifies v
    ensures Clean(v) && v.o.lost == old(v.o.lost)
    ensures Seen(v) == if fd < 0 || Keys(path) in old(Seen(v)).files then old(Seen(v))
                       else WithPath(old(Seen(v)), Keys(path), false)
    ensures fd < 0 ==> v.files == old(v.files) && v.T() == old(v.T())
    ensures fd < 0 ==> fd == if HasUnused(v.files) && !HasParent(Seen(v), Keys(path)) then -9 else -1
    ensures fd >= 0 <==>
              && HasUnused(old(v.files)) && HasParent(old(Seen(v)), Keys(path)) && Keys(path) !in old(Seen(v)).dirs
              && (Keys(path) in old(Seen(v)).files || !NoRoomAt(old(v.T()), old(v.Table()), path))
    ensures fd < 0 ==> v.Table() == old(v.Table())
    ensures fd >= 0 ==> OpenedHandle(old(v.files), v.files, v.T(), path, fd - 3)
    ensures fd >= 0 ==> PathsBut(old(v.T()), v.T(), Keys(path))
    ensures fd >= 0 ==> v.files[fd - 3].path == path[..if |path| < 255 then |path| else 255]
  {
    hide WellFormed, Volume.Sound, TreeOf, ViewOf, Keys, Resolve, Rooted, Coherent, OpenedAs, OnlyDir, CanOpen,
      NoParent, PathsBut, HasParent, NoRoomAt, HasUnused;
    ghost var o0, t0, files0 := v.o, v.T(), v.files;
    CleanTree(v);
    CleanHandles(v);
    OpenCodes(v.o, v.T(), v.Table(), path);
    fd := v.Open(path);
    if fd >= 0 {
      CleanTree(v);
      OpenEffect(v.g, o0, v.ds, v.home, v.o, path, v.files[fd - 3]);
      OpenPaths(v.g, o0, v.ds, v.home, v.o, path, v.files[fd - 3]);
      OpenApart(t0, v.T(), path, files0, fd - 3, v.files[fd - 3]);
      OpenedPath(t0, v.T(), path, v.files[fd - 3]);
    }
  }

  /** A handle keeps the first 255 bytes of the path. */
  lemma OpenedPath(t: Tree, t': Tree, path: CString, f: OpenFile)
    requires OpenedAs(t, t', path, f)
    ensures f.path == path[..if |path| < 255 then |path| else 255]
  {
    hide EntryAt, Inserted, Resolve, ParentOf, IsDir;
  }

  method StepClose(v: Volume, fileno: int) returns (r: int)
    requires Clean(v)
    modifies v
    ensures Clean(v) && Seen(v) == old(Seen(v)) && v.o.lost == old(v.o.lost) && v.T() == old(v.T())
    ensures r == if old(v.BadHandle(fileno)) then -5 else 0
    ensures old(v.BadHandle(fileno)) ==> v.files == old(v.files)
    ensures !old(v.BadHandle(fileno)) ==>
              v.files == old(v.files)[fileno - 3 := old(v.files)[fileno - 3].(used := false)]
  {
    hide Volume.VolumeOk, TreeOf, ViewOf, Rooted, Coherent;
    r := v.Close(fileno);
  }

  /** A path that names the entry of a good handle holds the bytes of the handle in the view. */
  lemma HandleSeen(o: Objs, t: Tree, ks: Path, f: OpenFile)
    requires PathKeys(ks) && Resolve(t, ks) == Some(PlaceOf(f)) && Coherent(t, f)
    ensures ks in ViewOf(o, t).files && ViewOf(o, t).files[ks] == HandleBytes(o, f)
  {
    hide ViewOf, Walk, PathKeys;
    NamedResolve(t, ks);
    ViewAt(o, t, ks);
    var e :| EntryAt(t, (f.parent, f.idx), e) && Agrees(f, e);
    EntryAtSlot(t, PlaceOf(f), e);
  }

  /** `r` and `data` are what a read of `count` bytes at `cursor` gives for the file at `ks`. */
  ghost predicate ReadAt(v: View, ks: Path, cursor: nat, count: nat, r: int, data: seq<byte>) {
    && ks in v.files && cursor <= |v.files[ks]|
    && r == |data| == (if count < |v.files[ks]| - cursor then count else |v.files[ks]| - cursor)
    && data == v.files[ks][cursor..cursor + r]
  }

  /** Reading gives the bytes of the file in the view, from the cursor on. */
  method StepRead(v: Volume, fileno: int, count: nat) returns (r: int, data: seq<byte>)
    requires Clean(v)
    modifies v
    ensures Clean(v) && Seen(v) == old(Seen(v)) && v.o.lost == old(v.o.lost) && v.T() == old(v.T())
    ensures old(v.BadHandle(fileno)) ==> r == -5 && data == [] && v.files == old(v.files)
    ensures !old(v.BadHandle(fileno)) ==>
              var f := old(v.files)[fileno - 3];
              v.files == old(v.files)[fileno - 3 := f.(cursor := f.cursor + |data|)]
    ensures !old(v.BadHandle(fileno)) ==>
              forall ks: Path :: PathKeys(ks) && Resolve(v.T(), ks) == Some(PlaceOf(old(v.files)[fileno - 3])) ==>
                ReadAt(Seen(v), ks, old(v.files)[fileno - 3].cursor, count, r, data)
  {
    hide Volume.VolumeOk, TreeOf, ViewOf, Rooted, Coherent, FileBytes, Resolve, PathKeys;
    ghost var t0, o0 := v.T(), v.o;
    CleanHandles(v);
    r, data := v.Read(fileno, count);
    if !old(v.BadHandle(fileno)) {
      ghost var f := old(v.files)[fileno - 3];
      v.HandleLimits(f);
      forall ks: Path | PathKeys(ks) && Resolve(t0, ks) == Some(PlaceOf(f))
        ensures ReadAt(ViewOf(o0, t0), ks, f.cursor, count, r, data)
      {
        HandleSeen(o0, t0, ks, f);
      }
    }
  }

  method StepSize(v: Volume, fileno: int) returns (n: nat)
    requires Clean(v)
    ensures v.BadHandle(fileno) ==> n == 0
    ensures !v.BadHandle(fileno) ==>
              forall ks: Path :: PathKeys(ks) && Resolve(v.T(), ks) == Some(PlaceOf(v.files[fileno - 3])) ==>
                ks in Seen(v).files && n == |Seen(v).files[ks]|
  {
    hide Volume.VolumeOk, TreeOf, ViewOf, Rooted, Coherent, FileBytes, Resolve, PathKeys, EntryAt;
    CleanHandles(v);
    n := v.GetSize(fileno);
    if !v.BadHandle(fileno) {
      forall ks: Path | PathKeys(ks) && Resolve(v.T(), ks) == Some(PlaceOf(v.files[fileno - 3]))
        ensures ks in Seen(v).files && n == |Seen(v).files[ks]|
      {
        HandleSeen(v.o, v.T(), ks, v.files[fileno - 3]);
      }
    }
  }

  lemma ChangedRooted(t: Tree, home: Homes, t': Tree, home': Homes, p: Place, e: Raw, f: Raw)
    requires WellFormed(t, home, {}) && WellFormed(t', home', {}) && Changes(t, t', p, e, f)
    requires t'.dirs.Keys == t.dirs.Keys && Rooted(t)
    ensures Rooted(t')
  {
    hide WellFormed, Changes, Walk, PathKeys;
    forall x | x in t'.dirs ensures exists ks :: PathKeys(ks) && Walk(t', ks) == Some(x) {
      var ks :| PathKeys(ks) && Walk(t, ks) == Some(x);
      ChangedPaths(t, home, t', home', p, e, f, ks);
    }
  }

  lemma WriteDirs(o: Objs, t: Tree, f: OpenFile, o': Objs, t': Tree, f': OpenFile, ds: set<nat>, buf: seq<byte>, n: nat)
    requires Progress(o, t, f, o', t', f', ds, buf, n)
    ensures t'.dirs.Keys == t.dirs.Keys && o'.lost == o.lost
  {
  }

  /** A write changes what no path names. */
  lemma WritePaths(g: Geometry, o: Objs, ds: set<nat>, home: Homes, o': Objs, home': Homes, f: OpenFile, f': OpenFile,
                    buf: seq<byte>, n: nat)
    requires TreeOk(g, o, ds, home) && TreeOk(g, o', ds, home')
    requires Progress(o, TreeOf(g, o, ds), f, o', TreeOf(g, o', ds), f', ds, buf, n) && Coherent(TreeOf(g, o, ds), f)
    ensures Rooted(TreeOf(g, o, ds)) ==> Rooted(TreeOf(g, o', ds))
    ensures SamePaths(TreeOf(g, o, ds), TreeOf(g, o', ds)) && o'.lost == o.lost
  {
    hide WellFormed, TreeOf, Progress, Coherent, Changes, Rooted, SamePaths;
    var t, t' := TreeOf(g, o, ds), TreeOf(g, o', ds);
    WriteChanges(o, t, f, o', t', f', ds, buf, n);
    ChangedPlaces(t, home, t', home', PlaceOf(f), EntryIn(t, PlaceOf(f)), EntryIn(t', PlaceOf(f)));
    WriteDirs(o, t, f, o', t', f', ds, buf, n);
    if Rooted(t) {
      ChangedRooted(t, home, t', home', PlaceOf(f), EntryIn(t, PlaceOf(f)), EntryIn(t', PlaceOf(f)));
    }
  }

  /** The file at `ks` holds `bytes` now; nothing else changes. */
  ghost function WithBytes(v: View, ks: Path, bytes: seq<byte>): View {
    v.(files := v.files[ks := bytes])
  }

  /** The one path that names a file sees what is written to it. */
  lemma RewroteAt(o: Objs, t: Tree, home: Homes, ks: Path, f: OpenFile, bytes: seq<byte>)
    requires WellFormed(t, home, {}) && PathKeys(ks) && Resolve(t, ks) == Some(PlaceOf(f)) && Coherent(t, f)
    ensures ks in ViewOf(o, t).files
    ensures Rewrote(ViewOf(o, t), t, PlaceOf(f), EntryIn(t, PlaceOf(f)), bytes) == WithBytes(ViewOf(o, t), ks, bytes)
  {
    hide ViewOf, Walk, PathKeys, WellFormed, Coherent, Resolve, Named;
    var v, e := ViewOf(o, t), EntryIn(t, PlaceOf(f));
    HandleSeen(o, t, ks, f);
    NamedResolve(t, ks);
    forall x: Path | x in v.files ensures Named(t, x) == Some((PlaceOf(f), e)) <==> x == ks {
      ViewAt(o, t, x);
      NamedResolve(t, x);
      if Named(t, x) == Some((PlaceOf(f), e)) {
        OneName(t, home, x, ks);
      }
    }
    assert Rewrote(v, t, PlaceOf(f), e, bytes).files == WithBytes(v, ks, bytes).files;
  }

  /** No more bytes can be written through handle `f`: no cluster is free, and its file has no clusters or fills
      the last one. */
  ghost predicate Stopped(o: Objs, fat: FatTable, f: OpenFile) {
    FirstFree(fat, -1) && (f.first == 0 || AtEnd(o, f))
  }

  /** A write through a good handle, seen by a client. */
  method StepWrite(v: Volume, fileno: int, buf: seq<byte>) returns (r: int)
    requires Clean(v)
    modifies v
    ensures Clean(v) && v.o.lost == old(v.o.lost)
    ensures r < 0 ==> Seen(v) == old(Seen(v)) && v.files == old(v.files)
    ensures if old(v.BadHandle(fileno)) then r == -5 else -1 <= r <= |buf|
    ensures |v.files| == |old(v.files)|
    ensures !old(v.BadHandle(fileno)) && r < |buf| ==> Stopped(v.o, v.Table(), v.files[fileno - 3])
    ensures !old(v.BadHandle(fileno)) && r < |buf| ==> forall b :: 2 <= b < 4080 ==> v.Table()[b] != 0
    ensures SamePaths(old(v.T()), v.T())
    ensures r >= 0 ==>
      var f, t := old(v.files)[fileno - 3], old(v.T());
      && r <= |buf| && f.cursor <= |HandleBytes(old(v.o), f)|
      && Seen(v) == Rewrote(old(Seen(v)), t, PlaceOf(f), EntryIn(t, PlaceOf(f)),
                            Splice(HandleBytes(old(v.o), f), f.cursor, buf[..r]))
    ensures r >= 0 ==>
      var f := old(v.files)[fileno - 3];
      && v.files == old(v.files)[fileno - 3 := v.files[fileno - 3]] && PlaceOf(v.files[fileno - 3]) == PlaceOf(f)
      && v.files[fileno - 3].used && v.files[fileno - 3].cursor == f.cursor + r
  {
    hide WellFormed, Volume.Sound, TreeOf, ViewOf, Rooted, Coherent, Progress, FirstFree, FileBytes, Rewrote, Splice,
      Apart, SamePaths;
    ghost var o0, t0, home0, files0 := v.o, v.T(), v.home, v.files;
    CleanTree(v);
    CleanHandles(v);
    SamePathsSelf(t0);
    r := v.Write(fileno, buf);
    if r >= 0 {
      CleanTree(v);
      ghost var f, f' := files0[fileno - 3], v.files[fileno - 3];
      WriteEffect(v.g, o0, v.ds, home0, v.o, v.home, f, f', buf, r);
      WritePaths(v.g, o0, v.ds, home0, v.o, v.home, f, f', buf, r);
      WriteHandles(o0, t0, files0, v.o, v.T(), v.files, v.ds, fileno - 3, buf, r);
      ProgressPlace(o0, t0, f, v.o, v.T(), f', v.ds, buf, r);
    }
  }

  lemma SamePathsSelf(t: Tree)
    ensures SamePaths(t, t)
  {
  }

  lemma WriteHandles(o: Objs, t: Tree, files: seq<OpenFile>, o': Objs, t': Tree, files': seq<OpenFile>, ds: set<nat>,
                     k: nat, buf: seq<byte>, n: nat)
    requires Apart(files) && k < |files| && files[k].used && |files'| == |files| && files' == files[k := files'[k]]
    requires Progress(o, t, files[k], o', t', files'[k], ds, buf, n)
    requires forall i :: 0 <= i < |files| && files[i].used ==> Coherent(t, files[i])
    ensures Apart(files') && forall i :: 0 <= i < |files'| && files'[i].used ==> Coherent(t', files'[i])
  {
    hide Coherent, FileStep, FileBytes, Splice;
    assert PlaceOf(files'[k]) == PlaceOf(files[k]) && files'[k].used by {
      ProgressPlace(o, t, files[k], o', t', files'[k], ds, buf, n);
    }
    forall i | 0 <= i < |files'| && files'[i].used ensures Coherent(t', files'[i]) {
      if i != k {
        WriteKeepsHandles(o, t, files[k], o', t', files'[k], ds, buf, n, files[i]);
      }
    }
  }

  lemma ProgressPlace(o: Objs, t: Tree, f: OpenFile, o': Objs, t': Tree, f': OpenFile, ds: set<nat>, buf: seq<byte>,
                      n: nat)
    requires Progress(o, t, f, o', t', f', ds, buf, n)
    ensures PlaceOf(f') == PlaceOf(f) && f'.used == f.used && f'.cursor == f.cursor + n
  {
  }

  method StepMakeDir(v: Volume, path: CString) returns (r: int)
    requires Clean(v) && NameOk(path)
    modifies v
    ensures Clean(v) && v.files == old(v.files) && v.o.lost == old(v.o.lost)
    ensures Seen(v) == if r < 0 then old(Seen(v)) else WithPath(old(Seen(v)), Keys(path), true)
    ensures r == -9 <==> !HasParent(old(Seen(v)), Keys(path))
    ensures r == 0 || r == -1 || r == -9
    ensures r >= 0 ==> !HasPath(old(Seen(v)), Keys(path))
    ensures r == -1 <==>
              && HasParent(old(Seen(v)), Keys(path))
              && (HasPath(old(Seen(v)), Keys(path)) || NoDirRoomAt(old(v.T()), old(v.Table()), path))
    ensures r < 0 ==> v.T() == old(v.T())
    ensures r >= 0 ==> PathsBut(old(v.T()), v.T(), Keys(path))
    ensures r >= 0 ==>
              exists c, d :: Walk(v.T(), Keys(path)) == Some(c) && c in v.T().dirs && FreshDir(v.T().dirs[c], c, d)
  {
    hide WellFormed, Volume.Sound, TreeOf, ViewOf, Keys, Resolve, Rooted, Coherent, MadeDir, NoRoomForDir, ParentOf,
      PathsBut, FreshDir, Walk;
    CleanTree(v);
    ViewCodes(v.o, v.T(), path);
    ghost var o0, ds0, home0, fat0 := v.o, v.ds, v.home, v.Table();
    r := v.MakeDir(path);
    if r == 0 {
      CleanTree(v);
      MakeDirEffect(v.g, o0, ds0, home0, fat0, v.o, v.ds, v.home, path);
    }
  }

  lemma NothingBelow(o: Objs, t: Tree, path: CString)
    requires Resolve(t, Keys(path)).Some? && IsDir(EntryIn(t, Resolve(t, Keys(path)).value))
    requires Empty(t, Cluster(EntryIn(t, Resolve(t, Keys(path)).value)))
    ensures forall ks: Path :: Keys(path) < ks ==> !HasPath(ViewOf(o, t), ks)
  {
    hide ViewOf, Keys, Empty, HasPath, Cluster, Scan;
    KeysOk(path);
    forall ks: Path | Keys(path) < ks ensures !HasPath(ViewOf(o, t), ks) {
      EmptyBelow(o, t, Keys(path), ks);
    }
  }

  /** The path one step below a directory, to an ordinary entry with a name that a path can spell. */
  lemma OneBelow(o: Objs, t: Tree, home: Homes, a: Path, c: nat, j: nat)
    requires WellFormed(t, home, {}) && PathKeys(a) && Walk(t, a) == Some(c) && c in t.dirs && Ordinary(t.dirs[c], j)
    requires PathKey(KeyOf(t.dirs[c][j]))
    ensures a < a + [KeyOf(t.dirs[c][j])] && HasPath(ViewOf(o, t), a + [KeyOf(t.dirs[c][j])])
  {
    hide WellFormed, ViewOf, Walk, PathKey, Look;
    var e := t.dirs[c][j];
    assert EntryAt(t, (c, j), e);
    LookIs(t, home, (c, j), e);
    var ks := a + [KeyOf(e)];
    assert Init(ks) == a && Last(ks) == KeyOf(e) && PathKeys(ks);
    ViewNames(o, t, ks);
  }

  /** When a path can spell all names in a directory, it has an ordinary entry exactly when the view has something
      below it. */
  lemma EntriesBelow(o: Objs, t: Tree, home: Homes, path: CString)
    requires WellFormed(t, home, {}) && Resolve(t, Keys(path)).Some? && IsDir(EntryIn(t, Resolve(t, Keys(path)).value))
    requires var c := Cluster(EntryIn(t, Resolve(t, Keys(path)).value));
             c in t.dirs ==> forall j: nat :: Ordinary(t.dirs[c], j) ==> PathKey(KeyOf(t.dirs[c][j]))
    ensures HasEntries(t, path) <==> exists ks: Path :: Keys(path) < ks && HasPath(ViewOf(o, t), ks)
  {
    hide WellFormed, ViewOf, Keys, HasPath, Walk, Scan, PathKey;
    var c := Cluster(EntryIn(t, Resolve(t, Keys(path)).value));
    DirWalked(t, home, path);
    KeysOk(path);
    if Empty(t, c) {
      NothingBelow(o, t, path);
    } else {
      var j: nat :| Ordinary(t.dirs[c], j);
      OneBelow(o, t, home, Keys(path), c, j);
    }
  }

  /** A path that names a directory leads to it. */
  lemma DirWalked(t: Tree, home: Homes, path: CString)
    requires WellFormed(t, home, {}) && Resolve(t, Keys(path)).Some? && IsDir(EntryIn(t, Resolve(t, Keys(path)).value))
    ensures var c := Cluster(EntryIn(t, Resolve(t, Keys(path)).value));
            c in t.dirs && Walk(t, Keys(path)) == Some(c)
  {
    hide WellFormed, Walk, Look, Keys;
    EraseLeads(t, home, path, Resolve(t, Keys(path)).value);
    NamedResolve(t, Keys(path));
    WalkLast(t, Keys(path));
    EnterLook(t, Walk(t, Init(Keys(path))).value, Last(Keys(path)));
    EntryFacts(t, home, Resolve(t, Keys(path)).value, EntryIn(t, Resolve(t, Keys(path)).value));
  }

  method StepRemoveDir(v: Volume, path: CString) returns (r: int)
    requires Clean(v)
    modifies v
    ensures Clean(v) && v.files == old(v.files) && v.o.lost == old(v.o.lost)
    ensures Seen(v) == if r < 0 then old(Seen(v)) else WithoutPath(old(Seen(v)), Keys(path))
    ensures r == -9 <==> Keys(path) == [] || Keys(path) !in old(Seen(v)).dirs
    ensures r == -11 <==> Keys(path) != [] && Keys(path) in old(Seen(v)).dirs && HasEntries(old(v.T()), path)
    ensures r == 0 || r == -9 || r == -11
    ensures r >= 0 ==> forall ks: Path :: Keys(path) < ks ==> !HasPath(old(Seen(v)), ks)
    ensures r < 0 ==> v.T() == old(v.T())
    ensures r >= 0 ==> PathsBut(old(v.T()), v.T(), Keys(path))
  {
    hide WellFormed, Volume.Sound, TreeOf, ViewOf, Keys, Resolve, Rooted, Coherent, Erased, Empty, PathsBut;
    CleanTree(v);
    ViewCodes(v.o, v.T(), path);
    ghost var o0, ds0, home0, fat0, t0 := v.o, v.ds, v.home, v.Table(), v.T();
    r := v.RemoveDir(path);
    if r == 0 {
      CleanTree(v);
      EraseEffect(v.g, o0, ds0, home0, fat0, v.o, v.ds, v.home, v.Table(), path, Resolve(t0, Keys(path)).value);
      NothingBelow(o0, t0, path);
    }
  }

  /** A file that is not open is refused exactly because of the spelling that another empty handle keeps. */
  lemma ShieldedOnly(v: Volume, path: CString)
    requires Clean(v) && Unopened(v, path) && Resolve(v.T(), Keys(path)).Some?
    requires !IsDir(EntryIn(v.T(), Resolve(v.T(), Keys(path)).value))
    ensures Shielded(v.T(), v.files, path) <==>
              exists i :: 0 <= i < |v.files|
                  && Blocks(v.files[i], path, EntryIn(v.T(), Resolve(v.T(), Keys(path)).value))
  {
    hide Rooted, Keys, Resolve, TreeOf, WellFormed, Volume.Sound;
    var t, p := v.T(), Resolve(v.T(), Keys(path)).value;
    var e := EntryIn(t, p);
    CleanHome(v);
    v.ResolvedFacts(path);
    EntryAtSlot(t, p, e);
    forall i | 0 <= i < |v.files| && Blocks(v.files[i], path, e) ensures Cluster(e) == 0 {
      CleanHandles(v);
      OneHolder(t, v.home, p, e, v.files[i]);
    }
  }

  /** A good handle whose file has the first cluster of an entry is on this entry. */
  lemma OneHolder(t: Tree, home: Homes, p: Place, e: Raw, f: OpenFile)
    requires WellFormed(t, home, {}) && EntryAt(t, p, e) && Coherent(t, f) && f.first == Cluster(e) && PlaceOf(f) != p
    ensures Cluster(e) == 0
  {
    hide WellFormed;
    var x :| EntryAt(t, (f.parent, f.idx), x) && Agrees(f, x);
    EntryFacts(t, home, p, e);
    EntryFacts(t, home, PlaceOf(f), x);
  }

  method StepRemoveFile(v: Volume, path: CString) returns (r: int)
    requires Clean(v) && Unopened(v, path)
    modifies v
    ensures Clean(v) && v.files == old(v.files) && v.o.lost == old(v.o.lost)
    ensures Seen(v) == if r < 0 then old(Seen(v)) else WithoutPath(old(Seen(v)), Keys(path))
    ensures r == -9 <==> Keys(path) !in old(Seen(v)).files
    ensures r == -11 <==> Keys(path) in old(Seen(v)).files && Shielded(old(v.T()), v.files, path)
    ensures r == 0 || r == -9 || r == -11
    ensures r < 0 ==> v.T() == old(v.T())
    ensures r >= 0 ==> PathsBut(old(v.T()), v.T(), Keys(path))
  {
    hide WellFormed, Volume.Sound, TreeOf, ViewOf, Keys, Resolve, Rooted, Coherent, Erased, Empty, Blocks, PathsBut,
      Shielded;
    CleanTree(v);
    ViewCodes(v.o, v.T(), path);
    ghost var o0, ds0, home0, fat0, t0 := v.o, v.ds, v.home, v.Table(), v.T();
    if Resolve(t0, Keys(path)).Some? && !IsDir(EntryIn(t0, Resolve(t0, Keys(path)).value)) {
      ShieldedOnly(v, path);
    }
    r := v.RemoveFile(path);
    if r == 0 {
      CleanTree(v);
      EraseEffect(v.g, o0, ds0, home0, fat0, v.o, v.ds, v.home, v.Table(), path, Resolve(t0, Keys(path)).value);
    }
    forall j: nat | j < MAX_OPEN_FILES ensures v.Good(j) {
      assert old(v.Good(j));
    }
  }

  /** `fat12_removefile` does not always refuse to remove an open file. When handle `k` is on the file, the
      file is refused exactly when it has clusters or some handle without clusters was opened under the
      same spelling of the path. */
  lemma RemoveOpenFile(v: Volume, path: CString, k: nat)
    requires Clean(v) && k < |v.files| && v.files[k].used
    requires Resolve(v.T(), Keys(path)) == Some(PlaceOf(v.files[k]))
    ensures var e := EntryIn(v.T(), PlaceOf(v.files[k]));
            (exists i :: 0 <= i < |v.files| && Blocks(v.files[i], path, e)) <==>
            (v.files[k].first != 0
             || exists i :: 0 <= i < |v.files| && v.files[i].used && v.files[i].first == 0 && v.files[i].path == path)
  {
    hide TreeOf, Keys, Resolve, Rooted;
    var f, e := v.files[k], EntryIn(v.T(), PlaceOf(v.files[k]));
    assert v.Good(k);
    var x :| EntryAt(v.T(), (f.parent, f.idx), x) && Agrees(f, x);
    assert x == e;
    if f.first != 0 {
      assert Blocks(f, path, e);
    } else {
      forall i | 0 <= i < |v.files|
        ensures Blocks(v.files[i], path, e) <==> v.files[i].used && v.files[i].first == 0 && v.files[i].path == path
      {
      }
    }
  }

  /** Every path has another spelling, under which an open file without clusters can be removed. */
  lemma OtherSpelling(path: CString)
    ensures 0 !in [SLASH] + path && Keys([SLASH] + path) == Keys(path)
  {
    assert ([SLASH] + path)[1..] == path;
    assert Components([SLASH] + path) == Components(path);
  }

  /** The rename is disciplined: it does not touch an open file, and moves no directory below itself. */
  ghost predicate MayRename(v: Volume, oldpath: CString, newpath: CString)
    reads v
  {
    && NameOk(newpath) && Unopened(v, oldpath)
    && !(Keys(oldpath) in Seen(v).dirs && Keys(oldpath) <= Keys(newpath))
  }

  /** How `fat12_rename` fails because of what the paths name; 0 if nothing stands against it. */
  ghost function RenameError(v: View, src: Path, dst: Path): int {
    if src == [] || !HasPath(v, src) then -9
    else if dst != [] && HasPath(v, dst) then -1
    else if !HasParent(v, dst) then -9
    else 0
  }

  method StepRename(v: Volume, oldpath: CString, newpath: CString) returns (r: int)
    requires Clean(v) && MayRename(v, oldpath, newpath)
    modifies v
    ensures Clean(v) && v.o.lost == old(v.o.lost)
    ensures Seen(v) == if r < 0 then old(Seen(v)) else Shifted(old(Seen(v)), Keys(oldpath), Keys(newpath))
    ensures r >= 0 ==> r == 0 && Keys(oldpath) != [] && HasPath(old(Seen(v)), Keys(oldpath))
    ensures r >= 0 ==> !HasPath(old(Seen(v)), Keys(newpath)) && HasParent(old(Seen(v)), Keys(newpath))
    ensures var code := RenameError(old(Seen(v)), Keys(oldpath), Keys(newpath));
            r == if code != 0 then code else if NoRoomAt(old(v.T()), old(v.Table()), newpath) then -1 else 0
    ensures r < 0 ==> v.files == old(v.files) && v.T() == old(v.T())
    ensures r >= 0 ==> PathsFollow(old(v.T()), v.T(), Keys(oldpath), Keys(newpath))
    ensures r >= 0 ==> |v.files| == |old(v.files)|
    ensures r >= 0 ==> forall j :: 0 <= j < |v.files| ==> v.files[j] == Repathed(old(v.files)[j], oldpath, newpath)
    ensures r >= 0 ==> forall j :: 0 <= j < |v.files| ==>
              var f := old(v.files)[j];
              v.files[j] == f.(path := if f.used && f.path == oldpath
                                       then newpath[..if |newpath| < 255 then |newpath| else 255] else f.path)
  {
    hide WellFormed, Volume.Sound, TreeOf, ViewOf, Keys, Resolve, Rooted, Coherent, Moved, ParentOf, Shifted, DirFull,
      PathsFollow;
    ghost var o0, home0, t0, files0 := v.o, v.home, v.T(), v.files;
    CleanTree(v);
    ViewCodes(v.o, v.T(), oldpath);
    ViewCodes(v.o, v.T(), newpath);
    r := v.Rename(oldpath, newpath);
    if r == 0 {
      CleanTree(v);
      RenameEffect(v.g, o0, v.ds, home0, v.o, v.home, oldpath, newpath);
    }
    forall j: nat | j < MAX_OPEN_FILES ensures v.Good(j) {
      assert old(v.Good(j));
      assert r == 0 ==> v.files[j] == Repathed(files0[j], oldpath, newpath);
    }
  }

  // ---------- round trip ----------

  function Flat(chunks: seq<seq<byte>>): seq<byte> {
    if chunks == [] then [] else Flat(chunks[..|chunks| - 1]) + chunks[|chunks| - 1]
  }

  /** Handle `fd` is on the file that `path` names, at its end, and the file holds `bytes`. */
  ghost predicate Holding(v: Volume, fd: int, path: CString, bytes: seq<byte>)
    reads v
  {
    && v.Valid() && 3 <= fd < 3 + MAX_OPEN_FILES && v.files[fd - 3].used
    && Coherent(v.T(), v.files[fd - 3])
    && Named(v.T(), Keys(path)) == Some((PlaceOf(v.files[fd - 3]), EntryIn(v.T(), PlaceOf(v.files[fd - 3]))))
    && HandleBytes(v.o, v.files[fd - 3]) == bytes
    && v.files[fd - 3].cursor == v.files[fd - 3].size == |bytes|
  }

  lemma OpenedHolds(t: Tree, home: Homes, t': Tree, home': Homes, o': Objs, path: CString, f: OpenFile)
    requires WellFormed(t, home, {}) && WellFormed(t', home', {}) && Resolve(t, Keys(path)).None?
    requires OpenedAs(t, t', path, f)
    ensures Named(t', Keys(path)) == Some((PlaceOf(f), EntryIn(t', PlaceOf(f))))
    ensures HandleBytes(o', f) == [] && f.cursor == f.size == 0 && f.used
  {
    hide WellFormed, Inserted, Keys, Resolve, Walk, NewEntry, Leads, NameFree, PathKeys, Named, FreshDir;
    var e := NewEntry(LastKey(path), 0, 0, 0);
    PathLeads(t, path, f.parent);
    InsertedDir(t, t', f.parent, f.idx, e);
    FreeAt(t, path, f.parent);
    InsertedAdds(t, t', f.parent, f.idx, e);
    KeysOk(path);
    AddedPaths(t, home, t', home', PlaceOf(f), e, Keys(path), Keys(path));
    InsertedSlot(t, t', f.parent, f.idx, e);
    var x :| EntryAt(t', (f.parent, f.idx), x) && f == Opened(path, x, f.parent, f.idx);
    EntryAtSlot(t', PlaceOf(f), x);
  }

  lemma InsertedSlot(t: Tree, t': Tree, d: nat, i: nat, e: Raw)
    requires Inserted(t, t', d, i, e)
    ensures EntryIn(t', (d, i)) == e
  {
  }

  /** Writing one whole chunk at the end of the file. */
  method AppendChunk(v: Volume, fd: int, path: CString, chunk: seq<byte>, ghost bytes: seq<byte>) returns (ok: bool)
    requires Holding(v, fd, path, bytes)
    modifies v
    ensures ok ==> Holding(v, fd, path, bytes + chunk)
    ensures !ok ==> v.Valid() && FirstFree(v.Table(), -1)
  {
    hide WellFormed, Volume.Sound, TreeOf, Keys, Coherent, Progress, FirstFree, FileBytes, Named, Splice;
    CleanTree(v);
    ghost var o0, t0, home0, f0 := v.o, v.T(), v.home, v.files[fd - 3];
    var r := v.Write(fd, chunk);
    ok := r == |chunk|;
    if ok {
      CleanTree(v);
      KeysOk(path);
      WriteChanges(o0, t0, f0, v.o, v.T(), v.files[fd - 3], v.ds, chunk, r);
      ChangedPaths(t0, home0, v.T(), v.home, PlaceOf(f0), EntryIn(t0, PlaceOf(f0)), EntryIn(v.T(), PlaceOf(f0)),
          Keys(path));
      AppendedBytes(o0, t0, f0, v.o, v.T(), v.files[fd - 3], v.ds, chunk, bytes);
    }
  }

  lemma AppendedBytes(o: Objs, t: Tree, f: OpenFile, o': Objs, t': Tree, f': OpenFile, ds: set<nat>, chunk: seq<byte>,
                      bytes: seq<byte>)
    requires Progress(o, t, f, o', t', f', ds, chunk, |chunk|)
    requires HandleBytes(o, f) == bytes && f.cursor == f.size == |bytes|
    ensures HandleBytes(o', f') == bytes + chunk && f'.cursor == f'.size == |bytes + chunk|
    ensures PlaceOf(f') == PlaceOf(f) && f'.used == f.used && Coherent(t', f')
  {
  }

  /** Opening the path again gives a handle on the same bytes, at the start. */
  lemma ReopenedHolds(g: Geometry, o: Objs, ds: set<nat>, home: Homes, o': Objs, path: CString, f: OpenFile,
                      f': OpenFile)
    requires TreeOk(g, o, ds, home) && TreeOk(g, o', ds, home) && Coherent(TreeOf(g, o, ds), f)
    requires Named(TreeOf(g, o, ds), Keys(path)) == Some((PlaceOf(f), EntryIn(TreeOf(g, o, ds), PlaceOf(f))))
    requires OpenedAs(TreeOf(g, o, ds), TreeOf(g, o', ds), path, f') && (o' == o || OnlyDir(o, o', f'.parent))
    ensures HandleBytes(o', f') == HandleBytes(o, f) && f'.cursor == 0 && f'.size == f.size && f'.used
  {
    hide WellFormed, TreeOf, Keys, Resolve, Named, TreeOk, FileBytes, OnlyDir;
    var t := TreeOf(g, o, ds);
    NamedResolve(t, Keys(path));
    OpenedDirs(g, o, ds, home, o', path, f');
    var e :| EntryAt(t, (f.parent, f.idx), e) && Agrees(f, e);
    var x :| EntryAt(t, (f'.parent, f'.idx), x) && f' == Opened(path, x, f'.parent, f'.idx);
    EntryAtUnique(t, PlaceOf(f));
    assert Contents(o', e) == Contents(o, e);
  }

  lemma Reopens(t: Tree, fat: FatTable, path: CString, f: OpenFile)
    requires Named(t, Keys(path)) == Some((PlaceOf(f), EntryIn(t, PlaceOf(f)))) && Coherent(t, f)
    ensures CanOpen(t, fat, path)
  {
    hide Keys, Resolve, Named;
    NamedResolve(t, Keys(path));
    var e :| EntryAt(t, (f.parent, f.idx), e) && Agrees(f, e);
    assert EntryAt(t, PlaceOf(f), e) && !IsDir(e);
  }

  /** A handle is unused, and the path can be opened. */
  ghost predicate Openable(v: Volume, path: CString)
    reads v
    requires v.Valid()
  {
    HasUnused(v.files) && CanOpen(v.T(), v.Table(), path)
  }

  /** Opens `path` and writes the chunks one after the other. */
  method WriteChunks(v: Volume, path: CString, chunks: seq<seq<byte>>) returns (ok: bool, fd: int, total: nat)
    requires v.Valid() && NameOk(path) && Resolve(v.T(), Keys(path)).None?
    modifies v
    ensures v.Valid()
    ensures ok ==> Holding(v, fd, path, Flat(chunks)) && total == |Flat(chunks)|
    ensures !ok && old(Openable(v, path)) ==> FirstFree(v.Table(), -1)
  {
    hide WellFormed, Volume.Sound, TreeOf, Keys, Coherent, FirstFree, Resolve, FileBytes, OpenedAs, CanOpen, OnlyDir,
      Holding, Named;
    CleanTree(v);
    ghost var t0, home0 := v.T(), v.home;
    fd := v.Open(path);
    CleanTree(v);
    ok, total := fd >= 0, 0;
    if !ok {
      return;
    }
    OpenedHolds(t0, home0, v.T(), v.home, v.o, path, v.files[fd - 3]);
    NowHolding(v, fd, path);
    for i := 0 to |chunks|
      invariant Holding(v, fd, path, Flat(chunks[..i])) && total == |Flat(chunks[..i])| && fd >= 0
    {
      assert chunks[..i + 1][..i] == chunks[..i];
      ok := AppendChunk(v, fd, path, chunks[i], Flat(chunks[..i]));
      if !ok {
        return;
      }
      total := total + |chunks[i]|;
    }
    assert chunks[..|chunks|] == chunks;
    HoldingValid(v, fd, path, Flat(chunks));
    ok := true;
  }

  lemma NowHolding(v: Volume, fd: int, path: CString)
    requires v.Valid() && 3 <= fd < 3 + MAX_OPEN_FILES && v.files[fd - 3].used && v.Good(fd - 3)
    requires Named(v.T(), Keys(path)) == Some((PlaceOf(v.files[fd - 3]), EntryIn(v.T(), PlaceOf(v.files[fd - 3]))))
    requires HandleBytes(v.o, v.files[fd - 3]) == [] && v.files[fd - 3].cursor == v.files[fd - 3].size == 0
    ensures Holding(v, fd, path, [])
  {
  }

  lemma HoldingValid(v: Volume, fd: int, path: CString, bytes: seq<byte>)
    requires Holding(v, fd, path, bytes)
    ensures v.Valid()
  {
  }

  /** Round trip through the drive: a fresh file is written in chunks of any number and length, closed,
      opened again and read. The read returns exactly what was written, and the next read returns
      nothing. Only a full drive, or a path that cannot be opened, stops this. */
  method RoundTrip(v: Volume, path: CString, chunks: seq<seq<byte>>, more: nat)
    returns (ok: bool, data: seq<byte>, rest: int)
    requires v.Valid() && NameOk(path) && Resolve(v.T(), Keys(path)).None?
    modifies v
    ensures v.Valid()
    ensures ok ==> data == Flat(chunks) && rest == 0
    ensures !ok && old(Openable(v, path)) ==> FirstFree(v.Table(), -1)
  {
    hide WellFormed, Volume.Sound, TreeOf, Keys, Coherent, FirstFree, Resolve, FileBytes, OpenedAs, CanOpen, OnlyDir,
      Named;
    var fd, total;
    data, rest := [], 0;
    ok, fd, total := WriteChunks(v, path, chunks);
    if !ok {
      return;
    }
    CleanTree(v);
    ghost var o0, f := v.o, v.files[fd - 3];
    var r := v.Close(fd);
    Reopens(v.T(), v.Table(), path, f);
    assert !v.files[fd - 3].used;
    fd := v.Open(path);
    CleanTree(v);
    ReopenedHolds(v.g, o0, v.ds, v.home, v.o, path, f, v.files[fd - 3]);
    r, data := v.Read(fd, total);
    var tail;
    rest, tail := v.Read(fd, more);
  }
}
