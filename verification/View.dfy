// What a client of the file system can see: which paths are directories, and which bytes each file
// path holds.
module View {
  import opened Disk
  import opened Objects
  import opened Directory
  import opened Tree
  import opened Store
  import opened Lookup
  import opened Namespace
  import opened Options

  type Path = seq<Key>

  datatype View = View(dirs: iset<Path>, files: imap<Path, seq<byte>>)

  ghost predicate FileAt(t: Tree, ks: Path) {
    PathKeys(ks) && Named(t, ks).Some? && !IsDir(Named(t, ks).value.1)
  }

  ghost function ViewOf(o: Objs, t: Tree): View {
    View(iset ks: Path | PathKeys(ks) && Walk(t, ks).Some?,
         imap ks: Path | FileAt(t, ks) :: Contents(o, Named(t, ks).value.1))
  }

  lemma NamedEntry(t: Tree, ks: Path)
    requires PathKeys(ks) && Named(t, ks).Some?
    ensures EntryAt(t, Named(t, ks).value.0, Named(t, ks).value.1)
  {
    PathKeysInit(ks);
    LookEntry(t, Walk(t, Init(ks)).value, Last(ks));
  }

  /** The files keep their bytes. */
  ghost predicate SameContents(o: Objs, o': Objs, t: Tree) {
    forall r, h :: EntryAt(t, r, h) && !IsDir(h) ==> Contents(o', h) == Contents(o, h)
  }

  /** A path names something exactly when it is a directory or a file, and not both. */
  lemma ViewNames(o: Objs, t: Tree, ks: Path)
    requires ks != [] && PathKeys(ks)
    ensures var v := ViewOf(o, t);
            (Named(t, ks).Some? <==> ks in v.dirs || ks in v.files) && !(ks in v.dirs && ks in v.files)
  {
    WalkLast(t, ks);
    if Walk(t, Init(ks)).Some? {
      EnterLook(t, Walk(t, Init(ks)).value, Last(ks));
    }
  }

  /** Two views agree at a path. */
  ghost predicate SeenAt(v: View, w: View, ks: Path) {
    && (ks in v.dirs <==> ks in w.dirs)
    && (ks in v.files <==> ks in w.files)
    && (ks in v.files && ks in w.files ==> v.files[ks] == w.files[ks])
  }

  lemma SeenFacts(v: View, w: View, ks: Path)
    requires SeenAt(v, w, ks)
    ensures (ks in v.dirs <==> ks in w.dirs) && (ks in v.files <==> ks in w.files)
    ensures ks in v.files && ks in w.files ==> v.files[ks] == w.files[ks]
  {
  }

  lemma ViewsEqual(v: View, w: View)
    requires forall ks: Path :: SeenAt(v, w, ks)
    ensures v == w
  {
    hide SeenAt;
    forall ks: Path ensures (ks in v.dirs <==> ks in w.dirs) && (ks in v.files <==> ks in w.files)
      && (ks in v.files && ks in w.files ==> v.files[ks] == w.files[ks]) {
      SeenFacts(v, w, ks);
    }
    assert v.dirs == w.dirs;
    assert v.files == w.files;
  }

  lemma ViewAt(o: Objs, t: Tree, ks: Path)
    ensures ks in ViewOf(o, t).dirs <==> PathKeys(ks) && Walk(t, ks).Some?
    ensures ks in ViewOf(o, t).files <==> PathKeys(ks) && Named(t, ks).Some? && !IsDir(Named(t, ks).value.1)
    ensures ks in ViewOf(o, t).files ==> ViewOf(o, t).files[ks] == Contents(o, Named(t, ks).value.1)
  {
  }

  /** The view after something with no contents appeared at `path`. */
  function WithPath(v: View, path: Path, dir: bool): View {
    if dir then v.(dirs := v.dirs + iset{path}) else v.(files := v.files[path := []])
  }

  lemma AddedView(o: Objs, t: Tree, home: Homes, o': Objs, t': Tree, home': Homes, q: Place, e: Raw, path: Path)
    requires WellFormed(t, home, {}) && WellFormed(t', home', {}) && Adds(t, t', q, e)
    requires Leads(t, path, q.0, KeyOf(e)) && NameFree(t, q.0, KeyOf(e))
    requires IsDir(e) ==> Cluster(e) !in t.dirs
    requires SameContents(o, o', t) && Contents(o', e) == []
    ensures ViewOf(o', t') == WithPath(ViewOf(o, t), path, IsDir(e))
  {
    hide WellFormed, Adds, NameFree, Walk, Named, Contents, EntryAt, Leads, SameContents, ViewOf, WithPath;
    forall ks: Path ensures SeenAt(ViewOf(o', t'), WithPath(ViewOf(o, t), path, IsDir(e)), ks) {
      AddedSeen(o, t, home, o', t', home', q, e, path, ks);
    }
    ViewsEqual(ViewOf(o', t'), WithPath(ViewOf(o, t), path, IsDir(e)));
  }

  lemma LeadsNamed(t: Tree, path: Path, d: nat, key: Key)
    requires Leads(t, path, d, key)
    ensures Named(t, path) == Look(t, d, key) && PathKeys(path)
  {
  }

  lemma AddedSeen(o: Objs, t: Tree, home: Homes, o': Objs, t': Tree, home': Homes, q: Place, e: Raw, path: Path,
                  ks: Path)
    requires WellFormed(t, home, {}) && WellFormed(t', home', {}) && Adds(t, t', q, e)
    requires Leads(t, path, q.0, KeyOf(e)) && NameFree(t, q.0, KeyOf(e))
    requires IsDir(e) ==> Cluster(e) !in t.dirs
    requires SameContents(o, o', t) && Contents(o', e) == []
    ensures SeenAt(ViewOf(o', t'), WithPath(ViewOf(o, t), path, IsDir(e)), ks)
  {
    hide WellFormed, Adds, NameFree, Walk, Named, Contents, EntryAt, ViewOf, PathKeys;
    ViewAt(o, t, ks);
    ViewAt(o', t', ks);
    if PathKeys(ks) {
      FreeLook(t, q.0, KeyOf(e));
      LeadsNamed(t, path, q.0, KeyOf(e));
      AddedPaths(t, home, t', home', q, e, path, ks);
      if Named(t, ks).Some? {
        NamedEntry(t, ks);
      }
    }
  }

  /** The view after what `path` named was removed. */
  function WithoutPath(v: View, path: Path): View {
    View(v.dirs - iset{path}, v.files - {path})
  }

  lemma DroppedView(o: Objs, t: Tree, home: Homes, o': Objs, t': Tree, home': Homes, p: Place, e: Raw, path: Path)
    requires WellFormed(t, home, {}) && WellFormed(t', home', {}) && Drops(t, t', p, e)
    requires Leads(t, path, p.0, KeyOf(e)) && (IsDir(e) ==> Empty(t, Cluster(e)))
    requires SameContents(o, o', t')
    ensures ViewOf(o', t') == WithoutPath(ViewOf(o, t), path)
  {
    hide WellFormed, Drops, Walk, Named, Contents, EntryAt, Leads, SameContents, ViewOf, WithoutPath, Empty;
    forall ks: Path ensures SeenAt(ViewOf(o', t'), WithoutPath(ViewOf(o, t), path), ks) {
      DroppedSeen(o, t, home, o', t', home', p, e, path, ks);
    }
    ViewsEqual(ViewOf(o', t'), WithoutPath(ViewOf(o, t), path));
  }

  lemma DroppedSeen(o: Objs, t: Tree, home: Homes, o': Objs, t': Tree, home': Homes, p: Place, e: Raw, path: Path,
                    ks: Path)
    requires WellFormed(t, home, {}) && WellFormed(t', home', {}) && Drops(t, t', p, e)
    requires Leads(t, path, p.0, KeyOf(e)) && (IsDir(e) ==> Empty(t, Cluster(e)))
    requires SameContents(o, o', t')
    ensures SeenAt(ViewOf(o', t'), WithoutPath(ViewOf(o, t), path), ks)
  {
    hide WellFormed, Drops, Walk, Named, Contents, EntryAt, ViewOf, PathKeys, Empty;
    ViewAt(o, t, ks);
    ViewAt(o', t', ks);
    if PathKeys(ks) {
      DroppedPaths(t, home, t', home', p, e, path, ks);
      if Named(t', ks).Some? {
        NamedEntry(t', ks);
      }
    }
  }

  /** The view after everything at or below `src` moved to `dst`. */
  ghost function Shifted(v: View, src: Path, dst: Path): View {
    View(iset ks: Path | PathKeys(ks) && Origin(src, dst, ks).Some? && Origin(src, dst, ks).value in v.dirs,
         imap ks: Path | PathKeys(ks) && Origin(src, dst, ks).Some? && Origin(src, dst, ks).value in v.files ::
           v.files[Origin(src, dst, ks).value])
  }

  lemma MovedView(o: Objs, t: Tree, home: Homes, o': Objs, t': Tree, home': Homes, p: Place, e: Raw, q: Place, f: Raw,
                  src: Path, dst: Path)
    requires Move(t, home, t', home', p, e, q, f, src, dst) && Size(f) == Size(e)
    requires SameContents(o, o', t)
    ensures ViewOf(o', t') == Shifted(ViewOf(o, t), src, dst)
  {
    hide Move, SameContents, ViewOf, Shifted;
    forall ks: Path ensures SeenAt(ViewOf(o', t'), Shifted(ViewOf(o, t), src, dst), ks) {
      MovedSeen(o, t, home, o', t', home', p, e, q, f, src, dst, ks);
    }
    ViewsEqual(ViewOf(o', t'), Shifted(ViewOf(o, t), src, dst));
  }

  lemma MovedSeen(o: Objs, t: Tree, home: Homes, o': Objs, t': Tree, home': Homes, p: Place, e: Raw, q: Place, f: Raw,
                  src: Path, dst: Path, ks: Path)
    requires Move(t, home, t', home', p, e, q, f, src, dst) && Size(f) == Size(e)
    requires SameContents(o, o', t)
    ensures SeenAt(ViewOf(o', t'), Shifted(ViewOf(o, t), src, dst), ks)
  {
    hide Move, Walk, Named, EntryAt, ViewOf, PathKeys, Origin;
    ViewAt(o, t, ks);
    ViewAt(o', t', ks);
    MoveSame(t, home, t', home', p, e, q, f, src, dst);
    if PathKeys(ks) {
      MovedPaths(t, home, t', home', p, e, q, f, src, dst, ks);
      if Origin(src, dst, ks).Some? {
        var s := Origin(src, dst, ks).value;
        OriginKeys(src, dst, ks);
        ViewAt(o, t, s);
        if Named(t, s).Some? {
          NamedEntry(t, s);
        }
      }
    }
  }

  lemma OriginKeys(src: Path, dst: Path, ks: Path)
    requires PathKeys(src) && PathKeys(ks) && Origin(src, dst, ks).Some?
    ensures PathKeys(Origin(src, dst, ks).value)
  {
  }

  lemma MoveSame(t: Tree, home: Homes, t': Tree, home': Homes, p: Place, e: Raw, q: Place, f: Raw, src: Path, dst: Path)
    requires Move(t, home, t', home', p, e, q, f, src, dst)
    ensures IsDir(f) == IsDir(e) && Cluster(f) == Cluster(e) && PathKeys(src) && PathKeys(dst)
    ensures Named(t, src) == Some((p, e))
  {
    hide WellFormed;
    LookIs(t, home, p, e);
  }

  /** The view after the file that entry `e` in slot `p` names got the contents `bytes`. */
  ghost function Rewrote(v: View, t: Tree, p: Place, e: Raw, bytes: seq<byte>): View {
    v.(files := imap ks: Path | ks in v.files :: if Named(t, ks) == Some((p, e)) then bytes else v.files[ks])
  }

  lemma ChangedView(o: Objs, t: Tree, home: Homes, o': Objs, t': Tree, home': Homes, p: Place, e: Raw, f: Raw)
    requires WellFormed(t, home, {}) && WellFormed(t', home', {}) && Changes(t, t', p, e, f)
    requires forall r, h :: r != p && EntryAt(t, r, h) && !IsDir(h) ==> Contents(o', h) == Contents(o, h)
    ensures ViewOf(o', t') == Rewrote(ViewOf(o, t), t, p, e, Contents(o', f))
  {
    hide WellFormed, Changes, ViewOf, Rewrote, EntryAt, Contents;
    forall ks: Path ensures SeenAt(ViewOf(o', t'), Rewrote(ViewOf(o, t), t, p, e, Contents(o', f)), ks) {
      ChangedSeen(o, t, home, o', t', home', p, e, f, ks);
    }
    ViewsEqual(ViewOf(o', t'), Rewrote(ViewOf(o, t), t, p, e, Contents(o', f)));
  }

  lemma ChangedSeen(o: Objs, t: Tree, home: Homes, o': Objs, t': Tree, home': Homes, p: Place, e: Raw, f: Raw, ks: Path)
    requires WellFormed(t, home, {}) && WellFormed(t', home', {}) && Changes(t, t', p, e, f)
    requires forall r, h :: r != p && EntryAt(t, r, h) && !IsDir(h) ==> Contents(o', h) == Contents(o, h)
    ensures SeenAt(ViewOf(o', t'), Rewrote(ViewOf(o, t), t, p, e, Contents(o', f)), ks)
  {
    hide WellFormed, Changes, ViewOf, EntryAt, Contents, Walk, Named, PathKeys;
    ViewAt(o, t, ks);
    ViewAt(o', t', ks);
    ChangedKinds(t, t', p, e, f);
    if PathKeys(ks) {
      ChangedPaths(t, home, t', home', p, e, f, ks);
      if Named(t, ks).Some? {
        NamedEntry(t, ks);
        EntryAtUnique(t, p);
      }
    }
  }
}
