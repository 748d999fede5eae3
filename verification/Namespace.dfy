// The tree seen through paths: which path names which entry, and what each change of the tree does
// to every path.
module Namespace {
  import opened Disk
  import opened Directory
  import opened Tree
  import opened Lookup
  import opened Options

  /** The entry that a lookup of `key` in directory `d` finds, with its place. */
  ghost function Look(t: Tree, d: nat, key: Key): Option<(Place, Raw)> {
    match Found(t, d, key)
    case None => None
    case Some(q) => Some((q, EntryIn(t, q)))
  }

  /** The entry that a path names, with its place. */
  ghost function Named(t: Tree, ks: seq<Key>): Option<(Place, Raw)> {
    if ks == [] then None else
    match Walk(t, Init(ks))
    case None => None
    case Some(d) => Look(t, d, Last(ks))
  }

  function Init(ks: seq<Key>): seq<Key>
    requires ks != []
  {
    ks[..|ks| - 1]
  }

  function Last(ks: seq<Key>): Key
    requires ks != []
  {
    ks[|ks| - 1]
  }

  lemma NamedResolve(t: Tree, ks: seq<Key>)
    ensures Named(t, ks) == match Resolve(t, ks) case None => None case Some(q) => Some((q, EntryIn(t, q)))
  {
  }

  lemma EnterLook(t: Tree, d: nat, key: Key)
    ensures Enter(t, d, key) == match Look(t, d, key)
                                case None => None
                                case Some(x) => if IsDir(x.1) then Some(Cluster(x.1)) else None
  {
  }

  /** A lookup finds ordinary entries only. */
  lemma LookEntry(t: Tree, d: nat, key: Key)
    requires PathKey(key) && Look(t, d, key).Some?
    ensures var x := Look(t, d, key).value;
            EntryAt(t, x.0, x.1) && x.0.0 == d && KeyOf(x.1) == key
  {
    HitOrdinary(t.dirs[d], Scan(t.dirs[d], key), key);
  }

  /** A lookup finds the ordinary entry with the name, wherever it is. */
  lemma LookIs(t: Tree, home: Homes, q: Place, f: Raw)
    requires WellFormed(t, home, {}) && EntryAt(t, q, f)
    ensures Look(t, q.0, KeyOf(f)) == Some((q, f))
  {
    ScanFinds(t.dirs[q.0], KeyOf(f), q.1);
  }

  /** If the ordinary entries of that name are the same, the lookup has the same result. */
  lemma SameLook(t: Tree, home: Homes, t': Tree, home': Homes, d: nat, key: Key)
    requires WellFormed(t, home, {}) && WellFormed(t', home', {}) && PathKey(key)
    requires forall i: nat, f :: KeyOf(f) == key ==> (EntryAt(t', (d, i), f) <==> EntryAt(t, (d, i), f))
    ensures Look(t', d, key) == Look(t, d, key)
  {
    hide WellFormed, EntryAt, Look, PathKey;
    if Look(t, d, key).Some? {
      LookEntry(t, d, key);
      LookIs(t', home', Look(t, d, key).value.0, Look(t, d, key).value.1);
    }
    if Look(t', d, key).Some? {
      LookEntry(t', d, key);
      LookIs(t, home, Look(t', d, key).value.0, Look(t', d, key).value.1);
    }
  }

  // ---------- walks ----------

  lemma WalkLast(t: Tree, ks: seq<Key>)
    requires ks != []
    ensures Walk(t, ks) == match Walk(t, Init(ks)) case None => None case Some(d) => Enter(t, d, Last(ks))
  {
  }

  /** A directory is reached by at most one path. */
  lemma {:induction false} WalkUnique(t: Tree, home: Homes, a: seq<Key>, b: seq<Key>)
    requires WellFormed(t, home, {}) && PathKeys(a) && PathKeys(b)
    requires Walk(t, a).Some? && Walk(t, b) == Walk(t, a)
    ensures a == b
    decreases |a|
  {
    hide WellFormed;
    if a != [] {
      EnterInside(t, home, Walk(t, Init(a)).value, Last(a));
    }
    if b != [] {
      EnterInside(t, home, Walk(t, Init(b)).value, Last(b));
    }
    if a != [] && b != [] {
      WalkUnique(t, home, Init(a), Init(b));
      assert a == Init(a) + [Last(a)] && b == Init(b) + [Last(b)];
    }
  }

  /** Every directory is reached by a path. */
  ghost predicate Rooted(t: Tree) {
    forall x :: x in t.dirs ==> exists ks :: PathKeys(ks) && Walk(t, ks) == Some(x)
  }

  lemma PathKeysInit(ks: seq<Key>)
    requires PathKeys(ks) && ks != []
    ensures PathKeys(Init(ks)) && PathKey(Last(ks))
  {
  }

  lemma WalkPrefix(t: Tree, a: seq<Key>, b: seq<Key>)
    requires a <= b && Walk(t, a).None?
    ensures Walk(t, b).None?
  {
    assert b[..|a|] == a && b[..|b|] == b;
    WalkStuck(t, b, |a|, |b|);
  }

  /** Walks agree as long as their steps do. */
  lemma {:induction false} WalkSame(t: Tree, t': Tree, ks: seq<Key>)
    requires PathKeys(ks)
    requires forall y: nat, k :: PathKey(k) ==> Enter(t', y, k) == Enter(t, y, k)
    ensures Walk(t', ks) == Walk(t, ks)
    decreases |ks|
  {
    if ks != [] {
      PathKeysInit(ks);
      WalkSame(t, t', Init(ks));
    }
  }

  lemma FreeLook(t: Tree, d: nat, key: Key)
    requires NameFree(t, d, key)
    ensures d in t.dirs && Look(t, d, key).None?
  {
  }

  /** Two paths with the same parent directory and the same last component are the same. */
  lemma SamePath(t: Tree, home: Homes, a: seq<Key>, b: seq<Key>)
    requires WellFormed(t, home, {}) && PathKeys(a) && PathKeys(b) && a != [] && b != []
    requires Walk(t, Init(a)).Some? && Walk(t, Init(b)).Some?
    ensures Walk(t, Init(a)) == Walk(t, Init(b)) && Last(a) == Last(b) <==> a == b
  {
    hide WellFormed, Walk;
    if Walk(t, Init(a)) == Walk(t, Init(b)) {
      WalkUnique(t, home, Init(a), Init(b));
      assert a == Init(a) + [Last(a)] && b == Init(b) + [Last(b)];
    }
  }

  /** The path leads to directory `d` and ends in `key`. */
  ghost predicate Leads(t: Tree, path: seq<Key>, d: nat, key: Key) {
    path != [] && PathKeys(path) && Walk(t, Init(path)) == Some(d) && Last(path) == key
  }

  // ---------- an entry is added ----------

  /** The ordinary entries of `t'` are those of `t` and `e` in slot `q`. */
  ghost predicate Adds(t: Tree, t': Tree, q: Place, e: Raw) {
    && !At(t, q)
    && forall r, h :: EntryAt(t', r, h) <==> (r == q && h == e) || EntryAt(t, r, h)
  }

  lemma PathKeyStart(e: Raw)
    requires PathKey(KeyOf(e))
    ensures e[0] != DOT
  {
    assert KeyOf(e)[0] == e[0];
  }

  lemma InsertedAdds(t: Tree, t': Tree, d: nat, i: nat, e: Raw)
    requires Inserted(t, t', d, i, e) && PathKey(KeyOf(e)) && Attr(e) != LFN
    ensures Adds(t, t', (d, i), e)
  {
    PathKeyStart(e);
    forall r, h ensures EntryAt(t', r, h) <==> (r == (d, i) && h == e) || EntryAt(t, r, h) {
      InsertedEntries(t, t', d, i, e, r, h);
    }
  }

  lemma AddedLook(t: Tree, home: Homes, t': Tree, home': Homes, q: Place, e: Raw, y: nat, k: Key)
    requires WellFormed(t, home, {}) && WellFormed(t', home', {}) && PathKey(k) && Adds(t, t', q, e)
    ensures Look(t', y, k) == if y == q.0 && k == KeyOf(e) then Some((q, e)) else Look(t, y, k)
  {
    hide WellFormed, Look, PathKey, At, EntryAt;
    if y == q.0 && k == KeyOf(e) {
      LookIs(t', home', q, e);
    } else {
      SameLook(t, home, t', home', y, k);
    }
  }

  /** A new entry is named by its path, and every other path names what it named before. The path of
      a new directory leads to it, and no path leads further. */
  lemma {:induction false} AddedPaths(t: Tree, home: Homes, t': Tree, home': Homes, q: Place, e: Raw,
                                      path: seq<Key>, ks: seq<Key>)
    requires WellFormed(t, home, {}) && WellFormed(t', home', {}) && Adds(t, t', q, e)
    requires Leads(t, path, q.0, KeyOf(e)) && NameFree(t, q.0, KeyOf(e)) && PathKeys(ks)
    requires IsDir(e) ==> Cluster(e) !in t.dirs
    ensures Walk(t', ks) == if ks == path && IsDir(e) then Some(Cluster(e)) else Walk(t, ks)
    ensures Named(t', ks) == if ks == path then Some((q, e)) else Named(t, ks)
    decreases |ks|
  {
    hide WellFormed, Look, PathKey, Adds, NameFree, Enter, PathKeys;
    if ks != [] {
      PathKeysInit(ks);
      AddedPaths(t, home, t', home', q, e, path, Init(ks));
      AddedStep(t, home, t', home', q, e, path, ks);
    }
  }

  lemma AddedStep(t: Tree, home: Homes, t': Tree, home': Homes, q: Place, e: Raw, path: seq<Key>, ks: seq<Key>)
    requires WellFormed(t, home, {}) && WellFormed(t', home', {}) && Adds(t, t', q, e)
    requires Leads(t, path, q.0, KeyOf(e)) && NameFree(t, q.0, KeyOf(e))
    requires ks != [] && PathKeys(ks) && (IsDir(e) ==> Cluster(e) !in t.dirs)
    requires Walk(t', Init(ks)) == if Init(ks) == path && IsDir(e) then Some(Cluster(e)) else Walk(t, Init(ks))
    ensures Walk(t', ks) == if ks == path && IsDir(e) then Some(Cluster(e)) else Walk(t, ks)
    ensures Named(t', ks) == if ks == path then Some((q, e)) else Named(t, ks)
  {
    hide WellFormed, Look, PathKey, Adds, NameFree, Enter, PathKeys, Walk;
    PathKeysInit(ks);
    FreeLook(t, q.0, KeyOf(e));
    WalkLast(t, ks);
    WalkLast(t', ks);
    if Init(ks) == path && IsDir(e) {
      WalkLast(t, path);
      EnterLook(t, q.0, Last(path));
      NoDirLook(t, Cluster(e), Last(ks));
      AddedLook(t, home, t', home', q, e, Cluster(e), Last(ks));
      EnterLook(t', Cluster(e), Last(ks));
    } else if Walk(t, Init(ks)).Some? {
      var y := Walk(t, Init(ks)).value;
      AddedLook(t, home, t', home', q, e, y, Last(ks));
      EnterLook(t, y, Last(ks));
      EnterLook(t', y, Last(ks));
      SamePath(t, home, ks, path);
    }
  }

  lemma NoDirLook(t: Tree, d: nat, key: Key)
    requires d !in t.dirs
    ensures Look(t, d, key).None?
  {
  }

  // ---------- an entry is removed ----------

  /** The ordinary entries of `t'` are those of `t` without `e`, which was in slot `p`. */
  ghost predicate Drops(t: Tree, t': Tree, p: Place, e: Raw) {
    && EntryAt(t, p, e)
    && forall r, h :: EntryAt(t', r, h) <==> r != p && EntryAt(t, r, h)
  }

  lemma RemovedDrops(t: Tree, t': Tree, p: Place, e: Raw)
    requires Removed(t, t', p, e) && (IsDir(e) ==> p.0 != Cluster(e) && Empty(t, Cluster(e)))
    ensures Drops(t, t', p, e)
  {
    forall r, h ensures EntryAt(t', r, h) <==> r != p && EntryAt(t, r, h) {
      RemovedKeeps(t, t', p, e, r, h);
    }
  }

  lemma DroppedLook(t: Tree, home: Homes, t': Tree, home': Homes, p: Place, e: Raw, y: nat, k: Key)
    requires WellFormed(t, home, {}) && WellFormed(t', home', {}) && PathKey(k) && Drops(t, t', p, e)
    ensures Look(t', y, k) == if y == p.0 && k == KeyOf(e) then None else Look(t, y, k)
  {
    hide WellFormed, Look, PathKey, At, EntryAt;
    if y == p.0 && k == KeyOf(e) {
      LookIs(t, home, p, e);
      if Look(t', y, k).Some? {
        LookEntry(t', y, k);
        LookIs(t, home, Look(t', y, k).value.0, Look(t', y, k).value.1);
      }
    } else {
      EntryAtUnique(t, p);
      SameLook(t, home, t', home', y, k);
    }
  }

  lemma EmptyLook(t: Tree, d: nat, key: Key)
    requires Empty(t, d) && PathKey(key)
    ensures Look(t, d, key).None?
  {
    hide EntryAt;
    if Look(t, d, key).Some? {
      LookEntry(t, d, key);
      EntryAtSlot(t, Look(t, d, key).value.0, Look(t, d, key).value.1);
    }
  }

  /** The path of a removed entry names nothing any more; every other path names what it named before. */
  lemma {:induction false} DroppedPaths(t: Tree, home: Homes, t': Tree, home': Homes, p: Place, e: Raw,
                                        path: seq<Key>, ks: seq<Key>)
    requires WellFormed(t, home, {}) && WellFormed(t', home', {}) && Drops(t, t', p, e)
    requires Leads(t, path, p.0, KeyOf(e)) && PathKeys(ks) && (IsDir(e) ==> Empty(t, Cluster(e)))
    ensures Walk(t', ks) == if ks == path then None else Walk(t, ks)
    ensures Named(t', ks) == if ks == path then None else Named(t, ks)
    decreases |ks|
  {
    hide WellFormed, Look, PathKey, Drops, Empty, Enter, PathKeys;
    if ks != [] {
      PathKeysInit(ks);
      DroppedPaths(t, home, t', home', p, e, path, Init(ks));
      DroppedStep(t, home, t', home', p, e, path, ks);
    }
  }

  lemma DroppedStep(t: Tree, home: Homes, t': Tree, home': Homes, p: Place, e: Raw, path: seq<Key>, ks: seq<Key>)
    requires WellFormed(t, home, {}) && WellFormed(t', home', {}) && Drops(t, t', p, e)
    requires Leads(t, path, p.0, KeyOf(e)) && (IsDir(e) ==> Empty(t, Cluster(e)))
    requires ks != [] && PathKeys(ks)
    requires Walk(t', Init(ks)) == if Init(ks) == path then None else Walk(t, Init(ks))
    ensures Walk(t', ks) == if ks == path then None else Walk(t, ks)
    ensures Named(t', ks) == if ks == path then None else Named(t, ks)
  {
    hide WellFormed, Look, PathKey, Empty, Enter, PathKeys, Walk, EntryAt;
    PathKeysInit(ks);
    WalkLast(t, ks);
    WalkLast(t', ks);
    if Init(ks) == path {
      LookIs(t, home, p, e);
      WalkLast(t, path);
      EnterLook(t, p.0, Last(path));
      if IsDir(e) {
        EmptyLook(t, Cluster(e), Last(ks));
        EnterLook(t, Cluster(e), Last(ks));
      }
    } else if Walk(t, Init(ks)).Some? {
      var y := Walk(t, Init(ks)).value;
      DroppedLook(t, home, t', home', p, e, y, Last(ks));
      EnterLook(t, y, Last(ks));
      EnterLook(t', y, Last(ks));
      SamePath(t, home, ks, path);
    }
  }

  // ---------- an entry moves ----------

  /** The ordinary entries of `t'` are those of `t`, but instead of `e` in slot `p` there is `f` in slot `q`. */
  ghost predicate Moves(t: Tree, t': Tree, p: Place, e: Raw, q: Place, f: Raw) {
    && EntryAt(t, p, e) && !At(t, q)
    && forall r, h :: EntryAt(t', r, h) <==> (r == q && h == f) || (r != p && EntryAt(t, r, h))
  }

  lemma MovedLook(t: Tree, home: Homes, t': Tree, home': Homes, p: Place, e: Raw, q: Place, f: Raw, y: nat, k: Key)
    requires WellFormed(t, home, {}) && WellFormed(t', home', {}) && PathKey(k) && Moves(t, t', p, e, q, f)
    ensures Look(t', y, k) == if y == q.0 && k == KeyOf(f) then Some((q, f))
                              else if y == p.0 && k == KeyOf(e) then None
                              else Look(t, y, k)
  {
    hide WellFormed, Look, PathKey, At, EntryAt;
    if y == q.0 && k == KeyOf(f) {
      LookIs(t', home', q, f);
    } else if y == p.0 && k == KeyOf(e) {
      LookIs(t, home, p, e);
      if Look(t', y, k).Some? {
        LookEntry(t', y, k);
        LookIs(t, home, Look(t', y, k).value.0, Look(t', y, k).value.1);
      }
    } else {
      EntryAtUnique(t, p);
      SameLook(t, home, t', home', y, k);
    }
  }

  /** Where the thing that `ks` names after a move from path `src` to path `dst` was before: nowhere if
      `ks` is `src` or goes through it. */
  function Origin(src: seq<Key>, dst: seq<Key>, ks: seq<Key>): Option<seq<Key>> {
    if src <= ks then None
    else if dst <= ks then Some(src + ks[|dst|..])
    else Some(ks)
  }

  ghost function WalkOrigin(t: Tree, origin: Option<seq<Key>>): Option<nat> {
    match origin case None => None case Some(s) => Walk(t, s)
  }

  /** What a path names after entry `e` moved from `src` to `dst` and became `f` in slot `q`. */
  ghost function NamedOrigin(t: Tree, src: seq<Key>, q: Place, f: Raw, origin: Option<seq<Key>>): Option<(Place, Raw)> {
    match origin
    case None => None
    case Some(s) => if s == src then Some((q, f)) else Named(t, s)
  }

  /** The move of entry `e` at path `src` to entry `f` at path `dst`, which named nothing before. */
  ghost predicate Move(t: Tree, home: Homes, t': Tree, home': Homes, p: Place, e: Raw, q: Place, f: Raw,
                       src: seq<Key>, dst: seq<Key>)
  {
    && WellFormed(t, home, {}) && WellFormed(t', home', {}) && Moves(t, t', p, e, q, f)
    && Leads(t, src, p.0, KeyOf(e)) && Leads(t, dst, q.0, KeyOf(f)) && NameFree(t, q.0, KeyOf(f))
    && IsDir(f) == IsDir(e) && Cluster(f) == Cluster(e)
  }

  /** A move takes everything at or below the old path to the new path, and changes no other path. When
      a directory is moved to a path below itself, nothing is named by the new path either. */
  lemma {:induction false} MovedPaths(t: Tree, home: Homes, t': Tree, home': Homes, p: Place, e: Raw, q: Place, f: Raw,
                                      src: seq<Key>, dst: seq<Key>, ks: seq<Key>)
    requires Move(t, home, t', home', p, e, q, f, src, dst) && PathKeys(ks)
    ensures Walk(t', ks) == WalkOrigin(t, Origin(src, dst, ks))
    ensures Named(t', ks) == NamedOrigin(t, src, q, f, Origin(src, dst, ks))
    decreases |ks|
  {
    hide Look, PathKey, Enter, PathKeys, Move;
    if ks == [] {
      assert src != [] && dst != [] by { MoveEnds(t, home, t', home', p, e, q, f, src, dst); }
    } else {
      PathKeysInit(ks);
      MovedPaths(t, home, t', home', p, e, q, f, src, dst, Init(ks));
      if src <= Init(ks) {
        assert src <= ks;
      } else if ks == src {
        MovedSource(t, home, t', home', p, e, q, f, src, dst);
      } else if dst <= Init(ks) {
        MovedBelow(t, home, t', home', p, e, q, f, src, dst, ks);
      } else if ks == dst {
        MovedTarget(t, home, t', home', p, e, q, f, src, dst);
      } else {
        MovedBeside(t, home, t', home', p, e, q, f, src, dst, ks);
      }
    }
  }

  lemma MoveEnds(t: Tree, home: Homes, t': Tree, home': Homes, p: Place, e: Raw, q: Place, f: Raw,
                 src: seq<Key>, dst: seq<Key>)
    requires Move(t, home, t', home', p, e, q, f, src, dst)
    ensures src != [] && dst != [] && PathKeys(src) && PathKeys(dst)
    ensures Walk(t, Init(src)) == Some(p.0) && Last(src) == KeyOf(e)
    ensures Walk(t, Init(dst)) == Some(q.0) && Last(dst) == KeyOf(f)
    ensures Look(t, p.0, KeyOf(e)) == Some((p, e)) && Look(t, q.0, KeyOf(f)).None?
    ensures Walk(t, src) == if IsDir(e) then Some(Cluster(e)) else None
    ensures Walk(t, dst).None? && !(dst <= Init(src))
  {
    hide WellFormed, Look, PathKeys;
    LookIs(t, home, p, e);
    FreeLook(t, q.0, KeyOf(f));
    WalkLast(t, src);
    WalkLast(t, dst);
    EnterLook(t, p.0, KeyOf(e));
    EnterLook(t, q.0, KeyOf(f));
    if dst <= Init(src) {
      WalkPrefix(t, dst, Init(src));
    }
  }

  lemma MovedSource(t: Tree, home: Homes, t': Tree, home': Homes, p: Place, e: Raw, q: Place, f: Raw,
                    src: seq<Key>, dst: seq<Key>)
    requires Move(t, home, t', home', p, e, q, f, src, dst) && src != []
    requires Walk(t', Init(src)) == WalkOrigin(t, Origin(src, dst, Init(src)))
    ensures Walk(t', src).None? && Named(t', src).None?
  {
    hide Look, PathKeys, WellFormed, Enter, Walk;
    MoveEnds(t, home, t', home', p, e, q, f, src, dst);
    PathKeysInit(src);
    MovedLook(t, home, t', home', p, e, q, f, p.0, Last(src));
    EnterLook(t', p.0, Last(src));
    WalkLast(t', src);
  }

  lemma MovedTarget(t: Tree, home: Homes, t': Tree, home': Homes, p: Place, e: Raw, q: Place, f: Raw,
                    src: seq<Key>, dst: seq<Key>)
    requires Move(t, home, t', home', p, e, q, f, src, dst) && dst != [] && !(src <= dst)
    requires Walk(t', Init(dst)) == WalkOrigin(t, Origin(src, dst, Init(dst)))
    ensures Walk(t', dst) == Walk(t, src) && Named(t', dst) == Some((q, f))
    ensures Origin(src, dst, dst) == Some(src)
  {
    hide Look, PathKeys, WellFormed, Enter, Walk;
    MoveEnds(t, home, t', home', p, e, q, f, src, dst);
    PathKeysInit(dst);
    assert dst == Init(dst) + [Last(dst)];
    assert !(src <= Init(dst));
    MovedLook(t, home, t', home', p, e, q, f, q.0, Last(dst));
    EnterLook(t', q.0, Last(dst));
    WalkLast(t', dst);
    assert src + dst[|dst|..] == src;
  }

  /** A step that is not the last one of `src` or `dst` is as before. */
  lemma MovedStep(t: Tree, home: Homes, t': Tree, home': Homes, p: Place, e: Raw, q: Place, f: Raw,
                  src: seq<Key>, dst: seq<Key>, s: seq<Key>)
    requires Move(t, home, t', home', p, e, q, f, src, dst)
    requires s != [] && s != src && s != dst && PathKeys(s) && Walk(t, Init(s)).Some?
    ensures Look(t', Walk(t, Init(s)).value, Last(s)) == Named(t, s)
    ensures Enter(t', Walk(t, Init(s)).value, Last(s)) == Walk(t, s)
  {
    hide Look, PathKeys, WellFormed, Enter, Walk;
    MoveEnds(t, home, t', home', p, e, q, f, src, dst);
    PathKeysInit(s);
    SamePath(t, home, s, src);
    SamePath(t, home, s, dst);
    MovedLook(t, home, t', home', p, e, q, f, Walk(t, Init(s)).value, Last(s));
    EnterLook(t, Walk(t, Init(s)).value, Last(s));
    EnterLook(t', Walk(t, Init(s)).value, Last(s));
    WalkLast(t, s);
  }

  lemma MovedBelow(t: Tree, home: Homes, t': Tree, home': Homes, p: Place, e: Raw, q: Place, f: Raw,
                   src: seq<Key>, dst: seq<Key>, ks: seq<Key>)
    requires Move(t, home, t', home', p, e, q, f, src, dst)
    requires ks != [] && PathKeys(ks) && dst <= Init(ks) && !(src <= Init(ks)) && ks != src
    requires Walk(t', Init(ks)) == WalkOrigin(t, Origin(src, dst, Init(ks)))
    ensures Walk(t', ks) == WalkOrigin(t, Origin(src, dst, ks))
    ensures Named(t', ks) == NamedOrigin(t, src, q, f, Origin(src, dst, ks))
  {
    hide Look, WellFormed, Enter, Walk, Move;
    MoveEnds(t, home, t', home', p, e, q, f, src, dst);
    var s := src + ks[|dst|..];
    assert ks == Init(ks) + [Last(ks)];
    assert !(src <= ks) && dst <= ks;
    assert Init(s) == src + Init(ks)[|dst|..] && Last(s) == Last(ks);
    assert src <= s;
    WalkLast(t', ks);
    WalkLast(t, s);
    if Walk(t, Init(s)).Some? {
      MovedStep(t, home, t', home', p, e, q, f, src, dst, s);
    }
  }

  lemma MovedBeside(t: Tree, home: Homes, t': Tree, home': Homes, p: Place, e: Raw, q: Place, f: Raw,
                    src: seq<Key>, dst: seq<Key>, ks: seq<Key>)
    requires Move(t, home, t', home', p, e, q, f, src, dst)
    requires ks != [] && PathKeys(ks) && !(dst <= Init(ks)) && !(src <= Init(ks)) && ks != src && ks != dst
    requires Walk(t', Init(ks)) == WalkOrigin(t, Origin(src, dst, Init(ks)))
    ensures Walk(t', ks) == WalkOrigin(t, Origin(src, dst, ks))
    ensures Named(t', ks) == NamedOrigin(t, src, q, f, Origin(src, dst, ks))
  {
    hide Look, WellFormed, Enter, Walk, Move, PathKeys;
    MoveEnds(t, home, t', home', p, e, q, f, src, dst);
    assert ks == Init(ks) + [Last(ks)];
    assert !(src <= ks) && !(dst <= ks);
    WalkLast(t', ks);
    WalkLast(t, ks);
    if Walk(t, Init(ks)).Some? {
      MovedStep(t, home, t', home', p, e, q, f, src, dst, ks);
    }
  }

  /** After a rename the new path names the entry exactly when no directory was moved below itself. */
  lemma RenameArrives(t: Tree, home: Homes, t': Tree, home': Homes, p: Place, e: Raw, q: Place, f: Raw,
                      src: seq<Key>, dst: seq<Key>)
    requires Move(t, home, t', home', p, e, q, f, src, dst)
    ensures Named(t', src).None?
    ensures Named(t', dst) == Some((q, f)) <==> !(IsDir(e) && src <= dst)
  {
    hide Look, WellFormed, Enter, Move, PathKeys, Named;
    MoveEnds(t, home, t', home', p, e, q, f, src, dst);
    MovedPaths(t, home, t', home', p, e, q, f, src, dst, src);
    MovedPaths(t, home, t', home', p, e, q, f, src, dst, dst);
    assert src + dst[|dst|..] == src;
    if src <= dst && !IsDir(e) {
      FilePrefix(t, src, dst);
    }
  }

  /** No path goes through a file. */
  lemma FilePrefix(t: Tree, a: seq<Key>, b: seq<Key>)
    requires a != [] && b != [] && Walk(t, a).None? && Walk(t, Init(b)).Some? && a <= b
    ensures a == b
  {
    if a != b {
      WalkPrefix(t, a, Init(b));
    }
  }

  // ---------- an entry changes ----------

  /** The entry in slot `p` changes from `e` to `f`, but neither its name nor its kind. */
  ghost predicate Changes(t: Tree, t': Tree, p: Place, e: Raw, f: Raw) {
    && EntryAt(t, p, e) && KeyOf(f) == KeyOf(e) && !IsDir(e) && !IsDir(f)
    && forall r, h :: EntryAt(t', r, h) <==> (r == p && h == f) || (r != p && EntryAt(t, r, h))
  }

  lemma ChangedLook(t: Tree, home: Homes, t': Tree, home': Homes, p: Place, e: Raw, f: Raw, y: nat, k: Key)
    requires WellFormed(t, home, {}) && WellFormed(t', home', {}) && PathKey(k) && Changes(t, t', p, e, f)
    ensures Look(t', y, k) == if Look(t, y, k) == Some((p, e)) then Some((p, f)) else Look(t, y, k)
  {
    hide WellFormed, Look, PathKey, At, EntryAt;
    LookIs(t, home, p, e);
    if y == p.0 && k == KeyOf(e) {
      LookIs(t', home', p, f);
    } else {
      if Look(t, y, k).Some? {
        LookEntry(t, y, k);
      }
      EntryAtUnique(t, p);
      SameLook(t, home, t', home', y, k);
    }
  }

  /** Writing to a file changes no path; the path of the file names the changed entry. */
  lemma ChangedPaths(t: Tree, home: Homes, t': Tree, home': Homes, p: Place, e: Raw, f: Raw, ks: seq<Key>)
    requires WellFormed(t, home, {}) && WellFormed(t', home', {}) && Changes(t, t', p, e, f) && PathKeys(ks)
    ensures Walk(t', ks) == Walk(t, ks)
    ensures Named(t', ks) == if Named(t, ks) == Some((p, e)) then Some((p, f)) else Named(t, ks)
  {
    hide WellFormed, Look, PathKey, Changes, Walk, Enter, PathKeys;
    ChangedKinds(t, t', p, e, f);
    forall y: nat, k | PathKey(k) ensures Enter(t', y, k) == Enter(t, y, k) {
      ChangedLook(t, home, t', home', p, e, f, y, k);
      EnterLook(t, y, k);
      EnterLook(t', y, k);
    }
    WalkSame(t, t', ks);
    if ks != [] {
      PathKeysInit(ks);
      WalkSame(t, t', Init(ks));
      if Walk(t, Init(ks)).Some? {
        ChangedLook(t, home, t', home', p, e, f, Walk(t, Init(ks)).value, Last(ks));
      }
    }
  }

  lemma ChangedKinds(t: Tree, t': Tree, p: Place, e: Raw, f: Raw)
    requires Changes(t, t', p, e, f)
    ensures !IsDir(e) && !IsDir(f) && EntryAt(t, p, e)
  {
  }

  // ---------- which slot a path names ----------

  /** Every path names the same slot in both trees. */
  ghost predicate SamePaths(t: Tree, t': Tree) {
    forall ks :: PathKeys(ks) ==> Resolve(t', ks) == Resolve(t, ks)
  }

  /** Every path but `path` names the same slot in both trees. */
  ghost predicate PathsBut(t: Tree, t': Tree, path: seq<Key>) {
    forall ks :: PathKeys(ks) && ks != path ==> Resolve(t', ks) == Resolve(t, ks)
  }

  /** The path of what was at `ks` after a move from `src` to `dst`. */
  function Follow(src: seq<Key>, dst: seq<Key>, ks: seq<Key>): seq<Key> {
    if src <= ks then dst + ks[|src|..] else ks
  }

  /** What a path other than `src` named before is now named by the path that follows the move. */
  ghost predicate PathsFollow(t: Tree, t': Tree, src: seq<Key>, dst: seq<Key>) {
    forall ks :: PathKeys(ks) && ks != src && Resolve(t, ks).Some? ==>
      PathKeys(Follow(src, dst, ks)) && Resolve(t', Follow(src, dst, ks)) == Resolve(t, ks)
  }

  lemma AddedPlaces(t: Tree, home: Homes, t': Tree, home': Homes, q: Place, e: Raw, path: seq<Key>)
    requires WellFormed(t, home, {}) && WellFormed(t', home', {}) && Adds(t, t', q, e)
    requires Leads(t, path, q.0, KeyOf(e)) && NameFree(t, q.0, KeyOf(e))
    requires IsDir(e) ==> Cluster(e) !in t.dirs
    ensures PathsBut(t, t', path) && Resolve(t', path) == Some(q)
  {
    hide WellFormed, Adds, NameFree, PathKeys, Walk, Resolve, Named;
    forall ks | PathKeys(ks) ensures Resolve(t', ks) == if ks == path then Some(q) else Resolve(t, ks) {
      AddedPaths(t, home, t', home', q, e, path, ks);
      NamedResolve(t, ks);
      NamedResolve(t', ks);
    }
    assert PathKeys(path) by { LeadsKeys(t, path, q.0, KeyOf(e)); }
  }

  lemma LeadsKeys(t: Tree, path: seq<Key>, d: nat, key: Key)
    requires Leads(t, path, d, key)
    ensures PathKeys(path)
  {
  }

  lemma DroppedPlaces(t: Tree, home: Homes, t': Tree, home': Homes, p: Place, e: Raw, path: seq<Key>)
    requires WellFormed(t, home, {}) && WellFormed(t', home', {}) && Drops(t, t', p, e)
    requires Leads(t, path, p.0, KeyOf(e)) && (IsDir(e) ==> Empty(t, Cluster(e)))
    ensures PathsBut(t, t', path) && Resolve(t', path).None?
  {
    hide WellFormed, Drops, Empty, PathKeys, Walk, Resolve, Named;
    forall ks | PathKeys(ks) ensures Resolve(t', ks) == if ks == path then None else Resolve(t, ks) {
      DroppedPaths(t, home, t', home', p, e, path, ks);
      NamedResolve(t, ks);
      NamedResolve(t', ks);
    }
    assert PathKeys(path) by { LeadsKeys(t, path, p.0, KeyOf(e)); }
  }

  lemma ChangedPlaces(t: Tree, home: Homes, t': Tree, home': Homes, p: Place, e: Raw, f: Raw)
    requires WellFormed(t, home, {}) && WellFormed(t', home', {}) && Changes(t, t', p, e, f)
    ensures SamePaths(t, t')
  {
    hide WellFormed, Changes, PathKeys, Walk, Resolve, Named;
    forall ks | PathKeys(ks) ensures Resolve(t', ks) == Resolve(t, ks) {
      ChangedPaths(t, home, t', home', p, e, f, ks);
      NamedResolve(t, ks);
      NamedResolve(t', ks);
    }
  }

  /** After a rename that moves no directory below itself, everything is named by the path that follows. */
  lemma MovedPlaces(t: Tree, home: Homes, t': Tree, home': Homes, p: Place, e: Raw, q: Place, f: Raw,
                    src: seq<Key>, dst: seq<Key>)
    requires Move(t, home, t', home', p, e, q, f, src, dst) && !(IsDir(e) && src <= dst)
    ensures PathsFollow(t, t', src, dst) && Resolve(t', dst) == Some(q)
  {
    hide WellFormed, Move, PathKeys, Walk, Resolve, Named;
    forall ks | PathKeys(ks) && ks != src && Resolve(t, ks).Some?
      ensures PathKeys(Follow(src, dst, ks)) && Resolve(t', Follow(src, dst, ks)) == Resolve(t, ks)
    {
      NamedResolve(t, ks);
      MovedOrigin(t, home, t', home', p, e, q, f, src, dst, ks);
      MovedPaths(t, home, t', home', p, e, q, f, src, dst, Follow(src, dst, ks));
      NamedResolve(t', Follow(src, dst, ks));
    }
    RenameArrives(t, home, t', home', p, e, q, f, src, dst);
    NamedResolve(t', dst);
  }

  lemma MovedOrigin(t: Tree, home: Homes, t': Tree, home': Homes, p: Place, e: Raw, q: Place, f: Raw,
                    src: seq<Key>, dst: seq<Key>, ks: seq<Key>)
    requires Move(t, home, t', home', p, e, q, f, src, dst) && !(IsDir(e) && src <= dst)
    requires PathKeys(ks) && Named(t, ks).Some?
    ensures PathKeys(Follow(src, dst, ks)) && Origin(src, dst, Follow(src, dst, ks)) == Some(ks)
  {
    hide WellFormed, Move, Walk, PathKey;
    MoveEnds(t, home, t', home', p, e, q, f, src, dst);
    assert !(src <= dst) by {
      if src <= dst {
        FilePrefix(t, src, dst);
      }
    }
    if src <= ks {
      var s := dst + ks[|src|..];
      assert src + s[|dst|..] == ks;
      if src <= s {
        Comparable(src, dst, s);
      }
    } else if dst <= ks {
      assert Named(t, dst).None?;
      ProperPrefix(dst, ks);
      WalkPrefix(t, dst, Init(ks));
    }
  }

  lemma ProperPrefix(a: seq<Key>, b: seq<Key>)
    requires a <= b && a != b
    ensures b != [] && a <= Init(b)
  {
    assert b[..|b|] == b;
  }

  /** Two paths that name the same slot are the same. */
  lemma OneName(t: Tree, home: Homes, a: seq<Key>, b: seq<Key>)
    requires WellFormed(t, home, {}) && PathKeys(a) && PathKeys(b)
    requires Resolve(t, a).Some? && Resolve(t, b) == Resolve(t, a)
    ensures a == b
  {
    hide WellFormed, Walk, Look;
    NamedResolve(t, a);
    NamedResolve(t, b);
    PathKeysInit(a);
    PathKeysInit(b);
    LookEntry(t, Walk(t, Init(a)).value, Last(a));
    LookEntry(t, Walk(t, Init(b)).value, Last(b));
    SamePath(t, home, a, b);
  }

  // ---------- every directory can be reached ----------

  lemma AddedRooted(t: Tree, home: Homes, t': Tree, home': Homes, q: Place, e: Raw, path: seq<Key>)
    requires WellFormed(t, home, {}) && WellFormed(t', home', {}) && Adds(t, t', q, e)
    requires Leads(t, path, q.0, KeyOf(e)) && NameFree(t, q.0, KeyOf(e))
    requires IsDir(e) ==> Cluster(e) !in t.dirs
    requires t'.dirs.Keys == t.dirs.Keys + if IsDir(e) then {Cluster(e)} else {}
    requires Rooted(t)
    ensures Rooted(t')
  {
    hide WellFormed, Adds, NameFree, PathKeys, Walk;
    FreeLook(t, q.0, KeyOf(e));
    NotWalked(t, path, q.0, KeyOf(e));
    forall x | x in t'.dirs ensures exists ks :: PathKeys(ks) && Walk(t', ks) == Some(x) {
      if x in t.dirs {
        var ks :| PathKeys(ks) && Walk(t, ks) == Some(x);
        AddedPaths(t, home, t', home', q, e, path, ks);
      } else {
        AddedPaths(t, home, t', home', q, e, path, path);
      }
    }
  }

  lemma NotWalked(t: Tree, path: seq<Key>, d: nat, key: Key)
    requires Leads(t, path, d, key) && Look(t, d, key).None?
    ensures Walk(t, path).None?
  {
    EnterLook(t, d, key);
  }

  lemma DroppedRooted(t: Tree, home: Homes, t': Tree, home': Homes, p: Place, e: Raw, path: seq<Key>)
    requires WellFormed(t, home, {}) && WellFormed(t', home', {}) && Drops(t, t', p, e)
    requires Leads(t, path, p.0, KeyOf(e)) && (IsDir(e) ==> Empty(t, Cluster(e)))
    requires t'.dirs.Keys == t.dirs.Keys - if IsDir(e) then {Cluster(e)} else {}
    requires Rooted(t)
    ensures Rooted(t')
  {
    hide WellFormed, PathKeys, Walk, EntryAt, Empty;
    LookIs(t, home, p, e);
    WalkLast(t, path);
    EnterLook(t, p.0, KeyOf(e));
    forall x | x in t'.dirs ensures exists ks :: PathKeys(ks) && Walk(t', ks) == Some(x) {
      var ks :| PathKeys(ks) && Walk(t, ks) == Some(x);
      DroppedPaths(t, home, t', home', p, e, path, ks);
    }
  }

  lemma MovedReach(t: Tree, home: Homes, t': Tree, home': Homes, p: Place, e: Raw, q: Place, f: Raw,
                   src: seq<Key>, dst: seq<Key>, ks: seq<Key>, x: nat)
    requires Move(t, home, t', home', p, e, q, f, src, dst) && !(src <= dst)
    requires PathKeys(ks) && Walk(t, ks) == Some(x)
    ensures exists s :: PathKeys(s) && Walk(t', s) == Some(x)
  {
    hide WellFormed, Walk, Move;
    MoveEnds(t, home, t', home', p, e, q, f, src, dst);
    if src <= ks {
      var s := dst + ks[|src|..];
      assert src == Init(src) + [Last(src)] && src + s[|dst|..] == ks;
      if src <= s {
        Comparable(src, dst, s);
      }
      MovedPaths(t, home, t', home', p, e, q, f, src, dst, s);
    } else {
      if dst <= ks {
        WalkPrefix(t, dst, ks);
      }
      MovedPaths(t, home, t', home', p, e, q, f, src, dst, ks);
    }
  }

  lemma Comparable(a: seq<Key>, b: seq<Key>, c: seq<Key>)
    requires a != [] && a <= c && b <= c
    ensures a <= b || b <= Init(a)
  {
    if |b| < |a| {
      assert b == c[..|b|] == Init(a)[..|b|];
    }
  }

  lemma OwnPath(t: Tree, home: Homes, t': Tree, home': Homes, p: Place, e: Raw, q: Place, f: Raw,
                src: seq<Key>, dst: seq<Key>, ks: seq<Key>)
    requires Move(t, home, t', home', p, e, q, f, src, dst) && IsDir(e) && src <= dst && PathKeys(ks)
    ensures Cluster(e) in t.dirs
    ensures Walk(t', ks) != Some(Cluster(e))
  {
    hide WellFormed, Walk, PathKeys, At;
    MoveEnds(t, home, t', home', p, e, q, f, src, dst);
    EntryFacts(t, home, p, e);
    MovedPaths(t, home, t', home', p, e, q, f, src, dst, ks);
    if Walk(t', ks) == Some(Cluster(e)) {
      WalkUnique(t, home, ks, src);
    }
  }

  /** A rename keeps every directory within reach exactly when it does not move a directory below
      itself. That can be told from the two paths before the call. */
  lemma MovedRooted(t: Tree, home: Homes, t': Tree, home': Homes, p: Place, e: Raw, q: Place, f: Raw,
                    src: seq<Key>, dst: seq<Key>)
    requires Move(t, home, t', home', p, e, q, f, src, dst) && t'.dirs.Keys == t.dirs.Keys && Rooted(t)
    ensures Rooted(t') <==> !(IsDir(e) && src <= dst)
  {
    hide WellFormed, PathKeys, Walk, Move;
    MoveEnds(t, home, t', home', p, e, q, f, src, dst);
    if !(IsDir(e) && src <= dst) {
      assert !(src <= dst) by {
        if src <= dst {
          FilePrefix(t, src, dst);
        }
      }
      forall x | x in t'.dirs ensures exists ks :: PathKeys(ks) && Walk(t', ks) == Some(x) {
        var ks :| PathKeys(ks) && Walk(t, ks) == Some(x);
        MovedReach(t, home, t', home', p, e, q, f, src, dst, ks, x);
      }
    } else {
      forall ks | PathKeys(ks) ensures Walk(t', ks) != Some(Cluster(e)) {
        OwnPath(t, home, t', home', p, e, q, f, src, dst, ks);
      }
      OwnPath(t, home, t', home', p, e, q, f, src, dst, src);
    }
  }

  /** When every directory can be reached, every entry whose name a path can spell has exactly one path. */
  lemma OnePath(t: Tree, home: Homes, p: Place, e: Raw)
    requires WellFormed(t, home, {}) && Rooted(t) && EntryAt(t, p, e) && PathKey(KeyOf(e))
    ensures exists ks :: PathKeys(ks) && Named(t, ks) == Some((p, e))
                         && forall b :: PathKeys(b) && Named(t, b) == Some((p, e)) ==> b == ks
  {
    hide WellFormed, Walk, Look;
    EntryAtSlot(t, p, e);
    var a :| PathKeys(a) && Walk(t, a) == Some(p.0);
    LookIs(t, home, p, e);
    var ks := a + [KeyOf(e)];
    assert Init(ks) == a && Last(ks) == KeyOf(e) && PathKeys(ks);
    forall b | PathKeys(b) && Named(t, b) == Some((p, e)) ensures b == ks {
      PathKeysInit(b);
      LookEntry(t, Walk(t, Init(b)).value, Last(b));
      SamePath(t, home, b, ks);
    }
  }
}
