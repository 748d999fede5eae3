// The directory tree: which entries name which objects, and what keeps it well formed.
module Tree {
  import opened Disk
  import opened Directory

  /** A slot of a directory: (first cluster of the directory, slot number). */
  type Place = (nat, nat)

  /** `dirs` maps the first cluster of each directory (0 for the root) to its slots. `caps` maps the
      first cluster of each non-empty file to the number of bytes that its clusters can hold. */
  datatype Tree = Tree(dirs: map<nat, seq<Raw>>, caps: map<nat, nat>)

  /** For each object other than the root, the slot of the one entry that names it. */
  type Homes = map<nat, Place>

  type Entries = imap<Place, Raw>

  ghost predicate At(t: Tree, p: Place) {
    p.0 in t.dirs && Ordinary(t.dirs[p.0], p.1)
  }

  /** The ordinary entry `e` is in slot `p`. */
  ghost predicate EntryAt(t: Tree, p: Place, e: Raw) {
    At(t, p) && t.dirs[p.0][p.1] == e
  }

  /** The bytes of slot `p`. */
  ghost function EntryIn(t: Tree, p: Place): Raw {
    if p.0 in t.dirs && p.1 < |t.dirs[p.0]| then t.dirs[p.0][p.1] else ZeroEntry()
  }

  lemma EntryAtSlot(t: Tree, p: Place, e: Raw)
    requires EntryAt(t, p, e)
    ensures At(t, p) && p.0 in t.dirs && p.1 < |t.dirs[p.0]| && t.dirs[p.0][p.1] == e
  {
  }

  lemma EntryAtUnique(t: Tree, p: Place)
    ensures forall e, f :: EntryAt(t, p, e) && EntryAt(t, p, f) ==> e == f
  {
  }

  /** Directory `d` has no entries but "." and "..", long names not counted. */
  ghost predicate Empty(t: Tree, d: nat) {
    d in t.dirs && forall j: nat :: !Ordinary(t.dirs[d], j)
  }

  /** All ordinary entries of all directories. */
  ghost function Ents(t: Tree): Entries {
    imap p: Place | At(t, p) :: t.dirs[p.0][p.1]
  }

  // ---------- entries and objects ----------

  /** A directory entry names a directory; a file entry is empty, or names a file whose clusters
      can hold its size. */
  predicate EntryOk(ds: set<nat>, caps: map<nat, nat>, e: Raw) {
    if IsDir(e) then Cluster(e) != 0 && Cluster(e) in ds
    else if Cluster(e) == 0 then Size(e) == 0
    else Cluster(e) in caps && Size(e) <= caps[Cluster(e)]
  }

  /** Object `h` (if the entry has one) has its home at `p`. */
  predicate Claimed(home: Homes, p: Place, h: nat) {
    h != 0 ==> h in home && home[h] == p
  }

  ghost predicate Domain(ds: set<nat>, caps: map<nat, nat>, home: Homes) {
    && 0 in ds && 0 !in caps
    && (forall h :: h in ds ==> h !in caps)
    && (forall h :: h in home <==> (h in ds && h != 0) || h in caps)
  }

  /** Entries and objects fit together, except that the entries in `skip` are in transit: they are
      live, but no object has its home there. */
  ghost predicate Linked(ds: set<nat>, caps: map<nat, nat>, es: Entries, home: Homes, skip: set<Place>) {
    && Domain(ds, caps, home)
    && (forall p :: p in es && p !in skip ==> EntryOk(ds, caps, es[p]) && Claimed(home, p, Cluster(es[p])))
    && (forall h :: h in home ==> home[h] in es && home[h] !in skip && Cluster(es[home[h]]) == h)
  }

  lemma LinkVanish(ds: set<nat>, caps: map<nat, nat>, es: Entries, home: Homes, skip: set<Place>, p: Place)
    requires Linked(ds, caps, es, home, skip) && p in skip
    ensures Linked(ds, caps, es - {p}, home, skip - {p})
  {
  }

  lemma LinkNewDir(ds: set<nat>, caps: map<nat, nat>, es: Entries, home: Homes, skip: set<Place>, p: Place, x: nat)
    requires Linked(ds, caps, es, home, skip) && p in es && p in skip
    requires IsDir(es[p]) && Cluster(es[p]) == x && x != 0 && x !in ds && x !in caps
    ensures Linked(ds + {x}, caps, es, home[x := p], skip - {p})
  {
  }

  /** Object `h` goes; the entry that named it stays for the moment. */
  lemma LinkDisown(ds: set<nat>, caps: map<nat, nat>, es: Entries, home: Homes, skip: set<Place>, h: nat)
    requires Linked(ds, caps, es, home, skip) && h in home
    ensures Linked(ds - {h}, caps - {h}, es, home - {h}, skip + {home[h]})
  {
    forall p | p in es && p !in skip + {home[h]}
      ensures Cluster(es[p]) != h
    {
      assert Claimed(home, p, Cluster(es[p]));
    }
  }

  lemma LinkMove(ds: set<nat>, caps: map<nat, nat>, es: Entries, home: Homes, p: Place, h: nat)
    requires Linked(ds, caps, es, home, {p}) && p in es && h in home
    requires EntryOk(ds, caps, es[p]) && Cluster(es[p]) == h
    ensures Linked(ds, caps, es, home[h := p], {home[h]})
  {
  }

  /** The entry at `p` changes; its object is the old one, or a new file if it had none. */
  lemma LinkUpdate(ds: set<nat>, caps: map<nat, nat>, caps': map<nat, nat>, es: Entries, home: Homes, home': Homes,
                   p: Place, e: Raw)
    requires Linked(ds, caps, es, home, {}) && p in es
    requires EntryOk(ds, caps', e) && Claimed(home', p, Cluster(e))
    requires Domain(ds, caps', home')
    requires forall h :: h in caps ==> h in caps' && caps[h] <= caps'[h]
    requires forall h :: h in home ==> h in home' && home'[h] == home[h]
    requires forall h :: h in home' ==> h in home || (h == Cluster(e) && home'[h] == p)
    requires Cluster(es[p]) != 0 ==> Cluster(e) == Cluster(es[p])
    ensures Linked(ds, caps', es[p := e], home', {})
  {
    hide Cluster, IsDir, Size;
    forall q | q in es && q != p ensures EntryOk(ds, caps', es[q]) && Claimed(home', q, Cluster(es[q])) {
      assert EntryOk(ds, caps, es[q]) && Claimed(home, q, Cluster(es[q]));
    }
  }

  lemma LinkGrow(ds: set<nat>, caps: map<nat, nat>, es: Entries, home: Homes, h: nat, cap: nat)
    requires Linked(ds, caps, es, home, {}) && h in caps && caps[h] <= cap
    ensures Linked(ds, caps[h := cap], es, home, {})
  {
  }

  // ---------- the directories one by one ----------

  ghost predicate NamesUnique(s: seq<Raw>) {
    forall i: nat, j: nat :: Visible(s, i) && Visible(s, j) && KeyOf(s[i]) == KeyOf(s[j]) ==> i == j
  }

  ghost predicate LinkAt(s: seq<Raw>, i: nat, key: Key, c: nat) {
    Live(s, i) && KeyOf(s[i]) == key && IsDir(s[i]) && Cluster(s[i]) == c
  }

  /** Slots 0 and 1 of directory `x` are "." and "..", and ".." names the parent `p`. */
  ghost predicate Dots(s: seq<Raw>, x: nat, p: nat) {
    LinkAt(s, 0, DOT_KEY, x) && LinkAt(s, 1, DOTDOT_KEY, p)
  }

  ghost predicate DirOk(s: seq<Raw>, x: nat, home: Homes) {
    NamesUnique(s) && (x in home ==> Dots(s, x, home[x].0))
  }

  /** The tree is well formed: every object is named by exactly one entry, every entry names an
      object of the right kind and size, names are unique in each directory, and ".." leads back
      to the parent. The entries in `skip` are in transit; between calls of the driver it is empty. */
  ghost predicate WellFormed(t: Tree, home: Homes, skip: set<Place>) {
    && Linked(t.dirs.Keys, t.caps, Ents(t), home, skip)
    && forall x :: x in t.dirs ==> DirOk(t.dirs[x], x, home)
  }

  function WithDir(t: Tree, d: nat, s: seq<Raw>): Tree { t.(dirs := t.dirs[d := s]) }

  function WithSlot(t: Tree, d: nat, i: nat, e: Raw): Tree
    requires d in t.dirs && i < |t.dirs[d]|
  {
    var s: seq<Raw> := t.dirs[d][i := e];
    WithDir(t, d, s)
  }

  // ---------- how the entries of the tree change with one directory ----------

  lemma EntsInsert(t: Tree, d: nat, s': seq<Raw>, k: nat, e: Raw)
    requires d in t.dirs && InsertedAt(t.dirs[d], s', k, e)
    ensures (d, k) !in Ents(t)
    ensures Ents(WithDir(t, d, s')) == if Ordinary(s', k) then Ents(t)[(d, k) := e] else Ents(t)
  {
  }

  /** The bytes that decide whether a slot is ordinary. */
  predicate SameStart(e: Raw, f: Raw) {
    e[..12] == f[..12]
  }

  lemma FieldsSameStart(e: Raw, c: nat, n: nat)
    ensures SameStart(WithCluster(e, c), e) && SameStart(WithSize(e, n), e)
    ensures WithCluster(e, c)[..26] == e[..26] && WithSize(e, n)[..26] == e[..26]
    ensures IsDir(WithCluster(e, c)) == IsDir(e) && IsDir(WithSize(e, n)) == IsDir(e)
  {
  }

  lemma SameStartFacts(e: Raw, f: Raw)
    requires SameStart(e, f)
    ensures e[0] == f[0] && KeyOf(e) == KeyOf(f) && Attr(e) == Attr(f) && IsDot(e) == IsDot(f)
  {
    assert forall j :: 0 <= j < 12 ==> e[j] == e[..12][j] == f[..12][j] == f[j];
    assert KeyOf(e) == e[..12][..11];
  }

  lemma SlotsUpdate(s: seq<Raw>, i: nat, e: Raw)
    requires Live(s, i) && SameStart(e, s[i])
    ensures forall j: nat :: Live(s[i := e], j) <==> Live(s, j)
    ensures forall j: nat :: Ordinary(s[i := e], j) <==> Ordinary(s, j)
    ensures NamesUnique(s) ==> NamesUnique(s[i := e])
  {
    SameStartFacts(e, s[i]);
    UpdateLive(s, i, e);
  }

  lemma EntsUpdate(t: Tree, d: nat, i: nat, e: Raw)
    requires At(t, (d, i)) && SameStart(e, t.dirs[d][i])
    ensures Ents(WithSlot(t, d, i, e)) == Ents(t)[(d, i) := e]
  {
    SlotsUpdate(t.dirs[d], i, e);
  }

  lemma EntrySet(t: Tree, d: nat, i: nat, e: Raw, caps: map<nat, nat>)
    requires At(t, (d, i)) && SameStart(e, t.dirs[d][i])
    ensures EntryAt(WithSlot(t, d, i, e).(caps := caps), (d, i), e)
  {
    SlotsUpdate(t.dirs[d], i, e);
  }

  lemma EntsDotUpdate(t: Tree, d: nat, i: nat, e: Raw)
    requires d in t.dirs && Live(t.dirs[d], i) && !Ordinary(t.dirs[d], i) && SameStart(e, t.dirs[d][i])
    ensures Ents(WithSlot(t, d, i, e)) == Ents(t)
    ensures WithSlot(t, d, i, e).dirs.Keys == t.dirs.Keys
  {
    SlotsUpdate(t.dirs[d], i, e);
  }

  lemma EntsDrop(t: Tree, d: nat, i: nat, e: Raw)
    requires At(t, (d, i)) && e[0] == FREE
    ensures Ents(WithSlot(t, d, i, e)) == Ents(t) - {(d, i)}
  {
    UpdateLive(t.dirs[d], i, e);
  }

  lemma EntsOfDirs(t: Tree, caps: map<nat, nat>)
    ensures Ents(t.(caps := caps)) == Ents(t)
  {
  }

  lemma EntsQuietDir(t: Tree, x: nat, s: seq<Raw>)
    requires forall j: nat :: !Ordinary(s, j)
    requires x in t.dirs ==> forall j: nat :: !Ordinary(t.dirs[x], j)
    ensures Ents(WithDir(t, x, s)) == Ents(t)
    ensures WithDir(t, x, s).dirs.Keys == t.dirs.Keys + {x}
  {
  }

  lemma EntsWithoutDir(t: Tree, x: nat)
    requires x in t.dirs && forall j: nat :: !Ordinary(t.dirs[x], j)
    ensures Ents(t.(dirs := t.dirs - {x})) == Ents(t)
    ensures t.(dirs := t.dirs - {x}).dirs.Keys == t.dirs.Keys - {x}
  {
  }

  // ---------- entries come and go ----------

  lemma InsertDirOk(s: seq<Raw>, s': seq<Raw>, k: nat, e: Raw, x: nat, home: Homes)
    requires DirOk(s, x, home) && InsertedAt(s, s', k, e) && forall i: nat :: !Hit(s, i, KeyOf(e))
    ensures DirOk(s', x, home)
  {
    forall i: nat, j: nat | Visible(s', i) && Visible(s', j) && KeyOf(s'[i]) == KeyOf(s'[j])
      ensures i == j
    {
      assert j != k ==> !Hit(s, j, KeyOf(e));
      assert i != k ==> !Hit(s, i, KeyOf(e));
    }
  }

  lemma InsertLinked(t: Tree, home: Homes, skip: set<Place>, d: nat, s': seq<Raw>, k: nat, e: Raw)
    requires Linked(t.dirs.Keys, t.caps, Ents(t), home, skip) && d in t.dirs && InsertedAt(t.dirs[d], s', k, e)
    requires Ordinary(s', k)
    ensures Linked(t.dirs.Keys, t.caps, Ents(WithDir(t, d, s')), home, skip + {(d, k)})
  {
    EntsInsert(t, d, s', k, e);
    hide Ents, InsertedAt, Ordinary;
  }

  /** A new entry with a fresh name appears; nothing claims it yet. */
  lemma InsertKeepsWF(t: Tree, home: Homes, skip: set<Place>, d: nat, s': seq<Raw>, k: nat, e: Raw)
    requires WellFormed(t, home, skip) && d in t.dirs && InsertedAt(t.dirs[d], s', k, e) && Ordinary(s', k)
    requires forall i: nat :: !Hit(t.dirs[d], i, KeyOf(e))
    ensures WellFormed(WithDir(t, d, s'), home, skip + {(d, k)})
    ensures At(WithDir(t, d, s'), (d, k))
  {
    hide Linked, Ents, DirOk, InsertedAt, KeyOf, Visible, Ordinary;
    InsertLinked(t, home, skip, d, s', k, e);
    InsertDirOk(t.dirs[d], s', k, e, d, home);
    assert WithDir(t, d, s').dirs.Keys == t.dirs.Keys;
  }

  /** An entry in transit becomes a tombstone. */
  lemma DropKeepsWF(t: Tree, home: Homes, skip: set<Place>, d: nat, i: nat, e: Raw)
    requires WellFormed(t, home, skip) && At(t, (d, i)) && (d, i) in skip && e[0] == FREE
    ensures WellFormed(WithSlot(t, d, i, e), home, skip - {(d, i)})
  {
    EntsDrop(t, d, i, e);
    LinkVanish(t.dirs.Keys, t.caps, Ents(t), home, skip, (d, i));
    DropDirOk(t.dirs[d], i, e, d, home);
    assert WithSlot(t, d, i, e).dirs.Keys == t.dirs.Keys;
  }

  lemma DropDirOk(s: seq<Raw>, i: nat, e: Raw, x: nat, home: Homes)
    requires DirOk(s, x, home) && Ordinary(s, i) && e[0] == FREE
    ensures DirOk(s[i := e], x, home)
  {
    UpdateLive(s, i, e);
    if x in home {
      DotSlots(s, x, home[x].0);
    }
  }

  /** The dot entries are not ordinary. */
  lemma DotSlots(s: seq<Raw>, x: nat, p: nat)
    requires Dots(s, x, p)
    ensures |s| >= 2 && !Ordinary(s, 0) && !Ordinary(s, 1)
  {
    assert s[0][0] == KeyOf(s[0])[0] && s[0][1] == KeyOf(s[0])[1];
    assert s[1][0] == KeyOf(s[1])[0] && s[1][1] == KeyOf(s[1])[1] && s[1][2] == KeyOf(s[1])[2];
  }

  // ---------- objects come and go ----------

  /** A new directory `x` is named by the entry in transit at (d, i). */
  lemma NewDirKeepsWF(t: Tree, home: Homes, skip: set<Place>, d: nat, i: nat, x: nat, s: seq<Raw>)
    requires WellFormed(t, home, skip) && At(t, (d, i)) && (d, i) in skip
    requires IsDir(t.dirs[d][i]) && Cluster(t.dirs[d][i]) == x && x != 0 && x !in t.dirs && x !in t.caps
    requires Dots(s, x, d) && NamesUnique(s) && forall j: nat :: !Ordinary(s, j)
    ensures WellFormed(WithDir(t, x, s), home[x := (d, i)], skip - {(d, i)})
  {
    LinkNewDir(t.dirs.Keys, t.caps, Ents(t), home, skip, (d, i), x);
    EntsQuietDir(t, x, s);
    assert x !in home;
  }

  /** File `h` disappears; the entry that named it is in transit. */
  lemma DisownFileWF(t: Tree, home: Homes, skip: set<Place>, h: nat)
    requires WellFormed(t, home, skip) && h in t.caps
    ensures h in home
    ensures WellFormed(t.(caps := t.caps - {h}), home - {h}, skip + {home[h]})
  {
    LinkDisown(t.dirs.Keys, t.caps, Ents(t), home, skip, h);
    assert t.dirs.Keys - {h} == t.dirs.Keys;
    EntsOfDirs(t, t.caps - {h});
  }

  /** Directory `x`, which has no ordinary entries, disappears; its own entry is in transit. */
  lemma DisownDirWF(t: Tree, home: Homes, skip: set<Place>, x: nat)
    requires WellFormed(t, home, skip) && x in t.dirs && x != 0
    requires forall j: nat :: !Ordinary(t.dirs[x], j)
    ensures x in home
    ensures WellFormed(t.(dirs := t.dirs - {x}), home - {x}, skip + {home[x]})
  {
    DisownDirLinked(t, home, skip, x);
    forall y | y in t.dirs ensures DirOk(t.dirs[y], y, home - {x}) {
      SameHome(t.dirs[y], y, home, home - {x});
    }
    hide Linked, DirOk, Ents, Ordinary;
  }

  lemma DisownDirLinked(t: Tree, home: Homes, skip: set<Place>, x: nat)
    requires Linked(t.dirs.Keys, t.caps, Ents(t), home, skip) && x in t.dirs && x != 0
    requires forall j: nat :: !Ordinary(t.dirs[x], j)
    ensures x in home
    ensures var t' := t.(dirs := t.dirs - {x});
            Linked(t'.dirs.Keys, t'.caps, Ents(t'), home - {x}, skip + {home[x]})
  {
    assert x in home;
    assert t.caps - {x} == t.caps;
    EntsWithoutDir(t, x);
    hide Ents, Ordinary;
    LinkDisown(t.dirs.Keys, t.caps, Ents(t), home, skip, x);
  }

  lemma EmptyFileWF(t: Tree, home: Homes, skip: set<Place>, p: Place)
    requires WellFormed(t, home, skip) && At(t, p) && !IsDir(t.dirs[p.0][p.1]) && Cluster(t.dirs[p.0][p.1]) == 0
    ensures Size(t.dirs[p.0][p.1]) == 0 ==> WellFormed(t, home, skip - {p})
    ensures WellFormed(t, home, skip + {p})
  {
  }

  // ---------- an entry changes ----------

  lemma UpdateDirOk(s: seq<Raw>, i: nat, e: Raw, x: nat, home: Homes, home': Homes)
    requires DirOk(s, x, home) && Ordinary(s, i) && SameStart(e, s[i])
    requires x in home' ==> x in home && home'[x] == home[x]
    ensures DirOk(s[i := e], x, home')
  {
    SlotsUpdate(s, i, e);
    if x in home' {
      DotSlots(s, x, home[x].0);
    }
  }

  /** The entry of a file gets another size that the file can hold. */
  lemma SizeKeepsWF(t: Tree, home: Homes, d: nat, i: nat, e: Raw)
    requires WellFormed(t, home, {}) && At(t, (d, i)) && !IsDir(t.dirs[d][i])
    requires SameStart(e, t.dirs[d][i]) && Cluster(e) == Cluster(t.dirs[d][i]) && EntryOk(t.dirs.Keys, t.caps, e)
    ensures WellFormed(WithSlot(t, d, i, e), home, {})
  {
    EntsUpdate(t, d, i, e);
    SizeLinked(t, home, d, i, e);
    UpdateDirOk(t.dirs[d], i, e, d, home, home);
    hide Linked, Ents, DirOk, EntryOk, Ordinary, SameStart, Cluster, IsDir;
    assert WithSlot(t, d, i, e).dirs.Keys == t.dirs.Keys;
  }

  lemma SizeLinked(t: Tree, home: Homes, d: nat, i: nat, e: Raw)
    requires Linked(t.dirs.Keys, t.caps, Ents(t), home, {}) && At(t, (d, i))
    requires Cluster(e) == Cluster(t.dirs[d][i]) && EntryOk(t.dirs.Keys, t.caps, e)
    ensures Linked(t.dirs.Keys, t.caps, Ents(t)[(d, i) := e], home, {})
  {
    hide Cluster, IsDir, Size;
    assert (d, i) in Ents(t) && Ents(t)[(d, i)] == t.dirs[d][i];
    assert Claimed(home, (d, i), Cluster(Ents(t)[(d, i)]));
    LinkUpdate(t.dirs.Keys, t.caps, t.caps, Ents(t), home, home, (d, i), e);
  }

  /** An empty file gets its first cluster `h`. */
  lemma FirstClusterKeepsWF(t: Tree, home: Homes, d: nat, i: nat, e: Raw, h: nat, cap: nat)
    requires WellFormed(t, home, {}) && At(t, (d, i)) && !IsDir(t.dirs[d][i]) && Cluster(t.dirs[d][i]) == 0
    requires SameStart(e, t.dirs[d][i]) && Cluster(e) == h && Size(e) == Size(t.dirs[d][i])
    requires h != 0 && h !in t.dirs && h !in t.caps
    ensures WellFormed(WithSlot(t, d, i, e).(caps := t.caps[h := cap]), home[h := (d, i)], {})
  {
    var t1 := WithSlot(t, d, i, e);
    assert t1.dirs.Keys == t.dirs.Keys;
    FirstClusterLinked(t, home, d, i, e, h, cap);
    EntsOfDirs(t1, t.caps[h := cap]);
    FirstClusterDirs(t, home, d, i, e, h);
    hide Linked, DirOk, Ents, SameStart, Cluster, Size, IsDir, Ordinary;
  }

  lemma FirstClusterDirs(t: Tree, home: Homes, d: nat, i: nat, e: Raw, h: nat)
    requires At(t, (d, i)) && SameStart(e, t.dirs[d][i]) && h !in t.dirs && i < |t.dirs[d]|
    requires forall x :: x in t.dirs ==> DirOk(t.dirs[x], x, home)
    ensures var t' := WithSlot(t, d, i, e);
            forall x :: x in t'.dirs ==> DirOk(t'.dirs[x], x, home[h := (d, i)])
  {
    hide DirOk, SameStart, Ordinary;
    forall x | x in t.dirs
      ensures DirOk(WithSlot(t, d, i, e).dirs[x], x, home[h := (d, i)])
    {
      assert DirOk(t.dirs[x], x, home);
      if x == d {
        UpdateDirOk(t.dirs[d], i, e, d, home, home[h := (d, i)]);
      } else {
        SameHome(t.dirs[x], x, home, home[h := (d, i)]);
      }
    }
  }

  lemma SameHome(s: seq<Raw>, x: nat, home: Homes, home': Homes)
    requires DirOk(s, x, home) && (x in home' ==> x in home && home'[x] == home[x])
    ensures DirOk(s, x, home')
  {
  }

  lemma EntsHas(t: Tree, d: nat, i: nat)
    requires At(t, (d, i))
    ensures (d, i) in Ents(t) && Ents(t)[(d, i)] == t.dirs[d][i]
  {
  }

  lemma SameKind(e: Raw, f: Raw)
    requires SameStart(e, f)
    ensures IsDir(e) == IsDir(f)
  {
    SameStartFacts(e, f);
  }

  lemma FirstClusterLinked(t: Tree, home: Homes, d: nat, i: nat, e: Raw, h: nat, cap: nat)
    requires Linked(t.dirs.Keys, t.caps, Ents(t), home, {})
    requires At(t, (d, i)) && !IsDir(t.dirs[d][i]) && Cluster(t.dirs[d][i]) == 0
    requires SameStart(e, t.dirs[d][i]) && Cluster(e) == h && Size(e) == Size(t.dirs[d][i])
    requires h != 0 && h !in t.dirs && h !in t.caps
    ensures Linked(t.dirs.Keys, t.caps[h := cap], Ents(WithSlot(t, d, i, e)), home[h := (d, i)], {})
  {
    hide Cluster, Size, IsDir, SameStart, Ents, Attr;
    EntsUpdate(t, d, i, e);
    SameKind(e, t.dirs[d][i]);
    EntsHas(t, d, i);
    assert EntryOk(t.dirs.Keys, t.caps, Ents(t)[(d, i)]);
    hide Ordinary, WithSlot;
    LinkUpdate(t.dirs.Keys, t.caps, t.caps[h := cap], Ents(t), home, home[h := (d, i)], (d, i), e);
  }

  lemma GrowCapKeepsWF(t: Tree, home: Homes, h: nat, cap: nat)
    requires WellFormed(t, home, {}) && h in t.caps && t.caps[h] <= cap
    ensures WellFormed(t.(caps := t.caps[h := cap]), home, {})
  {
    EntsOfDirs(t, t.caps[h := cap]);
    LinkGrow(t.dirs.Keys, t.caps, Ents(t), home, h, cap);
  }

  // ---------- an object moves to another entry ----------

  /** File `h` is named by the entry in transit at `p` from now on. */
  lemma MoveFileWF(t: Tree, home: Homes, h: nat, p: Place)
    requires WellFormed(t, home, {p}) && h in t.caps && At(t, p)
    requires EntryOk(t.dirs.Keys, t.caps, t.dirs[p.0][p.1]) && Cluster(t.dirs[p.0][p.1]) == h
    ensures h in home
    ensures WellFormed(t, home[h := p], {home[h]})
  {
    LinkMove(t.dirs.Keys, t.caps, Ents(t), home, p, h);
  }

  /** Directory `x` is named by the entry in transit at `p`, and its ".." is redirected. */
  lemma MoveDirWF(t: Tree, home: Homes, x: nat, p: Place)
    requires WellFormed(t, home, {p}) && x in t.dirs && x != 0 && At(t, p) && p.0 < 0x1_0000
    requires EntryOk(t.dirs.Keys, t.caps, t.dirs[p.0][p.1]) && Cluster(t.dirs[p.0][p.1]) == x
    ensures x in home && 1 < |t.dirs[x]|
    ensures WellFormed(WithSlot(t, x, 1, WithCluster(t.dirs[x][1], p.0)), home[x := p], {home[x]})
  {
    assert DirOk(t.dirs[x], x, home);
    DotSlots(t.dirs[x], x, home[x].0);
    var e := WithCluster(t.dirs[x][1], p.0);
    assert Linked(t.dirs.Keys, t.caps, Ents(t), home[x := p], {home[x]}) by {
      LinkMove(t.dirs.Keys, t.caps, Ents(t), home, p, x);
    }
    EntsDotUpdate(t, x, 1, e);
    MoveDirsOk(t, home, x, p, e);
  }

  lemma MoveDirsOk(t: Tree, home: Homes, x: nat, p: Place, e: Raw)
    requires x in t.dirs && x in home && 1 < |t.dirs[x]| && e == WithCluster(t.dirs[x][1], p.0) && p.0 < 0x1_0000
    requires forall y :: y in t.dirs ==> DirOk(t.dirs[y], y, home)
    ensures var t' := WithSlot(t, x, 1, e);
            forall y :: y in t'.dirs ==> DirOk(t'.dirs[y], y, home[x := p])
  {
    RedirectDirOk(t.dirs[x], x, home, p);
    forall y | y in t.dirs && y != x
      ensures DirOk(t.dirs[y], y, home[x := p])
    {
      assert DirOk(t.dirs[y], y, home);
    }
  }

  lemma RedirectDirOk(s: seq<Raw>, x: nat, home: Homes, p: Place)
    requires DirOk(s, x, home) && x in home && |s| > 1 && p.0 < 0x1_0000
    ensures DirOk(s[1 := WithCluster(s[1], p.0)], x, home[x := p])
  {
    SlotsUpdate(s, 1, WithCluster(s[1], p.0));
    SameStartFacts(WithCluster(s[1], p.0), s[1]);
  }

  // ---------- whole operations ----------

  /** `t'` is `t` with entry `e` in the first reusable slot of directory `d`. */
  ghost predicate Inserted(t: Tree, t': Tree, d: nat, i: nat, e: Raw) {
    && d in t.dirs && d in t'.dirs
    && t' == WithDir(t, d, t'.dirs[d])
    && FirstReusable(t.dirs[d], i)
    && InsertedAt(t.dirs[d], t'.dirs[d], i, e)
  }

  /** A name is free in directory `d`. */
  ghost predicate NameFree(t: Tree, d: nat, key: Key) {
    d in t.dirs && forall i: nat :: !Hit(t.dirs[d], i, key)
  }

  lemma NewEntryOrdinary(s: seq<Raw>, i: nat, e: Raw)
    requires Live(s, i) && s[i] == e && e[0] != DOT && Attr(e) != LFN
    ensures Ordinary(s, i)
  {
  }

  /** An empty file is created. */
  lemma CreateFileWF(t: Tree, t': Tree, home: Homes, d: nat, i: nat, e: Raw)
    requires WellFormed(t, home, {}) && Inserted(t, t', d, i, e) && NameFree(t, d, KeyOf(e)) && e[0] != DOT
    requires Attr(e) != LFN && !IsDir(e) && Cluster(e) == 0 && Size(e) == 0
    ensures WellFormed(t', home, {}) && EntryAt(t', (d, i), e)
  {
    NewEntryOrdinary(t'.dirs[d], i, e);
    InsertKeepsWF(t, home, {}, d, t'.dirs[d], i, e);
    EmptyFileWF(t', home, {} + {(d, i)}, (d, i));
    assert {} + {(d, i)} - {(d, i)} == {};
  }

  /** `t'` is `t` without the object of the entry at `p`, whose slot is a tombstone now. */
  ghost predicate Removed(t: Tree, t': Tree, p: Place, e: Raw) {
    && EntryAt(t, p, e)
    && p.0 in t'.dirs
    && t'.dirs == (if IsDir(e) then t.dirs - {Cluster(e)} else t.dirs)[p.0 := t.dirs[p.0][p.1 := Tombstone(e)]]
    && t'.caps == t.caps - {Cluster(e)}
  }

  lemma EntryFacts(t: Tree, home: Homes, p: Place, e: Raw)
    requires WellFormed(t, home, {}) && EntryAt(t, p, e)
    ensures EntryOk(t.dirs.Keys, t.caps, e) && Claimed(home, p, Cluster(e))
    ensures 0 !in home && 0 !in t.caps && 0 in t.dirs
    ensures IsDir(e) ==> Cluster(e) !in t.caps && Cluster(e) in home
    ensures !IsDir(e) && Cluster(e) != 0 ==> Cluster(e) in home && Cluster(e) !in t.dirs
  {
    assert Ents(t)[p] == e;
  }

  /** A file disappears with its entry. */
  lemma RemoveFileWF(t: Tree, t': Tree, home: Homes, p: Place, e: Raw)
    requires WellFormed(t, home, {}) && Removed(t, t', p, e) && !IsDir(e)
    ensures WellFormed(t', home - {Cluster(e)}, {})
  {
    hide WellFormed, At;
    EntryFacts(t, home, p, e);
    EntryAtSlot(t, p, e);
    var h := Cluster(e);
    var t1 := t.(caps := t.caps - {h});
    if h != 0 {
      DisownFileWF(t, home, {}, h);
      assert {} + {home[h]} == {p};
    } else {
      EmptyFileWF(t, home, {}, p);
      assert t1 == t && home - {h} == home && {} + {p} == {p};
    }
    DropKeepsWF(t1, home - {h}, {p}, p.0, p.1, Tombstone(e));
    assert {p} - {p} == {};
  }

  /** An empty directory disappears with its entry. */
  lemma RemoveDirWF(t: Tree, t': Tree, home: Homes, p: Place, e: Raw)
    requires WellFormed(t, home, {}) && Removed(t, t', p, e) && IsDir(e)
    requires Cluster(e) in t.dirs ==> forall j: nat :: !Ordinary(t.dirs[Cluster(e)], j)
    ensures WellFormed(t', home - {Cluster(e)}, {})
  {
    hide WellFormed, At;
    var h := Cluster(e);
    EntryFacts(t, home, p, e);
    EntryAtSlot(t, p, e);
    DisownDirWF(t, home, {}, h);
    assert {} + {home[h]} == {p};
    DropKeepsWF(t.(dirs := t.dirs - {h}), home - {h}, {p}, p.0, p.1, Tombstone(e));
    assert {p} - {p} == {};
    assert t.caps - {h} == t.caps;
  }

  /** The other entries stay when one is removed. */
  lemma RemovedKeeps(t: Tree, t': Tree, p: Place, e: Raw, q: Place, f: Raw)
    requires Removed(t, t', p, e)
    requires IsDir(e) ==> p.0 != Cluster(e)
    requires IsDir(e) && Cluster(e) in t.dirs ==> forall j: nat :: !Ordinary(t.dirs[Cluster(e)], j)
    ensures EntryAt(t', q, f) <==> q != p && EntryAt(t, q, f)
  {
    UpdateLive(t.dirs[p.0], p.1, Tombstone(e));
  }

  /** The slots of a directory that holds nothing but "." and "..". */
  ghost predicate FreshDir(s: seq<Raw>, x: nat, p: nat) {
    && |s| >= 3
    && s[0] == NewEntry(DOT_KEY, DIR, x, 0)
    && s[1] == NewEntry(DOTDOT_KEY, DIR, p, 0)
    && s[2][0] == 0
  }

  lemma DotKeyed(r: Raw)
    requires KeyOf(r) == DOT_KEY || KeyOf(r) == DOTDOT_KEY
    ensures IsDot(r) && r[0] == DOT
  {
    assert r[0] == KeyOf(r)[0] && r[1] == KeyOf(r)[1] && r[2] == KeyOf(r)[2];
  }

  lemma DotKeysDiffer()
    ensures DOT_KEY != DOTDOT_KEY
  {
    assert DOT_KEY[1] != DOTDOT_KEY[1];
  }

  lemma FreshLive(s: seq<Raw>)
    requires |s| >= 3 && s[0][0] == DOT && s[1][0] == DOT && s[2][0] == 0
    ensures forall j: nat :: Live(s, j) <==> j < 2
  {
    forall j: nat
      ensures Live(s, j) <==> j < 2
    {
      if j < |s| && j >= 2 {
        assert s[2][0] == 0;
      }
    }
  }

  lemma FreshDots(s: seq<Raw>, x: nat, p: nat)
    requires FreshDir(s, x, p) && x < 0x1_0000 && p < 0x1_0000
    requires Live(s, 0) && Live(s, 1)
    ensures Dots(s, x, p)
  {
    hide NewEntry, Live, KeyOf, Cluster;
  }

  lemma FreshDirOk(s: seq<Raw>, x: nat, p: nat)
    requires FreshDir(s, x, p) && x < 0x1_0000 && p < 0x1_0000
    ensures Dots(s, x, p) && NamesUnique(s) && forall j: nat :: !Ordinary(s, j)
  {
    hide NewEntry, Live, IsDot, KeyOf, Cluster, Dots;
    assert KeyOf(s[0]) == DOT_KEY && KeyOf(s[1]) == DOTDOT_KEY;
    DotKeyed(s[0]);
    DotKeyed(s[1]);
    DotKeysDiffer();
    FreshLive(s);
    FreshDots(s, x, p);
    TwoDots(s);
  }

  lemma TwoDots(s: seq<Raw>)
    requires |s| >= 2 && (forall j: nat :: Live(s, j) <==> j < 2)
    requires IsDot(s[0]) && IsDot(s[1]) && KeyOf(s[0]) != KeyOf(s[1])
    ensures NamesUnique(s) && forall j: nat :: !Ordinary(s, j)
  {
    hide Live, IsDot, KeyOf;
    assert forall j: nat :: Visible(s, j) ==> j == 0 || j == 1;
  }

  /** A directory is created: its entry appears in `d`, and it holds "." and "..". */
  lemma MakeDirWF(t: Tree, t1: Tree, home: Homes, d: nat, i: nat, e: Raw, x: nat, s: seq<Raw>)
    requires WellFormed(t, home, {}) && Inserted(t, t1, d, i, e) && NameFree(t, d, KeyOf(e)) && e[0] != DOT
    requires Attr(e) == DIR && Cluster(e) == x && 0 < x < 4080 && x !in t.dirs && x !in t.caps && d < 4080
    requires FreshDir(s, x, d)
    ensures WellFormed(WithDir(t1, x, s), home[x := (d, i)], {})
    ensures At(t1, (d, i))
  {
    hide WellFormed;
    NewEntryOrdinary(t1.dirs[d], i, e);
    InsertKeepsWF(t, home, {}, d, t1.dirs[d], i, e);
    FreshDirOk(s, x, d);
    NewDirKeepsWF(t1, home, {} + {(d, i)}, d, i, x, s);
    assert {} + {(d, i)} - {(d, i)} == {};
  }

  // ---------- renaming ----------

  /** The entry that `fat12_rename` creates for entry `e`: times and long-name bits are dropped. */
  function Copied(key: Key, e: Raw): (r: Raw)
    ensures KeyOf(r) == key && Attr(r) == Attr(e) && Cluster(r) == Cluster(e) && Size(r) == Size(e)
    ensures IsDir(r) == IsDir(e)
  {
    FieldBounds(e);
    NewEntry(key, Attr(e), Cluster(e), Size(e))
  }

  lemma FieldBounds(e: Raw)
    ensures Cluster(e) < 0x1_0000 && Size(e) < 0x1_0000_0000
    ensures Cluster(e) % 0x1_0000 == Cluster(e) && Size(e) % 0x1_0000_0000 == Size(e)
  {
    assert Cluster(e) < 0x1_0000;
    hide Cluster, Quad;
  }

  /** The tree after the copy of entry `e` was added: a moved directory gets its ".." redirected. */
  function Redirected(t: Tree, e: Raw, d: nat): Tree {
    if IsDir(e) && Cluster(e) in t.dirs && |t.dirs[Cluster(e)]| > 1
    then WithSlot(t, Cluster(e), 1, WithCluster(t.dirs[Cluster(e)][1], d))
    else t
  }

  /** `t'` is `t` after entry `e` moved from slot `p` to slot (d, i) under the name `key`. */
  ghost predicate Renamed(t: Tree, t1: Tree, t': Tree, p: Place, e: Raw, d: nat, i: nat, key: Key) {
    && EntryAt(t, p, e)
    && Inserted(t, t1, d, i, Copied(key, e))
    && p.0 in Redirected(t1, e, d).dirs && p.1 < |Redirected(t1, e, d).dirs[p.0]|
    && t' == WithSlot(Redirected(t1, e, d), p.0, p.1, Tombstone(e))
  }

  /** Where the objects have their entries after `e` moved to `q`. */
  function Rehomed(home: Homes, e: Raw, q: Place): Homes {
    if Cluster(e) == 0 then home else home[Cluster(e) := q]
  }

  lemma InsertedFacts(t: Tree, t1: Tree, d: nat, i: nat, f: Raw, p: Place, e: Raw)
    requires Inserted(t, t1, d, i, f) && EntryAt(t, p, e) && f[0] != DOT && Attr(f) != LFN
    ensures EntryAt(t1, p, e) && EntryAt(t1, (d, i), f) && p != (d, i)
    ensures t1.caps == t.caps && t1.dirs.Keys == t.dirs.Keys
  {
    NewEntryOrdinary(t1.dirs[d], i, f);
  }

  lemma RenameFileWF(t1: Tree, home: Homes, p: Place, e: Raw, q: Place, f: Raw)
    requires WellFormed(t1, home, {q}) && EntryAt(t1, p, e) && EntryAt(t1, q, f) && p != q
    requires !IsDir(e) && !IsDir(f) && Cluster(f) == Cluster(e) && Size(f) == Size(e)
    requires EntryOk(t1.dirs.Keys, t1.caps, e) && Claimed(home, p, Cluster(e))
    ensures WellFormed(WithSlot(t1, p.0, p.1, Tombstone(e)), Rehomed(home, e, q), {})
  {
    hide WellFormed, At;
    EntryAtSlot(t1, p, e);
    EntryAtSlot(t1, q, f);
    assert {p} - {p} == {} && {q} - {q} == {} && {} + {p} == {p};
    if Cluster(e) == 0 {
      EmptyFileWF(t1, home, {q}, q);
      EmptyFileWF(t1, home, {}, p);
    } else {
      MoveFileWF(t1, home, Cluster(e), q);
    }
    DropKeepsWF(t1, Rehomed(home, e, q), {p}, p.0, p.1, Tombstone(e));
  }

  /** A ".." slot is not an ordinary entry, so redirecting it moves no entry. */
  lemma RedirectKeeps(t: Tree, x: nat, e: Raw, p: Place, f: Raw)
    requires x in t.dirs && 1 < |t.dirs[x]| && Live(t.dirs[x], 1) && !Ordinary(t.dirs[x], 1)
    requires SameStart(e, t.dirs[x][1])
    ensures EntryAt(WithSlot(t, x, 1, e), p, f) <==> EntryAt(t, p, f)
  {
    SlotsUpdate(t.dirs[x], 1, e);
  }

  lemma BuryKeeps(t: Tree, p: Place, e: Raw, tomb: Raw, q: Place, f: Raw)
    requires EntryAt(t, p, e) && tomb[0] == FREE
    ensures EntryAt(WithSlot(t, p.0, p.1, tomb), q, f) <==> q != p && EntryAt(t, q, f)
  {
    UpdateLive(t.dirs[p.0], p.1, tomb);
  }

  lemma InsertedEntries(t: Tree, t1: Tree, d: nat, i: nat, f: Raw, q: Place, h: Raw)
    requires Inserted(t, t1, d, i, f) && f[0] != DOT && Attr(f) != LFN
    ensures EntryAt(t1, q, h) <==> (q == (d, i) && h == f) || (q != (d, i) && EntryAt(t, q, h))
  {
    NewEntryOrdinary(t1.dirs[d], i, f);
  }

  /** After the copy was added, the moved directory still starts with "." and "..". */
  lemma CopyKeepsDots(t: Tree, t1: Tree, home: Homes, d: nat, i: nat, f: Raw, x: nat)
    requires WellFormed(t, home, {}) && Inserted(t, t1, d, i, f) && x in t.dirs && x in home
    ensures x in t1.dirs && 1 < |t1.dirs[x]| && Live(t1.dirs[x], 1) && !Ordinary(t1.dirs[x], 1)
  {
    DotDotSlot(t, home, {}, x);
  }

  lemma DotDotSlot(t: Tree, home: Homes, skip: set<Place>, x: nat)
    requires WellFormed(t, home, skip) && x in t.dirs && x in home
    ensures 1 < |t.dirs[x]| && Live(t.dirs[x], 1) && !Ordinary(t.dirs[x], 1)
  {
    assert DirOk(t.dirs[x], x, home);
    DotSlots(t.dirs[x], x, home[x].0);
  }

  lemma RenameDirWF(t1: Tree, home: Homes, p: Place, e: Raw, q: Place, f: Raw)
    requires WellFormed(t1, home, {q}) && EntryAt(t1, p, e) && EntryAt(t1, q, f) && p != q && q.0 < 0x1_0000
    requires IsDir(e) && IsDir(f) && Cluster(f) == Cluster(e)
    requires EntryOk(t1.dirs.Keys, t1.caps, e) && Claimed(home, p, Cluster(e))
    ensures p.0 in Redirected(t1, e, q.0).dirs && p.1 < |Redirected(t1, e, q.0).dirs[p.0]|
    ensures WellFormed(WithSlot(Redirected(t1, e, q.0), p.0, p.1, Tombstone(e)), Rehomed(home, e, q), {})
  {
    hide WellFormed, At, Ordinary;
    var x := Cluster(e);
    EntryAtSlot(t1, p, e);
    EntryAtSlot(t1, q, f);
    DotDotSlot(t1, home, {q}, x);
    MoveDirWF(t1, home, x, q);
    FieldsSameStart(t1.dirs[x][1], q.0, 0);
    RedirectKeeps(t1, x, WithCluster(t1.dirs[x][1], q.0), p, e);
    EntryAtSlot(Redirected(t1, e, q.0), p, e);
    DropKeepsWF(Redirected(t1, e, q.0), Rehomed(home, e, q), {p}, p.0, p.1, Tombstone(e));
    assert {p} - {p} == {};
  }

  /** Renaming keeps the tree well formed. */
  lemma RenameWF(t: Tree, t1: Tree, home: Homes, p: Place, e: Raw, d: nat, i: nat, key: Key)
    requires WellFormed(t, home, {}) && EntryAt(t, p, e) && Inserted(t, t1, d, i, Copied(key, e))
    requires NameFree(t, d, key) && key[0] != DOT && d < 0x1_0000
    ensures p.0 in Redirected(t1, e, d).dirs && p.1 < |Redirected(t1, e, d).dirs[p.0]|
    ensures WellFormed(WithSlot(Redirected(t1, e, d), p.0, p.1, Tombstone(e)), Rehomed(home, e, (d, i)), {})
  {
    hide WellFormed;
    var f := Copied(key, e);
    NewEntryStart(key, Attr(e), Cluster(e), Size(e));
    EntryFacts(t, home, p, e);
    assert Attr(e) != LFN;
    InsertedFacts(t, t1, d, i, f, p, e);
    NewEntryOrdinary(t1.dirs[d], i, f);
    InsertKeepsWF(t, home, {}, d, t1.dirs[d], i, f);
    assert {} + {(d, i)} == {(d, i)};
    if IsDir(e) {
      RenameDirWF(t1, home, p, e, (d, i), f);
    } else {
      RenameFileWF(t1, home, p, e, (d, i), f);
      EntryAtSlot(t1, p, e);
    }
  }

  /** Which entries are there after a rename: all others, and the copy. */
  lemma RenamedEntries(t: Tree, t1: Tree, t': Tree, home: Homes, p: Place, e: Raw, d: nat, i: nat, key: Key, q: Place,
                       f: Raw)
    requires WellFormed(t, home, {}) && Renamed(t, t1, t', p, e, d, i, key) && key[0] != DOT
    ensures EntryAt(t', q, f) <==> (q == (d, i) && f == Copied(key, e)) || (q != (d, i) && q != p && EntryAt(t, q, f))
  {
    hide WellFormed, EntryAt, Inserted, Ordinary;
    var c := Copied(key, e);
    NewEntryStart(key, Attr(e), Cluster(e), Size(e));
    EntryFacts(t, home, p, e);
    EntryOrdinary(t, p, e);
    InsertedEntries(t, t1, d, i, c, q, f);
    InsertedFacts(t, t1, d, i, c, p, e);
    var t2 := Redirected(t1, e, d);
    if IsDir(e) {
      CopyKeepsDots(t, t1, home, d, i, c, Cluster(e));
      FieldsSameStart(t1.dirs[Cluster(e)][1], d, 0);
      RedirectKeeps(t1, Cluster(e), WithCluster(t1.dirs[Cluster(e)][1], d), q, f);
      RedirectKeeps(t1, Cluster(e), WithCluster(t1.dirs[Cluster(e)][1], d), p, e);
    }
    BuryKeeps(t2, p, e, Tombstone(e), q, f);
  }

  lemma EntryOrdinary(t: Tree, p: Place, e: Raw)
    requires EntryAt(t, p, e)
    ensures Attr(e) != LFN
  {
  }
}
