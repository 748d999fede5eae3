// What a listing shows: the children of a directory in the view.
module Listings {
  import opened Disk
  import opened Objects
  import opened Directory
  import opened Names
  import opened Paths
  import opened Tree
  import opened Store
  import opened Lookup
  import opened Namespace
  import opened View
  import opened Fat12
  import opened Session
  import opened Options

  /** The names of the ordinary entries from slot `i` on, in slot order. */
  ghost function NamesFrom(s: seq<Raw>, i: nat): seq<Key>
    decreases |s| - i
  {
    if i >= |s| then [] else (if Ordinary(s, i) then [KeyOf(s[i])] else []) + NamesFrom(s, i + 1)
  }

  /** Item `x` shows an ordinary entry `name` from slot `i` on. */
  ghost predicate FromSlot(s: seq<Raw>, i: nat, x: Item, name: Key) {
    exists j: nat :: i <= j && Ordinary(s, j) && KeyOf(s[j]) == name && x == Item(IsDir(s[j]), Shown(name))
  }

  /** The items stand for the names, one for each. */
  lemma {:induction false} ListedNames(s: seq<Raw>, i: nat)
    ensures |ListFrom(s, i)| == |NamesFrom(s, i)|
    ensures forall n :: 0 <= n < |ListFrom(s, i)| ==> FromSlot(s, i, ListFrom(s, i)[n], NamesFrom(s, i)[n])
    decreases |s| - i
  {
    hide IsDot, Shown, KeyOf, Visible, FromSlot;
    if i < |s| {
      ListedNames(s, i + 1);
      var k := if Ordinary(s, i) then 1 else 0;
      assert ListFrom(s, i) == ItemsAt(s, i) + ListFrom(s, i + 1) && |ItemsAt(s, i)| == k;
      forall n | 0 <= n < |ListFrom(s, i)| ensures FromSlot(s, i, ListFrom(s, i)[n], NamesFrom(s, i)[n]) {
        if n < k {
          ThisSlot(s, i);
        } else {
          LaterSlot(s, i, ListFrom(s, i + 1)[n - k], NamesFrom(s, i + 1)[n - k]);
        }
      }
    }
  }

  lemma ThisSlot(s: seq<Raw>, i: nat)
    requires Ordinary(s, i)
    ensures FromSlot(s, i, Item(IsDir(s[i]), Shown(KeyOf(s[i]))), KeyOf(s[i]))
  {
  }

  lemma LaterSlot(s: seq<Raw>, i: nat, x: Item, name: Key)
    requires FromSlot(s, i + 1, x, name)
    ensures FromSlot(s, i, x, name)
  {
  }

  /** Item `x` shows the ordinary entry in slot `j`. */
  ghost predicate ShowsSlot(s: seq<Raw>, j: nat, x: Item) {
    Ordinary(s, j) && x == Item(IsDir(s[j]), Shown(KeyOf(s[j])))
  }

  /** What slot `i` adds to the listing. */
  lemma ItemShows(s: seq<Raw>, i: nat) returns (x: Item)
    requires i < |s|
    ensures if Ordinary(s, i) then ListFrom(s, i) == [x] + ListFrom(s, i + 1) && ShowsSlot(s, i, x)
            else ListFrom(s, i) == ListFrom(s, i + 1)
  {
    x := Item(false, []);
    assert ListFrom(s, i) == ItemsAt(s, i) + ListFrom(s, i + 1);
    hide ListFrom, Shown, IsDir;
    if Ordinary(s, i) {
      x := ItemsAt(s, i)[0];
      assert ItemsAt(s, i) == [x];
    } else {
      assert [] + ListFrom(s, i + 1) == ListFrom(s, i + 1);
    }
  }

  /** The items show the slots `at`, one each. */
  ghost predicate AllShow(s: seq<Raw>, at: seq<nat>, items: seq<Item>) {
    |at| == |items| && forall n :: 0 <= n < |at| ==> ShowsSlot(s, at[n], items[n])
  }

  ghost predicate Increasing(at: seq<nat>, i: nat) {
    (forall n :: 0 <= n < |at| ==> i <= at[n]) && forall n, m :: 0 <= n < m < |at| ==> at[n] < at[m]
  }

  ghost predicate Covers(s: seq<Raw>, i: nat, at: seq<nat>) { forall j: nat :: i <= j && Ordinary(s, j) ==> j in at }

  /** The items are the ordinary entries in slot order, each once and none left out. */
  lemma {:induction false} ListedInOrder(s: seq<Raw>, i: nat) returns (at: seq<nat>)
    ensures AllShow(s, at, ListFrom(s, i)) && Increasing(at, i) && Covers(s, i, at)
    decreases |s| - i
  {
    hide Ordinary, ShowsSlot, ListFrom, Increasing, Covers, AllShow;
    if i < |s| {
      var rest := ListedInOrder(s, i + 1);
      var x := ItemShows(s, i);
      OneMoreSlot(s, i, rest, ListFrom(s, i + 1), x);
      at := if Ordinary(s, i) then [i] + rest else rest;
    } else {
      at := [];
      NoneOrdinary(s, i);
    }
  }

  lemma OneMoreSlot(s: seq<Raw>, i: nat, rest: seq<nat>, items: seq<Item>, x: Item)
    requires AllShow(s, rest, items) && Increasing(rest, i + 1) && Covers(s, i + 1, rest)
    requires Ordinary(s, i) ==> ShowsSlot(s, i, x)
    ensures Ordinary(s, i) ==>
              AllShow(s, [i] + rest, [x] + items) && Increasing([i] + rest, i) && Covers(s, i, [i] + rest)
    ensures !Ordinary(s, i) ==> AllShow(s, rest, items) && Increasing(rest, i) && Covers(s, i, rest)
  {
    hide Ordinary, ShowsSlot;
    forall j: nat | i <= j && Ordinary(s, j) ensures j == i || j in rest {
    }
  }

  lemma NoneOrdinary(s: seq<Raw>, i: nat)
    requires i >= |s|
    ensures AllShow(s, [], ListFrom(s, i)) && Increasing([], i) && Covers(s, i, [])
  {
  }

  /** Exactly the names of the ordinary entries are there, each once. */
  lemma {:induction false} NamesOnce(s: seq<Raw>, i: nat)
    requires NamesUnique(s)
    ensures forall k: Key :: k in NamesFrom(s, i) <==> exists j: nat :: i <= j && Ordinary(s, j) && KeyOf(s[j]) == k
    ensures forall a, b :: 0 <= a < b < |NamesFrom(s, i)| ==> NamesFrom(s, i)[a] != NamesFrom(s, i)[b]
    decreases |s| - i
  {
    hide IsDot, KeyOf;
    if i < |s| {
      NamesOnce(s, i + 1);
      var names, rest := NamesFrom(s, i), NamesFrom(s, i + 1);
      forall a, b | 0 <= a < b < |names| ensures names[a] != names[b] {
        assert Ordinary(s, i) ==> names[b] == rest[b - 1] && names[b] in rest;
      }
    }
  }

  /** The items are the children of directory `ks`, called `names`, each once: with the name that it is shown by, and
      as a directory or a file. An item whose name no path can spell is not in the view. */
  ghost predicate Children(v: View, ks: Path, names: seq<Key>, items: seq<Item>) {
    && |items| == |names|
    && (forall a, b :: 0 <= a < b < |names| ==> names[a] != names[b])
    && (forall k: Key :: PathKey(k) ==> (k in names <==> HasPath(v, ks + [k])))
    && (forall n :: 0 <= n < |names| ==> ItemFor(v, ks, names[n], items[n]))
  }

  ghost predicate ItemFor(v: View, ks: Path, name: Key, x: Item) {
    x.name == Shown(name) && (PathKey(name) ==> (x.directory <==> ks + [name] in v.dirs))
  }

  /** A child of a directory is one of its ordinary entries. */
  lemma ChildEntry(o: Objs, t: Tree, home: Homes, ks: Path, d: nat, k: Key)
    requires WellFormed(t, home, {}) && PathKeys(ks) && Walk(t, ks) == Some(d) && d in t.dirs && PathKey(k)
    ensures HasPath(ViewOf(o, t), ks + [k]) <==> exists j: nat :: Ordinary(t.dirs[d], j) && KeyOf(t.dirs[d][j]) == k
    ensures forall j: nat :: Ordinary(t.dirs[d], j) && KeyOf(t.dirs[d][j]) == k ==>
              (IsDir(t.dirs[d][j]) <==> ks + [k] in ViewOf(o, t).dirs)
  {
    hide WellFormed, ViewOf, Walk, PathKey, Look, KeyOf, IsDot;
    var a := ks + [k];
    assert Init(a) == ks && Last(a) == k && PathKeys(a);
    ViewNames(o, t, a);
    ViewAt(o, t, a);
    WalkLast(t, a);
    EnterLook(t, d, k);
    if Look(t, d, k).Some? {
      LookEntry(t, d, k);
    }
    forall j: nat | Ordinary(t.dirs[d], j) && KeyOf(t.dirs[d][j]) == k
      ensures Look(t, d, k) == Some(((d, j), t.dirs[d][j]))
    {
      assert EntryAt(t, (d, j), t.dirs[d][j]);
      LookIs(t, home, (d, j), t.dirs[d][j]);
    }
  }

  /** A directory lists its children. */
  lemma ListsChildren(o: Objs, t: Tree, home: Homes, ks: Path, d: nat)
    requires WellFormed(t, home, {}) && PathKeys(ks) && Walk(t, ks) == Some(d) && d in t.dirs
    ensures Children(ViewOf(o, t), ks, NamesFrom(t.dirs[d], 0), Listing(t.dirs[d]))
  {
    var s, names, items := t.dirs[d], NamesFrom(t.dirs[d], 0), Listing(t.dirs[d]);
    assert NamesUnique(s);
    ListedNames(s, 0);
    NamesOnce(s, 0);
    hide WellFormed, ViewOf, Walk, PathKey, KeyOf, Ordinary, NamesFrom, ListFrom, Shown;
    forall k: Key | PathKey(k) ensures k in names <==> HasPath(ViewOf(o, t), ks + [k]) {
      ChildEntry(o, t, home, ks, d, k);
    }
    forall n | 0 <= n < |names| ensures ItemFor(ViewOf(o, t), ks, names[n], items[n]) {
      assert FromSlot(s, 0, items[n], names[n]);
      if PathKey(names[n]) {
        ChildEntry(o, t, home, ks, d, names[n]);
      }
    }
  }

  /** `items` are the first `count` of the children of directory `ks`. */
  ghost predicate FirstChildren(v: View, ks: Path, count: nat, items: seq<Item>) {
    exists names, all :: Children(v, ks, names, all) && items == all[..if count < |all| then count else |all|]
  }

  /** What a listing of `path` returns. The root has to be named in one of three ways. */
  ghost predicate Lists(v: View, path: CString, count: nat, r: int, items: seq<Item>) {
    var ks := Keys(path);
    if path == [] || path == [0x2F] || path == [0x2F, 0x2E] then r == 0 && FirstChildren(v, [], count, items)
    else if ks != [] && ks in v.dirs then r == 0 && FirstChildren(v, ks, count, items)
    else if ks != [] && ks in v.files then r == 0 && items == [Item(false, Shown(Last(ks)))][..Min(count, 1)]
    else r == -9 && items == []
  }

  lemma ListedDir(o: Objs, t: Tree, home: Homes, ks: Path, d: nat, count: nat)
    requires WellFormed(t, home, {}) && PathKeys(ks) && Walk(t, ks) == Some(d) && d in t.dirs
    ensures var all := Listing(t.dirs[d]); FirstChildren(ViewOf(o, t), ks, count, all[..Min(count, |all|)])
  {
    hide Children;
    ListsChildren(o, t, home, ks, d);
  }

  /** What the driver lists at a path is what the view has there. */
  lemma ListedSeen(o: Objs, t: Tree, home: Homes, path: CString, count: nat)
    requires WellFormed(t, home, {}) && 0 in t.dirs
    ensures var all, root := ListedAt(t, path), path == [] || path == [0x2F] || path == [0x2F, 0x2E];
            if root || Resolve(t, Keys(path)).Some? then Lists(ViewOf(o, t), path, count, 0, all[..Min(count, |all|)])
            else Lists(ViewOf(o, t), path, count, -9, [])
  {
    hide WellFormed, ViewOf, Walk, FirstChildren, Listing, Shown, Cluster, Size;
    KeysOk(path);
    ViewCodes(o, t, path);
    if path == [] || path == [0x2F] || path == [0x2F, 0x2E] {
      WalkNothing(t, []);
      ListedDir(o, t, home, [], 0, count);
    } else if Resolve(t, Keys(path)).Some? {
      hide Keys;
      ListedEntry(o, t, home, path, count);
    }
  }

  lemma ListedEntry(o: Objs, t: Tree, home: Homes, path: CString, count: nat)
    requires WellFormed(t, home, {}) && Resolve(t, Keys(path)).Some?
    requires path != [] && path != [0x2F] && path != [0x2F, 0x2E]
    ensures var all := ListedAt(t, path); Lists(ViewOf(o, t), path, count, 0, all[..Min(count, |all|)])
  {
    hide WellFormed, ViewOf, Walk, FirstChildren, Listing, Shown, Cluster, Size, Resolve, Keys;
    KeysOk(path);
    ViewCodes(o, t, path);
    var p := Resolve(t, Keys(path)).value;
    if IsDir(EntryIn(t, p)) {
      DirWalked(t, home, path);
      ListedDir(o, t, home, Keys(path), Cluster(EntryIn(t, p)), count);
    } else {
      ResolveAt(t, home, Keys(path));
    }
  }

  lemma RootListed(v: View, path: CString, count: nat, r: int, items: seq<Item>)
    requires Lists(v, path, count, r, items) && (path == [0x2F] || path == [] || path == [0x2F, 0x2E])
    ensures r == 0 && FirstChildren(v, [], count, items)
  {
  }

  /** `fat12_listcontent` lists the children of a directory path, each once and with its kind, and a file as itself. */
  method StepList(v: Volume, path: CString, count: nat) returns (r: int, items: seq<Item>)
    requires Clean(v)
    ensures path == [0x2F] || path == [] || path == [0x2F, 0x2E] ==> r == 0 && FirstChildren(Seen(v), [], count, items)
    ensures Lists(Seen(v), path, count, r, items)
  {
    hide WellFormed, ViewOf, TreeOf, Lists, ListedAt, Resolve, Keys, Rooted, Coherent;
    CleanHome(v);
    v.RootInside();
    r, items := v.ListContent(path, count);
    ListedSeen(v.o, v.T(), v.home, path, count);
    if path == [0x2F] || path == [] || path == [0x2F, 0x2E] {
      RootListed(Seen(v), path, count, r, items);
    }
  }
}
