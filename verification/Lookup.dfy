// Looking a path up: a fold of the directory scan over the components of the path.
module Lookup {
  import opened Disk
  import opened Directory
  import opened Tree
  import opened Options

  /** The first slot at or after `i` that a scan for `key` stops at, or -1. */
  ghost function ScanFrom(s: seq<Raw>, key: Key, i: nat): (r: int)
    ensures r >= 0 ==> i <= r && Hit(s, r, key)
    ensures forall j: nat :: i <= j < (if r < 0 then |s| else r) ==> !Hit(s, j, key)
    decreases |s| - i
  {
    if i >= |s| then -1 else if Hit(s, i, key) then i else ScanFrom(s, key, i + 1)
  }

  ghost function Scan(s: seq<Raw>, key: Key): int { ScanFrom(s, key, 0) }

  /** A scan finds the one visible slot with the name, wherever it is. */
  lemma ScanFinds(s: seq<Raw>, key: Key, i: nat)
    requires NamesUnique(s) && Hit(s, i, key)
    ensures Scan(s, key) == i
  {
  }

  lemma ScanIs(s: seq<Raw>, key: Key, i: nat)
    requires Hit(s, i, key) && forall j: nat :: j < i ==> !Hit(s, j, key)
    ensures Scan(s, key) == i
  {
  }

  lemma ScanFails(s: seq<Raw>, key: Key)
    ensures Scan(s, key) < 0 <==> forall j: nat :: !Hit(s, j, key)
  {
    if Scan(s, key) < 0 {
      forall j: nat ensures !Hit(s, j, key) {
        if j < |s| {
        }
      }
    } else {
      assert Hit(s, Scan(s, key), key);
    }
  }

  /** The directory behind the entry `key` of directory `d`. */
  ghost function Enter(t: Tree, d: nat, key: Key): Option<nat> {
    if d !in t.dirs || Scan(t.dirs[d], key) < 0 then None
    else if IsDir(t.dirs[d][Scan(t.dirs[d], key)]) then Some(Cluster(t.dirs[d][Scan(t.dirs[d], key)]))
    else None
  }

  /** The directory that the components `ks` lead to from the root. */
  ghost function Walk(t: Tree, ks: seq<Key>): Option<nat> {
    if ks == [] then Some(0) else
    match Walk(t, ks[..|ks| - 1])
    case None => None
    case Some(d) => Enter(t, d, ks[|ks| - 1])
  }

  /** The slot of directory `d` that a scan for `key` stops at. */
  ghost function Found(t: Tree, d: nat, key: Key): Option<Place> {
    if d in t.dirs && Scan(t.dirs[d], key) >= 0 then Some((d, Scan(t.dirs[d], key))) else None
  }

  /** What a scan of directory `d` says about the slot and the directory behind it. */
  lemma ScanTells(t: Tree, d: nat, key: Key)
    requires d in t.dirs
    ensures Scan(t.dirs[d], key) < 0 ==> Found(t, d, key).None? && Enter(t, d, key).None?
    ensures var i := Scan(t.dirs[d], key);
            i >= 0 ==> i < |t.dirs[d]| && Found(t, d, key) == Some((d, i))
                       && Enter(t, d, key) == if IsDir(t.dirs[d][i]) then Some(Cluster(t.dirs[d][i])) else None
  {
  }

  /** The slot that a path names: its parent directory, and the slot of its last component. */
  ghost function Resolve(t: Tree, ks: seq<Key>): Option<Place> {
    if ks == [] then None else
    match Walk(t, ks[..|ks| - 1])
    case None => None
    case Some(d) => Found(t, d, ks[|ks| - 1])
  }

  lemma ResolveNothing(t: Tree)
    ensures Resolve(t, []).None?
  {
  }

  lemma WalkNothing(t: Tree, ks: seq<Key>)
    ensures Walk(t, ks[..0]) == Some(0)
  {
  }

  /** A key that a path component can have. */
  predicate PathKey(k: Key) { k[0] != DOT && k[0] != 0 }

  predicate PathKeys(ks: seq<Key>) { forall i :: 0 <= i < |ks| ==> PathKey(ks[i]) }

  /** What a scan for a path component finds is an ordinary entry. */
  lemma HitOrdinary(s: seq<Raw>, i: nat, key: Key)
    requires Hit(s, i, key) && PathKey(key)
    ensures Ordinary(s, i)
  {
    assert s[i][0] == KeyOf(s[i])[0];
  }

  /** In a well-formed tree a walk never leaves the directories. */
  lemma EnterInside(t: Tree, home: Homes, d: nat, key: Key)
    requires WellFormed(t, home, {}) && PathKey(key) && Enter(t, d, key).Some?
    ensures var i := Scan(t.dirs[d], key);
            && i >= 0 && At(t, (d, i)) && EntryOk(t.dirs.Keys, t.caps, t.dirs[d][i])
            && Enter(t, d, key).value == Cluster(t.dirs[d][i])
            && Enter(t, d, key).value in t.dirs && Enter(t, d, key).value != 0
            && Enter(t, d, key).value in home && home[Enter(t, d, key).value] == (d, i)
  {
    var i := Scan(t.dirs[d], key);
    HitOrdinary(t.dirs[d], i, key);
    assert (d, i) in Ents(t);
  }

  lemma {:induction false} WalkInside(t: Tree, home: Homes, ks: seq<Key>)
    requires WellFormed(t, home, {}) && PathKeys(ks) && Walk(t, ks).Some?
    ensures Walk(t, ks).value in t.dirs
  {
    if ks != [] {
      var init := ks[..|ks| - 1];
      EnterInside(t, home, Walk(t, init).value, ks[|ks| - 1]);
    }
  }

  /** Whenever a path names an entry, its parent can be walked to. */
  lemma ResolveAt(t: Tree, home: Homes, ks: seq<Key>)
    requires WellFormed(t, home, {}) && PathKeys(ks) && Resolve(t, ks).Some?
    ensures var p := Resolve(t, ks).value;
            && Walk(t, ks[..|ks| - 1]) == Some(p.0)
            && At(t, p) && EntryOk(t.dirs.Keys, t.caps, t.dirs[p.0][p.1])
            && Claimed(home, p, Cluster(t.dirs[p.0][p.1]))
            && KeyOf(t.dirs[p.0][p.1]) == ks[|ks| - 1]
            && Hit(t.dirs[p.0], p.1, ks[|ks| - 1])
  {
    var p := Resolve(t, ks).value;
    HitOrdinary(t.dirs[p.0], p.1, ks[|ks| - 1]);
    assert p in Ents(t);
  }

  /** One step of the walk. */
  lemma WalkStep(t: Tree, ks: seq<Key>, n: nat)
    requires n < |ks|
    ensures Walk(t, ks[..n + 1]) == if Walk(t, ks[..n]).None? then None else Enter(t, Walk(t, ks[..n]).value, ks[n])
  {
    assert ks[..n + 1][..n] == ks[..n];
  }

  /** A walk that is stuck stays stuck. */
  lemma {:induction false} WalkStuck(t: Tree, ks: seq<Key>, n: nat, m: nat)
    requires n <= m <= |ks| && Walk(t, ks[..n]).None?
    ensures Walk(t, ks[..m]).None?
    decreases m - n
  {
    if n < m {
      WalkStep(t, ks, n);
      WalkStuck(t, ks, n + 1, m);
    }
  }

  /** Where the driver gives up, the path names nothing and has no parent unless this was the last
      component. */
  lemma WalkStops(t: Tree, ks: seq<Key>, n: nat)
    requires n < |ks| && Walk(t, ks[..n]).Some?
    ensures if n + 1 == |ks| then Resolve(t, ks) == Found(t, Walk(t, ks[..n]).value, ks[n])
            else Enter(t, Walk(t, ks[..n]).value, ks[n]).None? ==> Walk(t, ks[..|ks| - 1]).None? && Resolve(t, ks).None?
  {
    WalkStep(t, ks, n);
    if n + 1 < |ks| && Enter(t, Walk(t, ks[..n]).value, ks[n]).None? {
      WalkStuck(t, ks, n + 1, |ks| - 1);
    }
  }
}
