// What the FAT and the data area stand for: a set of objects (the root directory, the other
// directories and the files), each a list of clusters and the sectors they hold.
module Objects {
  import opened Disk
  import opened Chains

  /** `chains` maps the first cluster of an object to its cluster chain. `secs` maps it to the
      sectors of the object in order, and maps 0 to the sectors of the root directory. `lost` are
      the clusters whose cell is not 0 although no object uses them (bad clusters, clusters past
      the end of the drive, leaks of earlier times). */
  datatype Objs = Objs(chains: map<nat, seq<nat>>, secs: map<nat, seq<Sector>>, lost: set<nat>)

  ghost predicate Owned(o: Objs, c: nat) {
    exists h :: h in o.chains && c in o.chains[h]
  }

  ghost predicate ChainsOk(g: Geometry, fat: FatTable, o: Objs)
    requires g.Ok()
  {
    forall h :: h in o.chains ==> IsChain(fat, o.chains[h], g.last) && o.chains[h][0] == h
  }

  /** No cluster is on two chains, or twice on one. */
  ghost predicate Disjoint(o: Objs) {
    forall h1, h2, i, j ::
      (h1 in o.chains && h2 in o.chains && 0 <= i < |o.chains[h1]| && 0 <= j < |o.chains[h2]|
       && o.chains[h1][i] == o.chains[h2][j]) ==> h1 == h2 && i == j
  }

  lemma OneOwner(o: Objs, h1: nat, h2: nat, c: nat)
    requires Disjoint(o) && h1 in o.chains && h2 in o.chains
    ensures c in o.chains[h1] && c in o.chains[h2] ==> h1 == h2
  {
  }

  /** Every cluster the allocator looks at is free, lost, or on a chain, and never two of these. */
  ghost predicate Accounted(g: Geometry, fat: FatTable, o: Objs) {
    && (forall c :: 2 <= c < 4080 ==>
        if fat[c] == 0 then c !in o.lost && !Owned(o, c) else (c in o.lost) != Owned(o, c))
    && (forall c :: g.last < c < 4080 ==> fat[c] != 0)
  }

  // ---------- sectors of a chain ----------

  /** The sectors of cluster `c`, then of a chain. */
  function ClusterList(g: Geometry, c: nat): (r: seq<nat>)
    requires 2 <= c
    ensures |r| == g.spc
  {
    seq(g.spc, j requires 0 <= j < g.spc => g.DataSector(c, j))
  }

  ghost predicate Clusters(g: Geometry, s: seq<nat>) {
    forall i :: 0 <= i < |s| ==> 2 <= s[i] <= g.last
  }

  ghost function SectorList(g: Geometry, s: seq<nat>): (r: seq<nat>)
    requires Clusters(g, s)
    ensures |r| == Times(|s|, g.spc)
  {
    if s == [] then [] else SectorList(g, s[..|s| - 1]) + ClusterList(g, s[|s| - 1])
  }

  /** Sector `j` of the `k`-th cluster is sector `k * spc + j` of the object. */
  lemma {:induction false} SectorListAt(g: Geometry, s: seq<nat>, k: nat, j: nat)
    requires Clusters(g, s) && k < |s| && j < g.spc
    ensures Times(k, g.spc) + j < Times(|s|, g.spc)
    ensures SectorList(g, s)[Times(k, g.spc) + j] == g.DataSector(s[k], j)
  {
    TimesStep(k, |s|, g.spc);
    var init := s[..|s| - 1];
    if k < |s| - 1 {
      SectorListAt(g, init, k, j);
    }
  }

  /** Every sector of the list is some sector of some cluster of the chain. */
  lemma {:induction false} SectorListFrom(g: Geometry, s: seq<nat>, q: nat) returns (k: nat, j: nat)
    requires g.Ok() && Clusters(g, s) && q < Times(|s|, g.spc)
    ensures k < |s| && j < g.spc && q == Times(k, g.spc) + j
    ensures SectorList(g, s)[q] == g.DataSector(s[k], j)
  {
    var init := s[..|s| - 1];
    if q < Times(|init|, g.spc) {
      k, j := SectorListFrom(g, init, q);
    } else {
      k, j := |s| - 1, q - Times(|init|, g.spc);
    }
  }

  /** Every sector of the list lies in the data area. */
  lemma SectorListInside(g: Geometry, s: seq<nat>, q: nat)
    requires g.Ok() && Clusters(g, s) && q < Times(|s|, g.spc)
    ensures g.RootSectors() <= SectorList(g, s)[q] < g.RootSectors() + Times(g.last - 1, g.spc)
  {
    var k, j := SectorListFrom(g, s, q);
    DataSectorInside(g, s[k], j);
  }

  /** `sec` is the content of the drive at the sectors `list`. */
  ghost predicate Holds(area: seq<Sector>, list: seq<nat>, sec: seq<Sector>) {
    && |sec| == |list|
    && forall q :: 0 <= q < |list| ==> list[q] < |area| && sec[q] == area[list[q]]
  }

  ghost function RootList(g: Geometry): seq<nat> {
    seq(g.RootSectors(), q requires 0 <= q => q)
  }

  ghost predicate Stored(g: Geometry, area: seq<Sector>, o: Objs) {
    && g.Ok()
    && (forall h :: h in o.secs <==> h in o.chains || h == 0)
    && 0 !in o.chains
    && Holds(area, RootList(g), o.secs[0])
    && forall h :: h in o.chains ==> Clusters(g, o.chains[h]) && Holds(area, SectorList(g, o.chains[h]), o.secs[h])
  }

  /** `o` is what the table `fat` and the sectors `area` (root directory and data) hold. */
  ghost predicate Rep(g: Geometry, fat: FatTable, area: seq<Sector>, o: Objs) {
    && g.Ok()
    && |area| >= g.RootSectors() + Times(g.last - 1, g.spc)
    && ChainsOk(g, fat, o)
    && Disjoint(o)
    && Accounted(g, fat, o)
    && Stored(g, area, o)
  }

  /** The sectors on which object `h` lives. */
  ghost function ListOf(g: Geometry, o: Objs, h: nat): seq<nat>
    requires h in o.chains ==> Clusters(g, o.chains[h])
  {
    if h in o.chains then SectorList(g, o.chains[h]) else RootList(g)
  }

  /** Different positions of the objects live on different sectors of the drive. */
  lemma ListsDisjoint(g: Geometry, o: Objs, h1: nat, q1: nat, h2: nat, q2: nat)
    requires g.Ok() && Disjoint(o)
    requires h1 in o.chains || h1 == 0
    requires h2 in o.chains || h2 == 0
    requires 0 !in o.chains
    requires forall h :: h in o.chains ==> Clusters(g, o.chains[h])
    requires q1 < |ListOf(g, o, h1)| && q2 < |ListOf(g, o, h2)|
    requires ListOf(g, o, h1)[q1] == ListOf(g, o, h2)[q2]
    ensures h1 == h2 && q1 == q2
  {
    if h1 in o.chains {
      SectorListInside(g, o.chains[h1], q1);
    }
    if h2 in o.chains {
      SectorListInside(g, o.chains[h2], q2);
    }
    if h1 in o.chains && h2 in o.chains {
      var k1, j1 := SectorListFrom(g, o.chains[h1], q1);
      var k2, j2 := SectorListFrom(g, o.chains[h2], q2);
      DataSectorInjective(g, o.chains[h1][k1], j1, o.chains[h2][k2], j2);
    }
  }

  /** Sector `j` of the `n`-th cluster of object `h`, as the drive holds it. */
  lemma ObjectSector(g: Geometry, area: seq<Sector>, o: Objs, h: nat, n: nat, j: nat)
    requires Stored(g, area, o) && h in o.chains && n < |o.chains[h]| && j < g.spc
    ensures 2 <= o.chains[h][n] && h in o.secs
    ensures var q := Times(n, g.spc) + j;
            && q < |o.secs[h]| == |ListOf(g, o, h)|
            && ListOf(g, o, h)[q] == g.DataSector(o.chains[h][n], j) < |area|
            && area[g.DataSector(o.chains[h][n], j)] == o.secs[h][q]
  {
    SectorListAt(g, o.chains[h], n, j);
  }

  lemma RootSector(g: Geometry, area: seq<Sector>, o: Objs, q: nat)
    requires Stored(g, area, o) && q < g.RootSectors()
    ensures 0 in o.secs && q < |o.secs[0]| == |ListOf(g, o, 0)| && ListOf(g, o, 0)[q] == q < |area|
    ensures area[q] == o.secs[0][q]
  {
  }

  // ---------- the four ways the driver changes objects ----------

  /** One sector of one object is rewritten. */
  ghost function WithSector(o: Objs, h: nat, q: nat, sec: Sector): Objs
    requires h in o.secs && q < |o.secs[h]|
  {
    var secs: seq<Sector> := o.secs[h][q := sec];
    o.(secs := o.secs[h := secs])
  }

  lemma WriteHolds(g: Geometry, area: seq<Sector>, o: Objs, h: nat, q: nat, sec: Sector, k: nat)
    requires Stored(g, area, o) && Disjoint(o)
    requires h in o.secs && q < |o.secs[h]| && k in o.secs
    requires |ListOf(g, o, h)| == |o.secs[h]| && ListOf(g, o, h)[q] < |area|
    ensures Holds(area[ListOf(g, o, h)[q] := sec], ListOf(g, o, k), WithSector(o, h, q, sec).secs[k])
  {
    var list := ListOf(g, o, k);
    var x := ListOf(g, o, h)[q];
    assert Holds(area, list, o.secs[k]);
    forall p | 0 <= p < |list| && list[p] == x
      ensures k == h && p == q
    {
      ListsDisjoint(g, o, k, p, h, q);
    }
  }

  lemma WriteStored(g: Geometry, area: seq<Sector>, o: Objs, h: nat, q: nat, sec: Sector)
    requires Stored(g, area, o) && Disjoint(o) && h in o.secs && q < |o.secs[h]|
    ensures |ListOf(g, o, h)| == |o.secs[h]| && ListOf(g, o, h)[q] < |area|
    ensures Stored(g, area[ListOf(g, o, h)[q] := sec], WithSector(o, h, q, sec))
  {
    assert Holds(area, ListOf(g, o, h), o.secs[h]);
    forall k | k in o.secs
      ensures Holds(area[ListOf(g, o, h)[q] := sec], ListOf(g, o, k), WithSector(o, h, q, sec).secs[k])
    {
      WriteHolds(g, area, o, h, q, sec, k);
    }
    assert ListOf(g, o, 0) == RootList(g);
  }

  lemma WriteRep(g: Geometry, fat: FatTable, area: seq<Sector>, o: Objs, h: nat, q: nat, sec: Sector)
    requires Rep(g, fat, area, o) && h in o.secs && q < |o.secs[h]|
    ensures |ListOf(g, o, h)| == |o.secs[h]| && ListOf(g, o, h)[q] < |area|
    ensures Rep(g, fat, area[ListOf(g, o, h)[q] := sec], WithSector(o, h, q, sec))
  {
    WriteStored(g, area, o, h, q, sec);
  }

  /** A free cluster becomes an object of its own. */
  ghost function WithNew(g: Geometry, area: seq<Sector>, o: Objs, c: nat): Objs
    requires 2 <= c
  {
    o.(chains := o.chains[c := [c]], secs := o.secs[c := ClusterSectors(g, area, c)])
  }

  ghost function ClusterSectors(g: Geometry, area: seq<Sector>, c: nat): (r: seq<Sector>)
    requires 2 <= c
    ensures |r| == g.spc
  {
    seq(g.spc, j requires 0 <= j < g.spc =>
      if ClusterList(g, c)[j] < |area| then area[ClusterList(g, c)[j]] else ZeroSector())
  }

  lemma ClusterHolds(g: Geometry, area: seq<Sector>, c: nat)
    requires g.Ok() && 2 <= c <= g.last && |area| >= g.RootSectors() + Times(g.last - 1, g.spc)
    ensures Holds(area, ClusterList(g, c), ClusterSectors(g, area, c))
  {
    forall j | 0 <= j < g.spc
      ensures ClusterList(g, c)[j] < |area|
    {
      DataSectorInside(g, c, j);
    }
  }

  lemma NewOwned(o: Objs, o': Objs, c: nat, d: nat)
    requires c !in o.chains && o'.chains == o.chains[c := [c]]
    ensures Owned(o', d) == (Owned(o, d) || d == c)
  {
    if Owned(o, d) {
      var h :| h in o.chains && d in o.chains[h];
      assert h in o'.chains && d in o'.chains[h];
    }
    if d == c {
      assert d in o'.chains[c];
    }
  }

  lemma NewChains(g: Geometry, fat: FatTable, o: Objs, o': Objs, c: nat)
    requires g.Ok() && ChainsOk(g, fat, o) && Disjoint(o) && !Owned(o, c) && 2 <= c <= g.last
    requires o'.chains == o.chains[c := [c]]
    ensures c !in o.chains
    ensures ChainsOk(g, Set(fat, c, 0xFFF), o')
  {
    forall h | h in o.chains
      ensures IsChain(Set(fat, c, 0xFFF), o.chains[h], g.last) && h != c && o.chains[h][0] == h
    {
      hide Owned, Set, Disjoint;
      assert o.chains[h][0] in o.chains[h];
      UntouchedChain(fat, o, h, g.last, c, 0xFFF);
    }
    assert IsChain(Set(fat, c, 0xFFF), [c], g.last);
  }

  lemma NewDisjoint(o: Objs, o': Objs, c: nat)
    requires Disjoint(o) && !Owned(o, c) && o'.chains == o.chains[c := [c]]
    ensures Disjoint(o')
  {
    forall k, i | k in o.chains && 0 <= i < |o.chains[k]|
      ensures o.chains[k][i] != c
    {
      assert o.chains[k][i] in o.chains[k];
    }
  }

  lemma NewAccounted(g: Geometry, fat: FatTable, o: Objs, o': Objs, c: nat)
    requires Accounted(g, fat, o) && 2 <= c < 4080 && fat[c] == 0 && c !in o.chains
    requires o'.chains == o.chains[c := [c]] && o'.lost == o.lost
    ensures Accounted(g, Set(fat, c, 0xFFF), o')
  {
    forall d: nat ensures Owned(o', d) == (Owned(o, d) || d == c)
    {
      NewOwned(o, o', c, d);
    }
  }

  lemma NewStored(g: Geometry, area: seq<Sector>, o: Objs, c: nat)
    requires Stored(g, area, o) && 2 <= c <= g.last && c !in o.chains
    requires |area| >= g.RootSectors() + Times(g.last - 1, g.spc)
    ensures Stored(g, area, WithNew(g, area, o, c))
  {
    ClusterHolds(g, area, c);
    assert SectorList(g, [c]) == ClusterList(g, c) by {
      assert SectorList(g, [c][..0]) == [];
    }
  }

  lemma NewRep(g: Geometry, fat: FatTable, area: seq<Sector>, o: Objs, c: nat)
    requires Rep(g, fat, area, o) && 2 <= c < 4080 && fat[c] == 0
    ensures c <= g.last && c !in o.chains
    ensures Rep(g, Set(fat, c, 0xFFF), area, WithNew(g, area, o, c))
  {
    var o' := WithNew(g, area, o, c);
    NewChains(g, fat, o, o', c);
    NewDisjoint(o, o', c);
    NewAccounted(g, fat, o, o', c);
    NewStored(g, area, o, c);
  }

  /** A free cluster is linked behind the last cluster of object `h`. */
  ghost function WithMore(g: Geometry, area: seq<Sector>, o: Objs, h: nat, c: nat): Objs
    requires h in o.chains && h in o.secs
    requires 2 <= c
  {
    o.(chains := o.chains[h := o.chains[h] + [c]], secs := o.secs[h := o.secs[h] + ClusterSectors(g, area, c)])
  }

  /** The table after cluster `c` is taken and linked behind the chain `s`. */
  function Linked(fat: FatTable, s: seq<nat>, c: nat): FatTable
    requires |s| > 0 && s[|s| - 1] < 4096 && c < 4096
  {
    Set(Set(fat, c, 0xFFF), s[|s| - 1], c)
  }

  lemma ExtendChain(fat: FatTable, s: seq<nat>, last: nat, c: nat)
    requires last < 4080 && IsChain(fat, s, last) && 2 <= c <= last && c !in s
    ensures IsChain(Linked(fat, s, c), s + [c], last)
  {
    var t := s + [c];
    var fat' := Linked(fat, s, c);
    forall i | 0 <= i < |t| - 1
      ensures fat'[t[i]] == t[i + 1]
    {
      if i < |s| - 1 {
        ChainDistinct(fat, s, last, i, |s| - 1);
        assert fat[s[i]] == s[i + 1];
      }
    }
  }

  lemma ExtendChains(g: Geometry, fat: FatTable, o: Objs, o': Objs, h: nat, c: nat)
    requires g.Ok() && ChainsOk(g, fat, o) && Disjoint(o) && !Owned(o, c) && 2 <= c <= g.last && h in o.chains
    requires o'.chains == o.chains[h := o.chains[h] + [c]]
    ensures ChainsOk(g, Linked(fat, o.chains[h], c), o')
  {
    var s := o.chains[h];
    var e := s[|s| - 1];
    forall k | k in o'.chains
      ensures IsChain(Linked(fat, s, c), o'.chains[k], g.last) && o'.chains[k][0] == k
    {
      assert c !in o.chains[k];
      if k == h {
        ExtendChain(fat, s, g.last, c);
      } else {
        UntouchedChain(fat, o, k, g.last, c, 0xFFF);
        OneOwner(o, k, h, e);
        UntouchedChain(Set(fat, c, 0xFFF), o, k, g.last, e, c);
      }
    }
  }

  lemma UntouchedChain(fat: FatTable, o: Objs, k: nat, last: nat, c: nat, v: Cell12)
    requires last < 4080 && k in o.chains && IsChain(fat, o.chains[k], last) && c < 4096 && c !in o.chains[k]
    ensures IsChain(Set(fat, c, v), o.chains[k], last)
  {
  }

  lemma ExtendAccounted(g: Geometry, fat: FatTable, o: Objs, o': Objs, h: nat, c: nat)
    requires Accounted(g, fat, o) && 2 <= c < 4080 && fat[c] == 0
    requires h in o.chains && |o.chains[h]| > 0 && 2 <= o.chains[h][|o.chains[h]| - 1] < 4080
    requires o'.chains == o.chains[h := o.chains[h] + [c]] && o'.lost == o.lost
    ensures Accounted(g, Linked(fat, o.chains[h], c), o')
  {
    assert Owned(o, o.chains[h][|o.chains[h]| - 1]) by {
      assert o.chains[h][|o.chains[h]| - 1] in o.chains[h];
    }
    forall d: nat ensures Owned(o', d) == (Owned(o, d) || d == c)
    {
      ExtendOwned(o, o', h, c, d);
    }
  }

  lemma ExtendHolds(g: Geometry, area: seq<Sector>, s: seq<nat>, sec: seq<Sector>, c: nat)
    requires g.Ok() && Clusters(g, s) && Holds(area, SectorList(g, s), sec)
    requires 2 <= c <= g.last && |area| >= g.RootSectors() + Times(g.last - 1, g.spc)
    ensures Clusters(g, s + [c]) && Holds(area, SectorList(g, s + [c]), sec + ClusterSectors(g, area, c))
  {
    ClusterHolds(g, area, c);
    assert SectorList(g, s + [c]) == SectorList(g, s) + ClusterList(g, c) by {
      assert (s + [c])[..|s|] == s;
    }
  }

  lemma ExtendStored(g: Geometry, area: seq<Sector>, o: Objs, h: nat, c: nat)
    requires Stored(g, area, o) && 2 <= c <= g.last && h in o.chains
    requires |area| >= g.RootSectors() + Times(g.last - 1, g.spc)
    ensures Stored(g, area, WithMore(g, area, o, h, c))
  {
    ExtendHolds(g, area, o.chains[h], o.secs[h], c);
  }

  lemma ExtendRep(g: Geometry, fat: FatTable, area: seq<Sector>, o: Objs, h: nat, c: nat)
    requires Rep(g, fat, area, o) && 2 <= c < 4080 && fat[c] == 0 && h in o.chains && h in o.secs
    ensures c <= g.last
    ensures |o.chains[h]| > 0 && o.chains[h][|o.chains[h]| - 1] < 4080
    ensures Rep(g, Linked(fat, o.chains[h], c), area, WithMore(g, area, o, h, c))
  {
    assert !Owned(o, c) && c <= g.last;
    var o' := WithMore(g, area, o, h, c);
    var fat' := Linked(fat, o.chains[h], c);
    assert ChainsOk(g, fat', o') by { ExtendChains(g, fat, o, o', h, c); }
    assert Disjoint(o') by { ExtendDisjoint(o, o', h, c); }
    assert Accounted(g, fat', o') by { ExtendAccounted(g, fat, o, o', h, c); }
    assert Stored(g, area, o') by { ExtendStored(g, area, o, h, c); }
  }

  lemma ExtendOwned(o: Objs, o': Objs, h: nat, c: nat, d: nat)
    requires h in o.chains && o'.chains == o.chains[h := o.chains[h] + [c]]
    ensures Owned(o', d) == (Owned(o, d) || d == c)
  {
    if Owned(o, d) {
      var k :| k in o.chains && d in o.chains[k];
      assert k in o'.chains && d in o'.chains[k];
    }
    if d == c {
      assert o'.chains[h][|o.chains[h]|] == c;
      assert d in o'.chains[h];
    }
  }

  lemma ExtendDisjoint(o: Objs, o': Objs, h: nat, c: nat)
    requires h in o.chains && Disjoint(o) && !Owned(o, c)
    requires o'.chains == o.chains[h := o.chains[h] + [c]]
    ensures Disjoint(o')
  {
    forall k, i | k in o'.chains && 0 <= i < |o'.chains[k]|
      ensures o'.chains[k][i] == c <==> k == h && i == |o.chains[h]|
      ensures !(k == h && i == |o.chains[h]|) ==> i < |o.chains[k]| && o'.chains[k][i] == o.chains[k][i]
    {
      if i < |o.chains[k]| {
        assert o.chains[k][i] in o.chains[k];
      }
    }
  }

  /** Object `h` gives its clusters back. */
  ghost function Without(o: Objs, h: nat): Objs {
    o.(chains := o.chains - {h}, secs := o.secs - {h})
  }

  lemma FreeOwned(o: Objs, h: nat, c: nat)
    requires h in o.chains && Disjoint(o)
    ensures Owned(Without(o, h), c) == (Owned(o, c) && c !in o.chains[h])
  {
    var o', s := Without(o, h), o.chains[h];
    if Owned(o, c) && c !in s {
      var k :| k in o.chains && c in o.chains[k];
      assert k in o'.chains && c in o'.chains[k];
    }
    if Owned(o', c) {
      var k :| k in o'.chains && c in o'.chains[k];
      OneOwner(o, k, h, c);
    }
  }

  lemma ApartChain(fat: FatTable, s: seq<nat>, t: seq<nat>, last: nat)
    requires last < 4080 && IsChain(fat, t, last) && forall c :: c in t ==> c !in s
    ensures IsChain(Zeroed(fat, s), t, last)
  {
    forall i | 0 <= i < |t| ensures Zeroed(fat, s)[t[i]] == fat[t[i]] {
    }
  }

  lemma FreeChains(g: Geometry, fat: FatTable, o: Objs, h: nat)
    requires g.Ok() && ChainsOk(g, fat, o) && Disjoint(o) && h in o.chains
    ensures ChainsOk(g, Zeroed(fat, o.chains[h]), Without(o, h))
  {
    var s, fat' := o.chains[h], Zeroed(fat, o.chains[h]);
    forall k | k in o.chains && k != h
      ensures IsChain(fat', o.chains[k], g.last) && o.chains[k][0] == k
    {
      hide Disjoint, Zeroed;
      assert IsChain(fat, o.chains[k], g.last);
      forall c | c in o.chains[k] ensures c !in s {
        OneOwner(o, k, h, c);
      }
      ApartChain(fat, s, o.chains[k], g.last);
    }
  }

  lemma OnChain(g: Geometry, fat: FatTable, o: Objs, h: nat, c: nat)
    requires g.Ok() && ChainsOk(g, fat, o) && h in o.chains && c in o.chains[h]
    ensures Owned(o, c) && 2 <= c <= g.last
  {
    assert IsChain(fat, o.chains[h], g.last);
  }

  lemma FreeAccounted(g: Geometry, fat: FatTable, o: Objs, h: nat)
    requires g.Ok() && ChainsOk(g, fat, o) && Disjoint(o) && Accounted(g, fat, o) && h in o.chains
    ensures Accounted(g, Zeroed(fat, o.chains[h]), Without(o, h))
  {
    hide ChainsOk, Disjoint, Owned;
    var s := o.chains[h];
    forall c: nat
      ensures Owned(Without(o, h), c) == (Owned(o, c) && c !in s)
      ensures c in s ==> Owned(o, c) && c <= g.last
    {
      FreeOwned(o, h, c);
      if c in s {
        OnChain(g, fat, o, h, c);
      }
    }
  }

  lemma FreeStored(g: Geometry, area: seq<Sector>, o: Objs, h: nat)
    requires Stored(g, area, o) && Disjoint(o) && h in o.chains
    ensures Stored(g, area, Without(o, h)) && Disjoint(Without(o, h))
  {
  }

  lemma FreeRep(g: Geometry, fat: FatTable, area: seq<Sector>, o: Objs, h: nat)
    requires Rep(g, fat, area, o) && h in o.chains
    ensures Rep(g, FreeFrom(fat, h), area, Without(o, h))
    ensures FreeFrom(fat, h) == Zeroed(fat, o.chains[h])
  {
    var fat' := Zeroed(fat, o.chains[h]);
    assert FreeFrom(fat, h) == fat' by {
      FreeChain(fat, o.chains[h], g.last);
    }
    FreeChains(g, fat, o, h);
    FreeAccounted(g, fat, o, h);
    FreeStored(g, area, o, h);
    assert Rep(g, fat', area, Without(o, h));
  }
}
