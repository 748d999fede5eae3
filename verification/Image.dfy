// FAT12 as it lies on the drive: a second reading of the sectors, by positions and bits only, and the proof that what
// clients of the driver see is what this reading finds.
module Image {
  import opened Disk
  import opened Chains
  import opened Objects
  import opened Directory
  import opened Names
  import opened Paths
  import opened Tree
  import opened Store
  import opened Lookup
  import opened Namespace
  import opened View
  import opened Fat12
  import opened Session
  import opened Options

  // ---------- positions ----------

  /** Bit `i` of a number. */
  function BitOf(v: nat, i: nat): nat { if i == 0 then v % 2 else BitOf(v / 2, i - 1) }

  /** Bit `k` of the first FAT. */
  function FatBit(d: seq<Sector>, g: Geometry, k: nat): nat {
    var s := g.reserved + k / 4096;
    if s < |d| then BitOf(d[s][k % 4096 / 8], k % 8) else 0
  }

  /** The clusters `s`, one linked to the next by the table, are those of the object that starts with cluster `c`. */
  ghost predicate ChainIs(fat: FatTable, c: nat, s: seq<nat>) {
    && s != [] && s[0] == c && (forall i :: 0 <= i < |s| ==> 2 <= s[i] < 0xFF8)
    && (forall i :: 0 <= i < |s| - 1 ==> fat[s[i]] == s[i + 1])
    && fat[s[|s| - 1]] >= 0xFF8
  }

  function RootPlace(g: Geometry): nat { g.reserved + g.numFats * g.spf }

  /** The first sector of a cluster. */
  function ClusterSector(g: Geometry, c: nat): nat
    requires 2 <= c
  {
    RootPlace(g) + (g.rootEntries + 15) / 16 + (c - 2) * g.spc
  }

  /** Sector `q` of the object with the clusters `s`. */
  function SectorOf(g: Geometry, s: seq<nat>, q: nat): nat
    requires g.spc > 0 && (forall i :: 0 <= i < |s| ==> 2 <= s[i])
  {
    if q / g.spc < |s| then ClusterSector(g, s[q / g.spc]) + q % g.spc else 0
  }

  /** The `n` bytes `b` are those of the object that starts with cluster `c`. */
  ghost predicate BytesAre(d: seq<Sector>, g: Geometry, fat: FatTable, c: nat, n: nat, b: seq<byte>) {
    |b| == n && (n > 0 ==> g.spc > 0 && exists s :: ChainIs(fat, c, s) && OnClusters(d, g, s, b))
  }

  ghost predicate OnClusters(d: seq<Sector>, g: Geometry, s: seq<nat>, b: seq<byte>)
    requires g.spc > 0 && (forall i :: 0 <= i < |s| ==> 2 <= s[i])
  {
    forall p :: 0 <= p < |b| ==>
      p / 512 / g.spc < |s| && SectorOf(g, s, p / 512) < |d| && b[p] == d[SectorOf(g, s, p / 512)][p % 512]
  }

  // ---------- directory entries ----------

  /** Record `i` of a directory, when its record `16 * (i / 16)` starts sector `at`. */
  function RecordIn(d: seq<Sector>, at: nat, i: nat): Raw
    requires at < |d|
  {
    d[at][32 * (i % 16)..32 * (i % 16) + 32]
  }

  /** The 32 bytes `r` are record `i` of the directory with first cluster `c`, or of the root directory. */
  ghost predicate RecordIs(d: seq<Sector>, g: Geometry, fat: FatTable, c: nat, i: nat, r: Raw) {
    if c == 0 then i < g.rootEntries && RootPlace(g) + i / 16 < |d| && r == RecordIn(d, RootPlace(g) + i / 16, i)
    else
      g.spc > 0 && exists s :: ChainIs(fat, c, s) && i / 16 / g.spc < |s| && SectorOf(g, s, i / 16) < |d|
                               && r == RecordIn(d, SectorOf(g, s, i / 16), i)
  }

  /** Record `i` is in use: no record up to it has the end mark 0, and it is neither deleted nor part of a long name. */
  ghost predicate UsedRecord(d: seq<Sector>, g: Geometry, fat: FatTable, c: nat, i: nat, r: Raw) {
    && RecordIs(d, g, fat, c, i, r) && r[0] != 0xE5 && r[11] != 0x0F
    && forall j: nat, q :: j <= i && RecordIs(d, g, fat, c, j, q) ==> q[0] != 0
  }

  /** The record names a directory: bit 4 of its attributes. */
  predicate DirBit(r: Raw) { BitOf(r[11], 4) == 1 }

  function FirstCluster(r: Raw): nat { r[26] as nat + 0x100 * r[27] as nat }

  function FileSize(r: Raw): nat {
    r[28] as nat + 0x100 * (r[29] as nat + 0x100 * (r[30] as nat + 0x100 * r[31] as nat))
  }

  // ---------- paths ----------

  /** The path leads to the directory that starts with cluster `c`, or to the root directory. */
  ghost predicate DirIs(d: seq<Sector>, g: Geometry, fat: FatTable, ks: Path, c: nat)
    decreases |ks|
  {
    if ks == [] then c == 0
    else exists c0: nat, i: nat, r :: DirIs(d, g, fat, Init(ks), c0) && EntryFor(d, g, fat, c0, i, r, Last(ks))
                                      && DirBit(r) && c == FirstCluster(r)
  }

  /** Record `i` of the directory is in use and has the name `k`. */
  ghost predicate EntryFor(d: seq<Sector>, g: Geometry, fat: FatTable, c: nat, i: nat, r: Raw, k: Key) {
    UsedRecord(d, g, fat, c, i, r) && r[..11] == k
  }

  /** The path leads to a file with these bytes. */
  ghost predicate FileIs(d: seq<Sector>, g: Geometry, fat: FatTable, ks: Path, b: seq<byte>) {
    ks != [] && exists c0: nat, i: nat, r :: DirIs(d, g, fat, Init(ks), c0) && EntryFor(d, g, fat, c0, i, r, Last(ks))
                                             && !DirBit(r) && BytesAre(d, g, fat, FirstCluster(r), FileSize(r), b)
  }

  // ---------- cells are bits ----------

  function Pow2(k: nat): nat { if k == 0 then 1 else 2 * Pow2(k - 1) }

  /** The bits of two numbers put together. */
  lemma {:induction false} JoinBits(a: nat, b: nat, k: nat, j: nat)
    requires a < Pow2(k)
    ensures BitOf(a + Pow2(k) * b, j) == if j < k then BitOf(a, j) else BitOf(b, j - k)
    decreases k
  {
    if k > 0 {
      var t := Pow2(k - 1) * b;
      assert Pow2(k) * b == 2 * t;
      assert (a + 2 * t) / 2 == a / 2 + t && (a + 2 * t) % 2 == a % 2;
      if j > 0 {
        JoinBits(a / 2, b, k - 1, j - 1);
      }
    }
  }

  lemma {:induction false} SameBits(a: nat, b: nat, k: nat)
    requires a < Pow2(k) && b < Pow2(k) && forall i :: 0 <= i < k ==> BitOf(a, i) == BitOf(b, i)
    ensures a == b
    decreases k
  {
    if k > 0 {
      assert BitOf(a, 0) == BitOf(b, 0);
      forall i | 0 <= i < k - 1 ensures BitOf(a / 2, i) == BitOf(b / 2, i) {
        assert BitOf(a, i + 1) == BitOf(b, i + 1);
      }
      SameBits(a / 2, b / 2, k - 1);
    }
  }

  lemma Powers()
    ensures Pow2(4) == 16 && Pow2(8) == 256 && Pow2(12) == 4096
  {
    assert Pow2(4) == 16;
    assert Pow2(8) == 256;
  }

  /** The bits of the cell in the 16 bits that hold it. */
  lemma UnpackBit(c: nat, lo: byte, hi: byte, i: nat)
    requires i < 12
    ensures BitOf(Unpack(c, Word16(lo, hi)), i) ==
              var j := if c % 2 == 1 then i + 4 else i; if j < 8 then BitOf(lo, j) else BitOf(hi, j - 8)
  {
    Powers();
    var w, j := Word16(lo, hi), if c % 2 == 1 then i + 4 else i;
    JoinBits(lo, hi, 8, j);
    if c % 2 == 1 {
      JoinBits(w % 16, w / 16, 4, j);
    } else {
      JoinBits(w % 4096, w / 4096, 12, j);
    }
  }

  /** Where bit `i` of cell `c` lies. */
  lemma BitPlace(c: nat, i: nat)
    requires c < 4096 && i < 12
    ensures var k, p, j := 12 * c + i, c * 3 / 2, if c % 2 == 1 then i + 4 else i;
            && k / 8 == p + (if j < 8 then 0 else 1) && k % 8 == (if j < 8 then j else j - 8) && k / 8 < 6144
            && k / 4096 == k / 8 / 512 && k % 4096 / 8 == k / 8 % 512
  {
  }

  /** The table that the driver reads is the bits of the first FAT: cell `c` has the 12 bits from bit 12 * c on. */
  lemma CellBit(d: seq<Sector>, g: Geometry, c: nat, i: nat)
    requires g.Fits(d) && c < 4096 && i < 12
    ensures BitOf(Fat(g, d)[c], i) == FatBit(d, g, 12 * c + i)
  {
    hide BitOf, Fat, Unpack, Word16, FatBit, FatByte;
    var p := c * 3 / 2;
    BitPlace(c, i);
    FatBitAt(d, g, 12 * c + i);
    FatCellIs(d, g, c);
    UnpackBit(c, FatByte(g, d, p), FatByte(g, d, p + 1), i);
  }

  lemma FatBitAt(d: seq<Sector>, g: Geometry, k: nat)
    requires g.Fits(d) && k / 8 < 6144 && k / 4096 == k / 8 / 512 && k % 4096 / 8 == k / 8 % 512
    ensures FatBit(d, g, k) == BitOf(FatByte(g, d, k / 8), k % 8)
  {
    hide BitOf;
    FatSectorInside(g, 0, k / 8 / 512);
  }

  lemma FatCellIs(d: seq<Sector>, g: Geometry, c: nat)
    requires g.Fits(d) && c < 4096
    ensures Fat(g, d)[c] == Unpack(c, Word16(FatByte(g, d, c * 3 / 2), FatByte(g, d, c * 3 / 2 + 1)))
  {
    hide Unpack, Word16, FatByte;
  }

  // ---------- chains and sectors ----------

  lemma {:induction false} SameChain(fat: FatTable, last: nat, t: seq<nat>, s: seq<nat>, i: nat)
    requires last < 4080 && IsChain(fat, t, last) && ChainIs(fat, t[0], s) && i < |s|
    ensures i < |t| && s[i] == t[i]
    decreases i
  {
    if i > 0 {
      SameChain(fat, last, t, s, i - 1);
      NextLink(fat, last, t, i);
      assert fat[s[i - 1]] == s[i];
    }
  }

  lemma NextLink(fat: FatTable, last: nat, t: seq<nat>, n: nat)
    requires last < 4080 && IsChain(fat, t, last)
    ensures 0 < n < |t| ==> fat[t[n - 1]] == t[n] < 4080
    ensures n == |t| ==> fat[t[n - 1]] >= 0xFF8
  {
  }

  /** The chain of a stored object is the only one from its first cluster. */
  lemma ChainOnly(fat: FatTable, last: nat, t: seq<nat>, s: seq<nat>)
    requires last < 4080 && IsChain(fat, t, last)
    ensures ChainIs(fat, t[0], s) <==> s == t
  {
    if ChainIs(fat, t[0], s) {
      forall i | 0 <= i < |s| ensures i < |t| && s[i] == t[i] {
        SameChain(fat, last, t, s, i);
      }
      NextLink(fat, last, t, |s|);
    }
  }

  /** Sector `q` of a stored object. */
  lemma SectorThere(d: seq<Sector>, g: Geometry, s: seq<nat>, sec: seq<Sector>, q: nat)
    requires g.Fits(d) && 0 < g.spc && Clusters(g, s) && Holds(d[g.RootStart()..], SectorList(g, s), sec) && q < |sec|
    ensures q / g.spc < |s| && SectorOf(g, s, q) < |d| && d[SectorOf(g, s, q)] == sec[q]
  {
    hide Times, Geometry.DataSector, Geometry.RootStart, Geometry.RootSectors, ClusterSector, SectorList;
    var k, j := SectorListFrom(g, s, q);
    ClusterAt(g, s[k], j);
    Quotients(q, k, j, g.spc);
    assert SectorList(g, s)[q] < |d[g.RootStart()..]|;
  }

  lemma ClusterAt(g: Geometry, c: nat, j: nat)
    requires 2 <= c
    ensures g.RootStart() + g.DataSector(c, j) == ClusterSector(g, c) + j
  {
    Layout(g, c, j);
    RootSize(g);
  }

  lemma RootSize(g: Geometry)
    ensures g.RootSectors() == (g.rootEntries + 15) / 16
  {
  }

  lemma Quotients(q: nat, k: nat, j: nat, n: nat)
    requires n > 0 && j < n && q == Times(k, n) + j
    ensures q / n == k && q % n == j
  {
    var e, r := q / n, q % n;
    DivMod(q, n);
    hide Times;
    if e < k {
      TimesStep(e, k, n);
    } else if e > k {
      TimesStep(k, e, n);
    }
  }

  lemma DivMod(q: nat, n: nat)
    requires n > 0
    ensures 0 <= q / n && 0 <= q % n < n && q == Times(q / n, n) + q % n
  {
    TimesIsProduct(q / n, n);
  }

  /** As many sectors as the clusters have. */
  lemma SectorCount(n: nat, spc: nat, q: nat)
    requires spc > 0
    ensures q < Times(n, spc) <==> q / spc < n
  {
    DivMod(q, spc);
    hide Times;
    if q / spc < n {
      TimesStep(q / spc, n, spc);
    } else if q / spc > n {
      TimesStep(n, q / spc, spc);
    }
  }

  // ---------- directories ----------

  /** The drive holds the objects `o` and the tree of the directories `ds` in them. */
  ghost predicate Stands(d: seq<Sector>, g: Geometry, fat: FatTable, o: Objs, ds: set<nat>, home: Homes) {
    g.Fits(d) && Rep(g, fat, d[g.RootStart()..], o) && TreeOk(g, o, ds, home)
  }

  lemma RootRecords(d: seq<Sector>, g: Geometry, fat: FatTable, o: Objs, i: nat, r: Raw)
    requires g.Fits(d) && Stored(g, d[g.RootStart()..], o)
    ensures 0 in o.secs
    ensures RecordIs(d, g, fat, 0, i, r) <==> i < |DirSlots(g, 0, o.secs[0])| && r == DirSlots(g, 0, o.secs[0])[i]
  {
    var area := d[g.RootStart()..];
    Layout(g, 2, 0);
    assert |o.secs[0]| == g.RootSectors();
    hide Times, Geometry.DataSector;
    if i < g.rootEntries {
      RootSector(g, area, o, i / 16);
      assert d[g.RootStart() + i / 16] == area[i / 16];
    }
  }

  lemma ObjectFacts(d: seq<Sector>, g: Geometry, fat: FatTable, o: Objs, c: nat)
    requires g.Fits(d) && Rep(g, fat, d[g.RootStart()..], o) && c in o.chains
    ensures c != 0 && c in o.secs && 0 < g.spc && ChainsOk(g, fat, o)
    ensures g.last < 4080 && IsChain(fat, o.chains[c], g.last) && o.chains[c][0] == c
    ensures Clusters(g, o.chains[c]) && Holds(d[g.RootStart()..], SectorList(g, o.chains[c]), o.secs[c])
    ensures |o.secs[c]| == Times(|o.chains[c]|, g.spc) && ChainIs(fat, c, o.chains[c])
  {
    ChainOnly(fat, g.last, o.chains[c], o.chains[c]);
    hide ChainIs;
  }

  lemma ChainRecords(d: seq<Sector>, g: Geometry, fat: FatTable, o: Objs, c: nat, i: nat, r: Raw)
    requires g.Fits(d) && Rep(g, fat, d[g.RootStart()..], o) && c in o.chains
    ensures c != 0 && c in o.secs
    ensures RecordIs(d, g, fat, c, i, r) <==> i < |DirSlots(g, c, o.secs[c])| && r == DirSlots(g, c, o.secs[c])[i]
  {
    hide Rep, SectorList, Times, Geometry.RootStart, SectorOf, ChainsOk, Holds;
    ObjectFacts(d, g, fat, o, c);
    var s, sec := o.chains[c], o.secs[c];
    SectorCount(|s|, g.spc, i / 16);
    if i / 16 < |sec| {
      SectorThere(d, g, s, sec, i / 16);
    }
    if RecordIs(d, g, fat, c, i, r) {
      var t :| ChainIs(fat, c, t) && i / 16 / g.spc < |t| && SectorOf(g, t, i / 16) < |d|
               && r == RecordIn(d, SectorOf(g, t, i / 16), i);
      ChainOnly(fat, g.last, o.chains[c], t);
    }
  }

  /** The records of a directory of the tree are on the drive, and no others. */
  lemma Records(d: seq<Sector>, g: Geometry, fat: FatTable, o: Objs, ds: set<nat>, home: Homes, c: nat, i: nat,
                r: Raw)
    requires Stands(d, g, fat, o, ds, home) && c in TreeOf(g, o, ds).dirs
    ensures RecordIs(d, g, fat, c, i, r) <==> i < |TreeOf(g, o, ds).dirs[c]| && r == TreeOf(g, o, ds).dirs[c][i]
  {
    hide RecordIs, DirSlots, Geometry.RootStart, ChainsOk, Disjoint, Accounted, WellFormed;
    if c == 0 {
      RootRecords(d, g, fat, o, i, r);
    } else {
      ChainRecords(d, g, fat, o, c, i, r);
    }
  }

  /** The records in use are those that the driver's lookups see. */
  lemma UsedRecords(d: seq<Sector>, g: Geometry, fat: FatTable, o: Objs, ds: set<nat>, home: Homes, c: nat, i: nat,
                    r: Raw)
    requires Stands(d, g, fat, o, ds, home) && c in TreeOf(g, o, ds).dirs
    ensures var s := TreeOf(g, o, ds).dirs[c]; UsedRecord(d, g, fat, c, i, r) <==> Visible(s, i) && r == s[i]
  {
    hide Stands, RecordIs, TreeOf;
    var s := TreeOf(g, o, ds).dirs[c];
    Records(d, g, fat, o, ds, home, c, i, r);
    forall j: nat, q ensures RecordIs(d, g, fat, c, j, q) <==> j < |s| && q == s[j] {
      Records(d, g, fat, o, ds, home, c, j, q);
    }
    if i < |s| && r == s[i] {
      forall j: nat | j <= i ensures RecordIs(d, g, fat, c, j, s[j]) {
      }
    }
  }

  lemma FieldsRead(r: Raw)
    ensures (DirBit(r) <==> IsDir(r)) && FirstCluster(r) == Cluster(r) && FileSize(r) == Size(r)
  {
    var a: nat := r[11];
    assert BitOf(a, 4) == BitOf(a / 2, 3) == BitOf(a / 2 / 2, 2) == BitOf(a / 2 / 2 / 2, 1);
    assert BitOf(a / 2 / 2 / 2, 1) == BitOf(a / 2 / 2 / 2 / 2, 0);
  }

  // ---------- lookups ----------

  lemma UniqueNames(d: seq<Sector>, g: Geometry, fat: FatTable, o: Objs, ds: set<nat>, home: Homes, c: nat)
    requires Stands(d, g, fat, o, ds, home) && c in TreeOf(g, o, ds).dirs
    ensures NamesUnique(TreeOf(g, o, ds).dirs[c])
  {
    hide NamesUnique, Rep, TreeOf, Dots;
    assert DirOk(TreeOf(g, o, ds).dirs[c], c, home);
  }

  /** A name in a directory, on the drive and for the driver. */
  lemma EntryIs(d: seq<Sector>, g: Geometry, fat: FatTable, o: Objs, ds: set<nat>, home: Homes, c: nat, k: Key,
                i: nat, r: Raw)
    requires Stands(d, g, fat, o, ds, home) && c in TreeOf(g, o, ds).dirs
    ensures EntryFor(d, g, fat, c, i, r, k) <==> Look(TreeOf(g, o, ds), c, k) == Some(((c, i), r))
  {
    var t := TreeOf(g, o, ds);
    hide TreeOf, UsedRecord, Stands, NamesUnique;
    UsedRecords(d, g, fat, o, ds, home, c, i, r);
    UniqueNames(d, g, fat, o, ds, home, c);
    if EntryFor(d, g, fat, c, i, r, k) {
      ScanFinds(t.dirs[c], k, i);
    }
  }

  lemma {:induction false} DirsOnDrive(d: seq<Sector>, g: Geometry, fat: FatTable, o: Objs, ds: set<nat>, home: Homes,
                                       ks: Path, c: nat)
    requires Stands(d, g, fat, o, ds, home) && PathKeys(ks)
    ensures DirIs(d, g, fat, ks, c) <==> Walk(TreeOf(g, o, ds), ks) == Some(c)
    decreases |ks|
  {
    var t := TreeOf(g, o, ds);
    assert WellFormed(t, home, {});
    hide Stands, TreeOf, WellFormed, EntryFor, FirstCluster, DirBit, Enter, Look;
    if ks != [] {
      PathKeysInit(ks);
      forall b: nat ensures DirIs(d, g, fat, Init(ks), b) <==> Walk(t, Init(ks)) == Some(b) {
        DirsOnDrive(d, g, fat, o, ds, home, Init(ks), b);
      }
      if Walk(t, Init(ks)).Some? {
        var b := Walk(t, Init(ks)).value;
        WalkInside(t, home, Init(ks));
        EnterLook(t, b, Last(ks));
        forall i: nat, r ensures EntryFor(d, g, fat, b, i, r, Last(ks)) <==> Look(t, b, Last(ks)) == Some(((b, i), r)) {
          EntryIs(d, g, fat, o, ds, home, b, Last(ks), i, r);
          FieldsRead(r);
        }
        LookPlace(t, b, Last(ks));
        if Look(t, b, Last(ks)).Some? {
          FieldsRead(Look(t, b, Last(ks)).value.1);
        }
      }
      WalkLast(t, ks);
    }
  }

  lemma LookPlace(t: Tree, d: nat, k: Key)
    ensures Look(t, d, k).Some? ==> Look(t, d, k).value.0.0 == d
  {
  }

  // ---------- files ----------

  /** The bytes of a stored object are on the drive. */
  lemma ObjectBytes(d: seq<Sector>, g: Geometry, fat: FatTable, o: Objs, c: nat, n: nat, b: seq<byte>)
    requires g.Fits(d) && Rep(g, fat, d[g.RootStart()..], o) && c in o.chains && c in o.secs
    requires 0 < n <= 512 * |o.secs[c]|
    ensures BytesAre(d, g, fat, c, n, b) <==> b == Prefix(o.secs[c], n)
  {
    hide Rep, SectorList, Times, Geometry.RootStart, SectorOf, ChainsOk, Holds;
    ObjectFacts(d, g, fat, o, c);
    var s, sec := o.chains[c], o.secs[c];
    forall p: nat | p < n
      ensures p / 512 < |sec| && p / 512 / g.spc < |s| && SectorOf(g, s, p / 512) < |d|
      ensures d[SectorOf(g, s, p / 512)][p % 512] == Prefix(sec, n)[p]
    {
      SectorThere(d, g, s, sec, p / 512);
    }
    if BytesAre(d, g, fat, c, n, b) {
      var t :| ChainIs(fat, c, t) && OnClusters(d, g, t, b);
      ChainOnly(fat, g.last, o.chains[c], t);
    }
  }

  /** What a file entry of the tree stands for. */
  lemma ContentsOnDrive(d: seq<Sector>, g: Geometry, fat: FatTable, o: Objs, ds: set<nat>, home: Homes, p: Place,
                        e: Raw, b: seq<byte>)
    requires Stands(d, g, fat, o, ds, home) && EntryAt(TreeOf(g, o, ds), p, e) && !IsDir(e)
    ensures BytesAre(d, g, fat, Cluster(e), Size(e), b) <==> b == Contents(o, e)
  {
    hide Rep, Geometry.RootStart, TreeOf, WellFormed, Cluster, Size, Prefix, EntryAt, BytesAre, IsDir, Stands;
    FileCap(d, g, fat, o, ds, home, p, e);
    if Size(e) > 0 {
      Standing(d, g, fat, o, ds, home);
      ObjectBytes(d, g, fat, o, Cluster(e), Size(e), b);
    } else {
      NoBytes(d, g, fat, Cluster(e), b);
    }
  }

  lemma Standing(d: seq<Sector>, g: Geometry, fat: FatTable, o: Objs, ds: set<nat>, home: Homes)
    requires Stands(d, g, fat, o, ds, home)
    ensures g.Fits(d) && Rep(g, fat, d[g.RootStart()..], o)
  {
  }

  lemma NoBytes(d: seq<Sector>, g: Geometry, fat: FatTable, c: nat, b: seq<byte>)
    ensures BytesAre(d, g, fat, c, 0, b) <==> b == []
  {
    hide ChainIs;
  }

  lemma FileCap(d: seq<Sector>, g: Geometry, fat: FatTable, o: Objs, ds: set<nat>, home: Homes, p: Place, e: Raw)
    requires Stands(d, g, fat, o, ds, home) && EntryAt(TreeOf(g, o, ds), p, e) && !IsDir(e)
    ensures if Size(e) == 0 then Contents(o, e) == []
            else Cluster(e) in o.secs && Cluster(e) in o.chains && Size(e) <= 512 * |o.secs[Cluster(e)]|
                 && Contents(o, e) == Prefix(o.secs[Cluster(e)], Size(e))
  {
    hide Rep, Cluster, Size, IsDir, EntryAt, WellFormed, Stands;
    StandingTree(d, g, fat, o, ds, home);
    EntryFacts(TreeOf(g, o, ds), home, p, e);
    if Cluster(e) != 0 {
      FileStored(d, g, fat, o, ds, home, p, e);
    }
  }

  lemma StandingTree(d: seq<Sector>, g: Geometry, fat: FatTable, o: Objs, ds: set<nat>, home: Homes)
    requires Stands(d, g, fat, o, ds, home)
    ensures WellFormed(TreeOf(g, o, ds), home, {})
  {
    hide Rep, WellFormed;
  }

  lemma FileStored(d: seq<Sector>, g: Geometry, fat: FatTable, o: Objs, ds: set<nat>, home: Homes, p: Place, e: Raw)
    requires Stands(d, g, fat, o, ds, home) && EntryAt(TreeOf(g, o, ds), p, e) && !IsDir(e) && Cluster(e) != 0
    ensures Cluster(e) in o.secs && Cluster(e) in o.chains
  {
    hide Cluster, Size, IsDir, EntryAt, WellFormed, Stands;
    StandingTree(d, g, fat, o, ds, home);
    EntryFacts(TreeOf(g, o, ds), home, p, e);
    StoredChains(d, g, fat, o, ds, home, Cluster(e));
  }

  lemma StoredChains(d: seq<Sector>, g: Geometry, fat: FatTable, o: Objs, ds: set<nat>, home: Homes, h: nat)
    requires Stands(d, g, fat, o, ds, home) && h in o.secs && h != 0
    ensures h in o.chains
  {
    hide WellFormed, ChainsOk, Disjoint, Accounted;
  }

  lemma FilesOnDrive(d: seq<Sector>, g: Geometry, fat: FatTable, o: Objs, ds: set<nat>, home: Homes, ks: Path,
                     b: seq<byte>)
    requires Stands(d, g, fat, o, ds, home) && PathKeys(ks)
    ensures var v := ViewOf(o, TreeOf(g, o, ds)); FileIs(d, g, fat, ks, b) <==> ks in v.files && v.files[ks] == b
  {
    var t := TreeOf(g, o, ds);
    hide Stands, TreeOf, WellFormed, EntryFor, FirstCluster, DirBit, FileSize, Look, ViewOf, BytesAre, Contents, Walk,
      DirIs, EntryAt, IsDir, Cluster, Size, PathKeys, PathKey;
    StandingTree(d, g, fat, o, ds, home);
    ViewAt(o, t, ks);
    if ks != [] {
      PathKeysInit(ks);
      forall c: nat ensures DirIs(d, g, fat, Init(ks), c) <==> Walk(t, Init(ks)) == Some(c) {
        DirsOnDrive(d, g, fat, o, ds, home, Init(ks), c);
      }
      if Walk(t, Init(ks)).Some? {
        var c := Walk(t, Init(ks)).value;
        WalkInside(t, home, Init(ks));
        forall i: nat, r ensures EntryFor(d, g, fat, c, i, r, Last(ks)) <==> Look(t, c, Last(ks)) == Some(((c, i), r)) {
          EntryIs(d, g, fat, o, ds, home, c, Last(ks), i, r);
        }
        LookPlace(t, c, Last(ks));
        if Look(t, c, Last(ks)).Some? {
          var x := Look(t, c, Last(ks)).value;
          LookEntry(t, c, Last(ks));
          FieldsRead(x.1);
          if !IsDir(x.1) {
            ContentsOnDrive(d, g, fat, o, ds, home, x.0, x.1, b);
          }
        }
      }
    }
  }

  lemma VolumeStands(v: Volume)
    requires v.Valid()
    ensures v.g.Fits(v.disk) && Stands(v.disk, v.g, v.Table(), v.o, v.ds, v.home)
  {
    hide Rep, WellFormed, Geometry.RootStart, Mirrored;
  }

  /** What clients see is what lies on the drive: which paths are directories, and which bytes each file has. */
  lemma SeenOnDrive(v: Volume, ks: Path, b: seq<byte>)
    requires v.Valid() && PathKeys(ks)
    ensures ks in Seen(v).dirs <==> exists c: nat :: DirIs(v.disk, v.g, v.Table(), ks, c)
    ensures ks in Seen(v).files && Seen(v).files[ks] == b <==> FileIs(v.disk, v.g, v.Table(), ks, b)
  {
    hide Stands, ViewOf, DirIs, FileIs, Walk, Volume.VolumeOk, Volume.Table;
    VolumeStands(v);
    ViewAt(v.o, v.T(), ks);
    FilesOnDrive(v.disk, v.g, v.Table(), v.o, v.ds, v.home, ks, b);
    forall c: nat ensures DirIs(v.disk, v.g, v.Table(), ks, c) <==> Walk(v.T(), ks) == Some(c) {
      DirsOnDrive(v.disk, v.g, v.Table(), v.o, v.ds, v.home, ks, c);
    }
    if Walk(v.T(), ks).Some? {
      assert DirIs(v.disk, v.g, v.Table(), ks, Walk(v.T(), ks).value);
    }
  }

  /** The other FATs are copies of the first one. */
  lemma FatCopies(d: seq<Sector>, g: Geometry, f: nat, k: nat, at: nat)
    requires g.Fits(d) && Mirrored(g, d) && f < g.numFats && k < g.spf && at == g.reserved + f * g.spf + k
    ensures at < |d| && g.reserved + k < |d| && d[at] == d[g.reserved + k]
  {
    TimesIsProduct(f, g.spf);
    assert SameCopy(g, d, f, k);
    hide Times;
    FatSectorInside(g, f, k);
    FatSectorInside(g, 0, k);
  }

  // ---------- the driver's reasons ----------

  /** No record of the directory can be used again. */
  ghost predicate AllUsed(d: seq<Sector>, g: Geometry, fat: FatTable, c: nat) {
    forall i: nat, r :: RecordIs(d, g, fat, c, i, r) ==> r[0] != 0 && r[0] != 0xE5
  }

  /** No cluster is free, or at most one. */
  ghost predicate NoFreeCell(fat: FatTable) { forall b :: 2 <= b < 4080 ==> fat[b] != 0 }

  ghost predicate OneFreeCell(fat: FatTable) {
    forall a, b :: 2 <= a < 4080 && 2 <= b < 4080 && fat[a] == fat[b] == 0 ==> a == b
  }

  lemma SlotsUsed(d: seq<Sector>, g: Geometry, fat: FatTable, o: Objs, ds: set<nat>, home: Homes, c: nat)
    requires Stands(d, g, fat, o, ds, home) && c in TreeOf(g, o, ds).dirs
    ensures var s := TreeOf(g, o, ds).dirs[c]; AllUsed(d, g, fat, c) <==> FirstReusable(s, |s|)
  {
    hide Stands, RecordIs, TreeOf;
    var s := TreeOf(g, o, ds).dirs[c];
    forall i: nat, r ensures RecordIs(d, g, fat, c, i, r) <==> i < |s| && r == s[i] {
      Records(d, g, fat, o, ds, home, c, i, r);
    }
    if AllUsed(d, g, fat, c) {
      forall i: nat | i < |s| ensures s[i][0] != 0 && s[i][0] != FREE {
        assert RecordIs(d, g, fat, c, i, s[i]);
      }
    }
  }

  /** The directory that a path is in. */
  ghost predicate ParentIs(v: Volume, path: CString, c: nat)
    reads v
    requires v.Valid()
  {
    Keys(path) != [] && DirIs(v.disk, v.g, v.Table(), Init(Keys(path)), c)
  }

  lemma ParentOnDrive(v: Volume, path: CString, c: nat)
    requires v.Valid()
    ensures ParentIs(v, path, c) <==> ParentOf(v.T(), path) == Some(c)
    ensures ParentIs(v, path, c) ==> c in v.T().dirs
  {
    hide Volume.VolumeOk, Walk, DirIs, Keys, TreeOf, Volume.Table;
    VolumeStands(v);
    VolumeTree(v);
    KeysOk(path);
    if Keys(path) != [] {
      PathKeysInit(Keys(path));
      DirsOnDrive(v.disk, v.g, v.Table(), v.o, v.ds, v.home, Init(Keys(path)), c);
      if Walk(v.T(), Init(Keys(path))).Some? {
        WalkInside(v.T(), v.home, Init(Keys(path)));
      }
    }
  }

  /** There is no room for an entry exactly when all records of the directory are in use and it cannot grow: it is the
      root directory, or no cluster is free. */
  lemma NoRoomOnDrive(v: Volume, path: CString)
    requires v.Valid()
    ensures NoRoomAt(v.T(), v.Table(), path)
            <==> exists c: nat :: ParentIs(v, path, c) && NoRoom(v.disk, v.g, v.Table(), c)
  {
    hide Volume.VolumeOk, ParentIs, Keys, ParentOf, TreeOf, NoRoom, DirFull, Stands, Volume.Table;
    VolumeStands(v);
    forall c: nat
      ensures ParentIs(v, path, c) <==> ParentOf(v.T(), path) == Some(c)
      ensures ParentIs(v, path, c) ==> (DirFull(v.T(), v.Table(), c) <==> NoRoom(v.disk, v.g, v.Table(), c))
    {
      ParentOnDrive(v, path, c);
      if ParentIs(v, path, c) {
        EntryRoom(v.disk, v.g, v.Table(), v.o, v.ds, v.home, c);
      }
    }
  }

  ghost predicate NoRoom(d: seq<Sector>, g: Geometry, fat: FatTable, c: nat) {
    AllUsed(d, g, fat, c) && (c == 0 || NoFreeCell(fat))
  }

  lemma EntryRoom(d: seq<Sector>, g: Geometry, fat: FatTable, o: Objs, ds: set<nat>, home: Homes, c: nat)
    requires Stands(d, g, fat, o, ds, home) && c in TreeOf(g, o, ds).dirs
    ensures DirFull(TreeOf(g, o, ds), fat, c) <==> NoRoom(d, g, fat, c)
  {
    hide Stands, TreeOf, AllUsed, FirstReusable;
    SlotsUsed(d, g, fat, o, ds, home, c);
    NoneFree(fat);
  }

  /** There is no room for a directory exactly when no cluster is free for it, or its parent has no room for an entry
      once one is taken. */
  lemma NoDirRoomOnDrive(v: Volume, path: CString)
    requires v.Valid()
    ensures NoDirRoomAt(v.T(), v.Table(), path)
            <==> exists c: nat :: ParentIs(v, path, c) && NoDirRoom(v.disk, v.g, v.Table(), c)
  {
    hide Volume.VolumeOk, ParentIs, Keys, ParentOf, TreeOf, NoDirRoom, NoRoomForDir, Stands, Volume.Table;
    VolumeStands(v);
    forall c: nat
      ensures ParentIs(v, path, c) <==> ParentOf(v.T(), path) == Some(c)
      ensures ParentIs(v, path, c) ==> (NoRoomForDir(v.T(), v.Table(), c) <==> NoDirRoom(v.disk, v.g, v.Table(), c))
    {
      ParentOnDrive(v, path, c);
      if ParentIs(v, path, c) {
        DirRoom(v.disk, v.g, v.Table(), v.o, v.ds, v.home, c);
      }
    }
  }

  ghost predicate NoDirRoom(d: seq<Sector>, g: Geometry, fat: FatTable, c: nat) {
    NoFreeCell(fat) || (AllUsed(d, g, fat, c) && (c == 0 || OneFreeCell(fat)))
  }

  lemma DirRoom(d: seq<Sector>, g: Geometry, fat: FatTable, o: Objs, ds: set<nat>, home: Homes, c: nat)
    requires Stands(d, g, fat, o, ds, home) && g.Fits(d) && c in TreeOf(g, o, ds).dirs
    ensures NoRoomForDir(TreeOf(g, o, ds), fat, c) <==> NoDirRoom(d, g, fat, c)
  {
    hide Stands, TreeOf, AllUsed, FirstReusable;
    SlotsUsed(d, g, fat, o, ds, home, c);
    NoneFree(fat);
    if !FirstFree(fat, -1) {
      var a := LeastFree(fat);
      forall b: nat | b < 4080 && FirstFree(fat, b) ensures b == a {
        FirstFreeUnique(fat, b, a);
      }
      assert FirstFree(Set(fat, a, 0xFFF), -1) <==> OneFreeCell(fat) by {
        forall b | 2 <= b < 4080 ensures Set(fat, a, 0xFFF)[b] == 0 <==> fat[b] == 0 && b != a {
        }
      }
    }
  }

  lemma LeastFree(fat: FatTable) returns (a: nat)
    requires !FirstFree(fat, -1)
    ensures a < 4080 && FirstFree(fat, a) && 2 <= a && fat[a] == 0
  {
    a := 2;
    while fat[a] != 0
      invariant 2 <= a < 4080 && forall b :: 2 <= b < a ==> fat[b] != 0
      decreases 4080 - a
    {
      if a == 4079 {
        assert FirstFree(fat, -1);
      }
      a := a + 1;
    }
  }

  /** A write falls short only when no cluster is free, and the file has none or the cursor stands at the end of its
      last one. */
  lemma StoppedOnDrive(v: Volume, f: OpenFile)
    requires v.Valid() && Coherent(v.T(), f)
    ensures Stopped(v.o, v.Table(), f) <==>
              NoFreeCell(v.Table())
              && (f.first == 0 || exists s :: ChainIs(v.Table(), f.first, s) && f.cursor == 512 * (|s| * v.g.spc))
  {
    hide Volume.VolumeOk, Stands, ChainIs, Coherent, TreeOf, Volume.Table;
    VolumeStands(v);
    NoneFree(v.Table());
    if f.first != 0 {
      CoherentChain(v.disk, v.g, v.Table(), v.o, v.ds, v.home, f);
    }
  }

  lemma CoherentChain(d: seq<Sector>, g: Geometry, fat: FatTable, o: Objs, ds: set<nat>, home: Homes, f: OpenFile)
    requires Stands(d, g, fat, o, ds, home) && Coherent(TreeOf(g, o, ds), f) && f.first != 0
    ensures f.first in o.secs && f.first in o.chains
    ensures forall s :: ChainIs(fat, f.first, s) <==> s == o.chains[f.first]
    ensures |o.secs[f.first]| == |o.chains[f.first]| * g.spc
  {
    hide Stands, TreeOf, EntryAt, IsDir, Rep, ChainIs, ChainsOk, IsChain;
    var e :| EntryAt(TreeOf(g, o, ds), (f.parent, f.idx), e) && Agrees(f, e);
    FileStored(d, g, fat, o, ds, home, (f.parent, f.idx), e);
    Standing(d, g, fat, o, ds, home);
    ObjectFacts(d, g, fat, o, f.first);
    forall s ensures ChainIs(fat, f.first, s) <==> s == o.chains[f.first] {
      ChainOnly(fat, g.last, o.chains[f.first], s);
    }
    TimesIsProduct(|o.chains[f.first]|, g.spc);
  }

  /** A directory has entries exactly when one of its records is in use that is not "." or "..". */
  lemma EntriesOnDrive(v: Volume, path: CString)
    requires v.Valid() && Resolve(v.T(), Keys(path)).Some?
    requires IsDir(EntryIn(v.T(), Resolve(v.T(), Keys(path)).value))
    ensures HasEntries(v.T(), path) <==>
              exists c: nat, i: nat, r ::
                DirIs(v.disk, v.g, v.Table(), Keys(path), c) && UsedRecord(v.disk, v.g, v.Table(), c, i, r)
                && !(r[0] == 0x2E && (r[1] == 0x20 || (r[1] == 0x2E && r[2] == 0x20)))
  {
    hide Volume.VolumeOk, TreeOf, Resolve, Keys, Walk, DirIs, UsedRecord, Stands, WellFormed, Cluster, Volume.Table;
    VolumeStands(v);
    KeysOk(path);
    var t, fat := v.T(), v.Table();
    VolumeTree(v);
    DirWalked(t, v.home, path);
    var e := Cluster(EntryIn(t, Resolve(t, Keys(path)).value));
    forall c: nat ensures DirIs(v.disk, v.g, fat, Keys(path), c) <==> c == e {
      DirsOnDrive(v.disk, v.g, fat, v.o, v.ds, v.home, Keys(path), c);
    }
    var s := t.dirs[e];
    forall i: nat, r ensures UsedRecord(v.disk, v.g, fat, e, i, r) <==> Visible(s, i) && r == s[i] {
      UsedRecords(v.disk, v.g, fat, v.o, v.ds, v.home, e, i, r);
    }
    if j: nat :| Ordinary(s, j) {
      assert UsedRecord(v.disk, v.g, fat, e, j, s[j]);
    }
    forall i: nat, r | UsedRecord(v.disk, v.g, fat, e, i, r) ensures Ordinary(s, i) <==> !IsDot(r) {
    }
  }

  lemma VolumeTree(v: Volume)
    requires v.Valid()
    ensures WellFormed(v.T(), v.home, {})
  {
    hide WellFormed, Rep, Mirrored;
  }

  /** The first two records of a new directory. */
  lemma DotRecords(s: seq<Raw>, x: nat, p: nat)
    requires FreshDir(s, x, p) && x < 0x1_0000 && p < 0x1_0000
    ensures var tail: seq<byte> := [0x10] + seq(14, _ => 0);
            && s[0] == ([0x2E] + seq(10, _ => 0x20)) + tail + [x % 0x100, x / 0x100] + [0, 0, 0, 0]
            && s[1] == ([0x2E, 0x2E] + seq(9, _ => 0x20)) + tail + [p % 0x100, p / 0x100] + [0, 0, 0, 0]
            && s[2][0] == 0
  {
    EntryBytes(DOT_KEY, DIR, x, 0);
    EntryBytes(DOTDOT_KEY, DIR, p, 0);
    hide NewEntry;
    assert DOT_KEY == [0x2E] + seq(10, _ => 0x20) && DOTDOT_KEY == [0x2E, 0x2E] + seq(9, _ => 0x20);
  }
}
