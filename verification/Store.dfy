// Objects seen as directories and files: the slots, the tree and the file contents they hold.
module Store {
  import opened Disk
  import opened Chains
  import opened Objects
  import opened Directory
  import opened Tree

  /** The slots of object `d` with sectors `secs`. The root directory has a fixed number of them. */
  ghost function DirSlots(g: Geometry, d: nat, secs: seq<Sector>): (s: seq<Raw>)
  {
    if d == 0 && g.rootEntries <= 16 * |secs| then Slots(secs, g.rootEntries)
    else Slots(secs, 16 * |secs|)
  }

  /** The tree when the objects in `ds` are directories and the others files. */
  ghost function TreeOf(g: Geometry, o: Objs, ds: set<nat>): Tree {
    Tree(
      map d | d in ds && d in o.secs :: DirSlots(g, d, o.secs[d]),
      map h | h in o.secs && h !in ds :: 512 * |o.secs[h]|)
  }

  /** Only directory `d` changes. */
  lemma TreeChange(g: Geometry, o: Objs, o': Objs, ds: set<nat>, d: nat)
    requires d in o.secs && d in ds && d in o'.secs && o'.secs == o.secs[d := o'.secs[d]]
    ensures TreeOf(g, o', ds) == WithDir(TreeOf(g, o, ds), d, DirSlots(g, d, o'.secs[d]))
  {
  }

  // ---------- file contents ----------

  function ByteAt(secs: seq<Sector>, p: nat): byte
    requires p < 512 * |secs|
  {
    secs[p / 512][p % 512]
  }

  /** The first `n` bytes of an object. */
  function Prefix(secs: seq<Sector>, n: nat): (r: seq<byte>)
    requires n <= 512 * |secs|
  {
    seq(n, p requires 0 <= p < n => ByteAt(secs, p))
  }

  lemma PrefixSlice(secs: seq<Sector>, n: nat, p: nat, k: nat)
    requires n <= 512 * |secs| && p + k <= n && p % 512 + k <= 512 && p / 512 < |secs|
    ensures secs[p / 512][p % 512..p % 512 + k] == Prefix(secs, n)[p..p + k]
  {
    var a, b := secs[p / 512][p % 512..p % 512 + k], Prefix(secs, n)[p..p + k];
    forall i | 0 <= i < k
      ensures a[i] == b[i]
    {
      ByteInSector(secs, p, i);
    }
  }

  lemma ByteInSector(secs: seq<Sector>, p: nat, i: nat)
    requires p % 512 + i < 512 && p / 512 < |secs|
    ensures p + i < 512 * |secs| && ByteAt(secs, p + i) == secs[p / 512][p % 512 + i]
  {
    assert (p + i) / 512 == p / 512 && (p + i) % 512 == p % 512 + i;
  }

  /** The bytes of the file with first cluster `h` and size `n`. */
  ghost function FileBytes(o: Objs, h: nat, n: nat): (r: seq<byte>)
  {
    if h in o.secs && n <= 512 * |o.secs[h]| then Prefix(o.secs[h], n) else []
  }

  /** The contents of the file that entry `e` names. */
  ghost function Contents(o: Objs, e: Raw): (r: seq<byte>)
  {
    FileBytes(o, Cluster(e), Size(e))
  }

  /** `s` overwritten with `bytes` from position `at` on, and extended if they reach further. */
  function Splice(s: seq<byte>, at: nat, bytes: seq<byte>): (r: seq<byte>)
    requires at <= |s|
  {
    s[..at] + bytes + if at + |bytes| < |s| then s[at + |bytes|..] else []
  }

  /** Byte by byte: the new bytes from `at` on, the old ones elsewhere. */
  lemma SpliceBytes(s: seq<byte>, at: nat, bytes: seq<byte>)
    requires at <= |s|
    ensures |Splice(s, at, bytes)| == if at + |bytes| < |s| then |s| else at + |bytes|
    ensures forall q :: 0 <= q < |Splice(s, at, bytes)| ==>
              Splice(s, at, bytes)[q] == if at <= q < at + |bytes| then bytes[q - at] else s[q]
  {
  }

  /** Patching bytes inside one sector splices them into the contents, whatever length of the
      object is looked at. */
  lemma PrefixPatch(secs: seq<Sector>, p: nat, bytes: seq<byte>, n: nat)
    requires p % 512 + |bytes| <= 512 && p / 512 < |secs| && n <= 512 * |secs|
    ensures var secs' := secs[p / 512 := Patch(secs[p / 512], p % 512, bytes)];
            && (p <= n <= p + |bytes| ==> Prefix(secs', p + |bytes|) == Splice(Prefix(secs, n), p, bytes))
            && (p + |bytes| <= n ==> Prefix(secs', n) == Splice(Prefix(secs, n), p, bytes))
  {
    var sec: Sector := Patch(secs[p / 512], p % 512, bytes);
    var secs': seq<Sector> := secs[p / 512 := sec];
    forall q | 0 <= q < 512 * |secs|
      ensures ByteAt(secs', q) == if p <= q < p + |bytes| then bytes[q - p] else ByteAt(secs, q)
    {
      PatchByte(secs, p, bytes, q);
    }
  }

  lemma PatchByte(secs: seq<Sector>, p: nat, bytes: seq<byte>, q: nat)
    requires p % 512 + |bytes| <= 512 && p / 512 < |secs| && q < 512 * |secs|
    ensures ByteAt(secs[p / 512 := Patch(secs[p / 512], p % 512, bytes)], q)
         == if p <= q < p + |bytes| then bytes[q - p] else ByteAt(secs, q)
  {
    assert p == p / 512 * 512 + p % 512 && q == q / 512 * 512 + q % 512;
  }

  // ---------- addresses ----------

  lemma Divide(p: nat, n: nat)
    requires n > 0
    ensures p == Times(p / n, n) + p % n && p % n < n
  {
    TimesIsProduct(p / n, n);
  }

  lemma {:induction false} TimesScale(k: nat, m: nat, c: nat)
    ensures Times(k, m * c) == c * Times(k, m)
  {
    if k > 0 {
      TimesScale(k - 1, m, c);
      assert c * (Times(k - 1, m) + m) == c * Times(k - 1, m) + c * m;
    }
  }

  lemma DivNat(p: nat, n: nat)
    requires n > 0
    ensures p / n >= 0
  {
  }

  /** The cluster number of byte `p` of a file and the offset in the cluster, and the same for
      slot `i` of a directory, as the driver computes them. */
  function ByteCluster(spc: nat, p: nat): nat
    requires spc >= 1
  {
    DivNat(p, spc * 512);
    p / (spc * 512)
  }

  function ByteOffset(spc: nat, p: nat): nat
    requires spc >= 1
  {
    var size := spc * 512;
    p % size
  }

  function SlotsPer(spc: nat): (n: nat)
    requires spc >= 1
    ensures n == spc * 16
  {
    spc * 512 / 32
  }

  function SlotCluster(spc: nat, i: nat): nat
    requires spc >= 1
  {
    DivNat(i, SlotsPer(spc));
    i / SlotsPer(spc)
  }

  function SlotOffset(spc: nat, i: nat): nat
    requires spc >= 1
  {
    i % SlotsPer(spc) * 32
  }

  /** Where the driver finds byte `p` of a file: cluster number, sector of the cluster, offset. */
  lemma ByteAddress(spc: nat, p: nat)
    requires spc >= 1
    ensures p / 512 == Times(ByteCluster(spc, p), spc) + ByteOffset(spc, p) / 512
    ensures ByteOffset(spc, p) / 512 < spc
    ensures ByteOffset(spc, p) % 512 == p % 512
  {
    var size := spc * 512;
    var k, r := p / size, p % size;
    Divide(p, size);
    TimesScale(k, spc, 512);
    assert p == 512 * Times(k, spc) + r;
  }

  lemma SlotInCluster(spc: nat, i: nat, k: nat, r: nat)
    requires i == Times(k, spc * 16) + r && r < spc * 16
    ensures i / 16 == Times(k, spc) + r * 32 / 512
    ensures r * 32 / 512 < spc
    ensures r * 32 % 512 == i % 16 * 32
  {
    TimesScale(k, spc, 16);
    var t := Times(k, spc);
    assert i == 16 * t + r;
    assert i / 16 == t + r / 16 && i % 16 == r % 16;
    assert r * 32 == 512 * (r / 16) + 32 * (r % 16);
  }

  /** Where the driver finds slot `i` of a directory. */
  lemma SlotAddress(spc: nat, i: nat)
    requires spc >= 1
    ensures i / 16 == Times(SlotCluster(spc, i), spc) + SlotOffset(spc, i) / 512
    ensures SlotOffset(spc, i) / 512 < spc
    ensures SlotOffset(spc, i) % 512 == i % 16 * 32
  {
    Divide(i, spc * 16);
    SlotInCluster(spc, i, i / (spc * 16), i % (spc * 16));
  }

  /** Slot `i` lies in one of the first `n` clusters just when its cluster number is below `n`. */
  lemma SlotBelow(spc: nat, i: nat, n: nat)
    requires spc >= 1
    ensures i < 16 * Times(n, spc) <==> SlotCluster(spc, i) < n
  {
    var k := i / (spc * 16);
    Divide(i, spc * 16);
    TimesScale(k, spc, 16);
    TimesScale(n, spc, 16);
    if k < n {
      TimesStep(k, n, spc * 16);
    } else if n < k {
      TimesStep(n, k, spc * 16);
    }
  }

  lemma ByteBelow(spc: nat, p: nat, n: nat)
    requires spc >= 1
    ensures p < 512 * Times(n, spc) <==> ByteCluster(spc, p) < n
    ensures p == 512 * Times(n, spc) ==> ByteCluster(spc, p) == n
  {
    var k := p / (spc * 512);
    Divide(p, spc * 512);
    TimesScale(k, spc, 512);
    TimesScale(n, spc, 512);
    if k < n {
      TimesStep(k, n, spc * 512);
    } else if n < k {
      TimesStep(n, k, spc * 512);
    }
  }

  // ---------- reading and walking the stored objects ----------

  lemma SlotCount(g: Geometry, area: seq<Sector>, o: Objs, d: nat)
    requires Stored(g, area, o) && d in o.secs
    ensures |DirSlots(g, d, o.secs[d])| == if d == 0 then g.rootEntries else 16 * Times(|o.chains[d]|, g.spc)
    ensures d != 0 ==> d in o.chains
  {
  }

  /** The 32 bytes of slot `i` on the drive. */
  lemma SlotOnDrive(g: Geometry, area: seq<Sector>, o: Objs, d: nat, i: nat)
    requires Stored(g, area, o) && d in o.secs && i < |DirSlots(g, d, o.secs[d])|
    ensures i / 16 < |o.secs[d]| == |ListOf(g, o, d)|
    ensures ListOf(g, o, d)[i / 16] < |area| && area[ListOf(g, o, d)[i / 16]] == o.secs[d][i / 16]
    ensures area[ListOf(g, o, d)[i / 16]][i % 16 * 32..i % 16 * 32 + 32] == DirSlots(g, d, o.secs[d])[i]
  {
    assert Holds(area, ListOf(g, o, d), o.secs[d]);
  }

  lemma ListDefined(g: Geometry, area: seq<Sector>, o: Objs, h: nat)
    requires Stored(g, area, o)
    ensures h in o.chains ==> Clusters(g, o.chains[h])
  {
  }

  lemma SecsLength(g: Geometry, area: seq<Sector>, o: Objs, d: nat)
    requires Stored(g, area, o) && d in o.chains
    ensures d in o.secs && |o.secs[d]| == Times(|o.chains[d]|, g.spc)
  {
  }

  lemma ChainHead(g: Geometry, fat: FatTable, o: Objs, d: nat)
    requires g.Ok() && ChainsOk(g, fat, o) && d in o.chains
    ensures |o.chains[d]| > 0 && o.chains[d][0] == d && 2 <= d <= g.last
  {
    assert IsChain(fat, o.chains[d], g.last);
  }

  /** The cell of the `n`-th cluster names the next cluster, or ends the walk. */
  lemma ChainStep(g: Geometry, fat: FatTable, o: Objs, d: nat, n: nat)
    requires g.Ok() && ChainsOk(g, fat, o) && d in o.chains && n < |o.chains[d]|
    ensures 2 <= o.chains[d][n] <= g.last && o.chains[d][0] == d
    ensures IsLink(fat[o.chains[d][n]]) <==> n + 1 < |o.chains[d]|
    ensures n + 1 < |o.chains[d]| ==> fat[o.chains[d][n]] == o.chains[d][n + 1]
  {
    var s := o.chains[d];
    assert IsChain(fat, s, g.last);
    if n + 1 < |s| {
      assert fat[s[n]] == s[n + 1];
    }
  }

  /** A cluster that was linked behind object `d` and zeroed makes the object longer by zeroes. */
  lemma ZeroedTail(secs: seq<Sector>, more: seq<Sector>, m: nat, spc: nat)
    requires |more| == spc && m <= spc
    ensures m < spc ==> (secs + Zeros(m) + more[m..])[|secs| + m := ZeroSector()] == secs + Zeros(m + 1) + more[m + 1..]
    ensures m == spc ==> secs + Zeros(m) + more[m..] == secs + Zeros(spc)
  {
  }

  lemma SlotAtEnd(spc: nat, i: nat, n: nat)
    requires spc >= 1
    ensures i == 16 * Times(n, spc) ==> SlotCluster(spc, i) == n
  {
    SlotBelow(spc, i, n);
    SlotBelow(spc, i, n + 1);
  }

  /** `o'` is `o` with entry `e` in slot `i` of directory `d`. */
  ghost predicate Rewritten(o: Objs, o': Objs, d: nat, i: nat, e: Raw) {
    && d in o.secs && i / 16 < |o.secs[d]|
    && o' == WithSector(o, d, i / 16, Patch(o.secs[d][i / 16], i % 16 * 32, e))
  }

  /** `o'` is `o` with object `d` longer by `m` zeroed sectors. */
  ghost predicate Grown(o: Objs, o': Objs, d: nat, m: nat) {
    && d in o.secs && d in o'.secs
    && o'.lost == o.lost
    && o'.secs == o.secs[d := o.secs[d] + Zeros(m)]
    && (if m == 0 then o'.chains == o.chains
        else d in o.chains && d in o'.chains && o.chains[d] <= o'.chains[d] && o'.chains == o.chains[d := o'.chains[d]])
  }

  lemma NotGrown(o: Objs, d: nat)
    requires d in o.secs
    ensures Grown(o, o, d, 0)
  {
    assert o.secs[d] + Zeros(0) == o.secs[d];
  }

  /** `o'` is `o` with one zeroed cluster `c` linked behind directory `d`. */
  ghost predicate ZeroExtended(o: Objs, o': Objs, d: nat, c: nat, spc: nat) {
    && d in o.chains && d in o.secs
    && o' == o.(chains := o.chains[d := o.chains[d] + [c]], secs := o.secs[d := o.secs[d] + Zeros(spc)])
  }

  lemma GrownMore(o: Objs, o1: Objs, o2: Objs, d: nat, m: nat, c: nat, spc: nat)
    requires Grown(o, o1, d, m) && d in o.chains && spc > 0 && ZeroExtended(o1, o2, d, c, spc)
    ensures Grown(o, o2, d, m + spc)
    ensures d in o1.chains && d in o2.chains && o2.chains[d] == o1.chains[d] + [c]
  {
    assert Zeros(m) + Zeros(spc) == Zeros(m + spc);
    assert o.secs[d] + Zeros(m) + Zeros(spc) == o.secs[d] + Zeros(m + spc);
  }

  /** `o'` differs from `o` in directory `d` only, which keeps its clusters and may get more. */
  ghost predicate OnlyDir(o: Objs, o': Objs, d: nat) {
    && d in o.secs && d in o'.secs
    && o'.lost == o.lost
    && o'.secs == o.secs[d := o'.secs[d]]
    && (o'.chains == o.chains ||
        (d in o.chains && d in o'.chains && o.chains[d] <= o'.chains[d] && o'.chains == o.chains[d := o'.chains[d]]))
  }

  lemma OnlyDirTwice(o: Objs, o1: Objs, o2: Objs, d: nat)
    requires OnlyDir(o, o1, d) && OnlyDir(o1, o2, d)
    ensures OnlyDir(o, o2, d)
  {
  }

  lemma GrownSlots(g: Geometry, o: Objs, o': Objs, d: nat, m: nat)
    requires Grown(o, o', d, m) && (d == 0 ==> m == 0)
    ensures OnlyDir(o, o', d) && (m == 0 ==> o'.chains == o.chains)
    ensures DirSlots(g, d, o'.secs[d]) == DirSlots(g, d, o.secs[d]) + ZeroSlots(16 * m)
  {
    if m == 0 {
      assert o'.secs[d] == o.secs[d];
    } else {
      SlotsGrow(o.secs[d], m);
    }
  }

  lemma RewrittenSlots(g: Geometry, o: Objs, o': Objs, d: nat, i: nat, e: Raw)
    requires Rewritten(o, o', d, i, e) && i < |DirSlots(g, d, o.secs[d])|
    ensures OnlyDir(o, o', d) && o'.chains == o.chains
    ensures DirSlots(g, d, o'.secs[d]) == DirSlots(g, d, o.secs[d])[i := e]
  {
    SlotWrite(o.secs[d], |DirSlots(g, d, o.secs[d])|, i, e);
  }

  // ---------- what a write may touch ----------

  /** Only slot (d, i) changes among all slots of all directories, and there only the bytes of the
      first cluster and of the size. */
  ghost predicate SlotOnly(t: Tree, t': Tree, d: nat, i: nat) {
    && d in t.dirs && i < |t.dirs[d]| && d in t'.dirs && i < |t'.dirs[d]|
    && t'.dirs == t.dirs[d := t.dirs[d][i := t'.dirs[d][i]]]
    && t'.dirs[d][i][..26] == t.dirs[d][i][..26]
  }

  lemma SlotOnlySame(t: Tree, t': Tree, d: nat, i: nat)
    requires d in t.dirs && i < |t.dirs[d]| && t'.dirs == t.dirs
    ensures SlotOnly(t, t', d, i)
  {
    assert t.dirs[d] == t.dirs[d][i := t.dirs[d][i]];
  }

  lemma SlotOnlyTwice(t: Tree, t1: Tree, t2: Tree, d: nat, i: nat)
    requires SlotOnly(t, t1, d, i) && SlotOnly(t1, t2, d, i)
    ensures SlotOnly(t, t2, d, i)
  {
    assert t1.dirs[d][i := t2.dirs[d][i]] == t.dirs[d][i := t2.dirs[d][i]];
  }

  lemma SlotOnlyEntry(t: Tree, t': Tree, d: nat, i: nat, e: Raw)
    requires d in t.dirs && i < |t.dirs[d]| && t'.dirs == WithSlot(t, d, i, e).dirs && e[..26] == t.dirs[d][i][..26]
    ensures SlotOnly(t, t', d, i)
  {
  }

  /** All files except `h` keep their clusters and their sectors, and no cluster is lost or found. */
  ghost predicate FilesSame(o: Objs, o': Objs, ds: set<nat>, h: nat) {
    && o'.lost == o.lost
    && (forall x :: x in o.secs && x !in ds && x != h ==> x in o'.secs && o'.secs[x] == o.secs[x])
    && (forall x :: x in o.chains && x !in ds && x != h ==> x in o'.chains && o'.chains[x] == o.chains[x])
    && (forall x :: x in o'.secs ==> x in o.secs || x == h)
  }

  lemma FilesSameTwice(o: Objs, o1: Objs, o2: Objs, ds: set<nat>, h: nat)
    requires FilesSame(o, o1, ds, h) && FilesSame(o1, o2, ds, h)
    ensures FilesSame(o, o2, ds, h)
  {
  }

  lemma OnlyDirFiles(o: Objs, o': Objs, ds: set<nat>, d: nat, h: nat)
    requires OnlyDir(o, o', d) && d in ds
    ensures FilesSame(o, o', ds, h)
  {
  }

  /** `o'` is `o` with a new object that has the one cluster `c`. */
  ghost predicate NewObject(o: Objs, o': Objs, c: nat) {
    && 2 <= c < 4080 && c !in o.secs && c !in o.chains && c in o'.secs
    && o' == o.(chains := o.chains[c := [c]], secs := o.secs[c := o'.secs[c]])
  }

  lemma NoGrowth(s: seq<Raw>, m: nat)
    ensures m == 0 ==> s + ZeroSlots(16 * m) == s
  {
  }

  lemma NewObjectTree(g: Geometry, o: Objs, o': Objs, ds: set<nat>, c: nat)
    requires NewObject(o, o', c) && (forall x :: x in ds ==> x in o.secs)
    ensures TreeOf(g, o', ds) == TreeOf(g, o, ds).(caps := TreeOf(g, o, ds).caps[c := 512 * |o'.secs[c]|])
    ensures FilesSame(o, o', ds, c)
    ensures c !in ds && c !in TreeOf(g, o, ds).dirs && c !in TreeOf(g, o, ds).caps && 0 < c < 4080
    ensures c !in o.secs && c in o'.secs && forall x :: x in o.secs ==> x in o'.secs && o'.secs[x] == o.secs[x]
  {
  }

  /** One slot of directory `d` was rewritten. */
  lemma OnlyDirTree(g: Geometry, o: Objs, o': Objs, ds: set<nat>, d: nat, i: nat, e: Raw)
    requires OnlyDir(o, o', d) && d in ds && (forall x :: x in ds ==> x in o.secs)
    requires i < |DirSlots(g, d, o.secs[d])| && DirSlots(g, d, o'.secs[d]) == DirSlots(g, d, o.secs[d])[i := e]
    ensures TreeOf(g, o', ds) == WithSlot(TreeOf(g, o, ds), d, i, e)
    ensures forall x :: x in ds ==> x in o'.secs
  {
    TreeChange(g, o, o', ds, d);
  }

  lemma TreeDirs(g: Geometry, o: Objs, ds: set<nat>, d: nat)
    ensures d in TreeOf(g, o, ds).dirs <==> d in ds && d in o.secs
    ensures d in ds && d in o.secs ==> TreeOf(g, o, ds).dirs[d] == DirSlots(g, d, o.secs[d])
  {
  }

  /** `o'` is `o` with cluster `c` linked behind file `h`, whatever the cluster holds. */
  ghost predicate FileGrown(o: Objs, o': Objs, h: nat, c: nat) {
    && h in o.chains && h in o.secs && h in o'.secs
    && o.secs[h] <= o'.secs[h]
    && o' == o.(chains := o.chains[h := o.chains[h] + [c]], secs := o.secs[h := o'.secs[h]])
  }

  lemma FileGrownTree(g: Geometry, o: Objs, o': Objs, ds: set<nat>, h: nat, c: nat)
    requires FileGrown(o, o', h, c) && h !in ds && (forall x :: x in ds ==> x in o.secs)
    ensures h in o'.secs
    ensures TreeOf(g, o', ds) == TreeOf(g, o, ds).(caps := TreeOf(g, o, ds).caps[h := 512 * |o'.secs[h]|])
    ensures h in TreeOf(g, o, ds).caps && TreeOf(g, o, ds).caps[h] <= 512 * |o'.secs[h]|
    ensures FilesSame(o, o', ds, h)
    ensures forall x :: x in ds ==> x in o'.secs
  {
  }

  lemma FileGrownBytes(o: Objs, o': Objs, h: nat, c: nat, n: nat)
    requires FileGrown(o, o', h, c) && n <= 512 * |o.secs[h]|
    ensures FileBytes(o', h, n) == FileBytes(o, h, n)
    ensures h in o'.chains && o'.chains[h] == o.chains[h] + [c]
  {
    forall p | 0 <= p < n
      ensures ByteAt(o'.secs[h], p) == ByteAt(o.secs[h], p)
    {
      assert o.secs[h][p / 512] == o'.secs[h][p / 512];
    }
  }

  lemma {:induction false} TimesMono(a: nat, b: nat, m: nat, k: nat)
    requires a <= b && m <= k
    ensures Times(a, m) <= Times(b, k)
    decreases b
  {
    if b > 0 {
      if a == b {
        TimesMono(a - 1, b - 1, m, k);
      } else {
        TimesMono(a, b - 1, m, k);
      }
    }
  }

  /** No file reaches the size that the 32-bit field of its entry cannot hold. */
  lemma SizeFits(g: Geometry, fat: FatTable, area: seq<Sector>, o: Objs, h: nat)
    requires g.Ok() && ChainsOk(g, fat, o) && Stored(g, area, o) && h in o.chains
    ensures h in o.secs && 512 * |o.secs[h]| < 0x1_0000_0000
  {
    ChainShort(fat, o.chains[h], g.last);
    SecsLength(g, area, o, h);
    TimesMono(|o.chains[h]|, 4080, g.spc, 255);
    TimesIsProduct(4080, 255);
  }

  lemma PatchedTree(g: Geometry, o: Objs, o': Objs, ds: set<nat>, h: nat, q: nat, sec: Sector)
    requires h in o.secs && q < |o.secs[h]| && h !in ds && o' == WithSector(o, h, q, sec)
    ensures TreeOf(g, o', ds) == TreeOf(g, o, ds).(caps := TreeOf(g, o, ds).caps[h := 512 * |o.secs[h]|])
    ensures h in TreeOf(g, o, ds).caps && TreeOf(g, o, ds).caps[h] == 512 * |o.secs[h]|
  {
  }

  /** The new contents of the file after one patch at `p`, when the size grows to cover it. */
  lemma PatchedBytes(o: Objs, o': Objs, h: nat, p: nat, bytes: seq<byte>, n: nat, n': nat)
    requires h in o.secs && p % 512 + |bytes| <= 512 && p / 512 < |o.secs[h]| && p <= n <= 512 * |o.secs[h]|
    requires o' == WithSector(o, h, p / 512, Patch(o.secs[h][p / 512], p % 512, bytes))
    requires n' == if p + |bytes| > n then p + |bytes| else n
    ensures n' <= 512 * |o.secs[h]|
    ensures |FileBytes(o, h, n)| == n
    ensures FileBytes(o', h, n') == Splice(FileBytes(o, h, n), p, bytes)
  {
    PrefixPatch(o.secs[h], p, bytes, n);
  }

  lemma TreeCaps(g: Geometry, o: Objs, ds: set<nat>, h: nat)
    requires h in o.secs && h !in ds
    ensures h in TreeOf(g, o, ds).caps && TreeOf(g, o, ds).caps[h] == 512 * |o.secs[h]|
  {
  }

  /** Object `h` was freed (unless it is 0) and one slot of directory `d` was rewritten. */
  lemma FreedTree(g: Geometry, o: Objs, o1: Objs, o': Objs, ds: set<nat>, h: nat, p: Place, e: Raw)
    requires p.0 in ds && (forall x :: x in ds ==> x in o.secs) && 0 in ds
    requires EntryAt(TreeOf(g, o, ds), p, e) && h == Cluster(e) && (h != 0 ==> p.0 != h)
    requires h in o.secs && (IsDir(e) ==> h in ds && h != 0) && (!IsDir(e) && h != 0 ==> h !in ds)
    requires o1 == if h == 0 then o else Without(o, h)
    requires OnlyDir(o1, o', p.0)
    requires DirSlots(g, p.0, o'.secs[p.0]) == DirSlots(g, p.0, o.secs[p.0])[p.1 := Tombstone(e)]
    ensures Removed(TreeOf(g, o, ds), TreeOf(g, o', if IsDir(e) then ds - {h} else ds), p, e)
  {
    hide DirSlots, Ordinary, IsDir;
    var t, t' := TreeOf(g, o, ds), TreeOf(g, o', if IsDir(e) then ds - {h} else ds);
    assert t'.caps == t.caps - {h};
  }

  /** A new object `c` became directory `c`, and its entry went into directory `d`. */
  lemma MakeDirDirs(g: Geometry, o: Objs, o': Objs, ds: set<nat>, d: nat, c: nat, secs: seq<Sector>)
    requires d in ds && d in o.secs && d in o'.secs && c !in o.secs && d != c
    requires o'.secs == o.secs[c := secs][d := o'.secs[d]]
    ensures TreeOf(g, o', ds + {c}).dirs ==
              TreeOf(g, o, ds).dirs[d := DirSlots(g, d, o'.secs[d])][c := DirSlots(g, c, secs)]
  {
    hide DirSlots;
  }

  lemma MakeDirCaps(g: Geometry, o: Objs, o': Objs, ds: set<nat>, d: nat, c: nat, secs: seq<Sector>)
    requires d in ds && d in o.secs && d in o'.secs && c !in o.secs && d != c
    requires o'.secs == o.secs[c := secs][d := o'.secs[d]]
    ensures TreeOf(g, o', ds + {c}).caps == TreeOf(g, o, ds).caps
  {
    hide DirSlots;
  }

  lemma MakeDirTree(g: Geometry, o: Objs, o1: Objs, o2: Objs, o3: Objs, ds: set<nat>, d: nat, c: nat)
    requires NewObject(o, o1, c) && OnlyDir(o1, o2, c) && OnlyDir(o2, o3, d)
    requires d in ds && (forall x :: x in ds ==> x in o.secs)
    ensures c !in ds && d in o3.secs && c in o3.secs && o3.secs[c] == o2.secs[c] && d in o2.secs
    ensures o2.secs[d] == o.secs[d]
    ensures TreeOf(g, o3, ds + {c})
         == WithDir(WithDir(TreeOf(g, o, ds), d, DirSlots(g, d, o3.secs[d])), c, DirSlots(g, c, o2.secs[c]))
    ensures forall x :: x in ds + {c} ==> x in o3.secs
    ensures o3.lost == o.lost
  {
    assert o3.secs == o.secs[c := o2.secs[c]][d := o3.secs[d]];
    MakeDirDirs(g, o, o3, ds, d, c, o2.secs[c]);
    MakeDirCaps(g, o, o3, ds, d, c, o2.secs[c]);
    hide TreeOf;
  }

  /** A new object that is given up again leaves no trace. */
  lemma GiveUp(o: Objs, o1: Objs, o2: Objs, c: nat)
    requires NewObject(o, o1, c) && OnlyDir(o1, o2, c) && o2.chains == o1.chains
    ensures c in o2.chains && o2.chains[c] == [c] && Without(o2, c) == o
  {
    assert Without(o2, c).chains == o.chains;
    assert Without(o2, c).secs == o.secs;
  }

  lemma UndoTable(fat: FatTable, c: nat)
    requires c < 4096 && fat[c] == 0
    ensures Zeroed(Set(fat, c, 0xFFF), [c]) == fat
  {
  }

  lemma SlotsBeside(g: Geometry, o: Objs, o1: Objs, o2: Objs, d: nat, c: nat)
    requires NewObject(o, o1, c) && OnlyDir(o1, o2, c) && d in o.secs
    ensures d in o2.secs && DirSlots(g, d, o2.secs[d]) == DirSlots(g, d, o.secs[d])
  {
  }

  /** Directory `d` has the slots `s'` now. */
  lemma OnlyDirWith(g: Geometry, o: Objs, o': Objs, ds: set<nat>, d: nat)
    requires OnlyDir(o, o', d) && d in ds && (forall x :: x in ds ==> x in o.secs)
    ensures TreeOf(g, o', ds) == WithDir(TreeOf(g, o, ds), d, DirSlots(g, d, o'.secs[d]))
    ensures forall x :: x in ds ==> x in o'.secs
  {
    TreeChange(g, o, o', ds, d);
  }

  /** No file and no cluster is touched. */
  ghost predicate DirsOnly(o: Objs, o': Objs, ds: set<nat>) {
    && o'.lost == o.lost
    && (forall x :: x in o.secs && x !in ds ==> x in o'.secs && o'.secs[x] == o.secs[x])
    && (forall x :: x in o.chains ==> x in o'.chains && o.chains[x] <= o'.chains[x])
    && (forall x :: x in o.chains && x !in ds ==> x in o'.chains && o'.chains[x] == o.chains[x])
    && (forall x :: x in o'.secs ==> x in o.secs)
  }

  lemma DirsOnlyStep(o: Objs, o1: Objs, o2: Objs, ds: set<nat>, d: nat)
    requires DirsOnly(o, o1, ds) && OnlyDir(o1, o2, d) && d in ds
    ensures DirsOnly(o, o2, ds)
  {
  }

  lemma DirsOnlyTwice(o: Objs, o1: Objs, o2: Objs, ds: set<nat>)
    requires DirsOnly(o, o1, ds) && DirsOnly(o1, o2, ds)
    ensures DirsOnly(o, o2, ds)
  {
  }
}
