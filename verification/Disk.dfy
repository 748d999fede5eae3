// The drive as an array of 512-byte sectors, the FAT12 geometry, and the packed
// 12-bit cells of the file allocation table.
module Disk {
  type byte = b: int | 0 <= b < 256
  type Sector = s: seq<byte> | |s| == 512 witness seq(512, _ => 0)

  /** One FAT12 cell, and the table of the 4096 cells that 12 FAT sectors hold. */
  type Cell12 = v: int | 0 <= v < 4096
  type FatTable = f: seq<Cell12> | |f| == 4096 witness seq(4096, _ => 0)

  function ZeroSector(): Sector { seq(512, _ => 0) }

  /** `n * m` by repeated addition, which keeps the sector arithmetic linear for the verifier. */
  function Times(n: nat, m: nat): nat
  {
    if n == 0 then 0 else Times(n - 1, m) + m
  }

  lemma {:induction false} TimesIsProduct(n: nat, m: nat)
    ensures Times(n, m) == n * m
  {
    if n > 0 {
      TimesIsProduct(n - 1, m);
    }
  }

  /** Rows of length `m` laid out one after the other do not overlap. */
  lemma {:induction false} TimesStep(a: nat, b: nat, m: nat)
    requires a < b
    ensures Times(a, m) + m <= Times(b, m)
  {
    if a + 1 < b {
      TimesStep(a, b - 1, m);
    }
  }

  /** `s` with `bytes` copied over it from offset `at`. */
  function Patch(s: Sector, at: nat, bytes: seq<byte>): (r: Sector)
    requires at + |bytes| <= 512
  {
    s[..at] + bytes + s[at + |bytes|..]
  }

  /** The fields of `struct fat12_geometry`. `last` is not stored by the driver: it is the
      number of the last cluster that the drive really holds. */
  datatype Geometry = Geometry(
    spc: nat, reserved: nat, numFats: nat, rootEntries: nat, spf: nat, last: nat)
  {
    function RootStart(): nat { reserved + Times(numFats, spf) }

    function RootSectors(): nat { (rootEntries * 32 + 511) / 512 }

    /** Sector `k` of cluster `c`, counted from the start of the root directory. */
    function DataSector(c: nat, k: nat): nat
      requires 2 <= c
    {
      RootSectors() + Times(c - 2, spc) + k
    }

    /** The FAT has 12 sectors or more, so that it covers the 4096 cells a 12-bit link can name. */
    ghost predicate Ok() {
      && 1 <= spc <= 255
      && 1 <= numFats <= 255
      && 12 <= spf
      && 1 <= last < 4080
    }

    /** The drive holds the FATs, the root directory and the clusters 2..`last`. */
    ghost predicate Fits(disk: seq<Sector>) {
      Ok() && |disk| >= RootStart() + RootSectors() + Times(last - 1, spc)
    }
  }

  /** The geometry that `detect_fat12` takes from the boot sector. */
  function GeometryOf(boot: Sector, last: nat): Geometry {
    Geometry(boot[13], Word16(boot[14], boot[15]), boot[16], Word16(boot[17], boot[18]), Word16(boot[22], boot[23]),
        last)
  }

  /** The fields of `struct fat12_bpb`, in order; `rest` is what follows the FAT size. */
  datatype BootFields = BootFields(
    jump: seq<byte>, oem: seq<byte>, bytesPerSector: nat, sectorsPerCluster: byte, reservedSectors: nat, numFats: byte,
    rootDirEntries: nat, totalSectorsSmall: nat, media: byte, sectorsPerFat: nat, rest: seq<byte>)

  predicate FieldsOk(f: BootFields) {
    && |f.jump| == 3 && |f.oem| == 8 && |f.rest| == 488
    && f.bytesPerSector < 0x1_0000 && f.reservedSectors < 0x1_0000 && f.rootDirEntries < 0x1_0000
    && f.totalSectorsSmall < 0x1_0000 && f.sectorsPerFat < 0x1_0000
  }

  /** A 16-bit field, the low byte first. */
  function Half(n: nat): seq<byte>
    requires n < 0x1_0000
  {
    [n % 0x100, n / 0x100]
  }

  /** The boot sector: the fields one behind the other. */
  function BootBytes(f: BootFields): (s: Sector)
    requires FieldsOk(f)
  {
    f.jump + f.oem + Half(f.bytesPerSector) + [f.sectorsPerCluster] + Half(f.reservedSectors) + [f.numFats]
    + Half(f.rootDirEntries) + Half(f.totalSectorsSmall) + [f.media] + Half(f.sectorsPerFat) + f.rest
  }

  /** The driver finds the fields where they are. */
  lemma BootFieldsRead(f: BootFields, last: nat)
    requires FieldsOk(f)
    ensures GeometryOf(BootBytes(f), last) ==
              Geometry(f.sectorsPerCluster, f.reservedSectors, f.numFats, f.rootDirEntries, f.sectorsPerFat, last)
  {
    var b := BootBytes(f);
    assert b[13] == f.sectorsPerCluster && b[16] == f.numFats;
    assert b[14] == Half(f.reservedSectors)[0] && b[15] == Half(f.reservedSectors)[1];
    assert b[17] == Half(f.rootDirEntries)[0] && b[18] == Half(f.rootDirEntries)[1];
    assert b[22] == Half(f.sectorsPerFat)[0] && b[23] == Half(f.sectorsPerFat)[1];
  }

  /** The regions lie where the driver computes them, and the root directory has the least number of sectors that holds
      its entries of 32 bytes. */
  lemma Layout(g: Geometry, c: nat, k: nat)
    requires 2 <= c
    ensures g.RootStart() == g.reserved + g.numFats * g.spf
    ensures g.RootStart() + g.DataSector(c, k) == g.RootStart() + g.RootSectors() + (c - 2) * g.spc + k
    ensures 512 * g.RootSectors() - 512 < 32 * g.rootEntries <= 512 * g.RootSectors()
  {
    TimesIsProduct(g.numFats, g.spf);
    TimesIsProduct(c - 2, g.spc);
  }

  lemma DataSectorInside(g: Geometry, c: nat, k: nat)
    requires g.Ok() && 2 <= c <= g.last && k < g.spc
    ensures g.RootSectors() <= g.DataSector(c, k) < g.RootSectors() + Times(g.last - 1, g.spc)
  {
    TimesStep(c - 2, g.last - 1, g.spc);
  }

  /** Two different (cluster, sector) pairs never share a sector of the drive. */
  lemma DataSectorInjective(g: Geometry, c: nat, k: nat, d: nat, j: nat)
    requires g.Ok() && 2 <= c && 2 <= d && k < g.spc && j < g.spc
    ensures g.DataSector(c, k) == g.DataSector(d, j) <==> c == d && k == j
  {
    if c < d {
      TimesStep(c - 2, d - 2, g.spc);
    } else if d < c {
      TimesStep(d - 2, c - 2, g.spc);
    }
  }

  /** Copy `f` of FAT sector `k` lies inside the FAT region, and different (f, k) differ. */
  lemma FatSectorInside(g: Geometry, f: nat, k: nat)
    requires g.Ok() && f < g.numFats && k < g.spf
    ensures g.reserved + k + Times(f, g.spf) < g.RootStart()
    ensures if f == 0 then Times(f, g.spf) == 0 else Times(f, g.spf) >= g.spf
  {
    TimesStep(f, g.numFats, g.spf);
    if f >= 1 {
      TimesStep(0, f, g.spf);
    }
  }

  lemma FatSectorInjective(g: Geometry, f: nat, k: nat, e: nat, j: nat)
    requires g.Ok() && k < g.spf && j < g.spf
    ensures k + Times(f, g.spf) == j + Times(e, g.spf) <==> f == e && k == j
  {
    if f < e {
      TimesStep(f, e, g.spf);
    } else if e < f {
      TimesStep(e, f, g.spf);
    }
  }

  // ---------- packed FAT cells ----------

  /** Byte `b` of the first FAT copy. */
  function FatByte(g: Geometry, disk: seq<Sector>, b: nat): byte
    requires g.Fits(disk) && b < 6144
  {
    FatSectorInside(g, 0, b / 512);
    disk[g.reserved + b / 512][b % 512]
  }

  /** The bytes of the first FAT copy that hold cells. */
  type FatBytes = s: seq<byte> | |s| == 6144 witness seq(6144, _ => 0)

  function Bytes(g: Geometry, disk: seq<Sector>): (r: FatBytes)
    requires g.Fits(disk)
  {
    seq(6144, b requires 0 <= b < 6144 => FatByte(g, disk, b))
  }

  /** The 16 bits that hold cell `c`, together with 4 bits of a neighbour. */
  function Word16(lo: byte, hi: byte): (w: nat)
    ensures w < 0x1_0000
  {
    lo + 256 * hi
  }

  function Unpack(c: nat, w: nat): (v: Cell12)
    requires w < 0x1_0000
  {
    if c % 2 == 1 then w / 16 else w % 4096
  }

  /** The 16 bits to store back, with the neighbour's 4 bits kept. */
  function Pack(c: nat, w: nat, v: nat): (r: nat)
    requires w < 0x1_0000
    ensures r < 0x1_0000
  {
    if c % 2 == 1 then w % 16 + v % 4096 * 16 else w / 4096 * 4096 + v % 4096
  }

  function CellAt(b: FatBytes, c: nat): (v: Cell12)
    requires c < 4096
  {
    Unpack(c, Word16(b[c * 3 / 2], b[c * 3 / 2 + 1]))
  }

  function CellsOf(b: FatBytes): (f: FatTable)
  {
    seq(4096, c requires 0 <= c < 4096 => CellAt(b, c))
  }

  /** The whole table, as the driver reads it. */
  function Fat(g: Geometry, disk: seq<Sector>): (f: FatTable)
    requires g.Fits(disk)
  {
    CellsOf(Bytes(g, disk))
  }

  /** The bytes of the FAT after `fat12_write_fat_entry(c, v)`. */
  function StoreCell(b: FatBytes, c: nat, v: nat): (r: FatBytes)
    requires c < 4096
  {
    var w := Pack(c, Word16(b[c * 3 / 2], b[c * 3 / 2 + 1]), v);
    b[c * 3 / 2 := w % 256][c * 3 / 2 + 1 := w / 256]
  }

  lemma StoredCell(b: FatBytes, c: nat, v: nat)
    requires c < 4096
    ensures CellAt(StoreCell(b, c, v), c) == v % 4096
  {
    var w, w' := Word16(b[c * 3 / 2], b[c * 3 / 2 + 1]), Pack(c, Word16(b[c * 3 / 2], b[c * 3 / 2 + 1]), v);
    assert Word16(w' % 256, w' / 256) == w';
    HighPart(w % 16, v % 4096);
    PagePart(v % 4096, w / 4096);
  }

  /** Multiples of 16 and of 4096 beside a smaller part. */
  lemma HighPart(a: nat, k: nat)
    ensures (a + 16 * k) % 16 == a % 16 && (a + 16 * k) / 16 == a / 16 + k
  {
  }

  lemma PagePart(a: nat, k: nat)
    requires a < 4096
    ensures (a + 4096 * k) / 4096 == k && (a + 4096 * k) % 4096 == a
  {
  }

  lemma LowKept(w: nat, a: nat, k: nat)
    requires w == a % 16 + 16 * k
    ensures w % 256 % 16 == a % 16
  {
    HighPart(a % 16, k);
    HighPart(w % 256, 16 * (w / 256));
  }

  lemma HighKept(w: nat, m: nat, k: nat)
    requires w == 4096 * k + m && m < 4096
    ensures w / 256 / 16 == k
  {
    assert w / 256 == 16 * k + m / 256;
    HighPart(m / 256, k);
  }

  /** The half byte that a cell shares with its neighbour is the same in `x` or `y` as in `lo` or `hi`. */
  predicate NeighbourKept(odd: bool, lo: byte, hi: byte, x: byte, y: byte) {
    if odd then x % 16 == lo % 16 else y / 16 == hi / 16
  }

  lemma PackKeepsNeighbour(c: nat, lo: byte, hi: byte, v: nat)
    ensures var w := Pack(c, Word16(lo, hi), v); NeighbourKept(c % 2 == 1, lo, hi, w % 256, w / 256)
  {
    var w := Pack(c, Word16(lo, hi), v);
    if c % 2 == 1 {
      HighPart(lo, 16 * hi);
      LowKept(w, Word16(lo, hi), v % 4096);
    } else {
      PagePart(lo + 256 * (hi % 16), hi / 16);
      assert Word16(lo, hi) == lo + 256 * (hi % 16) + 4096 * (hi / 16);
      HighKept(w, v % 4096, hi / 16);
    }
  }

  /** A cell consists of one whole byte and of the half of the shared byte that belongs to it. */
  function Halves(odd: bool, lo: byte, hi: byte): nat { if odd then lo / 16 + 16 * hi else lo + 256 * (hi % 16) }

  lemma OddHalves(lo: byte, hi: byte)
    ensures Word16(lo, hi) / 16 == lo / 16 + 16 * hi
  {
    HighPart(lo, 16 * hi);
  }

  lemma EvenHalves(lo: byte, hi: byte)
    ensures Word16(lo, hi) % 4096 == lo + 256 * (hi % 16)
  {
    PagePart(lo + 256 * (hi % 16), hi / 16);
    assert Word16(lo, hi) == lo + 256 * (hi % 16) + 4096 * (hi / 16);
  }

  lemma CellBytes(c: nat, d: nat)
    requires c < d
    ensures c * 3 / 2 + 1 <= d * 3 / 2
    ensures c * 3 / 2 + 1 == d * 3 / 2 <==> d == c + 1 && c % 2 == 0
  {
  }

  /** Another cell, with its bytes at `q`, when the bytes at `p` are replaced. */
  lemma OtherHalves(b: FatBytes, c: bool, p: nat, x: byte, y: byte, d: bool, q: nat)
    requires p < 6143 && q < 6143 && p != q && NeighbourKept(c, b[p], b[p + 1], x, y)
    requires (q == p + 1 ==> !c && d) && (p == q + 1 ==> c && !d)
    ensures var b' := b[p := x][p + 1 := y]; Halves(d, b'[q], b'[q + 1]) == Halves(d, b[q], b[q + 1])
  {
  }

  /** Packed FAT access is an exact array of 12-bit cells: after the two bytes of cell `c` are
      replaced, cell `c` reads as `v` mod 4096 and every other cell reads as before. */
  lemma CellStore(b: FatBytes, c: nat, v: nat)
    requires c < 4096
    ensures CellsOf(StoreCell(b, c, v)) == Set(CellsOf(b), c, v % 4096)
  {
    hide Pack, Word16, NeighbourKept;
    var p, b' := c * 3 / 2, StoreCell(b, c, v);
    var w := Pack(c, Word16(b[p], b[p + 1]), v);
    StoredCell(b, c, v);
    PackKeepsNeighbour(c, b[p], b[p + 1], v);
    forall d | 0 <= d < 4096 && d != c ensures CellAt(b', d) == CellAt(b, d) {
      var q := d * 3 / 2;
      if c < d {
        CellBytes(c, d);
      } else {
        CellBytes(d, c);
      }
      OtherHalves(b, c % 2 == 1, p, w % 256, w / 256, d % 2 == 1, q);
      if d % 2 == 1 {
        OddHalves(b[q], b[q + 1]);
        OddHalves(b'[q], b'[q + 1]);
      } else {
        EvenHalves(b[q], b[q + 1]);
        EvenHalves(b'[q], b'[q + 1]);
      }
    }
  }

  /** The table with cell `c` set to `v`. */
  function Set(f: FatTable, c: nat, v: Cell12): (r: FatTable)
    requires c < 4096
  {
    f[c := v]
  }

  /** All FAT copies hold the same sectors. */
  ghost predicate Mirrored(g: Geometry, disk: seq<Sector>)
    requires g.Fits(disk)
  {
    forall f, k :: 0 <= f < g.numFats && 0 <= k < g.spf ==> SameCopy(g, disk, f, k)
  }

  ghost predicate SameCopy(g: Geometry, disk: seq<Sector>, f: nat, k: nat)
    requires g.Fits(disk) && f < g.numFats && k < g.spf
  {
    FatSectorInside(g, f, k);
    FatSectorInside(g, 0, k);
    disk[g.reserved + k + Times(f, g.spf)] == disk[g.reserved + k]
  }

  /** Sector `k` of the first `n` FAT copies is overwritten with `s`. */
  ghost function StoreFatSector(g: Geometry, disk: seq<Sector>, k: nat, s: Sector, n: nat): (r: seq<Sector>)
    requires g.Fits(disk) && k < g.spf && n <= g.numFats
    ensures |r| == |disk|
    decreases n
  {
    if n == 0 then disk else
    FatSectorInside(g, n - 1, k);
    StoreFatSector(g, disk, k, s, n - 1)[g.reserved + k + Times(n - 1, g.spf) := s]
  }

  lemma {:induction false} StoreFatSectorAt(g: Geometry, disk: seq<Sector>, k: nat, s: Sector, n: nat, f: nat, j: nat)
    requires g.Fits(disk) && k < g.spf && n <= g.numFats && f < g.numFats && j < g.spf
    ensures g.reserved + j + Times(f, g.spf) < |disk|
    ensures StoreFatSector(g, disk, k, s, n)[g.reserved + j + Times(f, g.spf)]
         == if j == k && f < n then s else disk[g.reserved + j + Times(f, g.spf)]
    decreases n
  {
    FatSectorInside(g, f, j);
    if n > 0 {
      StoreFatSectorAt(g, disk, k, s, n - 1, f, j);
      FatSectorInside(g, n - 1, k);
      FatSectorInjective(g, n - 1, k, f, j);
    }
  }

  lemma {:induction false} StoreFatSectorArea(g: Geometry, disk: seq<Sector>, k: nat, s: Sector, n: nat)
    requires g.Fits(disk) && k < g.spf && n <= g.numFats
    ensures StoreFatSector(g, disk, k, s, n)[g.RootStart()..] == disk[g.RootStart()..]
    decreases n
  {
    if n > 0 {
      StoreFatSectorArea(g, disk, k, s, n - 1);
      FatSectorInside(g, n - 1, k);
    }
  }

  /** After sector `k` is written to every copy it is the same in all of them; the other sectors
      are as much alike as before. */
  lemma StoreFatSectorMirror(g: Geometry, disk: seq<Sector>, k: nat, s: Sector, f: nat, j: nat)
    requires g.Fits(disk) && k < g.spf && f < g.numFats && j < g.spf
    ensures var disk' := StoreFatSector(g, disk, k, s, g.numFats);
            SameCopy(g, disk', f, j) <==> j == k || SameCopy(g, disk, f, j)
  {
    hide StoreFatSector;
    FatSectorInside(g, f, j);
    FatSectorInside(g, 0, j);
    StoreFatSectorAt(g, disk, k, s, g.numFats, f, j);
    StoreFatSectorAt(g, disk, k, s, g.numFats, 0, j);
  }

  /** Patching one byte of a FAT sector changes that byte of the table only. */
  lemma StoreFatSectorBytes(g: Geometry, disk: seq<Sector>, at: nat, b: byte)
    requires g.Fits(disk) && at < 6144 && g.reserved + at / 512 < |disk|
    ensures var s := Patch(disk[g.reserved + at / 512], at % 512, [b]);
            Bytes(g, StoreFatSector(g, disk, at / 512, s, g.numFats)) == Bytes(g, disk)[at := b]
  {
    var s := Patch(disk[g.reserved + at / 512], at % 512, [b]);
    var disk' := StoreFatSector(g, disk, at / 512, s, g.numFats);
    forall i | 0 <= i < 6144
      ensures FatByte(g, disk', i) == if i == at then b else FatByte(g, disk, i)
    {
      FatSectorInside(g, 0, i / 512);
      StoreFatSectorAt(g, disk, at / 512, s, g.numFats, 0, i / 512);
    }
  }

  /** Writing a sector behind the FATs leaves every FAT copy as it was. */
  lemma AreaWrite(g: Geometry, disk: seq<Sector>, x: nat, s: Sector)
    requires g.Fits(disk) && g.RootStart() + x < |disk|
    ensures var disk' := disk[g.RootStart() + x := s];
            && g.Fits(disk') && Fat(g, disk') == Fat(g, disk)
            && disk'[g.RootStart()..] == disk[g.RootStart()..][x := s]
            && disk'[..g.RootStart()] == disk[..g.RootStart()]
            && (Mirrored(g, disk) ==> Mirrored(g, disk'))
  {
    var disk': seq<Sector> := disk[g.RootStart() + x := s];
    forall b | 0 <= b < 6144
      ensures FatByte(g, disk', b) == FatByte(g, disk, b)
    {
      FatSectorInside(g, 0, b / 512);
    }
    assert Bytes(g, disk') == Bytes(g, disk);
    forall f, k | 0 <= f < g.numFats && 0 <= k < g.spf
      ensures SameCopy(g, disk', f, k) == SameCopy(g, disk, f, k)
    {
      FatSectorInside(g, f, k);
      FatSectorInside(g, 0, k);
    }
  }
}
