// 32-byte directory entries and the slots of a directory.
module Directory {
  import opened Disk

  /** `struct fat12_dir_entry`, packed. */
  type Raw = r: seq<byte> | |r| == 32 witness seq(32, _ => 0)

  /** The padded 8.3 name: 8 bytes of name and 3 of extension. */
  type Key = k: seq<byte> | |k| == 11 witness seq(11, _ => 32)

  const FREE: byte := 0xE5
  const LFN: byte := 0x0F
  const DIR: byte := 0x10
  const DOT: byte := 0x2E
  const BLANK: byte := 0x20

  function ZeroEntry(): Raw { seq(32, _ => 0) }
  const DOT_KEY: Key := [0x2E, 0x20, 0x20, 0x20, 0x20, 0x20, 0x20, 0x20, 0x20, 0x20, 0x20]
  const DOTDOT_KEY: Key := [0x2E, 0x2E, 0x20, 0x20, 0x20, 0x20, 0x20, 0x20, 0x20, 0x20, 0x20]

  function KeyOf(r: Raw): Key { r[..11] }

  function Attr(r: Raw): byte { r[11] }

  function Cluster(r: Raw): nat { r[26] as nat + 0x100 * r[27] as nat }

  function Size(r: Raw): nat {
    Quad(r[28], r[29], r[30], r[31])
  }

  /** A little-endian 32-bit number. */
  function Quad(a: nat, b: nat, c: nat, d: nat): nat {
    a + 0x100 * (b + 0x100 * (c + 0x100 * d))
  }

  lemma QuadDigits(n: nat)
    ensures Quad(n % 0x100, n / 0x100 % 0x100, n / 0x1_0000 % 0x100, n / 0x100_0000 % 0x100) == n % 0x1_0000_0000
  {
    TwoDigits(n);
    TwoDigits(n / 0x1_0000);
    assert n / 0x1_0000 / 0x100 == n / 0x100_0000;
    TwoWords(n);
  }

  lemma TwoDigits(n: nat)
    ensures n % 0x100 + 0x100 * (n / 0x100 % 0x100) == n % 0x1_0000
  {
    var q := n / 0x100;
    assert n == n % 0x100 + 0x100 * (q % 0x100) + 0x1_0000 * (q / 0x100);
  }

  lemma TwoWords(n: nat)
    ensures n % 0x1_0000 + 0x1_0000 * (n / 0x1_0000 % 0x1_0000) == n % 0x1_0000_0000
  {
    var q := n / 0x1_0000;
    assert n == n % 0x1_0000 + 0x1_0000 * (q % 0x1_0000) + 0x1_0000_0000 * (q / 0x1_0000);
  }

  predicate IsDir(r: Raw) { Attr(r) / 16 % 2 == 1 }

  /** "." or "..", as `fat12_is_dir_empty` and `fat12_listcontent` tell them. */
  predicate IsDot(r: Raw) {
    r[0] == DOT && (r[1] == BLANK || (r[1] == DOT && r[2] == BLANK))
  }

  /** Stores to the 16-bit and the 32-bit field keep the low bits of the value. */
  function WithCluster(r: Raw, c: nat): (r': Raw)
    ensures Cluster(r') == c % 0x1_0000 && KeyOf(r') == KeyOf(r) && Attr(r') == Attr(r) && Size(r') == Size(r)
  {
    r[26 := c % 0x100][27 := c / 0x100 % 0x100]
  }

  function WithSize(r: Raw, n: nat): (r': Raw)
    ensures Size(r') == n % 0x1_0000_0000 && KeyOf(r') == KeyOf(r) && Attr(r') == Attr(r) && Cluster(r') == Cluster(r)
  {
    QuadDigits(n);
    r[28 := n % 0x100][29 := n / 0x100 % 0x100][30 := n / 0x1_0000 % 0x100][31 := n / 0x100_0000 % 0x100]
  }

  function Tombstone(r: Raw): (r': Raw)
    ensures r'[0] == FREE
  {
    r[0 := FREE]
  }

  /** A zeroed entry with the given name, attributes, cluster and size. */
  function NewEntry(key: Key, attr: byte, c: nat, n: nat): (r: Raw)
    ensures KeyOf(r) == key && Attr(r) == attr && Cluster(r) == c % 0x1_0000 && Size(r) == n % 0x1_0000_0000
  {
    WithSize(WithCluster(key + [attr] + seq(20, _ => 0), c), n)
  }

  /** A new entry as `struct fat12_dir_entry` has it: name and extension, attributes, 14 bytes of times and other fields
      that stay 0, first cluster, size; the low bytes first. */
  lemma EntryBytes(key: Key, attr: byte, c: nat, n: nat)
    requires c < 0x1_0000 && n < 0x1_0000_0000
    ensures NewEntry(key, attr, c, n)
         == key + [attr] + seq(14, _ => 0) + [c % 0x100, c / 0x100]
            + [n % 0x100, n / 0x100 % 0x100, n / 0x1_0000 % 0x100, n / 0x100_0000]
  {
    var top, zeros := n / 0x100_0000, seq(20, _ => 0);
    assert top % 0x100 == top && c / 0x100 % 0x100 == c / 0x100;
    assert zeros[..14] == seq(14, _ => 0);
    QuadDigits(n);
    hide Quad;
  }

  // ---------- slots ----------

  /** Slot `i` is 32 bytes of sector `i / 16` of the directory. */
  function Slots(secs: seq<Sector>, n: nat): (s: seq<Raw>)
    requires n <= 16 * |secs|
  {
    seq(n, i requires 0 <= i < n => secs[i / 16][i % 16 * 32..i % 16 * 32 + 32])
  }

  /** Writing 32 bytes back into their sector changes one slot. */
  lemma SlotWrite(secs: seq<Sector>, n: nat, i: nat, r: Raw)
    requires n <= 16 * |secs| && i < n
    ensures Slots(secs[i / 16 := Patch(secs[i / 16], i % 16 * 32, r)], n) == Slots(secs, n)[i := r]
  {
    var sec: Sector := Patch(secs[i / 16], i % 16 * 32, r);
    var secs': seq<Sector> := secs[i / 16 := sec];
    forall j | 0 <= j < n
      ensures Slots(secs', n)[j] == Slots(secs, n)[i := r][j]
    {
      if j == i {
        assert sec[i % 16 * 32..i % 16 * 32 + 32] == r;
      } else if j / 16 == i / 16 {
        PatchElsewhere(secs[i / 16], i % 16, r, j % 16);
      }
    }
  }

  lemma PatchElsewhere(s: Sector, a: nat, r: Raw, b: nat)
    requires a < 16 && b < 16 && a != b
    ensures Patch(s, a * 32, r)[b * 32..b * 32 + 32] == s[b * 32..b * 32 + 32]
  {
    if a < b {
      assert a * 32 + 32 <= b * 32;
    } else {
      assert b * 32 + 32 <= a * 32;
    }
  }

  function Zeros(n: nat): seq<Sector> { seq(n, _ => ZeroSector()) }

  function ZeroSlots(n: nat): seq<Raw> { seq(n, _ => ZeroEntry()) }

  /** Zeroed sectors behind a directory are zeroed slots behind its slots. */
  lemma SlotsGrow(secs: seq<Sector>, k: nat)
    ensures Slots(secs + Zeros(k), 16 * (|secs| + k)) == Slots(secs, 16 * |secs|) + ZeroSlots(16 * k)
  {
    var n := 16 * (|secs| + k);
    forall i | 0 <= i < n
      ensures Slots(secs + Zeros(k), n)[i] == (Slots(secs, 16 * |secs|) + ZeroSlots(16 * k))[i]
    {
      if i >= 16 * |secs| {
        assert (secs + Zeros(k))[i / 16] == ZeroSector();
        assert ZeroSector()[i % 16 * 32..i % 16 * 32 + 32] == ZeroEntry();
      }
    }
  }

  // ---------- which slots count ----------

  /** No end marker among the first `n` slots. */
  predicate NoEnd(s: seq<Raw>, n: nat)
    requires n <= |s|
  {
    forall j :: 0 <= j < n ==> s[j][0] != 0
  }

  /** A used slot: before the end marker and not a tombstone. */
  predicate Live(s: seq<Raw>, i: nat) {
    i < |s| && NoEnd(s, i + 1) && s[i][0] != FREE
  }

  /** A live slot that is not part of a long file name. Lookups see these. */
  predicate Visible(s: seq<Raw>, i: nat) {
    Live(s, i) && Attr(s[i]) != LFN
  }

  /** A visible slot that names a file or a directory other than "." and "..". */
  predicate Ordinary(s: seq<Raw>, i: nat) {
    Visible(s, i) && !IsDot(s[i])
  }

  predicate Hit(s: seq<Raw>, i: nat, key: Key) {
    Visible(s, i) && KeyOf(s[i]) == key
  }

  // ---------- how operations change the slots ----------

  /** `s'` is `s` with entry `e` live in slot `k`, which was not live before; every other slot
      keeps its liveness and every live slot its bytes. */
  ghost predicate InsertedAt(s: seq<Raw>, s': seq<Raw>, k: nat, e: Raw) {
    && !Live(s, k) && Live(s', k) && s'[k] == e
    && |s| <= |s'|
    && (forall j: nat :: j != k ==> (Live(s', j) <==> Live(s, j)))
    && (forall j: nat :: Live(s, j) ==> s'[j] == s[j])
  }

  /** The first slot that can be reused: a tombstone, the end marker, or the end of the slots. */
  predicate FirstReusable(s: seq<Raw>, k: nat) {
    k <= |s|
    && (forall j :: 0 <= j < k ==> s[j][0] != 0 && s[j][0] != FREE)
    && (k < |s| ==> s[k][0] == 0 || s[k][0] == FREE)
  }

  lemma ReusableFacts(s: seq<Raw>, k: nat)
    requires FirstReusable(s, k)
    ensures k <= |s| && (k < |s| ==> s[k][0] == 0 || s[k][0] == FREE)
    ensures FirstReusable(s, |s|) <==> k == |s|
  {
  }

  lemma NewEntryStart(key: Key, attr: byte, c: nat, n: nat)
    ensures NewEntry(key, attr, c, n)[0] == key[0]
  {
    assert KeyOf(NewEntry(key, attr, c, n))[0] == key[0];
  }

  /** A tombstone is overwritten. */
  lemma InsertAtTombstone(s: seq<Raw>, k: nat, e: Raw)
    requires FirstReusable(s, k) && k < |s| && s[k][0] == FREE && e[0] != 0 && e[0] != FREE
    ensures InsertedAt(s, s[k := e], k, e)
  {
    forall j: nat | j != k
      ensures Live(s[k := e], j) <==> Live(s, j)
    {
      if j < |s| {
        EndSame(s, k, e, j + 1);
      }
    }
    assert NoEnd(s[k := e], k + 1);
  }

  lemma EndSame(s: seq<Raw>, k: nat, e: Raw, n: nat)
    requires k < |s| && n <= |s| && s[k][0] != 0 && e[0] != 0
    ensures NoEnd(s[k := e], n) <==> NoEnd(s, n)
  {
    if NoEnd(s[k := e], n) {
      forall j | 0 <= j < n ensures s[j][0] != 0 {
        assert s[k := e][j][0] != 0;
      }
    }
  }

  /** The end marker, or the first slot past a full directory that was extended by zeroed slots,
      is overwritten, and the next slot (if there is one) is an end marker. */
  lemma InsertAtEnd(s: seq<Raw>, s': seq<Raw>, k: nat, e: Raw)
    requires FirstReusable(s, k) && k < |s'| && |s| <= |s'| && e[0] != 0 && e[0] != FREE
    requires k < |s| ==> s[k][0] == 0
    requires s'[k] == e && (forall j :: 0 <= j < k ==> s'[j] == s[j])
    requires k + 1 < |s'| ==> s'[k + 1][0] == 0
    ensures InsertedAt(s, s', k, e)
  {
    forall j: nat | j != k
      ensures Live(s', j) <==> Live(s, j)
      ensures Live(s, j) ==> j < k
    {
      if k < j < |s'| {
        assert s'[k + 1][0] == 0;
      }
      if k < j < |s| {
        assert s[k][0] == 0;
      }
    }
    assert NoEnd(s', k + 1);
  }

  /** The three ways in which `fat12_create_entry` writes its entry: over a tombstone, behind the
      last slot of a full directory, or over the end marker, which then moves to slot `k + 1` (and is
      dropped if the directory ends there and cannot be extended). */
  lemma CreateInserts(s: seq<Raw>, k: nat, e: Raw, n: nat)
    requires FirstReusable(s, k) && e[0] != 0 && e[0] != FREE && k < |s| + n && (k < |s| ==> n == 0 && s[k][0] == FREE)
    ensures InsertedAt(s, (s + ZeroSlots(n))[k := e], k, e)
  {
    var s' := (s + ZeroSlots(n))[k := e];
    if k < |s| {
      assert s' == s[k := e];
      InsertAtTombstone(s, k, e);
    } else {
      InsertAtEnd(s, s', k, e);
    }
  }

  /** A name that starts with the tombstone byte is lost: the new entry is live exactly when its name
      does not start with that byte. */
  lemma CreatedLive(s: seq<Raw>, k: nat, e: Raw, n: nat)
    requires FirstReusable(s, k) && k < |s| + n && e[0] != 0
    ensures Live((s + ZeroSlots(n))[k := e], k) <==> e[0] != FREE
  {
    assert NoEnd((s + ZeroSlots(n))[k := e], k + 1);
  }

  lemma CreateAtMarker(s: seq<Raw>, s1: seq<Raw>, s2: seq<Raw>, k: nat, e: Raw, n: nat, ok: bool)
    requires FirstReusable(s, k) && e[0] != 0 && e[0] != FREE && k < |s| && s[k][0] == 0
    requires s1 == (s + ZeroSlots(0))[k := e]
    requires if ok then k + 1 < |s1| + n && s2 == (s1 + ZeroSlots(n))[k + 1 := ZeroEntry()]
             else k + 1 == |s| && s2 == s1 + ZeroSlots(n)
    ensures InsertedAt(s, s2, k, e)
  {
    assert s1 == s[k := e];
    InsertAtEnd(s, s2, k, e);
  }

  /** Slot `k` is live with other bytes, or dead, afterwards; all others stay. */
  lemma UpdateLive(s: seq<Raw>, k: nat, e: Raw)
    requires Live(s, k) && e[0] != 0
    ensures forall j: nat :: j != k ==> (Live(s[k := e], j) <==> Live(s, j))
    ensures Live(s[k := e], k) <==> e[0] != FREE
  {
    forall j: nat {:trigger NoEnd(s, j + 1)} | j < |s|
      ensures NoEnd(s[k := e], j + 1) <==> NoEnd(s, j + 1)
    {
      EndSame(s, k, e, j + 1);
    }
  }
}
