// The directory records that operations write, byte by byte.
module Records {
  import opened Disk
  import opened Objects
  import opened Directory
  import opened Names
  import opened Paths
  import opened Tree
  import opened Store
  import opened Lookup
  import opened Namespace
  import opened Fat12
  import opened Options

  /** A file that is opened and was not there has a record with its name and zeros. */
  lemma OpenedRecord(t: Tree, t': Tree, path: CString, f: OpenFile)
    requires OpenedAs(t, t', path, f) && Resolve(t, Keys(path)).None?
    ensures Keys(path) != [] && ParentOf(t, path) == Some(f.parent)
    ensures EntryIn(t', PlaceOf(f)) == Last(Keys(path)) + seq(21, _ => 0)
  {
    hide NewEntry, Resolve, ParentOf, Keys, EntryAt, IsDir, FirstReusable;
    EntryBytes(LastKey(path), 0, 0, 0);
    assert [0 as byte] + seq(14, _ => 0) + [0, 0] + [0, 0, 0, 0] == seq(21, _ => 0);
  }

  /** A new directory has a record with its name, the attribute 0x10, and its cluster. */
  lemma MadeRecord(o: Objs, t: Tree, fat: FatTable, o': Objs, t': Tree, path: CString) returns (p: Place, c: nat)
    requires MadeDir(o, t, fat, o', t', path) && forall x :: x in t.dirs ==> x in o.secs
    ensures Keys(path) != [] && ParentOf(t, path) == Some(p.0) && 2 <= c < 4080 && fat[c] == 0
    ensures EntryIn(t', p) == Last(Keys(path)) + [0x10] + seq(14, _ => 0) + [c % 0x100, c / 0x100] + [0, 0, 0, 0]
    ensures c in t'.dirs && FreshDir(t'.dirs[c], c, p.0)
  {
    hide NewEntry, FreshDir, ParentOf, Keys, Inserted;
    var d: nat, i: nat, t1;
    d, i, c, t1 :| MadeDirAt(o, t, fat, o', t', path, d, i, c, t1);
    p := (d, i);
    EntryBytes(LastKey(path), DIR, c, 0);
    InsertedSlot(t, t1, d, i, NewEntry(LastKey(path), DIR, c, 0));
    OtherDir(t1, c, t'.dirs[c], p);
  }

  lemma InsertedSlot(t: Tree, t1: Tree, d: nat, i: nat, e: Raw)
    requires Inserted(t, t1, d, i, e)
    ensures d in t.dirs && EntryIn(t1, (d, i)) == e
  {
  }

  lemma OtherDir(t: Tree, c: nat, s: seq<Raw>, p: Place)
    requires p.0 != c
    ensures EntryIn(WithDir(t, c, s), p) == EntryIn(t, p)
  {
  }

  /** A renamed entry is copied under the new name, with attributes, cluster and size, but without times and the other
      fields between them; its old record is marked as deleted. */
  lemma MovedRecords(o: Objs, t: Tree, home: Homes, o': Objs, t': Tree, home': Homes, ds: set<nat>, oldpath: CString,
                     newpath: CString)
    returns (p: Place, q: Place, e: Raw)
    requires WellFormed(t, home, {}) && WellFormed(t', home', {}) && Moved(o, t, o', t', ds, oldpath, newpath)
    ensures Resolve(t, Keys(oldpath)) == Some(p) && EntryAt(t, p, e)
    ensures Keys(newpath) != [] && ParentOf(t, newpath) == Some(q.0)
    ensures EntryIn(t', q) == Last(Keys(newpath)) + [e[11]] + seq(14, _ => 0) + e[26..32]
    ensures EntryIn(t', p) == [0xE5] + e[1..]
  {
    hide WellFormed, Resolve, ParentOf, Keys, EntryAt, NameFree, Copied, Redirected, Renamed;
    var d: nat, i: nat, t1;
    p, e, d, i, t1 :| MovedAt(o, t, o', t', ds, oldpath, newpath, p, e, d, i, t1);
    q := (d, i);
    KeysStart(newpath, |Keys(newpath)| - 1);
    CopiedBytes(LastKey(newpath), e);
    MovedSlots(t, t1, home, t', p, e, d, i, LastKey(newpath));
    assert EntryAt(t, p, e) by { RenamedAt(t, t1, t', p, e, d, i, LastKey(newpath)); }
  }

  lemma RenamedAt(t: Tree, t1: Tree, t': Tree, p: Place, e: Raw, d: nat, i: nat, key: Key)
    requires Renamed(t, t1, t', p, e, d, i, key)
    ensures EntryAt(t, p, e)
  {
  }

  lemma CopiedBytes(key: Key, e: Raw)
    ensures Copied(key, e) == key + [e[11]] + seq(14, _ => 0) + e[26..32]
  {
    FieldBounds(e);
    EntryBytes(key, Attr(e), Cluster(e), Size(e));
    ClusterBytes(e);
    SizeBytes(e);
    hide NewEntry, Cluster, Size;
    assert e[26..32] == [e[26], e[27]] + [e[28], e[29], e[30], e[31]];
  }

  lemma ClusterBytes(e: Raw)
    ensures [Cluster(e) % 0x100, Cluster(e) / 0x100] == [e[26], e[27]]
  {
  }

  lemma SizeBytes(e: Raw)
    ensures var n := Size(e);
            [n % 0x100, n / 0x100 % 0x100, n / 0x1_0000 % 0x100, n / 0x100_0000] == [e[28], e[29], e[30], e[31]]
  {
    hide *;
    QuadBytes(e[28], e[29], e[30], e[31]);
    SizeIs(e);
  }

  lemma SizeIs(e: Raw)
    ensures Size(e) == Quad(e[28], e[29], e[30], e[31])
  {
  }

  lemma QuadBytes(a: byte, b: byte, c: byte, d: byte)
    ensures var n := Quad(a, b, c, d);
            n % 0x100 == a && n / 0x100 % 0x100 == b && n / 0x1_0000 % 0x100 == c && n / 0x100_0000 == d
  {
    var x, y: nat := c + 0x100 * d, b + 0x100 * (c + 0x100 * d);
    var n := a + 0x100 * y;
    assert n / 0x100 == y && y / 0x100 == x && x / 0x100 == d;
    assert n / 0x1_0000 == n / 0x100 / 0x100 && n / 0x100_0000 == n / 0x100 / 0x100 / 0x100;
  }

  lemma MovedSlots(t: Tree, t1: Tree, home: Homes, t': Tree, p: Place, e: Raw, d: nat, i: nat, key: Key)
    requires WellFormed(t, home, {}) && Renamed(t, t1, t', p, e, d, i, key) && key[0] != DOT
    ensures EntryIn(t', (d, i)) == Copied(key, e) && EntryIn(t', p) == [0xE5] + e[1..]
  {
    RenamedEntries(t, t1, t', home, p, e, d, i, key, (d, i), Copied(key, e));
    hide WellFormed, Inserted, Copied, Redirected;
    assert Tombstone(e) == [0xE5] + e[1..];
  }
}
