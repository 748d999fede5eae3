// The kernel heap seen from outside: the blocks in address order, and the free ones in list order.
module HeapState {
  import opened Machine
  import opened Sequences

  const HEADER: nat := 16

  datatype Block = Block(addr: nat, size: nat, used: bool)

  /** `blocks` tile the heap in address order, `free` are the addresses on the free list in list order. */
  datatype State = State(blocks: seq<Block>, free: seq<nat>)

  /** `ALIGN(size + sizeof(block_header_t))` in 32-bit arithmetic. */
  function Need(size: Word): (n: Word)
    ensures n % 16 == 0
  {
    (size + 31) % 0x1_0000_0000 / 16 * 16
  }

  /** The block that is asked for holds the header and the payload exactly when the sum does not wrap. */
  lemma NeedFits(size: Word)
    ensures Need(size) >= size + HEADER <==> size + 31 < 0x1_0000_0000
    ensures size + 31 < 0x1_0000_0000 ==> size + HEADER <= Need(size) < size + HEADER + 16
    ensures 0 < size && size + 31 < 0x1_0000_0000 ==> Need(size) >= 32
  {
  }

  /** Where block `i` starts, or the end of the heap. */
  function Edge(blocks: seq<Block>, i: nat, end: nat): nat {
    if i < |blocks| then blocks[i].addr else end
  }

  predicate BlockOk(b: Block) {
    b.addr % 16 == 0 && b.size % 16 == 0 && b.size >= 16
  }

  /** The blocks tile [start, end) without gaps. */
  ghost predicate Tiling(blocks: seq<Block>, start: nat, end: nat) {
    && Edge(blocks, 0, end) == start
    && forall i :: 0 <= i < |blocks| ==>
        BlockOk(blocks[i]) && blocks[i].addr + blocks[i].size == Edge(blocks, i + 1, end)
  }

  ghost predicate FreeAt(blocks: seq<Block>, a: nat) {
    exists i :: 0 <= i < |blocks| && blocks[i].addr == a && !blocks[i].used
  }

  /** The free list holds every free block once, and nothing else. */
  ghost predicate Listed(blocks: seq<Block>, free: seq<nat>) {
    Distinct(free) && forall a :: a in free <==> FreeAt(blocks, a)
  }

  ghost predicate Ok(s: State, start: nat, end: nat) {
    Tiling(s.blocks, start, end) && Listed(s.blocks, s.free)
  }

  lemma Tile(blocks: seq<Block>, start: nat, end: nat, j: nat)
    requires Tiling(blocks, start, end) && j < |blocks|
    ensures BlockOk(blocks[j]) && blocks[j].addr + blocks[j].size == Edge(blocks, j + 1, end)
  {
  }

  /** Blocks further on start behind the end of this one. */
  lemma {:induction false} Ordered(blocks: seq<Block>, start: nat, end: nat, i: nat, j: nat)
    requires Tiling(blocks, start, end) && i < |blocks| && i < j <= |blocks|
    ensures blocks[i].addr + blocks[i].size <= Edge(blocks, j, end)
    decreases j
  {
    hide Tiling, BlockOk;
    Tile(blocks, start, end, j - 1);
    if i + 1 < j {
      Ordered(blocks, start, end, i, j - 1);
    }
  }

  lemma SameBlock(blocks: seq<Block>, start: nat, end: nat, i: nat, j: nat)
    requires Tiling(blocks, start, end) && i < |blocks| && j < |blocks| && blocks[i].addr == blocks[j].addr
    ensures i == j
  {
    if i < j {
      Ordered(blocks, start, end, i, j);
    } else if j < i {
      Ordered(blocks, start, end, j, i);
    }
  }

  /** Every block lies in the heap. */
  lemma Inside(blocks: seq<Block>, start: nat, end: nat, i: nat)
    requires Tiling(blocks, start, end) && i < |blocks|
    ensures start <= blocks[i].addr && blocks[i].addr + blocks[i].size <= end
  {
    Ordered(blocks, start, end, i, |blocks|);
    if i > 0 {
      Ordered(blocks, start, end, 0, i);
    }
  }

  // ---------- allocating ----------

  function Without(s: seq<nat>, k: nat): seq<nat>
    requires k < |s|
  {
    s[..k] + s[k + 1..]
  }

  /** A block is split if what is left can hold a header and 16 bytes. */
  predicate Splits(b: Block, need: nat) { b.size >= need + HEADER + 16 }

  /** Block `i` is cut behind its first `need` bytes. */
  function Cut(blocks: seq<Block>, i: nat, need: nat): seq<Block>
    requires i < |blocks| && need <= blocks[i].size
  {
    blocks[..i] + [Block(blocks[i].addr, need, true), Block(blocks[i].addr + need, blocks[i].size - need, false)]
    + blocks[i + 1..]
  }

  lemma CutAt(blocks: seq<Block>, i: nat, need: nat, j: nat)
    requires i < |blocks| && need <= blocks[i].size && j <= |blocks|
    ensures |Cut(blocks, i, need)| == |blocks| + 1
    ensures Cut(blocks, i, need)[j] == if j < i then blocks[j]
                                       else if j == i then Block(blocks[i].addr, need, true)
                                       else if j == i + 1 then
                                         Block(blocks[i].addr + need, blocks[i].size - need, false)
                                       else blocks[j - 1]
  {
  }

  function Mark(blocks: seq<Block>, i: nat, used: bool): seq<Block>
    requires i < |blocks|
  {
    blocks[i := blocks[i].(used := used)]
  }

  /** Block `i`, which is entry `k` of the free list, is given out for a request of `need` bytes. */
  function Carve(s: State, i: nat, k: nat, need: nat): State
    requires i < |s.blocks| && k < |s.free| && need <= s.blocks[i].size
  {
    if Splits(s.blocks[i], need)
    then State(Cut(s.blocks, i, need), [s.blocks[i].addr + need] + Without(s.free, k))
    else State(Mark(s.blocks, i, true), Without(s.free, k))
  }

  lemma CutTiling(blocks: seq<Block>, start: nat, end: nat, i: nat, need: nat)
    requires Tiling(blocks, start, end) && i < |blocks| && need % 16 == 0 && 16 <= need && Splits(blocks[i], need)
    ensures Tiling(Cut(blocks, i, need), start, end)
  {
    hide Cut, BlockOk, Tiling, Edge;
    var bs := Cut(blocks, i, need);
    CutAt(blocks, i, need, 0);
    CutEdge(blocks, i, need, 0, end);
    assert Edge(blocks, 0, end) == start by { TilingStart(blocks, start, end); }
    CutOk(blocks[i], need) by { Tile(blocks, start, end, i); }
    forall j | 0 <= j < |bs| ensures BlockOk(bs[j]) && bs[j].addr + bs[j].size == Edge(bs, j + 1, end) {
      CutAt(blocks, i, need, j);
      CutEdge(blocks, i, need, j + 1, end);
      Tile(blocks, start, end, if j <= i then j else j - 1);
    }
    TilingIs(bs, start, end);
  }

  lemma CutEdge(blocks: seq<Block>, i: nat, need: nat, j: nat, end: nat)
    requires i < |blocks| && need <= blocks[i].size && j <= |blocks| + 1
    ensures Edge(Cut(blocks, i, need), j, end) == if j <= i then Edge(blocks, j, end)
                                                 else if j == i + 1 then blocks[i].addr + need
                                                 else Edge(blocks, j - 1, end)
  {
  }

  lemma TilingStart(blocks: seq<Block>, start: nat, end: nat)
    requires Tiling(blocks, start, end)
    ensures Edge(blocks, 0, end) == start
  {
  }

  lemma TilingIs(blocks: seq<Block>, start: nat, end: nat)
    requires Edge(blocks, 0, end) == start
    requires forall j :: 0 <= j < |blocks| ==>
              BlockOk(blocks[j]) && blocks[j].addr + blocks[j].size == Edge(blocks, j + 1, end)
    ensures Tiling(blocks, start, end)
  {
  }

  lemma CutOk(b: Block, need: nat)
    requires BlockOk(b) && need % 16 == 0 && 16 <= need && Splits(b, need)
    ensures BlockOk(Block(b.addr, need, true)) && BlockOk(Block(b.addr + need, b.size - need, false))
  {
  }

  lemma MarkTiling(blocks: seq<Block>, start: nat, end: nat, i: nat, used: bool)
    requires Tiling(blocks, start, end) && i < |blocks|
    ensures Tiling(Mark(blocks, i, used), start, end)
  {
    hide BlockOk;
    var bs := Mark(blocks, i, used);
    forall j | 0 <= j < |bs| ensures BlockOk(bs[j]) && bs[j].addr + bs[j].size == Edge(bs, j + 1, end) {
      Tile(blocks, start, end, j);
      SameOk(blocks[j], bs[j]);
    }
  }

  lemma SameOk(b: Block, c: Block)
    requires BlockOk(b) && c.addr == b.addr && c.size == b.size
    ensures BlockOk(c)
  {
  }

  lemma WithoutHas(s: seq<nat>, k: nat)
    requires k < |s| && Distinct(s)
    ensures Distinct(Without(s, k)) && forall a :: a in Without(s, k) <==> a in s && a != s[k]
  {
    var t := Without(s, k);
    forall a | a in s && a != s[k] ensures a in t {
      var j :| 0 <= j < |s| && s[j] == a;
      assert t[if j < k then j else j - 1] == a;
    }
  }

  lemma FreeBlock(blocks: seq<Block>, i: nat)
    requires i < |blocks| && !blocks[i].used
    ensures FreeAt(blocks, blocks[i].addr)
  {
  }

  /** Which blocks are free after block `i` was cut, or marked. */
  lemma CutFree(blocks: seq<Block>, start: nat, end: nat, i: nat, need: nat, a: nat)
    requires Tiling(blocks, start, end) && i < |blocks| && need <= blocks[i].size
    ensures FreeAt(Cut(blocks, i, need), a) <==>
              (FreeAt(blocks, a) && a != blocks[i].addr) || a == blocks[i].addr + need
  {
    hide Tiling, BlockOk, Cut;
    var bs := Cut(blocks, i, need);
    CutAt(blocks, i, need, i + 1);
    if FreeAt(blocks, a) && a != blocks[i].addr {
      var j :| 0 <= j < |blocks| && blocks[j].addr == a && !blocks[j].used;
      CutAt(blocks, i, need, if j < i then j else j + 1);
      FreeBlock(bs, if j < i then j else j + 1);
    }
    if a == blocks[i].addr + need {
      FreeBlock(bs, i + 1);
    }
    if FreeAt(bs, a) {
      var j :| 0 <= j < |bs| && bs[j].addr == a && !bs[j].used;
      CutAt(blocks, i, need, j);
      if j != i + 1 {
        var j' := if j < i then j else j - 1;
        FreeBlock(blocks, j');
        if a == blocks[i].addr {
          SameBlock(blocks, start, end, i, j');
        }
      }
    }
  }

  lemma MarkFree(blocks: seq<Block>, start: nat, end: nat, i: nat, used: bool, a: nat)
    requires Tiling(blocks, start, end) && i < |blocks|
    ensures FreeAt(Mark(blocks, i, used), a) <==> if a == blocks[i].addr then !used else FreeAt(blocks, a)
  {
    hide Tiling, BlockOk;
    var bs := Mark(blocks, i, used);
    if FreeAt(blocks, a) && a != blocks[i].addr {
      var j :| 0 <= j < |blocks| && blocks[j].addr == a && !blocks[j].used;
      assert bs[j] == blocks[j];
    }
    if a == blocks[i].addr && !used {
      FreeBlock(bs, i);
    }
    if FreeAt(bs, a) {
      var j :| 0 <= j < |bs| && bs[j].addr == a && !bs[j].used;
      if j != i {
        FreeBlock(blocks, j);
        if a == blocks[i].addr {
          SameBlock(blocks, start, end, i, j);
        }
      }
    }
  }

  /** Giving a block out keeps the invariant. */
  lemma CarveOk(s: State, start: nat, end: nat, i: nat, k: nat, need: nat)
    requires Ok(s, start, end) && i < |s.blocks| && k < |s.free| && s.free[k] == s.blocks[i].addr
    requires 16 <= need <= s.blocks[i].size && need % 16 == 0
    ensures Ok(Carve(s, i, k, need), start, end)
  {
    hide Tiling, BlockOk, Cut, Mark, FreeAt, Without;
    var b, s' := s.blocks[i], Carve(s, i, k, need);
    WithoutHas(s.free, k);
    if Splits(b, need) {
      CutTiling(s.blocks, start, end, i, need);
      NotInside(s.blocks, start, end, i, b.addr + need);
    } else {
      MarkTiling(s.blocks, start, end, i, true);
    }
    forall a ensures a in s'.free <==> FreeAt(s'.blocks, a) {
      if Splits(b, need) {
        CutFree(s.blocks, start, end, i, need, a);
      } else {
        MarkFree(s.blocks, start, end, i, true, a);
      }
    }
  }

  /** No block starts inside another one. */
  lemma NotInside(blocks: seq<Block>, start: nat, end: nat, i: nat, a: nat)
    requires Tiling(blocks, start, end) && i < |blocks| && blocks[i].addr < a < blocks[i].addr + blocks[i].size
    ensures !FreeAt(blocks, a)
  {
    hide Tiling, BlockOk;
    if FreeAt(blocks, a) {
      var j :| 0 <= j < |blocks| && blocks[j].addr == a && !blocks[j].used;
      if i < j {
        Ordered(blocks, start, end, i, j);
      } else {
        Ordered(blocks, start, end, j, i);
      }
    }
  }

  // ---------- freeing ----------

  /** Blocks `i` and `i + 1` become one free block. */
  function Joined(blocks: seq<Block>, i: nat): seq<Block>
    requires i + 1 < |blocks|
  {
    blocks[..i] + [Block(blocks[i].addr, blocks[i].size + blocks[i + 1].size, false)] + blocks[i + 2..]
  }

  lemma JoinedAt(blocks: seq<Block>, i: nat, j: nat)
    requires i + 1 < |blocks| && j < |blocks| - 1
    ensures |Joined(blocks, i)| == |blocks| - 1
    ensures Joined(blocks, i)[j] == if j < i then blocks[j]
                                    else if j == i then
                                      Block(blocks[i].addr, blocks[i].size + blocks[i + 1].size, false)
                                    else blocks[j + 1]
  {
  }

  lemma JoinedEdge(blocks: seq<Block>, i: nat, j: nat, end: nat)
    requires i + 1 < |blocks| && j <= |blocks| - 1
    ensures Edge(Joined(blocks, i), j, end) == if j <= i then Edge(blocks, j, end) else Edge(blocks, j + 1, end)
  {
  }

  lemma JoinedTiling(blocks: seq<Block>, start: nat, end: nat, i: nat)
    requires Tiling(blocks, start, end) && i + 1 < |blocks|
    ensures Tiling(Joined(blocks, i), start, end)
  {
    hide Joined, BlockOk, Tiling, Edge;
    var bs := Joined(blocks, i);
    JoinedAt(blocks, i, 0);
    JoinedEdge(blocks, i, 0, end);
    assert Edge(blocks, 0, end) == start by { TilingStart(blocks, start, end); }
    Tile(blocks, start, end, i);
    Tile(blocks, start, end, i + 1);
    assert Edge(blocks, i + 1, end) == blocks[i + 1].addr by { EdgeIs(blocks, i + 1, end); }
    JoinedOk(blocks[i], blocks[i + 1]);
    forall j | 0 <= j < |bs| ensures BlockOk(bs[j]) && bs[j].addr + bs[j].size == Edge(bs, j + 1, end) {
      JoinedAt(blocks, i, j);
      JoinedEdge(blocks, i, j + 1, end);
      Tile(blocks, start, end, if j <= i then j else j + 1);
    }
    TilingIs(bs, start, end);
  }

  lemma EdgeIs(blocks: seq<Block>, i: nat, end: nat)
    requires i < |blocks|
    ensures Edge(blocks, i, end) == blocks[i].addr
  {
  }

  lemma JoinedOk(b: Block, c: Block)
    requires BlockOk(b) && BlockOk(c)
    ensures BlockOk(Block(b.addr, b.size + c.size, false))
  {
  }

  /** The right neighbour of block `i` is free. */
  predicate NextFree(blocks: seq<Block>, i: nat) {
    i + 1 < |blocks| && !blocks[i + 1].used
  }

  /** The position of `a` in `s`, or the length. */
  function IndexOf(s: seq<nat>, a: nat): (k: nat)
    ensures k <= |s| && (k < |s| ==> s[k] == a) && (a in s ==> k < |s|)
  {
    if s == [] || s[0] == a then 0 else 1 + IndexOf(s[1..], a)
  }

  function Dropped(s: seq<nat>, a: nat): seq<nat> {
    if IndexOf(s, a) < |s| then Without(s, IndexOf(s, a)) else s
  }

  /** Block `i` is given back: it goes to the front of the free list, and is merged with its right
      neighbour if that is free. */
  function Return(s: State, i: nat): State
    requires i < |s.blocks|
  {
    if NextFree(s.blocks, i)
    then State(Joined(s.blocks, i), [s.blocks[i].addr] + Dropped(s.free, s.blocks[i + 1].addr))
    else State(Mark(s.blocks, i, false), [s.blocks[i].addr] + s.free)
  }

  lemma JoinedFree(blocks: seq<Block>, start: nat, end: nat, i: nat, a: nat)
    requires Tiling(blocks, start, end) && i + 1 < |blocks|
    ensures FreeAt(Joined(blocks, i), a) <==> a == blocks[i].addr || (FreeAt(blocks, a) && a != blocks[i + 1].addr)
  {
    hide Tiling, BlockOk, Joined;
    var bs := Joined(blocks, i);
    JoinedAt(blocks, i, i);
    if FreeAt(blocks, a) && a != blocks[i].addr && a != blocks[i + 1].addr {
      var j :| 0 <= j < |blocks| && blocks[j].addr == a && !blocks[j].used;
      JoinedAt(blocks, i, if j < i then j else j - 1);
      FreeBlock(bs, if j < i then j else j - 1);
    }
    if a == blocks[i].addr {
      FreeBlock(bs, i);
    }
    if FreeAt(bs, a) && a != blocks[i].addr {
      var j :| 0 <= j < |bs| && bs[j].addr == a && !bs[j].used;
      JoinedAt(blocks, i, j);
      var j' := if j < i then j else j + 1;
      FreeBlock(blocks, j');
      if a == blocks[i + 1].addr {
        SameBlock(blocks, start, end, i + 1, j');
      }
    }
  }

  lemma DroppedHas(s: seq<nat>, a: nat)
    requires Distinct(s)
    ensures Distinct(Dropped(s, a)) && forall x :: x in Dropped(s, a) <==> x in s && x != a
  {
    if IndexOf(s, a) < |s| {
      WithoutHas(s, IndexOf(s, a));
    }
  }

  /** Giving a used block back keeps the invariant. */
  lemma ReturnOk(s: State, start: nat, end: nat, i: nat)
    requires Ok(s, start, end) && i < |s.blocks| && s.blocks[i].used
    ensures Ok(Return(s, i), start, end)
  {
    hide Tiling, BlockOk, Joined, Mark, Dropped;
    var b, s' := s.blocks[i], Return(s, i);
    UsedNotFree(s.blocks, start, end, i);
    if NextFree(s.blocks, i) {
      JoinedTiling(s.blocks, start, end, i);
      DroppedHas(s.free, s.blocks[i + 1].addr);
    } else {
      MarkTiling(s.blocks, start, end, i, false);
    }
    forall a ensures a in s'.free <==> FreeAt(s'.blocks, a) {
      if NextFree(s.blocks, i) {
        JoinedFree(s.blocks, start, end, i, a);
      } else {
        MarkFree(s.blocks, start, end, i, false, a);
      }
    }
  }

  lemma UsedNotFree(blocks: seq<Block>, start: nat, end: nat, i: nat)
    requires Tiling(blocks, start, end) && i < |blocks| && blocks[i].used
    ensures !FreeAt(blocks, blocks[i].addr)
  {
    hide BlockOk, Tiling;
    if FreeAt(blocks, blocks[i].addr) {
      var j :| 0 <= j < |blocks| && blocks[j].addr == blocks[i].addr && !blocks[j].used;
      SameBlock(blocks, start, end, i, j);
    }
  }

  // ---------- laws ----------

  /** Allocating and at once freeing restores the blocks exactly when the block was split or its right
      neighbour is in use; otherwise it merges the block with that neighbour. The block moves to the
      front of the free list. */
  lemma AllocateThenFree(s: State, i: nat, k: nat, need: nat)
    requires i < |s.blocks| && k < |s.free| && need <= s.blocks[i].size && !s.blocks[i].used
    ensures i < |Carve(s, i, k, need).blocks|
    ensures var s' := Return(Carve(s, i, k, need), i);
            && (s'.blocks == s.blocks <==> Splits(s.blocks[i], need) || !NextFree(s.blocks, i))
            && (s'.blocks != s.blocks ==> NextFree(s.blocks, i) && s'.blocks == Joined(s.blocks, i))
            && s'.free == [s.blocks[i].addr] + if s'.blocks == s.blocks then Without(s.free, k)
                                               else Dropped(Without(s.free, k), s.blocks[i + 1].addr)
  {
    var b, s1 := s.blocks[i], Carve(s, i, k, need);
    if Splits(b, need) {
      CutAt(s.blocks, i, need, i);
      CutAt(s.blocks, i, need, i + 1);
      assert NextFree(s1.blocks, i);
      CutJoined(s.blocks, i, need);
      assert Dropped(s1.free, b.addr + need) == Without(s.free, k);
    } else if NextFree(s.blocks, i) {
      assert Joined(s1.blocks, i) == Joined(s.blocks, i);
      assert |Joined(s.blocks, i)| < |s.blocks|;
    } else {
      assert Mark(Mark(s.blocks, i, true), i, false) == s.blocks;
    }
  }

  lemma CutJoined(blocks: seq<Block>, i: nat, need: nat)
    requires i < |blocks| && need <= blocks[i].size && !blocks[i].used
    ensures |Cut(blocks, i, need)| == |blocks| + 1 && Joined(Cut(blocks, i, need), i) == blocks
  {
    var bs := Cut(blocks, i, need);
    forall j | 0 <= j < |blocks| ensures Joined(bs, i)[j] == blocks[j] {
      hide Cut, Joined;
      CutAt(blocks, i, need, i);
      CutAt(blocks, i, need, i + 1);
      CutAt(blocks, i, need, if j <= i then j else j + 1);
      JoinedAt(bs, i, j);
    }
  }

  /** The bytes in blocks that are in use, or in free blocks. */
  function Bytes(blocks: seq<Block>, used: bool): nat {
    if blocks == [] then 0
    else (if blocks[0].used == used then blocks[0].size else 0) + Bytes(blocks[1..], used)
  }

  lemma TailTiling(blocks: seq<Block>, start: nat, end: nat)
    requires Tiling(blocks, start, end) && blocks != []
    ensures Tiling(blocks[1..], start + blocks[0].size, end)
  {
    hide BlockOk;
    var t := blocks[1..];
    forall j | 0 <= j < |t| ensures BlockOk(t[j]) && t[j].addr + t[j].size == Edge(t, j + 1, end) {
      Tile(blocks, start, end, j + 1);
    }
    Tile(blocks, start, end, 0);
  }

  /** Free and used bytes always add up to the size of the heap. */
  lemma {:induction false} Conserved(blocks: seq<Block>, start: nat, end: nat)
    requires Tiling(blocks, start, end)
    ensures start + Bytes(blocks, true) + Bytes(blocks, false) == end
    decreases |blocks|
  {
    hide BlockOk;
    if blocks != [] {
      TailTiling(blocks, start, end);
      Conserved(blocks[1..], start + blocks[0].size, end);
    }
  }

  lemma {:induction false} BytesConcat(a: seq<Block>, b: seq<Block>, used: bool)
    ensures Bytes(a + b, used) == Bytes(a, used) + Bytes(b, used)
  {
    if a == [] {
      assert a + b == b;
    } else {
      assert (a + b)[1..] == a[1..] + b;
      BytesConcat(a[1..], b, used);
    }
  }

  lemma BytesAround(blocks: seq<Block>, i: nat, n: nat, mid: seq<Block>, used: bool)
    requires i + n <= |blocks|
    ensures Bytes(blocks[..i] + mid + blocks[i + n..], used) + Bytes(blocks[i..i + n], used) ==
              Bytes(blocks, used) + Bytes(mid, used)
  {
    hide Bytes;
    BytesConcat(blocks[..i] + mid, blocks[i + n..], used);
    BytesConcat(blocks[..i], mid, used);
    BytesConcat(blocks[..i] + blocks[i..i + n], blocks[i + n..], used);
    BytesConcat(blocks[..i], blocks[i..i + n], used);
    assert blocks == blocks[..i] + blocks[i..i + n] + blocks[i + n..];
  }

  lemma BytesTwo(b: Block, c: Block, used: bool)
    ensures Bytes([b], used) == if b.used == used then b.size else 0
    ensures Bytes([b, c], used) == Bytes([b], used) + Bytes([c], used)
  {
    BytesConcat([b], [c], used);
    assert [b] + [c] == [b, c];
  }

  /** Giving a block out moves exactly its bytes from free to used. */
  lemma CarveBytes(s: State, i: nat, k: nat, need: nat)
    requires i < |s.blocks| && k < |s.free| && need <= s.blocks[i].size && !s.blocks[i].used
    ensures Bytes(Carve(s, i, k, need).blocks, true)
         == Bytes(s.blocks, true) + if Splits(s.blocks[i], need) then need else s.blocks[i].size
  {
    var b := s.blocks[i];
    BytesTwo(b, b, true);
    BytesTwo(b.(used := true), b, true);
    BytesTwo(Block(b.addr, need, true), Block(b.addr + need, b.size - need, false), true);
    BytesTwo(Block(b.addr + need, b.size - need, false), b, true);
    hide Bytes;
    if Splits(b, need) {
      BytesAround(s.blocks, i, 1, [Block(b.addr, need, true), Block(b.addr + need, b.size - need, false)], true);
    } else {
      BytesAround(s.blocks, i, 1, [b.(used := true)], true);
      assert Mark(s.blocks, i, true) == s.blocks[..i] + [b.(used := true)] + s.blocks[i + 1..];
    }
    assert s.blocks[i..i + 1] == [b];
  }

  /** Giving a block back moves exactly its bytes from used to free. */
  lemma ReturnBytes(s: State, i: nat)
    requires i < |s.blocks| && s.blocks[i].used
    ensures Bytes(Return(s, i).blocks, true) == Bytes(s.blocks, true) - s.blocks[i].size
  {
    var b := s.blocks[i];
    BytesTwo(b.(used := false), b, true);
    BytesTwo(b, b, true);
    if NextFree(s.blocks, i) {
      BytesTwo(b, s.blocks[i + 1], true);
      BytesTwo(s.blocks[i + 1], b, true);
      BytesTwo(Block(b.addr, b.size + s.blocks[i + 1].size, false), b, true);
      hide Bytes;
      BytesAround(s.blocks, i, 2, [Block(b.addr, b.size + s.blocks[i + 1].size, false)], true);
      assert s.blocks[i..i + 2] == [b, s.blocks[i + 1]];
    } else {
      BytesAround(s.blocks, i, 1, [b.(used := false)], true);
      assert Mark(s.blocks, i, false) == s.blocks[..i] + [b.(used := false)] + s.blocks[i + 1..];
      assert s.blocks[i..i + 1] == [b];
    }
  }

  /** No two free blocks are neighbours. */
  ghost predicate Coalesced(blocks: seq<Block>) {
    forall i :: 0 <= i < |blocks| - 1 ==> blocks[i].used || blocks[i + 1].used
  }

  lemma CarveCoalesced(s: State, i: nat, k: nat, need: nat)
    requires i < |s.blocks| && k < |s.free| && need <= s.blocks[i].size && !s.blocks[i].used && Coalesced(s.blocks)
    ensures Coalesced(Carve(s, i, k, need).blocks)
  {
    if Splits(s.blocks[i], need) {
      var bs := Cut(s.blocks, i, need);
      forall j | 0 <= j < |bs| - 1 ensures bs[j].used || bs[j + 1].used {
        hide Cut;
        CutAt(s.blocks, i, need, j);
        CutAt(s.blocks, i, need, j + 1);
        assert i + 1 < |s.blocks| ==> s.blocks[i].used || s.blocks[i + 1].used;
      }
    }
  }

  /** Freeing merges to the right only: free neighbours appear exactly when the block to the left is free. */
  lemma ReturnCoalesced(s: State, i: nat)
    requires i < |s.blocks| && s.blocks[i].used && Coalesced(s.blocks)
    ensures Coalesced(Return(s, i).blocks) <==> i == 0 || s.blocks[i - 1].used
  {
    var bs := Return(s, i).blocks;
    ReturnedAt(s, i, i);
    if i > 0 {
      ReturnedAt(s, i, i - 1);
    }
    forall j | 0 <= j < |bs| - 1 && j != i - 1 ensures bs[j].used || bs[j + 1].used {
      ReturnedAt(s, i, j);
      ReturnedAt(s, i, j + 1);
    }
  }

  lemma ReturnedAt(s: State, i: nat, j: nat)
    requires i < |s.blocks| && j < |Return(s, i).blocks|
    ensures i < |Return(s, i).blocks|
    ensures |Return(s, i).blocks| == |s.blocks| - if NextFree(s.blocks, i) then 1 else 0
    ensures Return(s, i).blocks[j].used == if j == i then false
                                           else s.blocks[if j < i || !NextFree(s.blocks, i) then j else j + 1].used
  {
    if NextFree(s.blocks, i) {
      JoinedAt(s.blocks, i, j);
    }
  }

  /** A concrete heap in which freeing two blocks from left to right leaves two free neighbours. */
  lemma FreeNeighboursRemain()
    ensures var s := State([Block(16, 32, true), Block(48, 32, true), Block(80, 32, true)], []);
            var s' := Return(Return(s, 0), 1);
            Ok(s, 16, 112) && s'.blocks == [Block(16, 32, false), Block(48, 32, false), Block(80, 32, true)]
            && !Coalesced(s'.blocks)
  {
    var bs := [Block(16, 32, true), Block(48, 32, true), Block(80, 32, true)];
    assert Mark(Mark(bs, 0, false), 1, false) == [Block(16, 32, false), Block(48, 32, false), Block(80, 32, true)];
    var r := [Block(16, 32, false), Block(48, 32, false), Block(80, 32, true)];
    assert !r[0].used && !r[1].used;
  }

  /** No other block starts in block `i`. */
  lemma StartsApart(blocks: seq<Block>, start: nat, end: nat, i: nat, j: nat)
    requires Tiling(blocks, start, end) && i < |blocks| && j < |blocks| && i != j
    ensures !(blocks[i].addr <= blocks[j].addr < blocks[i].addr + blocks[i].size)
    ensures blocks[i].addr < blocks[i].addr + blocks[i].size && blocks[i].addr != blocks[j].addr
  {
    Tile(blocks, start, end, i);
    Tile(blocks, start, end, j);
    if i < j {
      Ordered(blocks, start, end, i, j);
    } else {
      Ordered(blocks, start, end, j, i);
    }
  }

  /** The payload of a block. */
  ghost predicate InPayload(b: Block, a: nat) { b.addr + HEADER <= a < b.addr + b.size }

  lemma Aligned(blocks: seq<Block>, start: nat, end: nat, i: nat)
    requires Tiling(blocks, start, end) && i < |blocks|
    ensures blocks[i].addr % 16 == 0 && (blocks[i].addr + HEADER) % 16 == 0
  {
    hide Tiling;
    Tile(blocks, start, end, i);
  }

  /** Blocks in use never overlap, stay inside the heap, and start their payload at a multiple of 16. */
  lemma PayloadsApart(blocks: seq<Block>, start: nat, end: nat, i: nat, j: nat, a: nat)
    requires Tiling(blocks, start, end) && i < |blocks| && j < |blocks| && InPayload(blocks[i], a)
    ensures start <= a < end && (blocks[i].addr + HEADER) % 16 == 0
    ensures i != j ==> !(blocks[j].addr <= a < blocks[j].addr + blocks[j].size)
  {
    hide Tiling, BlockOk;
    Aligned(blocks, start, end, i);
    Inside(blocks, start, end, i);
    if i < j {
      Ordered(blocks, start, end, i, j);
    } else if j < i {
      Ordered(blocks, start, end, j, i);
    }
  }

  // ---------- the two steps of freeing, and the search ----------

  /** Block `i` is marked free and put in front of the list. */
  function Freed(s: State, i: nat): State
    requires i < |s.blocks|
  {
    State(Mark(s.blocks, i, false), [s.blocks[i].addr] + s.free)
  }

  /** Block `i` is merged with its right neighbour if that is free. */
  function Merged(s: State, i: nat): State
    requires i < |s.blocks|
  {
    if NextFree(s.blocks, i) then State(Joined(s.blocks, i), Dropped(s.free, s.blocks[i + 1].addr)) else s
  }

  lemma FreedThenMerged(s: State, start: nat, end: nat, i: nat)
    requires Tiling(s.blocks, start, end) && i < |s.blocks|
    ensures Merged(Freed(s, i), i) == Return(s, i)
  {
    hide Tiling, BlockOk;
    if NextFree(s.blocks, i) {
      StartsApart(s.blocks, start, end, i, i + 1);
      DroppedBehind(s.free, s.blocks[i].addr, s.blocks[i + 1].addr);
      hide Joined, Dropped;
    }
  }

  lemma DroppedBehind(free: seq<nat>, b: nat, a: nat)
    requires a != b
    ensures Dropped([b] + free, a) == [b] + Dropped(free, a)
  {
    assert ([b] + free)[1..] == free;
    assert IndexOf([b] + free, a) == 1 + IndexOf(free, a);
    if IndexOf(free, a) < |free| {
      WithoutBehind(free, b, IndexOf(free, a));
    }
    hide IndexOf, Without;
  }

  lemma WithoutBehind(free: seq<nat>, b: nat, k: nat)
    requires k < |free|
    ensures Without([b] + free, k + 1) == [b] + Without(free, k)
  {
  }

  lemma FreedOk(s: State, start: nat, end: nat, i: nat)
    requires Ok(s, start, end) && i < |s.blocks| && s.blocks[i].used
    ensures Ok(Freed(s, i), start, end)
  {
    hide Tiling, BlockOk, Mark, FreeAt;
    UsedNotFree(s.blocks, start, end, i);
    MarkTiling(s.blocks, start, end, i, false);
    forall a ensures a in Freed(s, i).free <==> FreeAt(Freed(s, i).blocks, a) {
      MarkFree(s.blocks, start, end, i, false, a);
    }
  }

  lemma MergedOk(s: State, start: nat, end: nat, i: nat)
    requires Ok(s, start, end) && i < |s.blocks| && !s.blocks[i].used
    ensures Ok(Merged(s, i), start, end)
  {
    hide Tiling, BlockOk, Joined, Dropped;
    if NextFree(s.blocks, i) {
      JoinedTiling(s.blocks, start, end, i);
      DroppedHas(s.free, s.blocks[i + 1].addr);
      StartsApart(s.blocks, start, end, i, i + 1);
      FreeBlock(s.blocks, i);
      forall a ensures a in Merged(s, i).free <==> FreeAt(Merged(s, i).blocks, a) {
        JoinedFree(s.blocks, start, end, i, a);
      }
    }
  }

  /** Every block at address `a` is too small. */
  ghost predicate TooSmall(s: State, a: nat, need: nat) {
    forall i :: 0 <= i < |s.blocks| && s.blocks[i].addr == a ==> s.blocks[i].size < need
  }

  /** Entry `k` of the free list, block `i`, is the first one that is big enough. */
  ghost predicate FirstFit(s: State, i: nat, k: nat, need: nat) {
    && i < |s.blocks| && k < |s.free| && s.free[k] == s.blocks[i].addr && !s.blocks[i].used
    && need <= s.blocks[i].size
    && forall j :: 0 <= j < k ==> TooSmall(s, s.free[j], need)
  }

  /** No free block is big enough. */
  ghost predicate NoFit(s: State, need: nat) {
    forall i :: 0 <= i < |s.blocks| && !s.blocks[i].used ==> s.blocks[i].size < need
  }

  lemma NoneFits(s: State, start: nat, end: nat, need: nat)
    requires Ok(s, start, end) && forall j :: 0 <= j < |s.free| ==> TooSmall(s, s.free[j], need)
    ensures NoFit(s, need)
  {
    hide Tiling;
    forall i | 0 <= i < |s.blocks| && !s.blocks[i].used ensures s.blocks[i].size < need {
      FreeBlock(s.blocks, i);
      var j :| 0 <= j < |s.free| && s.free[j] == s.blocks[i].addr;
      assert TooSmall(s, s.free[j], need);
    }
  }

  lemma ListedBlock(s: State, start: nat, end: nat, k: nat) returns (i: nat)
    requires Ok(s, start, end) && k < |s.free|
    ensures i < |s.blocks| && s.blocks[i].addr == s.free[k] && !s.blocks[i].used
    ensures forall need: nat :: s.blocks[i].size < need ==> TooSmall(s, s.free[k], need)
  {
    hide Tiling;
    assert FreeAt(s.blocks, s.free[k]);
    i :| 0 <= i < |s.blocks| && s.blocks[i].addr == s.free[k] && !s.blocks[i].used;
    forall j | 0 <= j < |s.blocks| && s.blocks[j].addr == s.free[k] ensures j == i {
      SameBlock(s.blocks, start, end, i, j);
    }
  }

  lemma FitExcludes(s: State, i: nat, k: nat, need: nat)
    requires FirstFit(s, i, k, need)
    ensures !NoFit(s, need)
  {
  }

  // ---------- what clients hold ----------

  /** The client may use the `n` bytes from `p` on: they are payload of a block in use. */
  ghost predicate Claimed(blocks: seq<Block>, p: nat, n: nat) {
    exists b :: b in blocks && b.used && p == b.addr + HEADER && p + n <= b.addr + b.size
  }

  /** Giving out a free block takes nothing away from anyone. */
  lemma CarveKeepsClaims(s: State, i: nat, k: nat, need: nat, p: nat, n: nat)
    requires i < |s.blocks| && k < |s.free| && need <= s.blocks[i].size && !s.blocks[i].used && Claimed(s.blocks, p, n)
    ensures Claimed(Carve(s, i, k, need).blocks, p, n)
  {
    var b :| b in s.blocks && b.used && p == b.addr + HEADER && p + n <= b.addr + b.size;
    var j :| 0 <= j < |s.blocks| && s.blocks[j] == b;
    if Splits(s.blocks[i], need) {
      CutAt(s.blocks, i, need, if j < i then j else j + 1);
      assert Cut(s.blocks, i, need)[if j < i then j else j + 1] == b;
    } else {
      assert Mark(s.blocks, i, true)[j] == b;
    }
    assert b in Carve(s, i, k, need).blocks;
  }

  /** Giving a block back takes nothing away from the holders of other blocks. */
  lemma ReturnKeepsClaims(s: State, i: nat, p: nat, n: nat)
    requires i < |s.blocks| && p != s.blocks[i].addr + HEADER && Claimed(s.blocks, p, n)
    ensures Claimed(Return(s, i).blocks, p, n)
  {
    var b :| b in s.blocks && b.used && p == b.addr + HEADER && p + n <= b.addr + b.size;
    var j :| 0 <= j < |s.blocks| && s.blocks[j] == b;
    if NextFree(s.blocks, i) {
      JoinedAt(s.blocks, i, if j < i then j else j - 1);
      assert Joined(s.blocks, i)[if j < i then j else j - 1] == b;
    } else {
      assert Mark(s.blocks, i, false)[j] == b;
    }
    assert b in Return(s, i).blocks;
  }

  /** Two claims on different addresses do not overlap, and every claim lies in the heap. */
  lemma ClaimsApart(blocks: seq<Block>, start: nat, end: nat, p: nat, n: nat, q: nat, m: nat)
    requires Tiling(blocks, start, end) && Claimed(blocks, p, n) && Claimed(blocks, q, m)
    ensures p % 16 == 0 && start <= p && p + n <= end
    ensures p != q ==> p + n <= q || q + m <= p
  {
    hide Tiling, BlockOk, Claimed;
    var i := ClaimIndex(blocks, p, n);
    var j := ClaimIndex(blocks, q, m);
    Aligned(blocks, start, end, i);
    Inside(blocks, start, end, i);
    if i < j {
      Ordered(blocks, start, end, i, j);
    } else if j < i {
      Ordered(blocks, start, end, j, i);
    }
  }

  lemma ClaimIndex(blocks: seq<Block>, p: nat, n: nat) returns (i: nat)
    requires Claimed(blocks, p, n)
    ensures i < |blocks| && blocks[i].used && p == blocks[i].addr + HEADER && p + n <= blocks[i].addr + blocks[i].size
  {
    var b :| b in blocks && b.used && p == b.addr + HEADER && p + n <= b.addr + b.size;
    i :| 0 <= i < |blocks| && blocks[i] == b;
  }

  // ---------- the rules in numbers ----------

  /** A request of `size` bytes at block `i`, entry `k` of the list: header and bytes are rounded up to a multiple of
      16; the rest of the block becomes a free block at the front of the list if it has 32 bytes or more, and is given
      out too otherwise. */
  ghost predicate GivenOut(s: State, size: Word, s': State, i: nat, k: nat) {
    && i < |s.blocks| && k < |s.free|
    && var b, n := s.blocks[i], (size + 31) / 16 * 16;
       if b.size >= n + 32 then
         && s'.blocks ==
              s.blocks[..i] + [Block(b.addr, n, true), Block(b.addr + n, b.size - n, false)] + s.blocks[i + 1..]
         && s'.free == [b.addr + n] + (s.free[..k] + s.free[k + 1..])
       else s'.blocks == s.blocks[i := Block(b.addr, b.size, true)] && s'.free == s.free[..k] + s.free[k + 1..]
  }

  /** Entry `k` of the list, block `i`, is the first that has room for `size` bytes and a header. */
  ghost predicate FirstRoom(s: State, size: Word, i: nat, k: nat) {
    && i < |s.blocks| && k < |s.free| && s.free[k] == s.blocks[i].addr && !s.blocks[i].used
    && (size + 31) / 16 * 16 <= s.blocks[i].size
    && forall j, m :: 0 <= j < k && 0 <= m < |s.blocks| && s.blocks[m].addr == s.free[j] ==>
         s.blocks[m].size < (size + 31) / 16 * 16
  }

  /** No free block has room for `size` bytes and a header. */
  ghost predicate NoRoom(s: State, size: Word) {
    forall i :: 0 <= i < |s.blocks| && !s.blocks[i].used ==> s.blocks[i].size < (size + 31) / 16 * 16
  }

  /** Block `i` is given back: it goes to the front of the list, and a free right neighbour, entry `k` of the list, is
      merged into it. */
  ghost predicate GivenBack(s: State, s': State, i: nat, k: nat) {
    && i < |s.blocks|
    && var a, n := s.blocks[i].addr, s.blocks[i].size;
       if i + 1 < |s.blocks| && !s.blocks[i + 1].used then
         && k < |s.free| && s.free[k] == s.blocks[i + 1].addr
         && s'.blocks == s.blocks[..i] + [Block(a, n + s.blocks[i + 1].size, false)] + s.blocks[i + 2..]
         && s'.free == [a] + (s.free[..k] + s.free[k + 1..])
       else s'.blocks == s.blocks[i := Block(a, n, false)] && s'.free == [a] + s.free
  }

  lemma CarveRule(s: State, size: Word, i: nat, k: nat)
    requires size + 31 < 0x1_0000_0000 && FirstFit(s, i, k, Need(size))
    ensures FirstRoom(s, size, i, k) && GivenOut(s, size, Carve(s, i, k, Need(size)), i, k)
  {
  }

  lemma RoomRule(s: State, size: Word)
    requires size + 31 < 0x1_0000_0000
    ensures NoRoom(s, size) <==> NoFit(s, Need(size))
  {
  }

  /** A free right neighbour is in the list. */
  lemma NextListed(s: State, start: nat, end: nat, i: nat) returns (k: nat)
    requires Ok(s, start, end) && i < |s.blocks| && NextFree(s.blocks, i)
    ensures k < |s.free| && s.free[k] == s.blocks[i + 1].addr
    ensures Dropped(s.free, s.blocks[i + 1].addr) == s.free[..k] + s.free[k + 1..]
  {
    hide Tiling, Distinct;
    FreeBlock(s.blocks, i + 1);
    k := IndexOf(s.free, s.blocks[i + 1].addr);
  }

  lemma ReturnRule(s: State, start: nat, end: nat, i: nat) returns (k: nat)
    requires Ok(s, start, end) && i < |s.blocks|
    ensures GivenBack(s, Return(s, i), i, k)
  {
    hide Ok, Dropped;
    k := 0;
    if NextFree(s.blocks, i) {
      k := NextListed(s, start, end, i);
    }
  }

  /** What a block that was given out has at most: less than 63 bytes more than were asked for. */
  lemma LittleWaste(s: State, size: Word, s': State, i: nat, k: nat)
    requires GivenOut(s, size, s', i, k) && (size + 31) / 16 * 16 <= s.blocks[i].size
    ensures i < |s'.blocks| && s'.blocks[i].used && s'.blocks[i].addr == s.blocks[i].addr
    ensures size + 16 <= s'.blocks[i].size < size + 63
  {
  }
}
