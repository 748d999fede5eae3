// The kernel heap in memory: block headers in band, and a doubly linked list of the free blocks.
module Heap {
  import opened Machine
  import opened HeapState
  import opened Sequences
  import opened Options

  /** 16 bytes of memory, as `block_header_t` lays them out: the low byte of `flag` is `is_free`, its
      other bytes are padding. Block addresses are multiples of 16, so a header fills one row. */
  datatype Row = Row(size: Word, flag: Word, next: Word, prev: Word)

  function RowOf(a: nat): nat { a / 16 }

  lemma RowsDiffer(a: nat, b: nat)
    requires a % 16 == 0 && b % 16 == 0
    ensures RowOf(a) == RowOf(b) <==> a == b
  {
  }

  /** Entry `j` of a list of addresses, or NULL. */
  function Entry(free: seq<nat>, j: int): nat {
    if 0 <= j < |free| then free[j] else 0
  }

  ghost predicate Addressable(m: seq<Row>, free: seq<nat>) {
    forall j :: 0 <= j < |free| ==> 0 < free[j] && free[j] % 16 == 0 && RowOf(free[j]) < |m|
  }

  /** `head` starts a well-linked list of the blocks `free`, forwards and backwards. */
  ghost predicate Linked(m: seq<Row>, head: nat, free: seq<nat>) {
    && Addressable(m, free) && Distinct(free)
    && head == Entry(free, 0)
    && forall j :: 0 <= j < |free| ==>
         m[RowOf(free[j])].next == Entry(free, j + 1) && m[RowOf(free[j])].prev == Entry(free, j - 1)
  }

  /** Sizes and flags are as before. */
  ghost predicate SameMarks(m: seq<Row>, m': seq<Row>) {
    |m'| == |m| && forall x :: 0 <= x < |m| ==> m'[x].size == m[x].size && m'[x].flag == m[x].flag
  }

  /** Only rows of blocks in `free` differ. */
  ghost predicate SameBut(m: seq<Row>, m': seq<Row>, free: seq<nat>) {
    |m'| == |m| && forall x :: 0 <= x < |m| && m'[x] != m[x] ==> exists j :: 0 <= j < |free| && x == RowOf(free[j])
  }

  /** `m'` is `m` after entry `k` of the list was taken out. */
  ghost predicate Unlinked(m: seq<Row>, m': seq<Row>, free: seq<nat>, k: nat)
    requires k < |free| && Addressable(m, free)
  {
    && SameMarks(m, m')
    && forall x :: 0 <= x < |m| ==>
         && m'[x].next == (if x == RowOf(free[k]) then 0
                           else if k > 0 && x == RowOf(free[k - 1]) then Entry(free, k + 1) else m[x].next)
         && m'[x].prev == (if x == RowOf(free[k]) then 0
                           else if k + 1 < |free| && x == RowOf(free[k + 1]) then Entry(free, k - 1) else m[x].prev)
  }

  lemma RowIs(free: seq<nat>, i: nat, j: nat)
    requires Distinct(free) && i < |free| && j < |free| && free[i] % 16 == 0 && free[j] % 16 == 0
    ensures RowOf(free[i]) == RowOf(free[j]) <==> i == j
  {
    RowsDiffer(free[i], free[j]);
  }

  lemma UnlinkedList(m: seq<Row>, head: nat, m': seq<Row>, free: seq<nat>, k: nat)
    requires Linked(m, head, free) && k < |free| && Unlinked(m, m', free, k)
    ensures Linked(m', Entry(Without(free, k), 0), Without(free, k))
    ensures SameBut(m, m', free)
  {
    hide Unlinked, Entry, RowOf;
    var t := Without(free, k);
    WithoutHas(free, k);
    assert |m'| == |m| by { UnlinkedRest(m, m', free, k); }
    forall j | 0 <= j < |t|
      ensures 0 < t[j] && t[j] % 16 == 0 && RowOf(t[j]) < |m'|
      ensures m'[RowOf(t[j])].next == Entry(t, j + 1) && m'[RowOf(t[j])].prev == Entry(t, j - 1)
    {
      var i := if j < k then j else j + 1;
      WithoutEntry(free, k, j);
      assert t[j] == free[i];
      UnlinkedRow(m, head, m', free, k, i);
    }
    UnlinkedRest(m, m', free, k);
  }

  lemma WithoutEntry(free: seq<nat>, k: nat, j: nat)
    requires k < |free| && j < |free| - 1
    ensures var i := if j < k then j else j + 1;
            && Without(free, k)[j] == free[i]
            && Entry(Without(free, k), j + 1) == Entry(free, if i + 1 == k then i + 2 else i + 1)
            && Entry(Without(free, k), j - 1) == Entry(free, if i == k + 1 then i - 2 else i - 1)
  {
  }

  lemma UnlinkedRow(m: seq<Row>, head: nat, m': seq<Row>, free: seq<nat>, k: nat, i: nat)
    requires Linked(m, head, free) && k < |free| && Unlinked(m, m', free, k) && i < |free| && i != k
    ensures m'[RowOf(free[i])].next == Entry(free, if i + 1 == k then i + 2 else i + 1)
    ensures m'[RowOf(free[i])].prev == Entry(free, if i == k + 1 then i - 2 else i - 1)
  {
    hide RowOf;
    RowIs(free, i, k);
    if k > 0 {
      RowIs(free, i, k - 1);
    }
    if k + 1 < |free| {
      RowIs(free, i, k + 1);
    }
  }

  lemma UnlinkedRest(m: seq<Row>, m': seq<Row>, free: seq<nat>, k: nat)
    requires Addressable(m, free) && k < |free| && Unlinked(m, m', free, k)
    ensures SameBut(m, m', free)
  {
    forall x | 0 <= x < |m| && m'[x] != m[x] ensures exists j :: 0 <= j < |free| && x == RowOf(free[j]) {
      assert x == RowOf(free[k]) || (k > 0 && x == RowOf(free[k - 1])) || (k + 1 < |free| && x == RowOf(free[k + 1]));
    }
  }

  function WithNext(m: seq<Row>, x: nat, next: Word): seq<Row>
    requires x < |m|
  {
    m[x := m[x].(next := next)]
  }

  function WithPrev(m: seq<Row>, x: nat, prev: Word): seq<Row>
    requires x < |m|
  {
    m[x := m[x].(prev := prev)]
  }

  lemma LinkFacts(m: seq<Row>, head: nat, free: seq<nat>, k: nat)
    requires Linked(m, head, free) && k < |free|
    ensures 0 < free[k] && RowOf(free[k]) < |m|
    ensures k > 0 ==> RowOf(free[k - 1]) < |m| && RowOf(free[k]) != RowOf(free[k - 1])
    ensures k + 1 < |free| ==> RowOf(free[k + 1]) < |m| && RowOf(free[k]) != RowOf(free[k + 1])
    ensures m[RowOf(free[k])].prev == (if k > 0 then free[k - 1] else 0)
    ensures m[RowOf(free[k])].next == (if k + 1 < |free| then free[k + 1] else 0)
    ensures k > 0 ==> 0 < free[k - 1]
    ensures k + 1 < |free| ==> 0 < free[k + 1]
    ensures k > 0 && k + 1 < |free| ==> RowOf(free[k - 1]) != RowOf(free[k + 1])
    ensures head == if k > 0 then free[0] else free[k]
  {
    if k > 0 {
      RowIs(free, k, k - 1);
    }
    if k + 1 < |free| {
      RowIs(free, k, k + 1);
      if k > 0 {
        RowIs(free, k - 1, k + 1);
      }
    }
  }

  lemma LinkedOnes(m: seq<Row>, head: nat, free: seq<nat>)
    requires Linked(m, head, free)
    ensures Addressable(m, free)
  {
  }

  /** The three writes of `remove_from_free_list` take the block out of the list. */
  lemma UnlinkSteps(m: seq<Row>, m1: seq<Row>, m2: seq<Row>, m3: seq<Row>, head: nat, free: seq<nat>, k: nat)
    requires Linked(m, head, free) && k < |free|
    requires m1 == if k > 0 then WithNext(m, RowOf(free[k - 1]), m[RowOf(free[k])].next) else m
    requires |m1| == |m|
    requires m2 == if k + 1 < |free| then WithPrev(m1, RowOf(free[k + 1]), m[RowOf(free[k])].prev) else m1
    requires |m2| == |m| && m3 == m2[RowOf(free[k]) := m2[RowOf(free[k])].(next := 0, prev := 0)]
    ensures Unlinked(m, m3, free, k)
  {
    hide RowOf, Linked;
    LinkFacts(m, head, free, k);
    assert Addressable(m, free) by { LinkedOnes(m, head, free); }
    assert SameMarks(m, m3);
  }

  /** `m'` is `m` after block `b` was put in front of the list. */
  ghost predicate Pushed(m: seq<Row>, m': seq<Row>, head: nat, b: nat) {
    && |m'| == |m|
    && forall x :: 0 <= x < |m| ==>
         && m'[x].size == m[x].size
         && m'[x].flag == (if x == RowOf(b) then m[x].flag - m[x].flag % 256 + 1 else m[x].flag)
         && m'[x].next == (if x == RowOf(b) then head else m[x].next)
         && m'[x].prev == (if x == RowOf(b) then 0 else if head != 0 && x == RowOf(head) then b else m[x].prev)
  }

  lemma PushedList(m: seq<Row>, head: nat, m': seq<Row>, free: seq<nat>, b: nat)
    requires Linked(m, head, free) && b !in free && 0 < b && b % 16 == 0 && RowOf(b) < |m|
    requires Pushed(m, m', head, b)
    ensures Linked(m', b, [b] + free)
    ensures SameBut(m, m', [b] + free)
  {
    var t := [b] + free;
    forall j | 0 <= j < |t|
      ensures 0 < t[j] && t[j] % 16 == 0 && RowOf(t[j]) < |m'|
      ensures m'[RowOf(t[j])].next == Entry(t, j + 1) && m'[RowOf(t[j])].prev == Entry(t, j - 1)
    {
      if j > 0 {
        RowsDiffer(t[j], b);
        RowIs(free, j - 1, 0);
      }
    }
    forall x | 0 <= x < |m| && m'[x] != m[x] ensures exists j :: 0 <= j < |t| && x == RowOf(t[j]) {
      if x == RowOf(b) {
        assert t[0] == b;
      } else {
        assert t[1] == head;
      }
    }
  }

  lemma HeadFacts(m: seq<Row>, head: nat, free: seq<nat>, b: nat)
    requires Linked(m, head, free) && b !in free && b % 16 == 0
    ensures head != 0 ==> RowOf(head) < |m| && RowOf(head) != RowOf(b)
  {
    if head != 0 {
      RowsDiffer(head, b);
    }
  }

  /** The writes of `add_to_free_list`. */
  lemma PushSteps(m: seq<Row>, m1: seq<Row>, m2: seq<Row>, head: Word, b: Word)
    requires RowOf(b) < |m| && (head != 0 ==> RowOf(head) < |m| && RowOf(head) != RowOf(b))
    requires 0 <= m[RowOf(b)].flag - m[RowOf(b)].flag % 256
    requires m[RowOf(b)].flag - m[RowOf(b)].flag % 256 + 1 < 0x1_0000_0000
    requires m1 == m[RowOf(b) := Row(m[RowOf(b)].size, m[RowOf(b)].flag - m[RowOf(b)].flag % 256 + 1, head, 0)]
    requires m2 == if head != 0 then WithPrev(m1, RowOf(head), b) else m1
    ensures Pushed(m, m2, head, b)
  {
    hide RowOf;
  }

  // ---------- blocks in memory ----------

  ghost predicate HeaderIs(m: seq<Row>, b: Block) {
    RowOf(b.addr) < |m| && m[RowOf(b.addr)].size == b.size && m[RowOf(b.addr)].flag % 256 == if b.used then 0 else 1
  }

  ghost predicate Headers(m: seq<Row>, blocks: seq<Block>) {
    forall i :: 0 <= i < |blocks| ==> HeaderIs(m, blocks[i])
  }

  /** Memory `m` with list head `head` holds the heap state `s`. */
  ghost predicate Rep(m: seq<Row>, head: nat, s: State) {
    Headers(m, s.blocks) && Linked(m, head, s.free)
  }

  /** Row `x` lies in block `b`. */
  predicate InBlock(b: Block, x: nat) { b.addr <= 16 * x < b.addr + b.size }

  /** The rows of all blocks in use, except block `i`, are as before. */
  ghost predicate UsedKept(m: seq<Row>, m': seq<Row>, blocks: seq<Block>, i: nat) {
    && |m'| == |m|
    && forall j, x :: 0 <= j < |blocks| && j != i && blocks[j].used && 0 <= x < |m| && InBlock(blocks[j], x) ==>
         m'[x] == m[x]
  }

  /** A client may write anything into the payloads of blocks in use. */
  ghost predicate ClientWrite(m: seq<Row>, m': seq<Row>, blocks: seq<Block>) {
    |m'| == |m| && forall x :: 0 <= x < |m| && m'[x] != m[x] ==>
        exists j :: 0 <= j < |blocks| && blocks[j].used && InPayload(blocks[j], 16 * x)
  }

  /** Client writes do not disturb the allocator. */
  lemma ClientKeepsRep(m: seq<Row>, m': seq<Row>, head: nat, s: State, start: nat, end: nat)
    requires Ok(s, start, end) && Rep(m, head, s) && ClientWrite(m, m', s.blocks)
    ensures Rep(m', head, s)
  {
    forall i | 0 <= i < |s.blocks| ensures m'[RowOf(s.blocks[i].addr)] == m[RowOf(s.blocks[i].addr)] {
      HeaderUntouched(m, m', s.blocks, start, end, i);
    }
    forall k | 0 <= k < |s.free| ensures m'[RowOf(s.free[k])] == m[RowOf(s.free[k])] {
      assert FreeAt(s.blocks, s.free[k]);
    }
  }

  lemma HeaderUntouched(m: seq<Row>, m': seq<Row>, blocks: seq<Block>, start: nat, end: nat, i: nat)
    requires Tiling(blocks, start, end) && i < |blocks| && ClientWrite(m, m', blocks) && RowOf(blocks[i].addr) < |m|
    ensures m'[RowOf(blocks[i].addr)] == m[RowOf(blocks[i].addr)]
  {
    var x := RowOf(blocks[i].addr);
    Aligned(blocks, start, end, i);
    assert 16 * x == blocks[i].addr;
    if m'[x] != m[x] {
      var j :| 0 <= j < |blocks| && blocks[j].used && InPayload(blocks[j], 16 * x);
      Tile(blocks, start, end, i);
      PayloadsApart(blocks, start, end, j, i, 16 * x);
    }
  }

  lemma FlagByte(f: Word)
    ensures 0 <= f - f % 256 && f - f % 256 + 1 < 0x1_0000_0000
    ensures (f - f % 256) % 256 == 0 && (f - f % 256 + 1) % 256 == 1
  {
  }

  /** Next and previous pointers are as before. */
  ghost predicate SameLinks(m: seq<Row>, m': seq<Row>) {
    |m'| == |m| && forall x :: 0 <= x < |m| ==> m'[x].next == m[x].next && m'[x].prev == m[x].prev
  }

  lemma LinkedKept(m: seq<Row>, m': seq<Row>, head: nat, free: seq<nat>)
    requires Linked(m, head, free) && SameLinks(m, m')
    ensures Linked(m', head, free)
  {
  }

  /** Every row that changed is in block `i` or is the header of a free block. */
  ghost predicate Touched(m: seq<Row>, m': seq<Row>, blocks: seq<Block>, i: nat)
    requires i < |blocks|
  {
    |m'| == |m| && forall x :: 0 <= x < |m| && m'[x] != m[x] ==> InBlock(blocks[i], x) || FreeAt(blocks, 16 * x)
  }

  lemma TouchedTwice(m: seq<Row>, m1: seq<Row>, m2: seq<Row>, blocks: seq<Block>, i: nat)
    requires i < |blocks| && Touched(m, m1, blocks, i) && Touched(m1, m2, blocks, i)
    ensures Touched(m, m2, blocks, i)
  {
  }

  lemma ListTouched(m: seq<Row>, m': seq<Row>, blocks: seq<Block>, i: nat, free: seq<nat>)
    requires i < |blocks| && SameBut(m, m', free)
    requires forall j :: 0 <= j < |free| ==>
              free[j] % 16 == 0 && (InBlock(blocks[i], RowOf(free[j])) || FreeAt(blocks, free[j]))
    ensures Touched(m, m', blocks, i)
  {
    forall x | 0 <= x < |m| && m'[x] != m[x] ensures InBlock(blocks[i], x) || FreeAt(blocks, 16 * x) {
      var j :| 0 <= j < |free| && x == RowOf(free[j]);
      assert 16 * x == free[j];
    }
  }

  /** A row of a block that is not `i` and is in use was not touched. */
  lemma TouchedKept(m: seq<Row>, m': seq<Row>, blocks: seq<Block>, start: nat, end: nat, i: nat)
    requires Tiling(blocks, start, end) && i < |blocks| && Touched(m, m', blocks, i)
    ensures UsedKept(m, m', blocks, i)
  {
    forall j, x | 0 <= j < |blocks| && j != i && blocks[j].used && 0 <= x < |m| && InBlock(blocks[j], x)
      ensures m'[x] == m[x]
    {
      UsedApart(blocks, start, end, i, j, x);
    }
  }

  lemma UsedApart(blocks: seq<Block>, start: nat, end: nat, i: nat, j: nat, x: nat)
    requires Tiling(blocks, start, end) && i < |blocks| && j < |blocks| && i != j && blocks[j].used
    requires InBlock(blocks[j], x)
    ensures !InBlock(blocks[i], x) && !FreeAt(blocks, 16 * x)
  {
    hide Tiling, BlockOk;
    if i < j {
      Ordered(blocks, start, end, i, j);
    } else {
      Ordered(blocks, start, end, j, i);
    }
    if FreeAt(blocks, 16 * x) {
      var f :| 0 <= f < |blocks| && blocks[f].addr == 16 * x && !blocks[f].used;
      StartsApart(blocks, start, end, j, f);
    }
  }

  /** Rows other than `x` and `y` have the same size and flag. */
  ghost predicate MarksBut(m: seq<Row>, m': seq<Row>, x: nat, y: nat) {
    |m'| == |m| && forall z :: 0 <= z < |m| && z != x && z != y ==> m'[z].size == m[z].size && m'[z].flag == m[z].flag
  }

  lemma OtherHeader(m: seq<Row>, m': seq<Row>, blocks: seq<Block>, start: nat, end: nat, i: nat, j: nat, a: nat)
    requires Tiling(blocks, start, end) && Headers(m, blocks) && i < |blocks| && j < |blocks| && i != j
    requires MarksBut(m, m', RowOf(blocks[i].addr), RowOf(a)) && a % 16 == 0
    requires blocks[i].addr <= a < blocks[i].addr + blocks[i].size
    ensures HeaderIs(m', blocks[j])
  {
    hide Tiling, BlockOk;
    Aligned(blocks, start, end, i);
    Aligned(blocks, start, end, j);
    StartsApart(blocks, start, end, i, j);
    RowsDiffer(blocks[j].addr, blocks[i].addr);
    RowsDiffer(blocks[j].addr, a);
    assert HeaderIs(m, blocks[j]);
  }

  lemma CutHeaders(m: seq<Row>, m': seq<Row>, blocks: seq<Block>, start: nat, end: nat, i: nat, need: nat)
    requires Tiling(blocks, start, end) && Headers(m, blocks) && i < |blocks|
    requires need % 16 == 0 && 16 <= need && Splits(blocks[i], need)
    requires MarksBut(m, m', RowOf(blocks[i].addr), RowOf(blocks[i].addr + need))
    requires HeaderIs(m', Block(blocks[i].addr, need, true))
    requires HeaderIs(m', Block(blocks[i].addr + need, blocks[i].size - need, false))
    ensures Headers(m', Cut(blocks, i, need))
  {
    hide Tiling, BlockOk, Cut, HeaderIs, MarksBut, RowOf;
    Aligned(blocks, start, end, i);
    CutAt(blocks, i, need, 0);
    forall j | 0 <= j < |Cut(blocks, i, need)| ensures HeaderIs(m', Cut(blocks, i, need)[j]) {
      CutAt(blocks, i, need, j);
      if j < i {
        OtherHeader(m, m', blocks, start, end, i, j, blocks[i].addr + need);
      } else if j > i + 1 {
        OtherHeader(m, m', blocks, start, end, i, j - 1, blocks[i].addr + need);
      }
    }
  }

  lemma MarkHeaders(m: seq<Row>, m': seq<Row>, blocks: seq<Block>, start: nat, end: nat, i: nat, used: bool)
    requires Tiling(blocks, start, end) && Headers(m, blocks) && i < |blocks|
    requires MarksBut(m, m', RowOf(blocks[i].addr), RowOf(blocks[i].addr))
    requires HeaderIs(m', blocks[i].(used := used))
    ensures Headers(m', Mark(blocks, i, used))
  {
    hide Tiling, BlockOk, HeaderIs, MarksBut, RowOf;
    Aligned(blocks, start, end, i);
    Tile(blocks, start, end, i);
    assert blocks[i].size > 0 by { SizePositive(blocks[i]); }
    forall j | 0 <= j < |blocks| && j != i ensures HeaderIs(m', blocks[j]) {
      OtherHeader(m, m', blocks, start, end, i, j, blocks[i].addr);
    }
  }

  lemma SizePositive(b: Block)
    requires BlockOk(b)
    ensures b.size > 0
  {
  }

  lemma FirstBlock(start: nat, end: nat)
    requires start < end && start % 16 == 0 && end % 16 == 0
    ensures Ok(State([Block(start, end - start, false)], [start]), start, end)
  {
    var s := State([Block(start, end - start, false)], [start]);
    FreeBlock(s.blocks, 0);
  }

  /** The calls of a client of the heap: allocate, free the `k`-th pointer it holds, or write or read row `x`
      through it. */
  datatype HeapCall = Allocate(size: Word) | Free(k: nat) | Store(k: nat, x: nat, row: Row) | Load(k: nat, x: nat)

  /** What a call gives back. */
  datatype HeapResult = Given(p: Word) | Loaded(row: Row) | Done

  /** A pointer that a client holds, and how many bytes it asked for. */
  datatype Grant = Grant(p: Word, size: Word)

  /** Every pointer the client holds is good for the bytes it asked for, and they are all different. */
  ghost predicate Granted(blocks: seq<Block>, live: seq<Grant>) {
    && (forall j :: 0 <= j < |live| ==> Claimed(blocks, live[j].p, live[j].size))
    && (forall j, k :: 0 <= j < k < |live| ==> live[j].p != live[k].p)
  }

  /** Row `x` starts in the bytes that were asked for. */
  predicate Within(grant: Grant, x: nat) { grant.p <= 16 * x < grant.p + grant.size }

  /** What the client knows: the pointers it holds, and what it last stored in which row. */
  datatype Ledger = Ledger(live: seq<Grant>, notes: map<nat, Row>)

  /** The pointer goes, and with it what was stored through it. */
  function Forgotten(l: Ledger, k: nat): Ledger
    requires k < |l.live|
  {
    Ledger(l.live[..k] + l.live[k + 1..], map x | x in l.notes && !Within(l.live[k], x) :: l.notes[x])
  }

  /** An allocation: NULL exactly when nothing is asked for or no free block is big enough, otherwise the first
      fit in list order. */
  ghost predicate Allocated(s: State, size: Word, p: Word, s': State) {
    if size == 0 || NoRoom(s, size) then p == 0 && s' == s
    else p != 0 && exists i, k :: AllocatedAt(s, size, p, s', i, k)
  }

  ghost predicate AllocatedAt(s: State, size: Word, p: Word, s': State, i: nat, k: nat) {
    FirstRoom(s, size, i, k) && p == s.blocks[i].addr + 16 && GivenOut(s, size, s', i, k)
  }

  /** The block with payload `p` is given back. */
  ghost predicate Released(s: State, p: Word, s': State) {
    exists i, k :: ReleasedAt(s, p, s', i, k)
  }

  ghost predicate ReleasedAt(s: State, p: Word, s': State, i: nat, k: nat) {
    i < |s.blocks| && p == s.blocks[i].addr + 16 && GivenBack(s, s', i, k)
  }

  /** What a call does to the blocks and the free list. */
  ghost predicate Served(s: State, l: Ledger, call: HeapCall, r: HeapResult, s': State) {
    match call
    case Allocate(size) => r.Given? && Allocated(s, size, r.p, s')
    case Free(k) => if k < |l.live| then Released(s, l.live[k].p, s') else s' == s
    case Store(k, x, row) => s' == s
    case Load(k, x) => s' == s
  }

  /** What the client knows after `call` gave `r`; nothing if the call cannot give that. A row that was stored
      is read back until it is overwritten or its block is freed. */
  function Booked(l: Ledger, call: HeapCall, r: HeapResult): Option<Ledger> {
    match call
    case Allocate(size) =>
      if !r.Given? then None else if r.p == 0 then Some(l) else Some(l.(live := l.live + [Grant(r.p, size)]))
    case Free(k) =>
      if r != Done then None else if k < |l.live| then Some(Forgotten(l, k)) else Some(l)
    case Store(k, x, row) =>
      if r != Done then None
      else if k < |l.live| && Within(l.live[k], x) then Some(l.(notes := l.notes[x := row])) else Some(l)
    case Load(k, x) =>
      if k < |l.live| && Within(l.live[k], x) then
        if r.Loaded? && (x in l.notes ==> r.row == l.notes[x]) then Some(l) else None
      else if r == Done then Some(l) else None
  }

  /** What the client knows after a run of calls, when `trace` has the heap before, between and after them; nothing
      if the heap or the results cannot go that way. */
  ghost function Replay(calls: seq<HeapCall>, trace: seq<State>, results: seq<HeapResult>): Option<Ledger>
    requires |results| == |calls| && |trace| == |calls| + 1
  {
    var n := |calls|;
    if n == 0 then Some(Ledger([], map[])) else
    match Replay(calls[..n - 1], trace[..n], results[..n - 1])
    case None => None
    case Some(l) =>
      if Served(trace[n - 1], l, calls[n - 1], results[n - 1], trace[n]) then Booked(l, calls[n - 1], results[n - 1])
      else None
  }

  /** One more call at the end of a run. */
  lemma OneMoreCall(calls: seq<HeapCall>, n: nat, trace: seq<State>, results: seq<HeapResult>, l: Ledger, s: State,
                    r: HeapResult, l': Ledger)
    requires n < |calls| && |results| == n && |trace| == n + 1 && Replay(calls[..n], trace, results) == Some(l)
    requires Served(trace[n], l, calls[n], r, s) && Booked(l, calls[n], r) == Some(l')
    ensures Replay(calls[..n + 1], trace + [s], results + [r]) == Some(l')
  {
    hide Served, Booked;
    var calls', trace', results' := calls[..n + 1], trace + [s], results + [r];
    assert calls'[..n] == calls[..n] && trace'[..n + 1] == trace && results'[..n] == results;
    assert calls'[n] == calls[n] && trace'[n] == trace[n] && trace'[n + 1] == s && results'[n] == r;
  }

  /** Every row that the client stored is in memory, in a block that it holds. */
  ghost predicate Backed(m: seq<Row>, l: Ledger) {
    forall x :: x in l.notes ==> x < |m| && m[x] == l.notes[x] && exists k :: 0 <= k < |l.live| && Within(l.live[k], x)
  }

  /** The rows behind the pointers that are held are as before. */
  ghost predicate RowsKept(m: seq<Row>, m': seq<Row>, live: seq<Grant>) {
    |m'| == |m| && forall k, x :: 0 <= k < |live| && 0 <= x < |m| && Within(live[k], x) ==> m'[x] == m[x]
  }

  /** Row `x` of a claim lies in the block of the claim. */
  lemma ClaimedRow(blocks: seq<Block>, start: nat, end: nat, grant: Grant, x: nat) returns (j: nat)
    requires Tiling(blocks, start, end) && Claimed(blocks, grant.p, grant.size) && Within(grant, x)
    ensures j < |blocks| && blocks[j].used && grant.p == blocks[j].addr + HEADER && InBlock(blocks[j], x)
    ensures InPayload(blocks[j], 16 * x)
  {
    hide Tiling, Claimed;
    j := ClaimIndex(blocks, grant.p, grant.size);
    Aligned(blocks, start, end, j);
  }

  /** What a change of block `i` leaves of the rows of the other claims. */
  lemma ClaimsKept(m: seq<Row>, m': seq<Row>, blocks: seq<Block>, start: nat, end: nat, i: nat, live: seq<Grant>)
    requires Tiling(blocks, start, end) && UsedKept(m, m', blocks, i) && i < |blocks|
    requires forall k :: 0 <= k < |live| ==>
              Claimed(blocks, live[k].p, live[k].size) && live[k].p != blocks[i].addr + HEADER
    ensures RowsKept(m, m', live)
  {
    hide Tiling, Claimed, InBlock, Within;
    forall k, x | 0 <= k < |live| && 0 <= x < |m| && Within(live[k], x) ensures m'[x] == m[x] {
      var j := ClaimedRow(blocks, start, end, live[k], x);
    }
  }

  lemma BackedKept(m: seq<Row>, m': seq<Row>, l: Ledger, l': Ledger)
    requires Backed(m, l) && RowsKept(m, m', l'.live)
    requires forall x :: x in l'.notes ==> x in l.notes && l'.notes[x] == l.notes[x]
    requires forall x, k :: x in l'.notes && 0 <= k < |l.live| && Within(l.live[k], x) ==> l.live[k] in l'.live
    ensures Backed(m', l')
  {
    hide Within;
    forall x | x in l'.notes
      ensures x < |m'| && m'[x] == l'.notes[x] && exists k :: 0 <= k < |l'.live| && Within(l'.live[k], x)
    {
      var k :| 0 <= k < |l.live| && Within(l.live[k], x);
      var k' :| 0 <= k' < |l'.live| && l'.live[k'] == l.live[k];
      assert Within(l'.live[k'], x);
    }
  }

  /** Giving out a free block leaves the rows of all claims alone. */
  lemma GrantsKept(m: seq<Row>, m': seq<Row>, blocks: seq<Block>, start: nat, end: nat, i: nat, live: seq<Grant>)
    requires Tiling(blocks, start, end) && UsedKept(m, m', blocks, i) && i < |blocks| && !blocks[i].used
    requires Granted(blocks, live)
    ensures RowsKept(m, m', live)
  {
    hide Tiling, Claimed, UsedKept, RowsKept;
    forall k | 0 <= k < |live| ensures live[k].p != blocks[i].addr + HEADER {
      FreeUnclaimed(blocks, start, end, i, live[k].p, live[k].size);
    }
    ClaimsKept(m, m', blocks, start, end, i, live);
  }

  /** Giving back the block of grant `k` leaves the other grants good. */
  lemma ReturnGrants(s: State, i: nat, live: seq<Grant>, live': seq<Grant>, k: nat)
    requires Granted(s.blocks, live) && k < |live| && live' == live[..k] + live[k + 1..]
    requires i < |s.blocks| && live[k].p == s.blocks[i].addr + HEADER
    ensures Granted(Return(s, i).blocks, live')
    ensures forall j :: 0 <= j < |live'| ==>
              Claimed(s.blocks, live'[j].p, live'[j].size) && live'[j].p != s.blocks[i].addr + HEADER
  {
    hide Claimed, Return;
    forall j | 0 <= j < |live'|
      ensures Claimed(s.blocks, live'[j].p, live'[j].size) && live'[j].p != s.blocks[i].addr + HEADER
      ensures Claimed(Return(s, i).blocks, live'[j].p, live'[j].size)
    {
      assert live'[j] == live[if j < k then j else j + 1];
      ReturnKeepsClaims(s, i, live'[j].p, live'[j].size);
    }
  }

  lemma BackedAdded(m: seq<Row>, m': seq<Row>, l: Ledger, l': Ledger)
    requires Backed(m, l) && RowsKept(m, m', l.live) && l'.notes == l.notes && l.live <= l'.live
    ensures Backed(m', l')
  {
    hide Within;
    BackedKept(m, m', l, l);
    forall x | x in l'.notes ensures exists k :: 0 <= k < |l'.live| && Within(l'.live[k], x) {
      var k :| 0 <= k < |l.live| && Within(l.live[k], x);
      assert Within(l'.live[k], x);
    }
  }

  lemma BackedForgotten(m: seq<Row>, m': seq<Row>, l: Ledger, k: nat)
    requires k < |l.live| && Backed(m, l) && RowsKept(m, m', Forgotten(l, k).live)
    ensures Backed(m', Forgotten(l, k))
  {
    hide Within;
    var l' := Forgotten(l, k);
    forall x, j | x in l'.notes && 0 <= j < |l.live| && Within(l.live[j], x) ensures l.live[j] in l'.live {
      assert j != k;
      assert l.live[j] == l'.live[if j < k then j else j - 1];
    }
    BackedKept(m, m', l, l');
  }

  lemma CarveGrants(s: State, start: nat, end: nat, i: nat, k: nat, need: nat, live: seq<Grant>, size: Word)
    requires Tiling(s.blocks, start, end) && FirstFit(s, i, k, need) && Granted(s.blocks, live)
    requires size + HEADER <= need && s.blocks[i].addr + HEADER < 0x1_0000_0000
    ensures Granted(Carve(s, i, k, need).blocks, live + [Grant(s.blocks[i].addr + HEADER, size)])
  {
    hide Tiling, Claimed, Carve;
    forall j | 0 <= j < |live|
      ensures Claimed(Carve(s, i, k, need).blocks, live[j].p, live[j].size) && live[j].p != s.blocks[i].addr + HEADER
    {
      CarveKeepsClaims(s, i, k, need, live[j].p, live[j].size);
      FreeUnclaimed(s.blocks, start, end, i, live[j].p, live[j].size);
    }
    NewClaim(s, i, k, need, size);
  }

  lemma FreeUnclaimed(blocks: seq<Block>, start: nat, end: nat, i: nat, p: nat, n: nat)
    requires Tiling(blocks, start, end) && i < |blocks| && !blocks[i].used && Claimed(blocks, p, n)
    ensures p != blocks[i].addr + HEADER
  {
    hide Tiling, Claimed;
    var j := ClaimIndex(blocks, p, n);
    StartsApart(blocks, start, end, i, j);
  }

  lemma NewClaim(s: State, i: nat, k: nat, need: nat, n: nat)
    requires i < |s.blocks| && k < |s.free| && n + HEADER <= need <= s.blocks[i].size
    ensures Claimed(Carve(s, i, k, need).blocks, s.blocks[i].addr + HEADER, n)
  {
    var bs := Carve(s, i, k, need).blocks;
    if Splits(s.blocks[i], need) {
      CutAt(s.blocks, i, need, i);
      assert Block(s.blocks[i].addr, need, true) == bs[i];
    } else {
      assert bs[i] == s.blocks[i].(used := true);
    }
    assert bs[i] in bs;
  }

  class KernelHeap {
    const ram: array<Row>
    const start: nat
    const end: Word
    var head: Word
    ghost var s: State

    /** The blocks tile the heap, the free list holds exactly the free ones, and memory says so. */
    ghost predicate Valid()
      reads this, ram
    {
      0 < start && end <= 16 * ram.Length && Ok(s, start, end) && Rep(ram[..], head, s)
    }

    /** What lies in memory: size and flag in the header of each block, and the links of the free list. */
    lemma HeadersInMemory(i: nat)
      requires Valid() && i < |s.blocks|
      ensures var x, b := s.blocks[i].addr / 16, s.blocks[i];
              x < ram.Length && ram[x].size == b.size && ram[x].flag % 256 == if b.used then 0 else 1
      ensures head == if s.free == [] then 0 else s.free[0]
      ensures forall k :: 0 <= k < |s.free| ==>
                && s.free[k] / 16 < ram.Length
                && ram[s.free[k] / 16].next == (if k + 1 < |s.free| then s.free[k + 1] else 0)
                && ram[s.free[k] / 16].prev == (if k > 0 then s.free[k - 1] else 0)
    {
      BlockFacts(i);
      hide Ok, Headers, HeaderIs;
      InMemory(i);
    }

    lemma InMemory(i: nat)
      requires Valid() && i < |s.blocks|
      ensures HeaderIs(ram[..], s.blocks[i])
    {
    }

    /** `heap_init` on the memory between `ramStart` and `ramEnd`. The end is a multiple of 16. */
    constructor (memory: array<Row>, ramStart: Word, ramEnd: Word)
      requires 0 < ramStart <= ramEnd <= 16 * memory.Length && ramEnd % 16 == 0
      modifies memory
      ensures Valid() && ram == memory && end == ramEnd && fresh(this)
      ensures s == if start < end then State([Block(start, end - start, false)], [start]) else State([], [])
      ensures start % 16 == 0 && ramStart <= start < ramStart + 16
    {
      var first := (ramStart + 15) / 16 * 16;
      ram, start, end, head := memory, first, ramEnd, 0;
      s := State([], []);
      new;
      if start < end {
        head := start;
        ram[RowOf(start)] := Row(end - start, 1, 0, 0);
        s := State([Block(start, end - start, false)], [start]);
        FirstBlock(start, end);
      }
    }

    /** A client stores into the payload of block `i`, which is in use. */
    method ClientStore(x: nat, r: Row, ghost i: nat)
      requires Valid() && i < |s.blocks| && s.blocks[i].used && InPayload(s.blocks[i], 16 * x) && x < ram.Length
      modifies ram
      ensures Valid() && ram[..] == old(ram[..])[x := r]
    {
      ghost var m := ram[..];
      ram[x] := r;
      hide Ok, Rep, Tiling;
      assert ClientWrite(m, ram[..], s.blocks);
      ClientKeepsRep(m, ram[..], head, s, start, end);
    }

    /** `remove_from_free_list`. */
    method RemoveFromFreeList(block: nat, ghost free: seq<nat>, ghost k: nat)
      requires Linked(ram[..], head, free) && k < |free| && free[k] == block
      modifies this`head, ram
      ensures Linked(ram[..], head, Without(free, k))
      ensures SameMarks(old(ram[..]), ram[..]) && SameBut(old(ram[..]), ram[..], free)
    {
      ghost var m, head0 := ram[..], head;
      hide Linked, RowOf, Unlinked, SameMarks, SameBut;
      LinkFacts(m, head0, free, k);
      var b := RowOf(block);
      if ram[b].prev != 0 {
        ram[RowOf(ram[b].prev)] := ram[RowOf(ram[b].prev)].(next := ram[b].next);
      } else {
        head := ram[b].next;
      }
      ghost var m1 := ram[..];
      if ram[b].next != 0 {
        ram[RowOf(ram[b].next)] := ram[RowOf(ram[b].next)].(prev := ram[b].prev);
      }
      ghost var m2 := ram[..];
      ram[b] := ram[b].(next := 0, prev := 0);
      UnlinkSteps(m, m1, m2, ram[..], head0, free, k);
      UnlinkedList(m, head0, ram[..], free, k);
    }

    /** `add_to_free_list`. */
    method AddToFreeList(block: Word, ghost free: seq<nat>)
      requires Linked(ram[..], head, free) && block !in free && 0 < block && block % 16 == 0
      requires RowOf(block) < ram.Length
      modifies this`head, ram
      ensures Linked(ram[..], head, [block] + free) && head == block
      ensures Pushed(old(ram[..]), ram[..], old(head), block) && SameBut(old(ram[..]), ram[..], [block] + free)
    {
      ghost var m, head0 := ram[..], head;
      hide Linked, RowOf, Pushed, SameBut;
      HeadFacts(m, head0, free, block);
      var b := RowOf(block);
      FlagByte(ram[b].flag);
      ram[b] := ram[b].(flag := ram[b].flag - ram[b].flag % 256 + 1);
      ram[b] := ram[b].(next := head);
      ram[b] := ram[b].(prev := 0);
      ghost var m1 := ram[..];
      if head != 0 {
        ram[RowOf(head)] := ram[RowOf(head)].(prev := block);
      }
      head := block;
      PushSteps(m, m1, ram[..], head0, block);
      PushedList(m, head0, ram[..], free, block);
    }

    lemma BlockFacts(i: nat)
      requires Valid() && i < |s.blocks|
      ensures 0 < s.blocks[i].addr && s.blocks[i].addr % 16 == 0 && s.blocks[i].addr + s.blocks[i].size <= end
      ensures RowOf(s.blocks[i].addr) < ram.Length && 16 <= s.blocks[i].size && HeaderIs(ram[..], s.blocks[i])
    {
      hide Tiling, Linked;
      Inside(s.blocks, start, end, i);
      Aligned(s.blocks, start, end, i);
      Tile(s.blocks, start, end, i);
    }

    /** The inner part of `kmalloc`: the block at `block` keeps `need` bytes, and the rest becomes a free
        block at the front of the list. */
    method SplitBlock(block: Word, need: Word, remaining: Word, ghost blocks: seq<Block>, ghost i: nat,
                      ghost rest: seq<nat>)
      requires i < |blocks| && blocks[i].addr == block && 0 < block && Splits(blocks[i], need) && 0 < need
      requires block % 16 == 0 && need % 16 == 0 && block + blocks[i].size <= end <= 16 * ram.Length
      requires remaining == blocks[i].size - need
      requires Linked(ram[..], head, rest) && block + need !in rest
      requires forall j :: 0 <= j < |rest| ==> FreeAt(blocks, rest[j])
      requires HeaderIs(ram[..], blocks[i].(used := true))
      modifies this`head, ram
      ensures Linked(ram[..], head, [block + need] + rest)
      ensures HeaderIs(ram[..], Block(block, need, true)) && HeaderIs(ram[..], Block(block + need, remaining, false))
      ensures MarksBut(old(ram[..]), ram[..], RowOf(block), RowOf(block + need))
      ensures Touched(old(ram[..]), ram[..], blocks, i)
    {
      hide Linked, Touched, SameBut, HeaderIs, Pushed, MarksBut, RowOf, FreeAt, Splits;
      ghost var m := ram[..];
      var next := block + need;
      RowsDiffer(block, next);
      RowsInside(blocks[i], need);
      ram[RowOf(block)] := ram[RowOf(block)].(size := need);
      ram[RowOf(next)] := ram[RowOf(next)].(size := remaining);
      ghost var m1, head1 := ram[..], head;
      LinkedOnes(m, head, rest);
      LinkedKept(m, m1, head, rest);
      AddToFreeList(next, rest);
      SplitHeaders(m, m1, ram[..], blocks[i], need, head1);
      SplitTouched(m, m1, ram[..], blocks, i, block, need, rest);
    }

    lemma RowsInside(b: Block, need: nat)
      requires Splits(b, need) && b.addr + b.size <= 16 * ram.Length
      ensures RowOf(b.addr) < ram.Length && RowOf(b.addr + need) < ram.Length
    {
    }

    lemma SplitHeaders(m: seq<Row>, m1: seq<Row>, m2: seq<Row>, b: Block, need: Word, head1: nat)
      requires HeaderIs(m, b.(used := true)) && Splits(b, need) && b.size < 0x1_0000_0000
      requires RowOf(b.addr) != RowOf(b.addr + need) && RowOf(b.addr + need) < |m|
      requires |m1| == |m| && forall x :: 0 <= x < |m| && x != RowOf(b.addr) && x != RowOf(b.addr + need) ==>
                m1[x] == m[x]
      requires m1[RowOf(b.addr)] == m[RowOf(b.addr)].(size := need)
      requires m1[RowOf(b.addr + need)] == m[RowOf(b.addr + need)].(size := b.size - need)
      requires Pushed(m1, m2, head1, b.addr + need)
      ensures HeaderIs(m2, Block(b.addr, need, true)) && HeaderIs(m2, Block(b.addr + need, b.size - need, false))
      ensures MarksBut(m, m2, RowOf(b.addr), RowOf(b.addr + need))
    {
      hide RowOf;
      FlagByte(m1[RowOf(b.addr + need)].flag);
    }

    lemma SplitTouched(m: seq<Row>, m1: seq<Row>, m2: seq<Row>, blocks: seq<Block>, i: nat, block: nat, need: nat,
                       rest: seq<nat>)
      requires i < |blocks| && blocks[i].addr == block && Splits(blocks[i], need) && 0 < need && block % 16 == 0
      requires need % 16 == 0
      requires |m1| == |m| && forall x :: 0 <= x < |m| && m1[x] != m[x] ==>
                x == RowOf(block) || x == RowOf(block + need)
      requires SameBut(m1, m2, [block + need] + rest)
      requires forall j :: 0 <= j < |rest| ==> rest[j] % 16 == 0 && FreeAt(blocks, rest[j])
      ensures Touched(m, m2, blocks, i)
    {
      hide FreeAt;
      ListTouched(m1, m2, blocks, i, [block + need] + rest);
      assert Touched(m, m1, blocks, i);
      TouchedTwice(m, m1, m2, blocks, i);
    }

    /** The part of `kmalloc` that takes block `i`, entry `k` of the free list. */
    method TakeBlock(block: Word, need: Word, ghost i: nat, ghost k: nat)
      requires Valid() && i < |s.blocks| && k < |s.free| && s.free[k] == s.blocks[i].addr == block && !s.blocks[i].used
      requires need % 16 == 0 && 16 <= need <= s.blocks[i].size
      modifies this, ram
      ensures Valid() && s == Carve(old(s), i, k, need)
      ensures UsedKept(old(ram[..]), ram[..], old(s).blocks, i)
    {
      hide Ok, Linked, Tiling, Headers, Touched, SameBut, SameMarks, Carve, UsedKept, Unlinked;
      ghost var m, s0, head0, rest := ram[..], s, head, Without(s.free, k);
      TakeFacts(m, head, s, start, end, i, k, need);
      BlockFacts(i);
      RemoveFromFreeList(block, s.free, k);
      ghost var m1 := ram[..];
      ListTouched(m, m1, s0.blocks, i, s0.free);
      MarksFacts(m, m1, block);
      FlagByte(ram[RowOf(block)].flag);
      ram[RowOf(block)] := ram[RowOf(block)].(flag := ram[RowOf(block)].flag - ram[RowOf(block)].flag % 256);
      ghost var m2 := ram[..];
      LinkedKept(m1, m2, head, rest);
      OwnTouched(m1, m2, s0.blocks, i);
      TouchedTwice(m, m1, m2, s0.blocks, i);
      var remaining := ram[RowOf(block)].size - need;
      if remaining >= HEADER + 16 {
        SplitBlock(block, need, remaining, s0.blocks, i, rest);
        TouchedTwice(m, m2, ram[..], s0.blocks, i);
        MarksChain(m, m1, m2, ram[..], RowOf(block), RowOf(block + need));
        CutHeaders(m, ram[..], s0.blocks, start, end, i, need);
      } else {
        MarksChain(m, m1, m2, m2, RowOf(block), RowOf(block));
        MarkHeaders(m, m2, s0.blocks, start, end, i, true);
      }
      TouchedKept(m, ram[..], s0.blocks, start, end, i);
      s := Carve(s0, i, k, need);
      CarveIs(s0, i, k, need);
    }

    /** `kmalloc`: the first free block in list order that is big enough, or NULL if there is none. */
    method Kmalloc(size: Word) returns (p: Word, ghost i: nat, ghost k: nat)
      requires Valid() && size + 31 < 0x1_0000_0000
      modifies this, ram
      ensures Valid()
      ensures p == 0 <==> size == 0 || NoFit(old(s), Need(size))
      ensures NoFit(old(s), Need(size)) <==> NoRoom(old(s), size)
      ensures p == 0 ==> s == old(s) && ram[..] == old(ram[..])
      ensures p != 0 ==> FirstFit(old(s), i, k, Need(size)) && s == Carve(old(s), i, k, Need(size))
      ensures p != 0 ==> FirstRoom(old(s), size, i, k) && GivenOut(old(s), size, s, i, k)
      ensures p != 0 ==> i < |s.blocks| && s.blocks[i].used && p == s.blocks[i].addr + 16
      ensures p != 0 ==> s.blocks[i].addr == old(s).blocks[i].addr && p + size <= s.blocks[i].addr + s.blocks[i].size
      ensures p != 0 ==> s.blocks[i].size < size + 63
      ensures p != 0 ==> UsedKept(old(ram[..]), ram[..], old(s).blocks, i)
    {
      hide Ok, Headers, Carve, UsedKept, NoFit, TooSmall, Need, NoRoom, FirstRoom, GivenOut;
      p, i, k := 0, 0, 0;
      RoomRule(s, size);
      if size == 0 {
        return;
      }
      NeedFits(size);
      var need := Need(size);
      var curr := head;
      while curr != 0
        invariant Valid() && s == old(s) && ram[..] == old(ram[..])
        invariant k <= |s.free| && curr == Entry(s.free, k)
        invariant forall j :: 0 <= j < k ==> TooSmall(s, s.free[j], need)
        decreases |s.free| - k
      {
        i := ListedBlock(s, start, end, k);
        BlockFacts(i);
        if ram[RowOf(curr)].size >= need {
          ghost var s0 := s;
          FitExcludes(s0, i, k, need);
          TakeBlock(curr, need, i, k);
          GivenBlock(s0, i, k, need);
          CarveRule(s0, size, i, k);
          LittleWaste(s0, size, s, i, k);
          BlockFacts(i);
          return curr + HEADER, i, k;
        }
        curr := ram[RowOf(curr)].next;
        k := k + 1;
      }
      ListEnd(k);
      NoneFits(s, start, end, need);
    }

    lemma ListEnd(k: nat)
      requires Valid() && k <= |s.free| && Entry(s.free, k) == 0
      ensures k == |s.free| && Ok(s, start, end)
    {
      LinkedOnes(ram[..], head, s.free);
    }

    lemma GivenBlock(s0: State, i: nat, k: nat, need: nat)
      requires i < |s0.blocks| && k < |s0.free| && need <= s0.blocks[i].size
      ensures i < |Carve(s0, i, k, need).blocks|
      ensures var b := Carve(s0, i, k, need).blocks[i];
              b.used && b.addr == s0.blocks[i].addr && need <= b.size
    {
      if Splits(s0.blocks[i], need) {
        CutAt(s0.blocks, i, need, i);
      }
    }

    /** The inner part of `coalesce`: the free block behind block `i` is taken off the list, and its bytes are
        added to block `i`. */
    method MergeNext(block: Word, next: Word, ghost i: nat)
      requires Valid() && i < |s.blocks| && s.blocks[i].addr == block && !s.blocks[i].used
      requires NextFree(s.blocks, i) && s.blocks[i + 1].addr == next
      modifies this, ram
      ensures Valid() && s == Merged(old(s), i)
      ensures Touched(old(ram[..]), ram[..], old(s).blocks, i)
    {
      hide Ok, Headers, Linked, Merged, Touched, SameBut, SameMarks, Joined, Dropped, Tiling, RowOf;
      ghost var m, s0 := ram[..], s;
      ghost var k := IndexOf(s.free, next);
      BlockFacts(i);
      BlockFacts(i + 1);
      MergeFacts(i);
      SumSize(i);
      RemoveFromFreeList(next, s.free, k);
      ghost var m1 := ram[..];
      MarksFacts(m, m1, block);
      MarksFacts(m, m1, next);
      ram[RowOf(block)] := ram[RowOf(block)].(size := ram[RowOf(block)].size + ram[RowOf(next)].size);
      ghost var m2 := ram[..];
      ListTouched(m, m1, s0.blocks, i, s0.free);
      OwnTouched(m1, m2, s0.blocks, i);
      TouchedTwice(m, m1, m2, s0.blocks, i);
      LinkedKept(m1, m2, head, Without(s0.free, k));
      MarksChain(m, m1, m2, m2, RowOf(block), RowOf(block));
      JoinedHeaders(m, m2, s0.blocks, start, end, i);
      s := Merged(s0, i);
      MergedIs(s0, i);
    }

    /** `coalesce`: block `i` is merged with its right neighbour if that is free. */
    method Coalesce(block: Word, ghost i: nat)
      requires Valid() && i < |s.blocks| && s.blocks[i].addr == block && !s.blocks[i].used
      modifies this, ram
      ensures Valid() && s == Merged(old(s), i)
      ensures Touched(old(ram[..]), ram[..], old(s).blocks, i)
    {
      hide Ok, Headers, Linked, Merged, Touched, Joined, Dropped;
      BlockFacts(i);
      MergeFacts(i);
      MergedIs(s, i);
      NothingTouched(ram[..], s.blocks, i);
      var next := block + ram[RowOf(block)].size;
      if next < end {
        BlockFacts(i + 1);
        if ram[RowOf(next)].flag % 256 == 1 {
          MergeNext(block, next, i);
        }
      }
    }

    /** What merging may rely on. */
    lemma MergeFacts(i: nat)
      requires Valid() && i < |s.blocks| && !s.blocks[i].used
      ensures Ok(Merged(s, i), start, end) && Tiling(s.blocks, start, end)
      ensures i + 1 < |s.blocks| <==> s.blocks[i].addr + s.blocks[i].size < end
      ensures i + 1 < |s.blocks| ==> s.blocks[i + 1].addr == s.blocks[i].addr + s.blocks[i].size
      ensures NextFree(s.blocks, i) ==> IndexOf(s.free, s.blocks[i + 1].addr) < |s.free|
      ensures forall j :: 0 <= j < |s.free| ==> s.free[j] % 16 == 0 && FreeAt(s.blocks, s.free[j])
    {
      hide Headers, BlockOk, Tiling, RowOf;
      LinkedOnes(ram[..], head, s.free);
      MergedOk(s, start, end, i);
      Tile(s.blocks, start, end, i);
      if i + 1 < |s.blocks| {
        Ordered(s.blocks, start, end, i + 1, |s.blocks|);
        Tile(s.blocks, start, end, i + 1);
        SizePositive(s.blocks[i + 1]);
      }
      if NextFree(s.blocks, i) {
        FreeBlock(s.blocks, i + 1);
      }
      forall j | 0 <= j < |s.free| ensures FreeAt(s.blocks, s.free[j]) {
        assert s.free[j] in s.free;
      }
    }

    lemma SumSize(i: nat)
      requires Valid() && i + 1 < |s.blocks|
      ensures s.blocks[i].size + s.blocks[i + 1].size < 0x1_0000_0000
    {
      hide Headers, BlockOk, Linked, Tiling;
      Tile(s.blocks, start, end, i);
      Inside(s.blocks, start, end, i + 1);
    }

    lemma MergedIs(s0: State, i: nat)
      requires i < |s0.blocks|
      ensures !NextFree(s0.blocks, i) ==> Merged(s0, i) == s0
      ensures NextFree(s0.blocks, i) && IndexOf(s0.free, s0.blocks[i + 1].addr) < |s0.free| ==>
                Merged(s0, i) == State(Joined(s0.blocks, i), Without(s0.free, IndexOf(s0.free, s0.blocks[i + 1].addr)))
    {
    }

    /** `kfree` of NULL or of the payload of block `i`. Freeing a free block does nothing. */
    method Kfree(p: Word, ghost i: nat)
      requires Valid() && (p != 0 ==> i < |s.blocks| && p == s.blocks[i].addr + HEADER)
      modifies this, ram
      ensures Valid()
      ensures s == if p == 0 || !old(s).blocks[i].used then old(s) else Return(old(s), i)
      ensures p == 0 || !old(s).blocks[i].used ==> ram[..] == old(ram[..])
      ensures p != 0 ==> UsedKept(old(ram[..]), ram[..], old(s).blocks, i)
    {
      hide Ok, Headers, Linked, Touched, Return, UsedKept, Freed, Merged, SameBut, Pushed, Tiling, FreeAt;
      if p == 0 {
        return;
      }
      var block := p - HEADER;
      BlockFacts(i);
      ghost var m, s0, head0 := ram[..], s, head;
      FreeFacts(i);
      NothingTouched(m, s.blocks, i);
      TouchedKept(m, m, s.blocks, start, end, i);
      if ram[RowOf(block)].flag % 256 != 0 {
        return;
      }
      AddToFreeList(block, s.free);
      ghost var m1 := ram[..];
      FlagByte(m[RowOf(block)].flag);
      PushedMarks(m, m1, head0, block);
      ListTouched(m, m1, s0.blocks, i, [block] + s0.free);
      MarkHeaders(m, m1, s0.blocks, start, end, i, false);
      s := Freed(s0, i);
      FreedIs(s0, i);
      Coalesce(block, i);
      FreedThenMerged(s0, start, end, i);
      TouchedFreed(m1, ram[..], s0, start, end, i);
      TouchedTwice(m, m1, ram[..], s0.blocks, i);
      TouchedKept(m, ram[..], s0.blocks, start, end, i);
    }

    lemma FreedIs(s0: State, i: nat)
      requires i < |s0.blocks|
      ensures Freed(s0, i).blocks == Mark(s0.blocks, i, false) && Freed(s0, i).free == [s0.blocks[i].addr] + s0.free
      ensures |Mark(s0.blocks, i, false)| == |s0.blocks| && !Mark(s0.blocks, i, false)[i].used
      ensures Mark(s0.blocks, i, false)[i].addr == s0.blocks[i].addr
    {
    }

    /** What freeing may rely on. */
    lemma FreeFacts(i: nat)
      requires Valid() && i < |s.blocks|
      ensures Tiling(s.blocks, start, end) && Headers(ram[..], s.blocks) && Linked(ram[..], head, s.free)
      ensures s.blocks[i].used ==> Ok(Freed(s, i), start, end) && s.blocks[i].addr !in s.free
      ensures forall j :: 0 <= j < |s.free| ==> s.free[j] % 16 == 0 && FreeAt(s.blocks, s.free[j])
    {
      hide Headers, BlockOk, Tiling, RowOf, FreeAt;
      LinkedOnes(ram[..], head, s.free);
      if s.blocks[i].used {
        FreedOk(s, start, end, i);
        UsedNotFree(s.blocks, start, end, i);
      }
      forall j | 0 <= j < |s.free| ensures FreeAt(s.blocks, s.free[j]) {
        assert s.free[j] in s.free;
      }
    }

    ghost predicate Held(live: seq<Grant>)
      reads this
    {
      Granted(s.blocks, live)
    }

    method AllocateFor(size: Word, live: seq<Grant>) returns (p: Word, live': seq<Grant>)
      requires Valid() && Held(live) && size + 31 < 0x1_0000_0000
      modifies this, ram
      ensures Valid() && Held(live') && live' == if p == 0 then live else live + [Grant(p, size)]
      ensures Allocated(old(s), size, p, s)
      ensures RowsKept(old(ram[..]), ram[..], live)
    {
      assert Tiling(s.blocks, start, end);
      hide Ok, Rep, Tiling, Carve, UsedKept, NoFit, FirstFit, Granted, Need, RowsKept, NoRoom, FirstRoom, GivenOut;
      ghost var s0, m := s, ram[..];
      NeedFits(size);
      ghost var i, k;
      p, i, k := Kmalloc(size);
      live' := live;
      if p != 0 {
        live' := live + [Grant(p, size)];
        assert AllocatedAt(s0, size, p, s, i, k);
        CarveGrants(s0, start, end, i, k, Need(size), live, size);
        GrantsKept(m, ram[..], s0.blocks, start, end, i, live);
      }
    }

    method FreeFor(k: nat, live: seq<Grant>) returns (live': seq<Grant>)
      requires Valid() && Held(live) && k < |live|
      modifies this, ram
      ensures Valid() && Held(live') && live' == live[..k] + live[k + 1..] && Released(old(s), live[k].p, s)
      ensures RowsKept(old(ram[..]), ram[..], live')
    {
      assert Tiling(s.blocks, start, end);
      hide Ok, Rep, Tiling, Return, UsedKept, Claimed, RowsKept, GivenBack;
      ghost var s0, m := s, ram[..];
      ghost var i := ClaimIndex(s.blocks, live[k].p, live[k].size);
      ghost var next := ReturnRule(s, start, end, i);
      live' := live[..k] + live[k + 1..];
      ReturnGrants(s0, i, live, live', k);
      Kfree(live[k].p, i);
      assert ReleasedAt(s0, live[k].p, s, i, next);
      ClaimsKept(m, ram[..], s0.blocks, start, end, i, live');
    }

    method StoreFor(k: nat, x: nat, row: Row, live: seq<Grant>)
      requires Valid() && Held(live) && k < |live| && Within(live[k], x)
      modifies ram
      ensures Valid() && x < ram.Length && ram[..] == old(ram[..])[x := row]
    {
      assert Tiling(s.blocks, start, end);
      hide Ok, Rep, Tiling, Claimed, Within, InBlock;
      ghost var i := ClaimedRow(s.blocks, start, end, live[k], x);
      RowInside(i, x);
      ClientStore(x, row, i);
    }

    lemma RowInside(i: nat, x: nat)
      requires Valid() && i < |s.blocks| && InBlock(s.blocks[i], x)
      ensures x < ram.Length
    {
      hide Rep, Ok;
      BlockFacts(i);
    }

    /** The bookkeeping of one call. */
    method Serve(call: HeapCall, ghost l: Ledger, live: seq<Grant>)
      returns (r: HeapResult, ghost l': Ledger, live': seq<Grant>)
      requires Valid() && Held(live) && l.live == live && Backed(ram[..], l)
      requires call.Allocate? ==> call.size + 31 < 0x1_0000_0000
      modifies this, ram
      ensures Valid() && Held(live') && l'.live == live' && Backed(ram[..], l')
      ensures Booked(l, call, r) == Some(l') && Served(old(s), l, call, r, s)
    {
      hide Valid, Held, RowsKept, Within, Allocated, Released;
      ghost var m := ram[..];
      r, l', live' := Done, l, live;
      match call {
        case Allocate(size) =>
          var p;
          p, live' := AllocateFor(size, live);
          r, l' := Given(p), l.(live := live');
          BackedAdded(m, ram[..], l, l');
        case Free(k) =>
          if k < |live| {
            live' := FreeFor(k, live);
            l' := Forgotten(l, k);
            BackedForgotten(m, ram[..], l, k);
          }
        case Store(k, x, row) =>
          if k < |live| && Within(live[k], x) {
            StoreFor(k, x, row, live);
            l' := l.(notes := l.notes[x := row]);
          }
        case Load(k, x) =>
          if k < |live| && Within(live[k], x) {
            GrantInside(live, k, x);
            r := Loaded(ram[x]);
          }
      }
    }

    lemma GrantInside(live: seq<Grant>, k: nat, x: nat)
      requires Valid() && Held(live) && k < |live| && Within(live[k], x)
      ensures x < ram.Length
    {
      hide Rep, Claimed, Within, InBlock;
      var i := ClaimedRow(s.blocks, start, end, live[k], x);
      RowInside(i, x);
    }

    /** Every run of allocations, frees, stores and loads through the pointers that are held keeps the heap
        valid. Each allocation is the first fit, or NULL exactly when there is none; at every moment the pointers
        that are held are aligned, inside the heap and do not overlap, and what was stored through them is read
        back. */
    method Run(calls: seq<HeapCall>) returns (results: seq<HeapResult>, live: seq<Grant>, ghost trace: seq<State>)
      requires Valid() && forall c :: c in calls && c.Allocate? ==> c.size + 31 < 0x1_0000_0000
      modifies this, ram
      ensures Valid() && Held(live) && |results| == |calls| && |trace| == |calls| + 1
      ensures trace[0] == old(s) && trace[|calls|] == s
      ensures Replay(calls, trace, results).Some? && Replay(calls, trace, results).value.live == live
      ensures Backed(ram[..], Replay(calls, trace, results).value)
      ensures forall j, k :: 0 <= j < k < |live| ==>
                live[j].p + live[j].size <= live[k].p || live[k].p + live[k].size <= live[j].p
      ensures forall j :: 0 <= j < |live| ==>
                live[j].p % 16 == 0 && start <= live[j].p && live[j].p + live[j].size <= end
    {
      hide Ok, Rep, Claimed, Booked, Served;
      results, live, trace := [], [], [s];
      ghost var l := Ledger([], map[]);
      for n := 0 to |calls|
        invariant Valid() && Held(live) && |results| == n && l.live == live && Backed(ram[..], l)
        invariant |trace| == n + 1 && trace[0] == old(s) && trace[n] == s
        invariant Replay(calls[..n], trace, results) == Some(l)
      {
        assert calls[n] in calls;
        ghost var l0 := l;
        var r;
        r, l, live := Serve(calls[n], l, live);
        OneMoreCall(calls, n, trace, results, l0, s, r, l);
        results, trace := results + [r], trace + [s];
      }
      assert calls[..|calls|] == calls;
      forall j, k | 0 <= j < |live| && 0 <= k < |live|
        ensures live[j].p % 16 == 0 && start <= live[j].p && live[j].p + live[j].size <= end
        ensures j < k ==> live[j].p + live[j].size <= live[k].p || live[k].p + live[k].size <= live[j].p
      {
        HeldApart(live, j, k);
      }
    }

    lemma HeldApart(live: seq<Grant>, j: nat, k: nat)
      requires Valid() && Held(live) && j < |live| && k < |live|
      ensures live[j].p % 16 == 0 && start <= live[j].p && live[j].p + live[j].size <= end
      ensures j < k ==> live[j].p + live[j].size <= live[k].p || live[k].p + live[k].size <= live[j].p
    {
      hide Rep, Claimed, Listed;
      ClaimsApart(s.blocks, start, end, live[j].p, live[j].size, live[k].p, live[k].size);
    }

    lemma CarveIs(s0: State, i: nat, k: nat, need: nat)
      requires i < |s0.blocks| && k < |s0.free| && need <= s0.blocks[i].size
      ensures Splits(s0.blocks[i], need) ==>
                Carve(s0, i, k, need) ==
                    State(Cut(s0.blocks, i, need), [s0.blocks[i].addr + need] + Without(s0.free, k))
      ensures !Splits(s0.blocks[i], need) ==>
                Carve(s0, i, k, need) == State(Mark(s0.blocks, i, true), Without(s0.free, k))
    {
    }
  }

  lemma MarksChain(m: seq<Row>, m1: seq<Row>, m2: seq<Row>, m3: seq<Row>, x: nat, y: nat)
    requires SameMarks(m, m1) && |m2| == |m1| && (forall z :: 0 <= z < |m| && z != x ==> m2[z] == m1[z])
    requires MarksBut(m2, m3, x, y)
    ensures MarksBut(m, m3, x, y)
  {
  }

  lemma MarksFacts(m: seq<Row>, m1: seq<Row>, a: nat)
    requires SameMarks(m, m1) && RowOf(a) < |m|
    ensures RowOf(a) < |m1| && m1[RowOf(a)].size == m[RowOf(a)].size && m1[RowOf(a)].flag == m[RowOf(a)].flag
  {
  }

  lemma OwnTouched(m: seq<Row>, m': seq<Row>, blocks: seq<Block>, i: nat)
    requires i < |blocks| && blocks[i].addr % 16 == 0 && 16 <= blocks[i].size
    requires |m'| == |m| && forall x :: 0 <= x < |m| && x != RowOf(blocks[i].addr) ==> m'[x] == m[x]
    ensures Touched(m, m', blocks, i)
  {
    hide FreeAt;
  }

  lemma PushedMarks(m: seq<Row>, m': seq<Row>, head: nat, b: nat)
    requires Pushed(m, m', head, b) && RowOf(b) < |m|
    ensures MarksBut(m, m', RowOf(b), RowOf(b)) && m'[RowOf(b)].size == m[RowOf(b)].size
    ensures m'[RowOf(b)].flag == m[RowOf(b)].flag - m[RowOf(b)].flag % 256 + 1
  {
  }

  lemma TouchedFreed(m: seq<Row>, m': seq<Row>, s: State, start: nat, end: nat, i: nat)
    requires Tiling(s.blocks, start, end) && i < |s.blocks| && Touched(m, m', Mark(s.blocks, i, false), i)
    ensures Touched(m, m', s.blocks, i)
  {
    hide Tiling, FreeAt;
    Tile(s.blocks, start, end, i);
    SizePositive(s.blocks[i]);
    forall x | 0 <= x < |m| && m'[x] != m[x] ensures InBlock(s.blocks[i], x) || FreeAt(s.blocks, 16 * x) {
      MarkFree(s.blocks, start, end, i, false, 16 * x);
    }
  }

  lemma NothingTouched(m: seq<Row>, blocks: seq<Block>, i: nat)
    requires i < |blocks|
    ensures Touched(m, m, blocks, i)
  {
  }

  lemma JoinedHeaders(m: seq<Row>, m': seq<Row>, blocks: seq<Block>, start: nat, end: nat, i: nat)
    requires Tiling(blocks, start, end) && Headers(m, blocks) && i + 1 < |blocks| && !blocks[i].used
    requires MarksBut(m, m', RowOf(blocks[i].addr), RowOf(blocks[i].addr))
    requires HeaderIs(m', Block(blocks[i].addr, blocks[i].size + blocks[i + 1].size, false))
    ensures Headers(m', Joined(blocks, i))
  {
    hide Tiling, BlockOk, HeaderIs, MarksBut, RowOf, Joined;
    Aligned(blocks, start, end, i);
    Tile(blocks, start, end, i);
    assert blocks[i].size > 0 by { SizePositive(blocks[i]); }
    JoinedAt(blocks, i, 0);
    forall j | 0 <= j < |Joined(blocks, i)| ensures HeaderIs(m', Joined(blocks, i)[j]) {
      JoinedAt(blocks, i, j);
      if j != i {
        OtherHeader(m, m', blocks, start, end, i, if j < i then j else j + 1, blocks[i].addr);
      }
    }
  }

  /** What taking a free block may rely on. */
  lemma TakeFacts(m: seq<Row>, head: nat, s: State, start: nat, end: nat, i: nat, k: nat, need: nat)
    requires Ok(s, start, end) && Rep(m, head, s) && i < |s.blocks| && k < |s.free| && s.free[k] == s.blocks[i].addr
    requires need % 16 == 0 && 16 <= need <= s.blocks[i].size && !s.blocks[i].used
    ensures Ok(Carve(s, i, k, need), start, end) && Tiling(s.blocks, start, end) && Distinct(s.free)
    ensures forall j :: 0 <= j < |s.free| ==> s.free[j] % 16 == 0 && FreeAt(s.blocks, s.free[j])
    ensures forall j :: 0 <= j < |Without(s.free, k)| ==> FreeAt(s.blocks, Without(s.free, k)[j])
    ensures Splits(s.blocks[i], need) ==> s.blocks[i].addr + need !in Without(s.free, k)
  {
    LinkedOnes(m, head, s.free);
    hide Tiling, FreeAt, Headers, BlockOk, Carve, Linked, Without, RowOf;
    CarveOk(s, start, end, i, k, need);
    WithoutHas(s.free, k);
    forall j | 0 <= j < |s.free| ensures s.free[j] % 16 == 0 && FreeAt(s.blocks, s.free[j]) {
      assert s.free[j] in s.free;
    }
    forall j | 0 <= j < |Without(s.free, k)| ensures FreeAt(s.blocks, Without(s.free, k)[j]) {
      assert Without(s.free, k)[j] in Without(s.free, k);
    }
    if Splits(s.blocks[i], need) {
      NotInside(s.blocks, start, end, i, s.blocks[i].addr + need);
    }
  }
}
