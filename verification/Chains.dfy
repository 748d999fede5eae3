// Cluster chains in the file allocation table.
module Chains {
  import opened Disk
  import opened Sequences

  /** The test with which every walk of the driver decides to follow a cell. */
  predicate IsLink(v: nat) { 2 <= v < 0xFF8 }

  /** `s` lists the clusters of a well-ended chain: each cell names the next cluster, the last
      cell is an end mark, and all clusters exist on the drive. */
  ghost predicate IsChain(fat: FatTable, s: seq<nat>, last: nat)
    requires last < 4080
  {
    && |s| > 0
    && (forall i :: 0 <= i < |s| ==> 2 <= s[i] <= last)
    && (forall i :: 0 <= i < |s| - 1 ==> fat[s[i]] == s[i + 1])
    && fat[s[|s| - 1]] >= 0xFF8
  }

  /** A chain that reaches an end mark visits no cluster twice. */
  lemma {:induction false} ChainDistinct(fat: FatTable, s: seq<nat>, last: nat, i: nat, j: nat)
    requires last < 4080 && IsChain(fat, s, last) && i < j < |s|
    ensures s[i] != s[j]
    decreases |s| - j
  {
    assert fat[s[i]] == s[i + 1] <= last;
    if j + 1 < |s| {
      assert fat[s[j]] == s[j + 1];
      ChainDistinct(fat, s, last, i + 1, j + 1);
    }
  }

  /** The table determines the chain that starts at a cluster. */
  lemma {:induction false} ChainUnique(fat: FatTable, s: seq<nat>, t: seq<nat>, last: nat)
    requires last < 4080 && IsChain(fat, s, last) && IsChain(fat, t, last) && s[0] == t[0]
    ensures s == t
    decreases |s|
  {
    assert |s| > 1 ==> fat[s[0]] == s[1] <= last;
    assert |t| > 1 ==> fat[t[0]] == t[1] <= last;
    if |s| > 1 {
      assert s[1] == fat[s[0]] == fat[t[0]] == t[1];
      ChainTail(fat, s, last);
      ChainTail(fat, t, last);
      ChainUnique(fat, s[1..], t[1..], last);
      assert s == [s[0]] + s[1..];
      assert t == [t[0]] + t[1..];
    }
  }

  ghost function Elements(s: seq<nat>): (r: set<nat>)
    ensures forall x :: x in r <==> x in s
  {
    set x | x in s
  }

  lemma {:induction false} ElementsCount(s: seq<nat>)
    requires Distinct(s)
    ensures |Elements(s)| == |s|
  {
    if s != [] {
      var init, e := s[..|s| - 1], s[|s| - 1];
      ElementsCount(init);
      assert s == init + [e];
      assert Elements(s) == Elements(init) + {e};
    }
  }

  ghost function Below(n: nat): (r: set<nat>)
    ensures |r| == n && (forall x: nat :: x in r <==> x < n)
  {
    if n == 0 then {} else Below(n - 1) + {n - 1}
  }

  lemma SubsetCount(a: set<nat>, b: set<nat>)
    requires a <= b
    ensures |a| <= |b|
  {
    assert |b - a| + |a| == |b| by {
      assert (b - a) + a == b;
    }
  }

  /** A chain is not longer than the number of clusters, so a file size fits in 32 bits. */
  lemma ChainShort(fat: FatTable, s: seq<nat>, last: nat)
    requires last < 4080 && IsChain(fat, s, last)
    ensures |s| <= last + 1
  {
    forall i, j | 0 <= i < j < |s|
      ensures s[i] != s[j]
    {
      ChainDistinct(fat, s, last, i, j);
    }
    ElementsCount(s);
    assert Elements(s) <= Below(last + 1);
    SubsetCount(Elements(s), Below(last + 1));
  }

  lemma ChainTail(fat: FatTable, s: seq<nat>, last: nat)
    requires last < 4080 && IsChain(fat, s, last) && |s| > 1
    ensures IsChain(fat, s[1..], last)
  {
    var t := s[1..];
    forall i | 0 <= i < |t| - 1
      ensures fat[t[i]] == t[i + 1]
    {
      assert t[i] == s[i + 1] && t[i + 1] == s[i + 2];
    }
  }

  // ---------- taking a cluster ----------

  /** `r` is the first free cluster the allocator sees, or -1 if every cluster is in use. */
  predicate FirstFree(fat: FatTable, r: int) {
    && (r == -1 || (2 <= r < 4080 && fat[r] == 0))
    && forall b :: 2 <= b < (if r < 0 then 4080 else r) ==> fat[b] != 0
  }

  lemma FirstFreeUnique(fat: FatTable, r: int, q: int)
    requires FirstFree(fat, r) && FirstFree(fat, q)
    ensures r == q
  {
  }

  /** No cluster is free. */
  lemma NoneFree(fat: FatTable)
    ensures FirstFree(fat, -1) <==> forall b :: 2 <= b < 4080 ==> fat[b] != 0
  {
  }

  /** The table after cluster `r` is taken and linked behind cluster `current`, if there is one. */
  function Taken(fat: FatTable, r: int, current: nat): FatTable
    requires r < 4096 && current < 4096
  {
    if r < 0 then fat
    else if current < 2 then Set(fat, r, 0xFFF)
    else Set(Set(fat, r, 0xFFF), current, r)
  }

  // ---------- freeing ----------

  ghost function NonZero(fat: FatTable): set<nat>
  {
    set c: nat | c < 4096 && fat[c] != 0
  }

  /** The table after `fat12_free_cluster_chain(c)`, on every table: also on one whose cells
      form a cycle, because a cell that is met again reads as 0 and stops the walk. */
  ghost function FreeFrom(fat: FatTable, c: nat): (r: FatTable)
    decreases |NonZero(fat)|, if IsLink(c) then 1 else 0
  {
    if !IsLink(c) then fat else
    ClearShrinks(fat, c);
    FreeFrom(Set(fat, c, 0), fat[c])
  }

  /** The walk goes on with every value from 2 to 0xFF7, marks for bad clusters included. */
  lemma FreeSteps(fat: FatTable, c: nat)
    ensures FreeFrom(fat, c) ==
              if 2 <= c <= 0xFF7
              then FreeFrom(seq(4096, b requires 0 <= b < 4096 => if b == c then 0 else fat[b]), fat[c])
              else fat
  {
    if 2 <= c <= 0xFF7 {
      assert Set(fat, c, 0) == seq(4096, b requires 0 <= b < 4096 => if b == c then 0 else fat[b]);
    }
  }

  lemma ClearShrinks(fat: FatTable, c: nat)
    requires c < 4096
    ensures fat[c] != 0 ==> |NonZero(Set(fat, c, 0))| < |NonZero(fat)|
    ensures fat[c] == 0 ==> Set(fat, c, 0) == fat
  {
    if fat[c] != 0 {
      assert NonZero(Set(fat, c, 0)) == NonZero(fat) - {c};
    }
  }

  /** The table with the cells of `s` set to 0 and every other cell kept. */
  function Zeroed(fat: FatTable, s: seq<nat>): FatTable
  {
    seq(4096, c requires 0 <= c < 4096 => if c in s then 0 else fat[c])
  }

  /** On a well-ended chain, freeing clears exactly the cells of the chain. */
  lemma {:induction false} FreeChain(fat: FatTable, s: seq<nat>, last: nat)
    requires last < 4080 && IsChain(fat, s, last)
    ensures FreeFrom(fat, s[0]) == Zeroed(fat, s)
    decreases |s|
  {
    ClearShrinks(fat, s[0]);
    var fat' := Set(fat, s[0], 0);
    if |s| == 1 {
      assert FreeFrom(fat', fat[s[0]]) == fat';
    } else {
      var t := s[1..];
      assert IsChain(fat', t, last) by {
        forall i | 0 <= i < |t|
          ensures t[i] == s[i + 1] && t[i] != s[0]
        {
          ChainDistinct(fat, s, last, 0, i + 1);
        }
      }
      FreeChain(fat', t, last);
      assert s == [s[0]] + t;
    }
    assert FreeFrom(fat, s[0]) == Zeroed(fat, s);
  }

  /** On any table, freeing only ever clears cells, and it clears the first cell whenever that
      cell takes part in a walk. */
  lemma {:induction false} FreeOnlyClears(fat: FatTable, c: nat, x: nat)
    requires x < 4096
    ensures FreeFrom(fat, c)[x] == fat[x] || FreeFrom(fat, c)[x] == 0
    ensures IsLink(c) ==> FreeFrom(fat, c)[c] == 0
    decreases |NonZero(fat)|, if IsLink(c) then 1 else 0
  {
    if IsLink(c) {
      ClearShrinks(fat, c);
      FreeOnlyClears(Set(fat, c, 0), fat[c], x);
      FreeOnlyClears(Set(fat, c, 0), fat[c], c);
    }
  }
}
