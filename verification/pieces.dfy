// Splitting allocations and merging them again: the pieces of a block always tile it.

module Pieces {
  import opened Words
  import opened Allocations
  import opened Collector

  // ----- the operations -----

  predicate EndsBlock(split: Split) { split == Unsplit || split == SplitLast }

  predicate StartsBlock(split: Split) { split == Unsplit || split == SplitFirst }

  /** `lauf_runtime_split_allocation`: the slot shrinks to the part before the offset, and a new slot
      has the rest. */
  function SplitAllocation(t: seq<Allocation>, addr: Word): Option<seq<Allocation>> {
    match TryGet(t, addr)
    case None => None
    case Some(i) =>
      var a, offset := t[i], AddressOffset(addr);
      if a.status != Allocated || offset >= a.size then None
      else
        Some(t[i := a.(size := offset, split := if StartsBlock(a.split) then SplitFirst else SplitMiddle)]
             + [a.(ptr := Wrap(a.ptr + offset), size := a.size - offset,
                   split := if EndsBlock(a.split) then SplitLast else SplitMiddle)])
  }

  predicate CanMerge(a: Allocation, b: Allocation) {
    a.status == Allocated && b.status == Allocated && a.split != Unsplit && b.split != Unsplit
    && Wrap(a.ptr + a.size) == b.ptr
  }

  function Merged(a: Allocation, b: Allocation): Allocation {
    a.(size := (a.size + b.size) % 0x1_0000_0000,
       split := if b.split == SplitLast then (if a.split == SplitFirst then Unsplit else SplitLast) else a.split)
  }

  /** `lauf_runtime_merge_allocation`: the first slot grows over the second, which is freed. */
  function MergeAllocation(t: seq<Allocation>, addr1: Word, addr2: Word): Option<seq<Allocation>> {
    match (TryGet(t, addr1), TryGet(t, addr2))
    case (Some(i), Some(j)) =>
      if !CanMerge(t[i], t[j]) then None
      else
        var grown := t[i := Merged(t[i], t[j])];
        Some(grown[j := grown[j].(status := Freed)])
    case _ => None
  }

  // ----- blocks and the slots that tile them -----

  /** Memory handed to the process in one piece, as far as it can be addressed. */
  datatype HostBlock = HostBlock(ptr: Word, size: U32)

  /** For each block the slots that tile it, in address order, and for each slot the block it is of.
      A block that is gone has no slots. */
  datatype Tiling = Tiling(blocks: seq<HostBlock>, chains: seq<seq<nat>>, owner: seq<nat>)

  function TagAt(k: nat, n: nat): Split {
    if n == 1 then Unsplit else if k == 0 then SplitFirst else if k + 1 == n then SplitLast else SplitMiddle
  }

  function EndOf(a: Allocation): nat { a.ptr + a.size }

  /** The slots of a chain are live, follow one another from the block's start to its end, carry the
      tags of their positions, and none is empty unless it is the whole block. */
  predicate IsChain(t: seq<Allocation>, c: seq<nat>, b: HostBlock) {
    && c != []
    && (forall k :: 0 <= k < |c| ==> c[k] < |t| && Live(t[c[k]]) && t[c[k]].split == TagAt(k, |c|))
    && (forall k :: 0 <= k < |c| ==> |c| > 1 ==> t[c[k]].size > 0)
    && t[c[0]].ptr == b.ptr
    && (forall k :: 0 <= k < |c| - 1 ==> EndOf(t[c[k]]) == t[c[k + 1]].ptr)
    && EndOf(t[c[|c| - 1]]) == b.ptr + b.size
  }

  predicate ChainsOk(t: seq<Allocation>, g: Tiling) {
    |g.blocks| == |g.chains|
    && forall o :: 0 <= o < |g.chains| && g.chains[o] != [] ==>
          IsChain(t, g.chains[o], g.blocks[o]) && g.blocks[o].ptr + g.blocks[o].size < TWO_64
  }

  predicate OwnersOk(n: nat, g: Tiling) {
    |g.owner| >= n
    && forall o, k :: 0 <= o < |g.chains| && 0 <= k < |g.chains[o]| ==>
          g.chains[o][k] < n && g.owner[g.chains[o][k]] == o
  }

  predicate HasPlace(g: Tiling, i: nat)
    requires i < |g.owner|
  {
    g.owner[i] < |g.chains| && i in g.chains[g.owner[i]]
  }

  predicate Covered(t: seq<Allocation>, g: Tiling) {
    |g.owner| >= |t| && forall i :: 0 <= i < |t| && Live(t[i]) ==> HasPlace(g, i)
  }

  /** Every live slot is a piece of exactly one block, and every block that is not gone is tiled. */
  predicate Tiled(t: seq<Allocation>, g: Tiling) {
    ChainsOk(t, g) && OwnersOk(|t|, g) && Covered(t, g)
  }

  predicate Apart(a: Allocation, b: Allocation) {
    a.size == 0 || b.size == 0 || EndOf(a) <= b.ptr || EndOf(b) <= a.ptr
  }

  /** Live slots do not overlap. */
  predicate Disjoint(t: seq<Allocation>) {
    forall i, j :: 0 <= i < |t| && 0 <= j < |t| && i != j && Live(t[i]) && Live(t[j]) ==> Apart(t[i], t[j])
  }

  predicate ClearOf(t: seq<Allocation>, a: Allocation) {
    forall i :: 0 <= i < |t| && Live(t[i]) ==> Apart(t[i], a)
  }

  lemma {:induction false} ChainIncreases(t: seq<Allocation>, c: seq<nat>, b: HostBlock, k: nat, k': nat)
    requires IsChain(t, c, b) && k < k' < |c|
    ensures EndOf(t[c[k]]) <= t[c[k']].ptr && c[k] != c[k']
  {
    if k + 1 < k' {
      ChainIncreases(t, c, b, k, k' - 1);
      assert EndOf(t[c[k' - 1]]) == t[c[k' - 1 + 1]].ptr;
    }
  }

  lemma ChainInBlock(t: seq<Allocation>, c: seq<nat>, b: HostBlock, k: nat)
    requires IsChain(t, c, b) && k < |c|
    ensures b.ptr <= t[c[k]].ptr && EndOf(t[c[k]]) <= b.ptr + b.size
  {
    if k > 0 {
      ChainIncreases(t, c, b, 0, k);
    }
    if k < |c| - 1 {
      ChainIncreases(t, c, b, k, |c| - 1);
    }
  }

  /** The place of a live slot in its block. */
  lemma PlaceOf(t: seq<Allocation>, g: Tiling, i: nat) returns (o: nat, k: nat)
    requires Tiled(t, g) && i < |t| && Live(t[i])
    ensures o < |g.chains| && k < |g.chains[o]| && g.chains[o][k] == i && g.owner[i] == o
    ensures IsChain(t, g.chains[o], g.blocks[o]) && t[i].split == TagAt(k, |g.chains[o]|)
    ensures forall k' :: 0 <= k' < |g.chains[o]| && k' != k ==> g.chains[o][k'] != i
    ensures forall o', k' :: 0 <= o' < |g.chains| && o' != o && 0 <= k' < |g.chains[o']| ==> g.chains[o'][k'] != i
    ensures EndOf(t[i]) < TWO_64
  {
    o := g.owner[i];
    k :| 0 <= k < |g.chains[o]| && g.chains[o][k] == i;
    forall k' | 0 <= k' < |g.chains[o]| && k' != k ensures g.chains[o][k'] != i {
      ChainIncreases(t, g.chains[o], g.blocks[o], if k < k' then k else k', if k < k' then k' else k);
    }
    ChainInBlock(t, g.chains[o], g.blocks[o], k);
  }

  // ----- what each change of the table keeps -----

  /** A chain is untouched by changes to other slots. */
  lemma ChainStays(t: seq<Allocation>, t': seq<Allocation>, c: seq<nat>, b: HostBlock)
    requires IsChain(t, c, b)
    requires forall k :: 0 <= k < |c| ==> c[k] < |t'| && Live(t'[c[k]]) && t'[c[k]].split == t[c[k]].split
    requires forall k :: 0 <= k < |c| ==> t'[c[k]].ptr == t[c[k]].ptr && t'[c[k]].size == t[c[k]].size
    ensures IsChain(t', c, b)
  {
  }

  function WithBlock(t: seq<Allocation>, g: Tiling, a: Allocation): Tiling
    requires |g.owner| >= |t|
  {
    Tiling(g.blocks + [HostBlock(a.ptr, a.size)], g.chains + [[|t|]], g.owner[..|t|] + [|g.chains|])
  }

  lemma AppendChains(t: seq<Allocation>, g: Tiling, a: Allocation)
    requires ChainsOk(t, g) && |g.owner| >= |t| && Live(a) && a.split == Unsplit && EndOf(a) < TWO_64
    ensures ChainsOk(t + [a], WithBlock(t, g, a))
  {
    var t' := t + [a];
    forall o | 0 <= o < |g.chains| && g.chains[o] != [] ensures IsChain(t', g.chains[o], g.blocks[o]) {
      ChainStays(t, t', g.chains[o], g.blocks[o]);
    }
    assert IsChain(t', [|t|], HostBlock(a.ptr, a.size));
  }

  lemma AppendCovers(t: seq<Allocation>, g: Tiling, a: Allocation)
    requires Covered(t, g)
    ensures Covered(t + [a], WithBlock(t, g, a))
  {
    var g' := WithBlock(t, g, a);
    assert g'.chains[|g.chains|][0] == |t|;
    forall i | 0 <= i < |t| && Live(t[i]) ensures HasPlace(g', i) {
      assert HasPlace(g, i);
    }
  }

  lemma AppendOwners(t: seq<Allocation>, g: Tiling, a: Allocation)
    requires OwnersOk(|t|, g) && ChainsOk(t, g)
    ensures OwnersOk(|t| + 1, WithBlock(t, g, a))
  {
    var g' := WithBlock(t, g, a);
    forall o, k | 0 <= o < |g'.chains| && 0 <= k < |g'.chains[o]|
      ensures g'.chains[o][k] <= |t| && g'.owner[g'.chains[o][k]] == o {
      assert o < |g.chains| ==> g'.chains[o] == g.chains[o] && g.owner[g.chains[o][k]] == o;
    }
  }

  /** A new block, whole. */
  lemma AppendKeeps(t: seq<Allocation>, g: Tiling, a: Allocation)
    requires Tiled(t, g) && Live(a) && a.split == Unsplit && EndOf(a) < TWO_64
    ensures Tiled(t + [a], WithBlock(t, g, a))
  {
    AppendChains(t, g, a);
    AppendOwners(t, g, a);
    AppendCovers(t, g, a);
  }

  /** Only statuses and marks change; a slot may be freed if it is a whole block. */
  predicate SomeFreed(t: seq<Allocation>, t': seq<Allocation>) {
    |t| == |t'| && forall i :: 0 <= i < |t| ==>
      && t'[i].ptr == t[i].ptr && t'[i].size == t[i].size && t'[i].split == t[i].split
      && (Live(t'[i]) ==> Live(t[i])) && (Live(t[i]) && !Live(t'[i]) ==> t[i].split == Unsplit)
  }

  /** Blocks whose slot has been freed are gone. */
  function WithoutFreed(t': seq<Allocation>, g: Tiling): Tiling {
    g.(chains := seq(|g.chains|, o requires 0 <= o < |g.chains| =>
                       if g.chains[o] == [] || g.chains[o][0] >= |t'| || !Live(t'[g.chains[o][0]]) then []
                       else g.chains[o]))
  }

  lemma ChainLivesOn(t: seq<Allocation>, t': seq<Allocation>, c: seq<nat>, b: HostBlock)
    requires IsChain(t, c, b) && SomeFreed(t, t')
    ensures Live(t'[c[0]]) ==> IsChain(t', c, b)
    ensures forall k :: 0 <= k < |c| && Live(t'[c[k]]) ==> Live(t'[c[0]])
  {
    if |c| > 1 {
      forall k | 0 <= k < |c| ensures Live(t'[c[k]]) {
        assert t[c[k]].split == TagAt(k, |c|) != Unsplit;
      }
    }
    if Live(t'[c[0]]) {
      ChainStays(t, t', c, b);
    }
  }

  lemma FreeingKeeps(t: seq<Allocation>, g: Tiling, t': seq<Allocation>)
    requires Tiled(t, g) && SomeFreed(t, t')
    ensures Tiled(t', WithoutFreed(t', g))
  {
    var g' := WithoutFreed(t', g);
    forall o | 0 <= o < |g'.chains| && g'.chains[o] != [] ensures IsChain(t', g'.chains[o], g'.blocks[o]) {
      ChainLivesOn(t, t', g.chains[o], g.blocks[o]);
    }
    forall i | 0 <= i < |t'| && Live(t'[i]) ensures HasPlace(g', i) {
      var o, k := PlaceOf(t, g, i);
      ChainLivesOn(t, t', g.chains[o], g.blocks[o]);
      assert g'.chains[o] == g.chains[o];
    }
  }

  /** Freed slots at the end of the table are dropped. */
  lemma DroppingKeeps(t: seq<Allocation>, g: Tiling, t': seq<Allocation>)
    requires Tiled(t, g) && t' <= t && forall i :: |t'| <= i < |t| ==> !Live(t[i])
    ensures Tiled(t', g)
  {
    forall o | 0 <= o < |g.chains| && g.chains[o] != [] ensures IsChain(t', g.chains[o], g.blocks[o]) {
      ChainStays(t, t', g.chains[o], g.blocks[o]);
    }
    forall o, k | 0 <= o < |g.chains| && 0 <= k < |g.chains[o]| ensures g.chains[o][k] < |t'| {
      assert IsChain(t', g.chains[o], g.blocks[o]);
    }
  }

  // ----- splitting -----

  /** The table after slot `i` has been split at `offset`. */
  function SplitTable(t: seq<Allocation>, i: nat, offset: U32): seq<Allocation>
    requires i < |t| && offset < t[i].size
  {
    t[i := t[i].(size := offset, split := if StartsBlock(t[i].split) then SplitFirst else SplitMiddle)]
    + [t[i].(ptr := Wrap(t[i].ptr + offset), size := t[i].size - offset,
             split := if EndsBlock(t[i].split) then SplitLast else SplitMiddle)]
  }

  function SplitChain(c: seq<nat>, k: nat, n: nat): seq<nat>
    requires k < |c|
  {
    c[..k + 1] + [n] + c[k + 1..]
  }

  lemma SplitChainKeeps(t: seq<Allocation>, c: seq<nat>, b: HostBlock, k: nat, offset: U32)
    requires IsChain(t, c, b) && k < |c| && 0 < offset < t[c[k]].size && EndOf(t[c[k]]) < TWO_64
    requires forall k' :: 0 <= k' < |c| && k' != k ==> c[k'] != c[k]
    ensures IsChain(SplitTable(t, c[k], offset), SplitChain(c, k, |t|), b)
  {
    var i, t', c' := c[k], SplitTable(t, c[k], offset), SplitChain(c, k, |t|);
    assert t'[i].ptr == t[i].ptr && EndOf(t'[i]) == t'[|t|].ptr && EndOf(t'[|t|]) == EndOf(t[i]);
    forall k' | 0 <= k' < |c'|
      ensures c'[k'] < |t'| && Live(t'[c'[k']]) && t'[c'[k']].split == TagAt(k', |c'|) && t'[c'[k']].size > 0
    {
      if k' < k {
        assert c'[k'] == c[k'] && t'[c[k']] == t[c[k']];
      } else if k' > k + 1 {
        assert c'[k'] == c[k' - 1] && t'[c[k' - 1]] == t[c[k' - 1]];
      }
    }
    forall k' | 0 <= k' < |c'| - 1 ensures EndOf(t'[c'[k']]) == t'[c'[k' + 1]].ptr {
      if k' < k {
        assert c'[k'] == c[k'] && c'[k' + 1] == c[k' + 1];
      } else if k' > k + 1 {
        assert c'[k'] == c[k' - 1] && c'[k' + 1] == c[k'];
      } else if k' == k + 1 {
        assert c'[k' + 1] == c[k'];
      }
    }
  }

  /** The other chains do not hold slot `i`, so a change to it does not matter to them. */
  lemma OthersStay(t: seq<Allocation>, g: Tiling, t': seq<Allocation>, o: nat)
    requires ChainsOk(t, g) && OwnersOk(|t|, g) && |t'| >= |t| && o < |g.chains|
    requires forall i :: 0 <= i < |t| && g.owner[i] != o ==> t'[i] == t[i]
    ensures forall o' :: 0 <= o' < |g.chains| && o' != o && g.chains[o'] != [] ==>
              IsChain(t', g.chains[o'], g.blocks[o'])
  {
    forall o' | 0 <= o' < |g.chains| && o' != o && g.chains[o'] != [] ensures IsChain(t', g.chains[o'], g.blocks[o']) {
      ChainStays(t, t', g.chains[o'], g.blocks[o']);
    }
  }

  function SplitTiling(t: seq<Allocation>, g: Tiling, o: nat, k: nat): Tiling
    requires |g.owner| >= |t| && o < |g.chains| && k < |g.chains[o]|
  {
    Tiling(g.blocks, g.chains[o := SplitChain(g.chains[o], k, |t|)], g.owner[..|t|] + [o])
  }

  lemma SplitCovers(t: seq<Allocation>, g: Tiling, t': seq<Allocation>, o: nat, k: nat)
    requires Covered(t, g) && o < |g.chains| && k < |g.chains[o]|
    requires |t'| == |t| + 1 && forall i :: 0 <= i < |t| ==> Live(t'[i]) == Live(t[i])
    ensures Covered(t', SplitTiling(t, g, o, k))
  {
    var g' := SplitTiling(t, g, o, k);
    forall i | 0 <= i < |t'| && Live(t'[i]) ensures HasPlace(g', i) {
      if i == |t| {
        assert g'.chains[o][k + 1] == i;
      } else {
        assert HasPlace(g, i);
        SplitChainHolds(g.chains[o], k, |t|, i);
      }
    }
  }

  lemma SplitOwners(t: seq<Allocation>, g: Tiling, o: nat, k: nat)
    requires OwnersOk(|t|, g) && o < |g.chains| && k < |g.chains[o]|
    ensures OwnersOk(|t| + 1, SplitTiling(t, g, o, k))
  {
    var g', c := SplitTiling(t, g, o, k), g.chains[o];
    forall k' | 0 <= k' < |g'.chains[o]| ensures g'.chains[o][k'] <= |t| && g'.owner[g'.chains[o][k']] == o {
      assert k' < k + 1 ==> g'.chains[o][k'] == c[k'];
      assert k' > k + 1 ==> g'.chains[o][k'] == c[k' - 1];
    }
  }

  /** A split strictly inside a piece keeps the tiling of the same blocks. */
  lemma SplitKeeps(t: seq<Allocation>, g: Tiling, i: nat, offset: U32) returns (g': Tiling)
    requires Tiled(t, g) && i < |t| && Live(t[i]) && 0 < offset < t[i].size
    ensures Tiled(SplitTable(t, i, offset), g') && g'.blocks == g.blocks
  {
    var o, k := PlaceOf(t, g, i);
    g' := SplitTiling(t, g, o, k);
    SplitChainKeeps(t, g.chains[o], g.blocks[o], k, offset);
    OthersStay(t, g, SplitTable(t, i, offset), o);
    SplitOwners(t, g, o, k);
    SplitCovers(t, g, SplitTable(t, i, offset), o, k);
  }

  lemma SplitChainHolds(c: seq<nat>, k: nat, n: nat, i: nat)
    requires k < |c|
    ensures i in c ==> i in SplitChain(c, k, n)
  {
    assert c == c[..k + 1] + c[k + 1..];
  }

  /** A split that is not refused leaves the blocks tiled if and only if it is not at offset 0. */
  lemma SplitKeepsTiling(t: seq<Allocation>, g: Tiling, addr: Word)
    requires Tiled(t, g) && SplitAllocation(t, addr).Some?
    ensures (exists g' :: Tiled(SplitAllocation(t, addr).value, g')) <==> AddressOffset(addr) > 0
  {
    var i, offset := TryGet(t, addr).value, AddressOffset(addr);
    var t' := SplitTable(t, i, offset);
    assert SplitAllocation(t, addr).value == t';
    if offset > 0 {
      var g' := SplitKeeps(t, g, i, offset);
    } else if g' :| Tiled(t', g') {
      var _, _ := PlaceOf(t', g', i);
    }
  }

  // ----- merging -----

  /** The table after slot `i` has grown over slot `j`. */
  function MergeTable(t: seq<Allocation>, i: nat, j: nat): seq<Allocation>
    requires i < |t| && j < |t|
  {
    var grown := t[i := Merged(t[i], t[j])];
    grown[j := grown[j].(status := Freed)]
  }

  /** Two pieces that can be merged, the first not the last of its block, are neighbours in it. */
  lemma MergesNeighbours(t: seq<Allocation>, g: Tiling, i: nat, j: nat) returns (o: nat, k: nat)
    requires Tiled(t, g) && Disjoint(t) && i < |t| && j < |t| && CanMerge(t[i], t[j]) && t[i].split != SplitLast
    ensures o < |g.chains| && k + 1 < |g.chains[o]| && g.chains[o][k] == i && g.chains[o][k + 1] == j
    ensures IsChain(t, g.chains[o], g.blocks[o]) && g.owner[i] == g.owner[j] == o
  {
    o, k := PlaceOf(t, g, i);
    var c := g.chains[o];
    var n := c[k + 1];
    assert EndOf(t[i]) == t[n].ptr;
    var _, _ := PlaceOf(t, g, j);
    assert t[j].ptr == t[n].ptr && t[j].size > 0 && t[n].size > 0 && Live(t[n]);
    assert n == j;
  }

  function MergeChain(c: seq<nat>, k: nat): seq<nat>
    requires k + 1 < |c|
  {
    c[..k + 1] + c[k + 2..]
  }

  /** What a merge does to the two slots, and that it leaves the rest of the chain alone. */
  lemma MergeEffect(t: seq<Allocation>, c: seq<nat>, b: HostBlock, k: nat)
    requires IsChain(t, c, b) && k + 1 < |c|
    ensures var t' := MergeTable(t, c[k], c[k + 1]);
            && EndOf(t'[c[k]]) == EndOf(t[c[k + 1]]) && t'[c[k]].ptr == t[c[k]].ptr && t'[c[k]].size > 0
            && Live(t'[c[k]]) && t'[c[k]].split == TagAt(k, |c| - 1)
            && forall k' :: 0 <= k' < |c| && k' != k && k' != k + 1 ==> t'[c[k']] == t[c[k']]
  {
    var i, j := c[k], c[k + 1];
    ChainInBlock(t, c, b, k);
    ChainInBlock(t, c, b, k + 1);
    ChainIncreases(t, c, b, k, k + 1);
    assert EndOf(t[i]) == t[j].ptr;
    forall k' | 0 <= k' < |c| && k' != k && k' != k + 1 ensures c[k'] != i && c[k'] != j {
      ChainIncreases(t, c, b, if k < k' then k else k', if k < k' then k' else k);
      ChainIncreases(t, c, b, if k + 1 < k' then k + 1 else k', if k + 1 < k' then k' else k + 1);
    }
  }

  lemma MergeChainKeeps(t: seq<Allocation>, c: seq<nat>, b: HostBlock, k: nat)
    requires IsChain(t, c, b) && k + 1 < |c|
    ensures IsChain(MergeTable(t, c[k], c[k + 1]), MergeChain(c, k), b)
  {
    var t', c' := MergeTable(t, c[k], c[k + 1]), MergeChain(c, k);
    MergeEffect(t, c, b, k);
    forall k' | 0 <= k' < |c'|
      ensures c'[k'] < |t'| && Live(t'[c'[k']]) && t'[c'[k']].split == TagAt(k', |c'|) && t'[c'[k']].size > 0
    {
      assert c'[k'] == c[if k' <= k then k' else k' + 1];
    }
    forall k' | 0 <= k' < |c'| - 1 ensures EndOf(t'[c'[k']]) == t'[c'[k' + 1]].ptr {
      if k' < k {
        assert c'[k'] == c[k'] && c'[k' + 1] == c[k' + 1];
      } else {
        assert c'[k' + 1] == c[k' + 2] && EndOf(t[c[k' + 1]]) == t[c[k' + 2]].ptr;
        assert k' > k ==> c'[k'] == c[k' + 1];
      }
    }
  }

  function MergeTiling(g: Tiling, o: nat, k: nat): Tiling
    requires o < |g.chains| && k + 1 < |g.chains[o]|
  {
    g.(chains := g.chains[o := MergeChain(g.chains[o], k)])
  }

  lemma MergeOwners(n: nat, g: Tiling, o: nat, k: nat)
    requires OwnersOk(n, g) && o < |g.chains| && k + 1 < |g.chains[o]|
    ensures OwnersOk(n, MergeTiling(g, o, k))
  {
    var g', c := MergeTiling(g, o, k), g.chains[o];
    forall k' | 0 <= k' < |g'.chains[o]| ensures g'.chains[o][k'] < n && g'.owner[g'.chains[o][k']] == o {
      assert g'.chains[o][k'] == c[if k' <= k then k' else k' + 1];
    }
  }

  lemma MergeCovers(t: seq<Allocation>, g: Tiling, t': seq<Allocation>, o: nat, k: nat)
    requires Covered(t, g) && o < |g.chains| && k + 1 < |g.chains[o]|
    requires |t'| == |t| && forall i :: 0 <= i < |t| && Live(t'[i]) ==> Live(t[i]) && i != g.chains[o][k + 1]
    ensures Covered(t', MergeTiling(g, o, k))
  {
    var g' := MergeTiling(g, o, k);
    forall i | 0 <= i < |t'| && Live(t'[i]) ensures HasPlace(g', i) {
      assert HasPlace(g, i);
      MergeChainHolds(g.chains[o], k, i);
    }
  }

  lemma MergeKeeps(t: seq<Allocation>, g: Tiling, i: nat, j: nat) returns (g': Tiling)
    requires Tiled(t, g) && Disjoint(t) && i < |t| && j < |t| && CanMerge(t[i], t[j]) && t[i].split != SplitLast
    ensures Tiled(MergeTable(t, i, j), g') && g'.blocks == g.blocks
  {
    var o, k := MergesNeighbours(t, g, i, j);
    g' := MergeTiling(g, o, k);
    MergeChainKeeps(t, g.chains[o], g.blocks[o], k);
    OthersStay(t, g, MergeTable(t, i, j), o);
    MergeOwners(|t|, g, o, k);
    MergeCovers(t, g, MergeTable(t, i, j), o, k);
  }

  lemma MergeChainHolds(c: seq<nat>, k: nat, i: nat)
    requires k + 1 < |c| && i != c[k + 1]
    ensures i in c ==> i in MergeChain(c, k)
  {
    assert c == c[..k + 1] + [c[k + 1]] + c[k + 2..];
  }

  /** A live slot ends where `x` starts, and is not the last of its block. */
  predicate Precedes(t: seq<Allocation>, y: nat, x: nat) {
    x < |t| && y < |t| && Live(t[y]) && EndOf(t[y]) == t[x].ptr && t[y].size > 0 && !EndsBlock(t[y].split)
  }

  /** A piece that does not start its block has one before it. */
  lemma PieceBefore(t: seq<Allocation>, g: Tiling, x: nat) returns (y: nat)
    requires Tiled(t, g) && x < |t| && Live(t[x])
    ensures !StartsBlock(t[x].split) ==> Precedes(t, y, x)
  {
    var o, k := PlaceOf(t, g, x);
    y := 0;
    if k > 0 {
      y := g.chains[o][k - 1];
      assert EndOf(t[y]) == t[g.chains[o][k - 1 + 1]].ptr;
      assert t[y].split == TagAt(k - 1, |g.chains[o]|);
    }
  }

  /** Where the first piece of a merge ends its block, the second starts another one. */
  lemma CrossesBlocks(t: seq<Allocation>, g: Tiling, i: nat, j: nat) returns (o: nat)
    requires Tiled(t, g) && Disjoint(t) && i < |t| && j < |t| && CanMerge(t[i], t[j]) && t[i].split == SplitLast
    ensures t[j].split == SplitFirst && g.owner[i] != g.owner[j] == o && o < |g.chains|
    ensures |g.chains[o]| > 1 && g.chains[o][0] == j && IsChain(t, g.chains[o], g.blocks[o])
    ensures EndOf(t[i]) == t[j].ptr && t[i].size > 0 && t[j].size > 0
  {
    var oi, ki := PlaceOf(t, g, i);
    var k;
    o, k := PlaceOf(t, g, j);
    var y := PieceBefore(t, g, j);
    assert Precedes(t, y, j) ==> !Apart(t[y], t[i]);
    if oi == o && 0 < ki {
      ChainIncreases(t, g.chains[o], g.blocks[o], 0, ki);
    }
  }

  /** Merging away the first piece of a block leaves the other pieces of the block without a start. */
  lemma CrossingMergeBreaks(t: seq<Allocation>, g: Tiling, i: nat, j: nat, g': Tiling)
    requires Tiled(t, g) && Disjoint(t) && i < |t| && j < |t| && CanMerge(t[i], t[j]) && t[i].split == SplitLast
    ensures !Tiled(MergeTable(t, i, j), g')
  {
    var t' := MergeTable(t, i, j);
    var o := CrossesBlocks(t, g, i, j);
    var c := g.chains[o];
    var x := c[1];
    assert EndOf(t[j]) == t[c[0 + 1]].ptr && Live(t[x]) && t[x].split == TagAt(1, |c|);
    assert x != j && x != i;
    assert t'[i].split == SplitLast && !Live(t'[j]) && t'[x] == t[x];
    if Tiled(t', g') {
      var y := PieceBefore(t', g', x);
      NothingElseEndsThere(t, i, j, x, y);
    }
  }

  lemma NothingElseEndsThere(t: seq<Allocation>, i: nat, j: nat, x: nat, y: nat)
    requires Disjoint(t) && i < |t| && j < |t| && x < |t| && x != i && x != j && Live(t[j]) && t[j].size > 0
    requires EndOf(t[j]) == t[x].ptr && t[i].split == SplitLast && t[j].split == SplitFirst
    ensures !Precedes(MergeTable(t, i, j), y, x)
  {
    var t' := MergeTable(t, i, j);
    if y < |t| && y != i && y != j && Live(t[y]) {
      assert Apart(t[y], t[j]);
    }
  }

  /** A merge that is not refused leaves the blocks tiled if and only if the first piece is not the
      last of its block; then both pieces are of one block.  (The list of cases in the source does
      not mention a last piece followed by a first one.) */
  lemma MergeKeepsTiling(t: seq<Allocation>, g: Tiling, addr1: Word, addr2: Word)
    requires Tiled(t, g) && Disjoint(t) && MergeAllocation(t, addr1, addr2).Some?
    ensures var (i, j) := (TryGet(t, addr1).value, TryGet(t, addr2).value);
            && ((exists g' :: Tiled(MergeAllocation(t, addr1, addr2).value, g')) <==> t[i].split != SplitLast)
            && (g.owner[i] == g.owner[j] <==> t[i].split != SplitLast)
  {
    var i, j := TryGet(t, addr1).value, TryGet(t, addr2).value;
    assert MergeAllocation(t, addr1, addr2).value == MergeTable(t, i, j);
    if t[i].split != SplitLast {
      var g' := MergeKeeps(t, g, i, j);
      var _, _ := MergesNeighbours(t, g, i, j);
    } else {
      var _ := CrossesBlocks(t, g, i, j);
      forall g' ensures !Tiled(MergeTable(t, i, j), g') {
        CrossingMergeBreaks(t, g, i, j, g');
      }
    }
  }

  // ----- the smallest examples -----

  function Piece(ptr: Word, size: U32, split: Split): Allocation {
    Allocation(ptr, size, 0, HeapMemory, Allocated, split, Unreachable, false)
  }

  /** Two blocks of 16 bytes, one right after the other, each split in the middle. */
  function TwoBlocks(): seq<Allocation> {
    [Piece(0, 8, SplitFirst), Piece(8, 8, SplitLast), Piece(16, 8, SplitFirst), Piece(24, 8, SplitLast)]
  }

  function TwoBlocksTiling(): Tiling {
    Tiling([HostBlock(0, 16), HostBlock(16, 16)], [[0, 1], [2, 3]], [0, 0, 1, 1])
  }

  lemma SmallAddress(k: nat, n: nat, t: seq<Allocation>)
    requires k < n == |t| <= 4 && t[k].generation == 0
    ensures TryGet(t, MakeAddress(k, 0, 0)) == Some(k) && AddressOffset(MakeAddress(k, 0, 0)) == 0
  {
    AddressRoundTrip(k, 0, 0);
  }

  lemma MergeIs(t: seq<Allocation>, addr1: Word, addr2: Word, i: nat, j: nat)
    requires TryGet(t, addr1) == Some(i) && TryGet(t, addr2) == Some(j) && CanMerge(t[i], t[j])
    ensures MergeAllocation(t, addr1, addr2) == Some(MergeTable(t, i, j))
  {
  }

  /** The last piece of the first block and the first one of the second can be merged, and afterwards
      neither block is tiled. */
  lemma CrossingMergeExample()
    ensures Tiled(TwoBlocks(), TwoBlocksTiling()) && Disjoint(TwoBlocks())
    ensures MergeAllocation(TwoBlocks(), MakeAddress(1, 0, 0), MakeAddress(2, 0, 0)).Some?
    ensures forall g' :: !Tiled(MergeAllocation(TwoBlocks(), MakeAddress(1, 0, 0), MakeAddress(2, 0, 0)).value, g')
  {
    hide Tiled, Disjoint, MakeAddress;
    var t := TwoBlocks();
    TwoBlocksTiled();
    SmallAddress(1, 4, t);
    SmallAddress(2, 4, t);
    MergeIs(t, MakeAddress(1, 0, 0), MakeAddress(2, 0, 0), 1, 2);
    forall g' ensures !Tiled(MergeTable(t, 1, 2), g') {
      CrossingMergeBreaks(t, TwoBlocksTiling(), 1, 2, g');
    }
  }

  lemma TwoBlocksTiled()
    ensures Tiled(TwoBlocks(), TwoBlocksTiling()) && Disjoint(TwoBlocks())
  {
    hide IsChain, HasPlace;
    var t, g := TwoBlocks(), TwoBlocksTiling();
    HalvesTile(t, 0, HostBlock(0, 16));
    HalvesTile(t, 2, HostBlock(16, 16));
    HalvesPlaced(g, 0, 0);
    HalvesPlaced(g, 1, 2);
  }

  /** Two pieces that tile their block. */
  lemma HalvesTile(t: seq<Allocation>, i: nat, b: HostBlock)
    requires i + 1 < |t| && b.size == 16 && t[i] == Piece(b.ptr, 8, SplitFirst)
    requires b.ptr + 8 < TWO_64 && t[i + 1] == Piece(b.ptr + 8, 8, SplitLast)
    ensures IsChain(t, [i, i + 1], b)
  {
  }

  lemma HalvesPlaced(g: Tiling, o: nat, i: nat)
    requires o < |g.chains| && g.chains[o] == [i, i + 1] && i + 1 < |g.owner| && g.owner[i] == g.owner[i + 1] == o
    ensures HasPlace(g, i) && HasPlace(g, i + 1)
  {
    assert g.chains[o][0] == i && g.chains[o][1] == i + 1;
  }

  lemma CanSplit(t: seq<Allocation>, addr: Word, i: nat)
    requires TryGet(t, addr) == Some(i) && t[i].status == Allocated && AddressOffset(addr) < t[i].size
    ensures SplitAllocation(t, addr).Some?
  {
  }

  lemma OneBlockTiled(t: seq<Allocation>, g: Tiling)
    requires t == [Piece(0, 8, Unsplit)] && g == Tiling([HostBlock(0, 8)], [[0]], [0])
    ensures Tiled(t, g)
  {
    assert IsChain(t, [0], HostBlock(0, 8));
    assert 0 in g.chains[0] && HasPlace(g, 0);
  }

  lemma SplitAtStart(t: seq<Allocation>, g: Tiling, addr: Word)
    requires Tiled(t, g) && SplitAllocation(t, addr).Some? && AddressOffset(addr) == 0
    ensures forall g' :: !Tiled(SplitAllocation(t, addr).value, g')
  {
    SplitKeepsTiling(t, g, addr);
  }

  /** A block split at its start leaves an empty first piece, and is not tiled. */
  lemma SplitAtStartExample(t: seq<Allocation>, g: Tiling, addr: Word)
    requires t == [Piece(0, 8, Unsplit)] && g == Tiling([HostBlock(0, 8)], [[0]], [0]) && addr == MakeAddress(0, 0, 0)
    ensures Tiled(t, g) && SplitAllocation(t, addr).Some?
    ensures forall g' :: !Tiled(SplitAllocation(t, addr).value, g')
  {
    hide Tiled, MakeAddress, SplitAllocation, TryGet;
    SmallAddress(0, 1, t);
    OneBlockTiled(t, g);
    CanSplit(t, addr, 0);
    SplitAtStart(t, g, addr);
  }

  /** A slot can be freed exactly when it is a whole block again, with its original start and size. */
  lemma WholeAgain(t: seq<Allocation>, g: Tiling, i: nat)
    requires Tiled(t, g) && i < |t| && Live(t[i])
    ensures var b := g.blocks[g.owner[i]];
            t[i].split == Unsplit <==> t[i].ptr == b.ptr && t[i].size == b.size && (|g.chains[g.owner[i]]| == 1)
    ensures |g.chains[g.owner[i]]| == 1 ==> t[i].split == Unsplit
  {
    var o, k := PlaceOf(t, g, i);
  }

  // ----- overlap -----

  lemma SplitStaysDisjoint(t: seq<Allocation>, i: nat, offset: U32)
    requires Disjoint(t) && i < |t| && Live(t[i]) && offset < t[i].size && EndOf(t[i]) < TWO_64
    ensures Disjoint(SplitTable(t, i, offset))
  {
    var t' := SplitTable(t, i, offset);
    forall x, y | 0 <= x < |t'| && 0 <= y < |t'| && x != y && Live(t'[x]) && Live(t'[y]) ensures Apart(t'[x], t'[y]) {
      assert x < |t| && y < |t| ==> Apart(t[x], t[y]);
      assert x == |t| && y != i ==> Apart(t[i], t[y]);
      assert y == |t| && x != i ==> Apart(t[x], t[i]);
    }
  }

  lemma MergeStaysDisjoint(t: seq<Allocation>, i: nat, j: nat)
    requires Disjoint(t) && i < |t| && j < |t| && i != j && CanMerge(t[i], t[j])
    requires EndOf(t[i]) == t[j].ptr && t[i].size > 0 && t[j].size > 0
    ensures Disjoint(MergeTable(t, i, j))
  {
    var t' := MergeTable(t, i, j);
    forall x, y | 0 <= x < |t'| && 0 <= y < |t'| && x != y && Live(t'[x]) && Live(t'[y]) ensures Apart(t'[x], t'[y]) {
      assert Apart(t[x], t[y]);
      assert x == i ==> Apart(t[j], t[y]);
      assert y == i ==> Apart(t[x], t[j]);
    }
  }
}
