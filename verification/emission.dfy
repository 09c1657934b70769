// Finishing a function: the depth-first estimate of its size, and the writing of its code into the
// space reserved by that estimate.

module Emission {
  import opened Words
  import opened Allocations
  import opened Bytecode
  import opened Layouts
  import opened Vm
  import opened Blocks
  import opened Flat

  // ----- reachability -----

  ghost predicate IsPath(body: Body, path: seq<nat>) {
    && path != [] && (forall k :: 0 <= k < |path| ==> path[k] < |body.blocks|)
    && forall k :: 0 <= k < |path| - 1 ==> path[k + 1] in Successors(body.blocks[path[k]].terminator)
  }

  /** There is a path of terminators from block `from` to block `to`. */
  ghost predicate Connected(body: Body, from: nat, to: nat) {
    exists path :: IsPath(body, path) && path[0] == from && path[|path| - 1] == to
  }

  lemma ConnectedSelf(body: Body, i: nat)
    requires i < |body.blocks|
    ensures Connected(body, i, i)
  {
    assert IsPath(body, [i]);
  }

  lemma ConnectedStep(body: Body, from: nat, mid: nat, to: nat)
    requires from < |body.blocks| && mid < |body.blocks|
    requires mid in Successors(body.blocks[from].terminator) && Connected(body, mid, to)
    ensures Connected(body, from, to)
  {
    var path :| IsPath(body, path) && path[0] == mid && path[|path| - 1] == to;
    var longer := [from] + path;
    assert forall k :: 1 <= k < |longer| ==> longer[k] == path[k - 1];
    assert IsPath(body, longer);
  }

  /** A set of blocks closed under successors holds the end of every path that starts in it. */
  lemma {:induction false} ClosedHoldsPaths(body: Body, reach: seq<bool>, path: seq<nat>)
    requires |reach| == |body.blocks| && IsPath(body, path) && reach[path[0]]
    requires forall i :: 0 <= i < |reach| && reach[i] ==>
               forall n :: n in Successors(body.blocks[i].terminator) ==> n < |reach| && reach[n]
    ensures reach[path[|path| - 1]]
  {
    if |path| > 1 {
      assert path[0 + 1] in Successors(body.blocks[path[0]].terminator);
      assert forall k :: 0 <= k < |path[1..]| ==> path[1..][k] == path[k + 1];
      ClosedHoldsPaths(body, reach, path[1..]);
    }
  }

  // ----- the estimate -----

  /** What a reachable block adds to the estimate. */
  function Cost(b: CodeBlock): nat {
    (if b.insts != [] then 1 + |b.insts| else 0) + 2
    + match b.terminator
      case ReturnTo => 1
      case PanicOut => 1
      case JumpTo(_) => 1
      case BranchTo(_, _, _) => 2
      case _ => 0
  }

  function TotalCost(body: Body, reach: seq<bool>, n: nat): nat
    requires n <= |body.blocks| == |reach|
  {
    if n == 0 then 0
    else TotalCost(body, reach, n - 1) + if reach[n - 1] then Cost(body.blocks[n - 1]) else 0
  }

  lemma {:induction false} MarkAddsCost(body: Body, reach: seq<bool>, i: nat, n: nat)
    requires i < |body.blocks| == |reach| && n <= |reach| && !reach[i]
    ensures TotalCost(body, reach[i := true], n)
         == TotalCost(body, reach, n) + if i < n then Cost(body.blocks[i]) else 0
  {
    if n > 0 {
      MarkAddsCost(body, reach, i, n - 1);
    }
  }

  function Unmarked(reach: seq<bool>): nat {
    if reach == [] then 0 else (if reach[0] then 0 else 1) + Unmarked(reach[1..])
  }

  lemma {:induction false} MarkingIsProgress(reach: seq<bool>, i: nat)
    requires i < |reach| && !reach[i]
    ensures Unmarked(reach[i := true]) < Unmarked(reach)
  {
    if i == 0 {
      assert reach[0 := true][1..] == reach[1..];
    } else {
      assert reach[i := true][1..] == reach[1..][i - 1 := true];
      MarkingIsProgress(reach[1..], i - 1);
    }
  }

  ghost predicate SuccessorsExist(body: Body) {
    forall i :: 0 <= i < |body.blocks| ==>
      forall n :: n in Successors(body.blocks[i].terminator) ==> n < |body.blocks|
  }

  ghost predicate SuccessorsMarked(body: Body, reach: seq<bool>, i: nat)
    requires i < |body.blocks| == |reach|
  {
    forall n :: n in Successors(body.blocks[i].terminator) ==> n < |reach| && reach[n]
  }

  /** What one visit does to the marks. */
  ghost predicate Visited(body: Body, before: seq<bool>, after: seq<bool>, cur: nat) {
    && |before| == |after| == |body.blocks| && cur < |after| && after[cur]
    && (forall i :: 0 <= i < |before| && before[i] ==> after[i])
    && (forall i :: 0 <= i < |before| && after[i] && !before[i] ==> SuccessorsMarked(body, after, i))
    && (forall i :: 0 <= i < |before| && after[i] && !before[i] ==> Connected(body, cur, i))
    && Unmarked(after) <= Unmarked(before)
  }

  /** No block that one visit marked is unterminated. */
  ghost predicate AllTerminated(body: Body, before: seq<bool>, after: seq<bool>)
    requires |before| == |after| == |body.blocks|
  {
    forall i :: 0 <= i < |before| && after[i] && !before[i] ==> body.blocks[i].terminator != Unterminated
  }

  /** The recursive visit of the estimate: marks what can be reached and adds up its cost. */
  method Visit(body: Body, reach: array<bool>, cur: nat, result: nat) returns (total: nat, ok: bool)
    requires SuccessorsExist(body) && reach.Length == |body.blocks| && cur < reach.Length
    modifies reach
    ensures Visited(body, old(reach[..]), reach[..], cur)
    ensures total == result + TotalCost(body, reach[..], reach.Length) - old(TotalCost(body, reach[..], reach.Length))
    ensures ok <==> AllTerminated(body, old(reach[..]), reach[..])
    decreases Unmarked(reach[..]), 0
  {
    ghost var before := reach[..];
    if reach[cur] {
      return result, true;
    }
    MarkingIsProgress(reach[..], cur);
    MarkAddsCost(body, before, cur, |before|);
    reach[cur] := true;
    ghost var marked := reach[..];
    assert marked == before[cur := true];
    var b := body.blocks[cur];
    total, ok := result + Cost(b), b.terminator != Unterminated;
    match b.terminator
    case JumpTo(n) =>
      assert n in Successors(b.terminator);
      total, ok := Visit(body, reach, n, total);
      VisitedAfter(body, before, cur, marked, n, reach[..]);
    case BranchTo(_, n0, n1) =>
      assert n0 in Successors(b.terminator) && n1 in Successors(b.terminator);
      total, ok := Visit(body, reach, n0, total);
      ghost var middle := reach[..];
      var ok1: bool;
      total, ok1 := Visit(body, reach, n1, total);
      ok := ok && ok1;
      VisitedBoth(body, before, cur, n0, middle, n1, reach[..]);
    case _ =>
      ConnectedSelf(body, cur);
  }

  lemma VisitedAfter(body: Body, before: seq<bool>, cur: nat, marked: seq<bool>, n: nat, after: seq<bool>)
    requires cur < |body.blocks| == |before| && marked == before[cur := true] && !before[cur]
    requires Successors(body.blocks[cur].terminator) == [n] && Visited(body, marked, after, n)
    ensures Visited(body, before, after, cur)
  {
    MarkingIsProgress(before, cur);
    VisitSuccessor(body, cur, n, marked, after);
    ConnectedSelf(body, cur);
  }

  lemma VisitedBoth(body: Body, before: seq<bool>, cur: nat, n0: nat, middle: seq<bool>, n1: nat, after: seq<bool>)
    requires cur < |body.blocks| == |before| && !before[cur]
    requires Successors(body.blocks[cur].terminator) == [n0, n1]
    requires Visited(body, before[cur := true], middle, n0) && Visited(body, middle, after, n1)
    ensures Visited(body, before, after, cur)
  {
    MarkingIsProgress(before, cur);
    VisitSuccessor(body, cur, n0, before[cur := true], middle);
    VisitSuccessor(body, cur, n1, middle, after);
    ConnectedSelf(body, cur);
    forall i | 0 <= i < |before| && middle[i] && !before[cur := true][i] ensures SuccessorsMarked(body, after, i) {
      assert SuccessorsMarked(body, middle, i);
    }
  }

  lemma VisitSuccessor(body: Body, cur: nat, n: nat, before: seq<bool>, after: seq<bool>)
    requires cur < |body.blocks| && n in Successors(body.blocks[cur].terminator) && Visited(body, before, after, n)
    ensures forall i :: 0 <= i < |before| && after[i] && !before[i] ==> Connected(body, cur, i)
  {
    forall i | 0 <= i < |before| && after[i] && !before[i] ensures Connected(body, cur, i) {
      ConnectedStep(body, cur, n, i);
    }
  }

  /** The estimate terminates on any graph, marks exactly the blocks reachable from the entry, and
      adds up their costs on top of the prologue's. */
  method EstimateInstCount(body: Body, localCount: nat) returns (count: nat, reach: array<bool>, ok: bool)
    requires SuccessorsExist(body) && |body.blocks| > 0
    ensures fresh(reach) && reach.Length == |body.blocks|
    ensures ClosedReach(body, reach[..])
    ensures forall i :: 0 <= i < reach.Length ==> (reach[i] <==> Connected(body, 0, i))
    ensures count >= 1 + localCount + |Symbolic(body, reach[..], reach.Length)|
    ensures ok <==> forall i :: 0 <= i < reach.Length && reach[i] ==> body.blocks[i].terminator != Unterminated
  {
    reach := new bool[|body.blocks|](_ => false);
    if |body.blocks| == 1 {
      reach[0] := true;
      ConnectedSelf(body, 0);
      count := 1 + localCount + 1 + |body.blocks[0].insts| + 2;
      ok := body.blocks[0].terminator != Unterminated;
      assert Symbolic(body, reach[..], 0) == [];
      assert |Symbolic(body, reach[..], 1)| == |BlockCode(body, reach[..], 0)|;
      assert forall n :: n in Successors(body.blocks[0].terminator) ==> n < 1;
    } else {
      NothingMarked(body, reach[..], reach.Length);
      count, ok := Visit(body, reach, 0, 1 + localCount);
      forall i | 0 <= i < reach.Length && Connected(body, 0, i) ensures reach[i] {
        var path :| IsPath(body, path) && path[0] == 0 && path[|path| - 1] == i;
        assert forall j :: 0 <= j < |reach[..]| && reach[..][j] ==> SuccessorsMarked(body, reach[..], j);
        ClosedHoldsPaths(body, reach[..], path);
      }
      assert forall j :: 0 <= j < |reach[..]| && reach[..][j] ==> SuccessorsMarked(body, reach[..], j);
      CodeFitsCost(body, reach[..], reach.Length);
    }
  }

  lemma {:induction false} NothingMarked(body: Body, reach: seq<bool>, n: nat)
    requires n <= |body.blocks| == |reach| && forall i :: 0 <= i < |reach| ==> !reach[i]
    ensures TotalCost(body, reach, n) == 0
  {
    if n > 0 {
      NothingMarked(body, reach, n - 1);
    }
  }

  /** A block never takes more room than it was estimated to. */
  lemma {:induction false} CodeFitsCost(body: Body, reach: seq<bool>, n: nat)
    requires n <= |body.blocks| == |reach|
    ensures |Symbolic(body, reach, n)| <= TotalCost(body, reach, n)
  {
    if n > 0 {
      CodeFitsCost(body, reach, n - 1);
      if reach[n - 1] {
        assert |BlockCode(body, reach, n - 1)| <= Cost(body.blocks[n - 1]);
      }
    }
  }

  // ----- the prologue -----

  /** `emit_prologue`: one allocation per local once any local has its address taken, otherwise
      only the space they need. */
  function Prologue(locals: seq<Local>, addrCount: nat): (code: seq<Inst>)
    ensures |code| <= 1 + |locals|
  {
    if addrCount > 0 then [Inst.SetupLocalAlloc(|locals| % TWO_24)] + LocalAllocs(locals) else LocalStorages(locals)
  }

  function LocalAllocs(locals: seq<Local>): (code: seq<Inst>)
    ensures |code| == |locals|
  {
    if locals == [] then []
    else
      LocalAllocs(locals[..|locals| - 1])
      + [var layout := locals[|locals| - 1].layout;
         if layout.alignment == POINTER_ALIGNMENT then Inst.LocalAlloc(layout) else Inst.LocalAllocAligned(layout)]
  }

  function SpaceOf(layout: Layout): nat {
    layout.size + if layout.alignment > POINTER_ALIGNMENT then layout.alignment else 0
  }

  function LocalStorages(locals: seq<Local>): (code: seq<Inst>)
    ensures |code| <= |locals|
  {
    if locals == [] then []
    else
      var space := SpaceOf(locals[|locals| - 1].layout);
      LocalStorages(locals[..|locals| - 1]) + if space == 0 then [] else [Inst.LocalStorage(space % TWO_24)]
  }

  // ----- writing the body -----

  datatype Patch = Patch(at: nat, dest: nat)

  predicate IsJump(i: Inst) { i.Jump? || i.BranchIf? }

  /** A jump as it is first written, without its distance. */
  function Unpatched(i: Inst): Inst {
    match i
    case Jump(_) => Inst.Jump(0)
    case BranchIf(cc, _) => Inst.BranchIf(cc, 0)
    case _ => i
  }

  /** The jumps of the code written so far, in order. */
  function PatchesOf(symbolic: seq<Inst>, start: nat): seq<Patch> {
    if symbolic == [] then []
    else
      var last := symbolic[|symbolic| - 1];
      PatchesOf(symbolic[..|symbolic| - 1], start)
      + if IsJump(last) && last.target >= 0 then [Patch(start + |symbolic| - 1, last.target)] else []
  }

  lemma {:induction false} PatchesAreJumps(symbolic: seq<Inst>, start: nat, q: nat)
    requires q < |PatchesOf(symbolic, start)|
    ensures var p := PatchesOf(symbolic, start)[q];
            && start <= p.at < start + |symbolic|
            && IsJump(symbolic[p.at - start]) && symbolic[p.at - start].target == p.dest
            && (q + 1 < |PatchesOf(symbolic, start)| ==> p.at < PatchesOf(symbolic, start)[q + 1].at)
  {
    var init := symbolic[..|symbolic| - 1];
    if q < |PatchesOf(init, start)| {
      PatchesAreJumps(init, start, q);
      assert symbolic[PatchesOf(init, start)[q].at - start] == init[PatchesOf(init, start)[q].at - start];
    }
  }

  /** Between two patches, before the first and after the last one, there is no jump. */
  lemma {:induction false} JumpsArePatched(symbolic: seq<Inst>, start: nat, k: nat)
    requires k < |symbolic| && IsJump(symbolic[k]) && symbolic[k].target >= 0
    ensures exists q :: 0 <= q < |PatchesOf(symbolic, start)| && PatchesOf(symbolic, start)[q].at == start + k
  {
    var init := symbolic[..|symbolic| - 1];
    var patches := PatchesOf(symbolic, start);
    if k < |init| {
      JumpsArePatched(init, start, k);
      var q :| 0 <= q < |PatchesOf(init, start)| && PatchesOf(init, start)[q].at == start + k;
      assert patches[q].at == start + k;
    } else {
      assert patches[|patches| - 1].at == start + k;
    }
  }

  lemma {:induction false} PatchesIncrease(symbolic: seq<Inst>, start: nat, q: nat, r: nat)
    requires q < r < |PatchesOf(symbolic, start)|
    ensures PatchesOf(symbolic, start)[q].at < PatchesOf(symbolic, start)[r].at
  {
    PatchesAreJumps(symbolic, start, r - 1);
    if q < r - 1 {
      PatchesIncrease(symbolic, start, q, r - 1);
    }
  }

  /** The code so far is in the array, its jumps without distances, and they are all recorded. */
  ghost predicate Written(a: seq<Inst>, start: nat, ip: nat, symbolic: seq<Inst>, patches: seq<Patch>) {
    && ip == start + |symbolic| <= |a|
    && (forall k :: 0 <= k < |symbolic| ==> a[start + k] == Unpatched(symbolic[k]))
    && patches == PatchesOf(symbolic, start)
  }

  /** `*ip++ = inst`, and for a jump also its patch. */
  method Put(a: array<Inst>, ip: nat, i: Inst, patches: seq<Patch>, ghost start: nat, ghost symbolic: seq<Inst>)
      returns (next: nat, patches': seq<Patch>)
    requires Written(a[..], start, ip, symbolic, patches) && ip < a.Length && (IsJump(i) ==> i.target >= 0)
    modifies a
    ensures Written(a[..], start, next, symbolic + [i], patches') && next == ip + 1
    ensures a[..ip] == old(a[..ip])
  {
    a[ip] := Unpatched(i);
    patches' := if IsJump(i) then patches + [Patch(ip, i.target)] else patches;
    next := ip + 1;
    assert (symbolic + [i])[..|symbolic|] == symbolic;
  }

  /** `copy_to`. */
  method CopyTo(a: array<Inst>, ip: nat, insts: seq<Inst>, patches: seq<Patch>, ghost start: nat,
                ghost symbolic: seq<Inst>)
      returns (next: nat)
    requires Written(a[..], start, ip, symbolic, patches) && ip + |insts| <= a.Length
    requires forall k :: 0 <= k < |insts| ==> !IsControl(insts[k])
    modifies a
    ensures Written(a[..], start, next, symbolic + insts, patches) && next == ip + |insts|
    ensures a[..ip] == old(a[..ip])
  {
    next := ip;
    var current := patches;
    assert symbolic + insts[..0] == symbolic;
    for k := 0 to |insts|
      invariant next == ip + k && current == patches
      invariant Written(a[..], start, next, symbolic + insts[..k], patches)
      invariant a[..ip] == old(a[..ip])
    {
      ghost var before := a[..];
      next, current := Put(a, next, insts[k], current, start, symbolic + insts[..k]);
      assert symbolic + insts[..k] + [insts[k]] == symbolic + insts[..k + 1];
      PatchesSkip(symbolic + insts[..k], insts[k], start);
      assert before[..ip] == before[..ip + k][..ip] && a[..ip] == a[..ip + k][..ip];
    }
    assert insts[..|insts|] == insts;
  }

  lemma PatchesSkip(symbolic: seq<Inst>, i: Inst, start: nat)
    requires !IsJump(i)
    ensures PatchesOf(symbolic + [i], start) == PatchesOf(symbolic, start)
  {
    assert (symbolic + [i])[..|symbolic|] == symbolic;
  }

  /** The three forms of a two-way branch and the other terminators, as they are written. */
  method PutTerminator(a: array<Inst>, ip: nat, body: Body, reach: seq<bool>, i: nat, patches: seq<Patch>,
                       ghost start: nat, ghost symbolic: seq<Inst>)
      returns (next: nat, patches': seq<Patch>)
    requires i < |body.blocks| == |reach|
    requires Written(a[..], start, ip, symbolic, patches) && ip + |Tail(body, reach, i)| <= a.Length
    modifies a
    ensures Written(a[..], start, next, symbolic + Tail(body, reach, i), patches')
    ensures a[..ip] == old(a[..ip])
  {
    next, patches' := ip, patches;
    var follower := NextReachable(reach, i);
    match body.blocks[i].terminator
    case ReturnTo =>
      next, patches' := Put(a, next, if body.freeCount > 0 then Inst.ReturnFree(body.freeCount) else Inst.Return,
                            patches, start, symbolic);
    case PanicOut =>
      next, patches' := Put(a, next, Inst.Panic, patches, start, symbolic);
    case JumpTo(n) =>
      if n != follower {
        next, patches' := Put(a, next, Inst.Jump(n), patches, start, symbolic);
      } else {
        assert symbolic + [] == symbolic;
      }
    case BranchTo(kind, n0, n1) =>
      if n0 == follower {
        next, patches' := Put(a, next, Inst.BranchIf(Opposite(kind), n1), patches, start, symbolic);
      } else if n1 == follower {
        next, patches' := Put(a, next, Inst.BranchIf(First(kind), n0), patches, start, symbolic);
      } else {
        next, patches' := Put(a, next, Inst.BranchIf(Opposite(kind), n1), patches, start, symbolic);
        ghost var between := a[..ip + 1];
        next, patches' := Put(a, next, Inst.Jump(n0), patches', start, symbolic + [Inst.BranchIf(Opposite(kind), n1)]);
        assert a[..ip] == between[..ip];
        assert symbolic + [Inst.BranchIf(Opposite(kind), n1)] + [Inst.Jump(n0)]
            == symbolic + [Inst.BranchIf(Opposite(kind), n1), Inst.Jump(n0)];
      }
    case _ =>
      assert symbolic + [] == symbolic;
  }

  predicate Straight(insts: seq<Inst>) {
    forall j :: 0 <= j < |insts| ==> !IsControl(insts[j])
  }

  predicate StraightBlocks(body: Body, reach: seq<bool>) {
    |reach| <= |body.blocks| && forall i :: 0 <= i < |reach| && reach[i] ==> Straight(body.blocks[i].insts)
  }

  lemma {:induction false} SymbolicJumpsLead(body: Body, reach: seq<bool>, n: nat, k: nat)
    requires ClosedReach(body, reach) && n <= |reach|
    requires StraightBlocks(body, reach)
    requires k < |Symbolic(body, reach, n)| && IsJump(Symbolic(body, reach, n)[k])
    ensures 0 <= Symbolic(body, reach, n)[k].target < |reach| && reach[Symbolic(body, reach, n)[k].target]
  {
    var before := Symbolic(body, reach, n - 1);
    if k < |before| {
      SymbolicJumpsLead(body, reach, n - 1, k);
    } else {
      var t := body.blocks[n - 1].terminator;
      var i := Symbolic(body, reach, n)[k];
      assert i == BlockCode(body, reach, n - 1)[k - |before|];
      assert i in Tail(body, reach, n - 1);
      assert i.target in Successors(t);
    }
  }

  /** The marker, the instructions and the terminator of one block. */
  method PutBlock(a: array<Inst>, ip: nat, body: Body, reach: seq<bool>, i: nat, patches: seq<Patch>,
                  ghost start: nat, ghost symbolic: seq<Inst>)
      returns (next: nat, patches': seq<Patch>)
    requires i < |body.blocks| == |reach| && Straight(body.blocks[i].insts)
    requires Written(a[..], start, ip, symbolic, patches) && ip + |BlockCode(body, reach, i)| <= a.Length
    modifies a
    ensures Written(a[..], start, next, symbolic + BlockCode(body, reach, i), patches')
    ensures a[..ip] == old(a[..ip])
  {
    var insts := body.blocks[i].insts;
    ghost var marked := symbolic + [Inst.Block(body.blocks[i].sig)];
    next, patches' := Put(a, ip, Inst.Block(body.blocks[i].sig), patches, start, symbolic);
    ghost var afterMarker := a[..ip + 1];
    next := CopyTo(a, next, insts, patches', start, marked);
    ghost var afterCopy := a[..ip + 1 + |insts|];
    next, patches' := PutTerminator(a, next, body, reach, i, patches', start, marked + insts);
    assert marked + insts + Tail(body, reach, i) == symbolic + BlockCode(body, reach, i);
    assert a[..ip] == a[..ip + 1 + |insts|][..ip] == afterCopy[..ip + 1][..ip] == afterMarker[..ip];
  }

  /** `emit_body`: the reachable blocks in declaration order, then the patching of all jumps.  The
      result is the flat code; there is always room for it in the space that was estimated. */
  method EmitBody(body: Body, reach: seq<bool>, a: array<Inst>, start: nat) returns (ip: nat)
    requires ClosedReach(body, reach) && StraightBlocks(body, reach)
    requires start + |Symbolic(body, reach, |reach|)| <= a.Length
    modifies a
    ensures ip <= a.Length && a[..ip] == FlatCode(body, reach, old(a[..start]))
  {
    ghost var prologue := a[..start];
    var offsets := new nat[|reach|](_ => 0);
    var patches: seq<Patch> := [];
    ip := start;
    for i := 0 to |reach|
      invariant Written(a[..], start, ip, Symbolic(body, reach, i), patches)
      invariant a[..start] == prologue
      invariant forall j :: 0 <= j < i && reach[j] ==> offsets[j] == OffsetOf(body, reach, start, j)
    {
      SymbolicPrefix(body, reach, i + 1, |reach|);
      if reach[i] {
        offsets[i] := ip;
        ghost var before := a[..ip];
        ip, patches := PutBlock(a, ip, body, reach, i, patches, start, Symbolic(body, reach, i));
        assert a[..start] == before[..start];
      } else {
        SameOffset(body, reach, i, i + 1);
      }
    }
    PatchAll(body, reach, a, start, ip, offsets, patches);
  }

  /** How far the patching has come: everything before `bound` is final. */
  ghost predicate PatchedUpTo(body: Body, reach: seq<bool>, a: seq<Inst>, start: nat, bound: nat)
    requires |body.blocks| == |reach| && start + |Symbolic(body, reach, |reach|)| <= |a|
  {
    var symbolic := Symbolic(body, reach, |reach|);
    forall k :: 0 <= k < |symbolic| ==>
      a[start + k] ==
      if start + k < bound then Patched(body, reach, start, symbolic[k], start + k) else Unpatched(symbolic[k])
  }

  function BoundOf(patches: seq<Patch>, q: nat, ip: nat): nat {
    if q < |patches| then patches[q].at else ip
  }

  /** One patch: the distance from the jump to just after the marker of its block. */
  method PatchOne(body: Body, reach: seq<bool>, a: array<Inst>, start: nat, ip: nat, offsets: array<nat>,
                  patches: seq<Patch>, q: nat)
    requires ClosedReach(body, reach) && offsets.Length == |reach| && offsets as object != a
    requires StraightBlocks(body, reach)
    requires forall j :: 0 <= j < |reach| && reach[j] ==> offsets[j] == OffsetOf(body, reach, start, j)
    requires ip == start + |Symbolic(body, reach, |reach|)| <= a.Length && q < |patches|
    requires patches == PatchesOf(Symbolic(body, reach, |reach|), start)
    requires PatchedUpTo(body, reach, a[..], start, BoundOf(patches, q, ip))
    modifies a
    ensures PatchedUpTo(body, reach, a[..], start, BoundOf(patches, q + 1, ip)) && a[..start] == old(a[..start])
  {
    hide Symbolic, PatchesOf, StraightBlocks, FlatCode;
    ghost var symbolic, before := Symbolic(body, reach, |reach|), a[..];
    var p := patches[q];
    PatchesAreJumps(symbolic, start, q);
    SymbolicJumpsLead(body, reach, |reach|, p.at - start);
    assert before[start + (p.at - start)] == Unpatched(symbolic[p.at - start]);
    var distance := offsets[p.dest] + 1 - p.at;
    a[p.at] := if a[p.at].Jump? then Inst.Jump(distance) else Inst.BranchIf(a[p.at].cc, distance);
    assert a[p.at] == Patched(body, reach, start, symbolic[p.at - start], p.at);
    NextBound(body, reach, before, a[..], start, patches, q, ip);
  }

  /** The loop over the patches. */
  method PatchAll(body: Body, reach: seq<bool>, a: array<Inst>, start: nat, ip: nat, offsets: array<nat>,
                  patches: seq<Patch>)
    requires ClosedReach(body, reach) && offsets.Length == |reach| && offsets as object != a
    requires StraightBlocks(body, reach)
    requires forall j :: 0 <= j < |reach| && reach[j] ==> offsets[j] == OffsetOf(body, reach, start, j)
    requires Written(a[..], start, ip, Symbolic(body, reach, |reach|), patches)
    modifies a
    ensures a[..ip] == FlatCode(body, reach, old(a[..start]))
  {
    hide Symbolic, PatchesOf, StraightBlocks, FlatCode;
    ghost var prologue := a[..start];
    NothingBefore(body, reach, a[..], start, patches);
    for q := 0 to |patches|
      invariant a[..start] == prologue
      invariant PatchedUpTo(body, reach, a[..], start, BoundOf(patches, q, ip))
    {
      PatchOne(body, reach, a, start, ip, offsets, patches, q);
    }
    assert a[..ip][..start] == prologue;
    FullyPatched(body, reach, a[..ip], start);
  }

  lemma NothingBefore(body: Body, reach: seq<bool>, a: seq<Inst>, start: nat, patches: seq<Patch>)
    requires ClosedReach(body, reach)
    requires StraightBlocks(body, reach)
    requires Written(a, start, start + |Symbolic(body, reach, |reach|)|, Symbolic(body, reach, |reach|), patches)
    ensures PatchedUpTo(body, reach, a, start,
                        if patches != [] then patches[0].at else start + |Symbolic(body, reach, |reach|)|)
  {
    var symbolic := Symbolic(body, reach, |reach|);
    forall k | 0 <= k < |symbolic| && IsJump(symbolic[k]) ensures patches != [] && patches[0].at <= start + k {
      SymbolicJumpsLead(body, reach, |reach|, k);
      JumpsArePatched(symbolic, start, k);
      var q :| 0 <= q < |patches| && patches[q].at == start + k;
      if q > 0 {
        PatchesIncrease(symbolic, start, 0, q);
      }
    }
  }

  lemma NextBound(body: Body, reach: seq<bool>, before: seq<Inst>, after: seq<Inst>, start: nat, patches: seq<Patch>,
                  q: nat, ip: nat)
    requires ClosedReach(body, reach)
    requires StraightBlocks(body, reach)
    requires ip == start + |Symbolic(body, reach, |reach|)| <= |before| == |after|
    requires patches == PatchesOf(Symbolic(body, reach, |reach|), start) && q < |patches|
    requires PatchedUpTo(body, reach, before, start, patches[q].at)
    requires start <= patches[q].at < ip
    requires var i, at := Symbolic(body, reach, |reach|)[patches[q].at - start], patches[q].at;
             after == before[at := Patched(body, reach, start, i, at)]
    ensures PatchedUpTo(body, reach, after, start, if q + 1 < |patches| then patches[q + 1].at else ip)
  {
    hide Symbolic, PatchesOf, StraightBlocks;
    var symbolic := Symbolic(body, reach, |reach|);
    var bound := if q + 1 < |patches| then patches[q + 1].at else ip;
    PatchesAreJumps(symbolic, start, q);
    forall k | 0 <= k < |symbolic| && patches[q].at < start + k < bound ensures !IsJump(symbolic[k]) {
      if IsJump(symbolic[k]) {
        SymbolicJumpsLead(body, reach, |reach|, k);
      }
      NoJumpBetween(symbolic, start, patches, q, k);
    }
  }

  lemma NoJumpBetween(symbolic: seq<Inst>, start: nat, patches: seq<Patch>, q: nat, k: nat)
    requires patches == PatchesOf(symbolic, start) && k < |symbolic| && q < |patches|
    requires IsJump(symbolic[k]) ==> symbolic[k].target >= 0
    requires patches[q].at < start + k && (q + 1 < |patches| ==> start + k < patches[q + 1].at)
    ensures !IsJump(symbolic[k])
  {
    if IsJump(symbolic[k]) {
      JumpsArePatched(symbolic, start, k);
      var r :| 0 <= r < |patches| && patches[r].at == start + k;
      if r < q {
        PatchesIncrease(symbolic, start, r, q);
      } else if q + 1 < r {
        PatchesIncrease(symbolic, start, q + 1, r);
      }
    }
  }

  lemma FullyPatched(body: Body, reach: seq<bool>, code: seq<Inst>, start: nat)
    requires ClosedReach(body, reach) && |code| == start + |Symbolic(body, reach, |reach|)|
    requires PatchedUpTo(body, reach, code, start, |code|)
    ensures code == FlatCode(body, reach, code[..start])
  {
    var symbolic := Symbolic(body, reach, |reach|);
    var flat := FlatCode(body, reach, code[..start]);
    forall k | 0 <= k < |code| ensures code[k] == flat[k] {
      if k >= start {
        assert code[start + (k - start)] == Patched(body, reach, start, symbolic[k - start], k);
      }
    }
  }

  /** At most two patches are recorded per reachable block, so the space reserved for them suffices. */
  lemma {:induction false} PatchesFit(body: Body, reach: seq<bool>, n: nat, start: nat)
    requires n <= |body.blocks| == |reach| && StraightBlocks(body, reach)
    ensures |PatchesOf(Symbolic(body, reach, n), start)| <= 2 * n
  {
    if n > 0 {
      PatchesFit(body, reach, n - 1, start);
      if reach[n - 1] {
        BlockPatches(body, reach, n - 1, start, Symbolic(body, reach, n - 1));
      } else {
        SameOffset(body, reach, n - 1, n);
      }
    }
  }

  lemma BlockPatches(body: Body, reach: seq<bool>, i: nat, start: nat, before: seq<Inst>)
    requires i < |body.blocks| == |reach| && Straight(body.blocks[i].insts)
    ensures |PatchesOf(before + BlockCode(body, reach, i), start)| <= |PatchesOf(before, start)| + 2
  {
    var marker, insts, tail := Inst.Block(body.blocks[i].sig), body.blocks[i].insts, Tail(body, reach, i);
    assert before + BlockCode(body, reach, i) == before + [marker] + insts + tail;
    PatchesSkip(before, marker, start);
    StraightHasNoPatches(before + [marker], insts, start);
    MorePatches(before + [marker] + insts, tail, start);
  }

  lemma SnocAppend(s: seq<Inst>, t: seq<Inst>)
    requires t != []
    ensures s + t == (s + t[..|t| - 1]) + [t[|t| - 1]]
    ensures (s + t)[..|s + t| - 1] == s + t[..|t| - 1]
  {
  }

  lemma {:induction false} StraightHasNoPatches(symbolic: seq<Inst>, insts: seq<Inst>, start: nat)
    requires Straight(insts)
    ensures PatchesOf(symbolic + insts, start) == PatchesOf(symbolic, start)
  {
    if insts == [] {
      assert symbolic + insts == symbolic;
    } else {
      SnocAppend(symbolic, insts);
      StraightHasNoPatches(symbolic, insts[..|insts| - 1], start);
      PatchesSkip(symbolic + insts[..|insts| - 1], insts[|insts| - 1], start);
    }
  }

  lemma {:induction false} MorePatches(symbolic: seq<Inst>, insts: seq<Inst>, start: nat)
    ensures |PatchesOf(symbolic + insts, start)| <= |PatchesOf(symbolic, start)| + |insts|
  {
    if insts == [] {
      assert symbolic + insts == symbolic;
    } else {
      SnocAppend(symbolic, insts);
      MorePatches(symbolic, insts[..|insts| - 1], start);
    }
  }

  // ----- finishing a function -----

  /** `emit_prologue`. */
  method EmitPrologue(a: array<Inst>, locals: seq<Local>, addrCount: nat) returns (ip: nat)
    requires 1 + |locals| <= a.Length
    modifies a
    ensures ip <= 1 + |locals| && a[..ip] == Prologue(locals, addrCount)
  {
    ip := 0;
    if addrCount > 0 {
      a[0] := Inst.SetupLocalAlloc(|locals| % TWO_24);
      ip := 1;
      for k := 0 to |locals|
        invariant ip == 1 + k && a[..ip] == [Inst.SetupLocalAlloc(|locals| % TWO_24)] + LocalAllocs(locals[..k])
      {
        assert locals[..k + 1][..k] == locals[..k];
        var layout := locals[k].layout;
        a[ip] :=
          if layout.alignment == POINTER_ALIGNMENT then Inst.LocalAlloc(layout) else Inst.LocalAllocAligned(layout);
        ip := ip + 1;
      }
      assert locals[..|locals|] == locals;
    } else {
      for k := 0 to |locals|
        invariant ip <= k && a[..ip] == LocalStorages(locals[..k])
      {
        assert locals[..k + 1][..k] == locals[..k];
        var space := SpaceOf(locals[k].layout);
        if space != 0 {
          a[ip] := Inst.LocalStorage(space % TWO_24);
          ip := ip + 1;
        }
      }
      assert locals[..|locals|] == locals;
    }
  }

  /** A single block that branches: both ways lead back to it, so the value is dropped and it jumps. */
  function LoopingCode(body: Body, prologue: seq<Inst>): seq<Inst>
    requires |body.blocks| == 1
  {
    var b := body.blocks[0];
    prologue + [Inst.Block(b.sig)] + b.insts + [Inst.Pop(0), Inst.Jump(-(|b.insts| + 1))]
  }

  /** The code of a function: the flat code, except for a single block that branches. */
  function BodyCode(body: Body, reach: seq<bool>, prologue: seq<Inst>): seq<Inst>
    requires |body.blocks| == |reach|
  {
    if |body.blocks| == 1 && body.blocks[0].terminator.BranchTo? then LoopingCode(body, prologue)
    else FlatCode(body, reach, prologue)
  }

  /** At the end of a single block that branches, its own layout does what the terminator means. */
  lemma LoopingLeaves(m: Module, env: Environment, body: Body, prologue: seq<Inst>, st: State)
    requires |body.blocks| == 1 && body.blocks[0].terminator.BranchTo? && st.stack != []
    requires Successors(body.blocks[0].terminator) == [0, 0]
    ensures Steps(m, env, LoopingCode(body, prologue), 2, At(TailOf(body, [true], |prologue|, 0), st))
         == Placed(body, [true], |prologue|, Leaves(body.blocks[0].terminator, body.freeCount, st))
  {
    var code, tail := LoopingCode(body, prologue), TailOf(body, [true], |prologue|, 0);
    assert tail == |prologue| + 1 + |body.blocks[0].insts|;
    assert code[tail] == Inst.Pop(0) && code[tail + 1] == Inst.Jump(-(|body.blocks[0].insts| + 1));
    var dropped := Replace(st, 1, []);
    assert st.stack[..0] + st.stack[1..] == dropped.stack;
    assert Step(m, env, code, At(tail, st)) == At(tail + 1, dropped);
    assert Step(m, env, code, At(tail + 1, dropped)) == At(|prologue| + 1, dropped);
    TwoSteps(m, env, code, At(tail, st));
    var t := body.blocks[0].terminator;
    assert t.next0 == Successors(t)[0] && t.next1 == Successors(t)[1];
  }

  lemma OnlyGoesBack(body: Body)
    requires |body.blocks| == 1 && forall n :: n in Successors(body.blocks[0].terminator) ==> n == 0
    ensures var t := body.blocks[0].terminator;
            (t.JumpTo? ==> |BlockCode(body, [true], 0)| == 2 + |body.blocks[0].insts|)
            && (t.BranchTo? ==> |BlockCode(body, [true], 0)| == 3 + |body.blocks[0].insts|)
  {
    var t := body.blocks[0].terminator;
    assert t.JumpTo? ==> t.next0 in Successors(t);
    assert t.BranchTo? ==> t.next0 in Successors(t) && t.next1 in Successors(t);
    assert NextReachable([true], 0) == 1;
  }

  /** `emit_linear_body`, for a function of a single block: a jump always goes back to the start of
      that block.  It writes what the general layout would, except for a branch. */
  method EmitLinearBody(body: Body, a: array<Inst>, start: nat) returns (ip: nat)
    requires |body.blocks| == 1 && Straight(body.blocks[0].insts)
    requires forall n :: n in Successors(body.blocks[0].terminator) ==> n == 0
    requires start + |Symbolic(body, [true], 1)| <= a.Length
    modifies a
    ensures ip <= a.Length && a[..ip] == BodyCode(body, [true], old(a[..start]))
  {
    ghost var prologue := a[..start];
    var b := body.blocks[0];
    SymbolicOfOne(body);
    ip := start;
    a[ip] := Inst.Block(b.sig);
    ip := ip + 1;
    for k := 0 to |b.insts|
      invariant ip == start + 1 + k && a[..ip] == prologue + [Inst.Block(b.sig)] + b.insts[..k]
    {
      a[ip] := b.insts[k];
      ip := ip + 1;
    }
    assert b.insts[..|b.insts|] == b.insts;
    match b.terminator {
    case ReturnTo =>
      a[ip] := if body.freeCount > 0 then Inst.ReturnFree(body.freeCount) else Inst.Return;
      ip := ip + 1;
    case PanicOut =>
      a[ip] := Inst.Panic;
      ip := ip + 1;
    case JumpTo(_) =>
      OnlyGoesBack(body);
      a[ip] := Inst.Jump(start + 1 - ip);
      ip := ip + 1;
    case BranchTo(_, _, _) =>
      OnlyGoesBack(body);
      a[ip] := Inst.Pop(0);
      ip := ip + 1;
      a[ip] := Inst.Jump(start + 1 - ip);
      ip := ip + 1;
    case _ =>
    }
    if !b.terminator.BranchTo? {
      LinearIsFlat(body, prologue, a[..ip]);
    }
  }

  lemma LinearIsFlat(body: Body, prologue: seq<Inst>, code: seq<Inst>)
    requires |body.blocks| == 1 && Straight(body.blocks[0].insts) && !body.blocks[0].terminator.BranchTo?
    requires forall n :: n in Successors(body.blocks[0].terminator) ==> n == 0
    requires var b := body.blocks[0];
             var tail := match b.terminator
                         case ReturnTo => [if body.freeCount > 0 then Inst.ReturnFree(body.freeCount) else Inst.Return]
                         case PanicOut => [Inst.Panic]
                         case JumpTo(_) => [Inst.Jump(-|b.insts|)]
                         case _ => [];
             code == prologue + [Inst.Block(b.sig)] + b.insts + tail
    ensures code == FlatCode(body, [true], prologue)
  {
    var b, flat := body.blocks[0], FlatCode(body, [true], prologue);
    assert OffsetOf(body, [true], |prologue|, 0) == |prologue|;
    SymbolicOfOne(body);
    if b.terminator.JumpTo? {
      assert b.terminator.next0 in Successors(b.terminator);
    }
    forall k | |prologue| <= k < |code| ensures flat[k] == code[k] {
      if |prologue| < k <= |prologue| + |b.insts| {
        StraightIsNotPatched(body, [true], |prologue|, b.insts[k - |prologue| - 1], k);
      }
    }
  }

  lemma SymbolicOfOne(body: Body)
    requires |body.blocks| == 1
    ensures Symbolic(body, [true], 1) == BlockCode(body, [true], 0)
  {
    assert Symbolic(body, [true], 0) == [];
  }

  predicate LayoutsFit(locals: seq<Local>) {
    |locals| < 0x100_0000 && forall l :: 0 <= l < |locals| ==> locals[l].layout.size < 0x1_0000
  }

  function Largest(depths: seq<nat>): nat {
    if depths == [] then 0 else Max(Largest(depths[..|depths| - 1]), depths[|depths| - 1])
  }

  /** What a return frees: all locals, if any has its address taken. */
  function FreeCount(locals: seq<Local>, addrCount: nat): U24 {
    if addrCount > 0 then |locals| % TWO_24 else 0
  }

  /** The loop over the blocks for `max_vstack_size`. */
  method LargestDepth(depths: seq<nat>) returns (result: nat)
    ensures result == Largest(depths)
  {
    result := 0;
    for i := 0 to |depths|
      invariant result == Largest(depths[..i])
    {
      assert depths[..i + 1][..i] == depths[..i];
      if depths[i] > result {
        result := depths[i];
      }
    }
    assert depths[..|depths|] == depths;
  }

  /** `lauf_asm_build_finish`: a function whose reachable blocks are all terminated is given the
      code of exactly those blocks, if that is not too long; `depths` are the largest depths of its
      blocks, and `errored` says that a builder call reported an error. */
  method BuildFinish(body: Body, locals: seq<Local>, addrCount: nat, depths: seq<nat>, errored: bool)
      returns (ok: bool, code: seq<Inst>, maxVstack: U16, ghost reach: seq<bool>)
    requires SuccessorsExist(body) && |body.blocks| == |depths| > 0
    requires forall i :: 0 <= i < |body.blocks| ==> Straight(body.blocks[i].insts)
    ensures ClosedReach(body, reach)
    ensures forall i :: 0 <= i < |reach| ==> (reach[i] <==> Connected(body, 0, i))
    ensures code == BodyCode(body, reach, Prologue(locals, addrCount))
    ensures ok <==>
              && !errored && |code| < 0x1_0000 && Largest(depths) < 0x1_0000
              && (addrCount > 0 ==> LayoutsFit(locals))
              && forall i :: 0 <= i < |reach| && reach[i] ==> body.blocks[i].terminator != Unterminated
    ensures ok ==> maxVstack == Largest(depths)
  {
    hide Symbolic, Straight, Prologue, Connected, Largest, LayoutsFit;
    var count, marks, terminated := EstimateInstCount(body, |locals|);
    reach := marks[..];
    var a := new Inst[count](_ => Inst.Nop);
    var ip := EmitPrologue(a, locals, addrCount);
    assert StraightBlocks(body, marks[..]);
    if |body.blocks| == 1 {
      assert marks[..] == [true];
      ip := EmitLinearBody(body, a, ip);
    } else {
      ip := EmitBody(body, marks[..], a, ip);
    }
    code := a[..ip];
    var depth := LargestDepth(depths);
    ok := !errored && terminated && |code| < 0x1_0000 && depth < 0x1_0000 && (addrCount > 0 ==> LayoutsFit(locals));
    maxVstack := depth % 0x1_0000;
  }
}
