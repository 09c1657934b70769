// Laying the reachable blocks of a function out in one instruction list, and the proof that
// running the list is running the graph.

module Flat {
  import opened Words
  import opened Allocations
  import opened Bytecode
  import opened Vm
  import opened Blocks

  // ----- the machine on flat code -----

  predicate IsControl(i: Inst) {
    i.Return? || i.ReturnFree? || i.Jump? || i.BranchIf? || i.Panic? || i.Exit?
  }

  /** One instruction at program counter `place`. */
  function Step(m: Module, env: Environment, code: seq<Inst>, c: Control): Control {
    match c
    case Over(_) => c
    case At(pc, st) =>
      if pc < 0 || pc >= |code| then Over(Stuck)
      else
        match code[pc]
        case Return => Over(Returned(st))
        case ReturnFree(n) => Over(FreeAndReturn(st, n))
        case Jump(t) => At(pc + t, st)
        case BranchIf(cc, t) =>
          if st.stack == [] then Over(Stuck)
          else At(if Holds(cc, Signed(st.stack[0])) then pc + t else pc + 1, Replace(st, 1, []))
        case Panic => Over(if st.stack == [] then Stuck else PanickedOut)
        case i => OutcomeControl(Execute(m, env, i, st), pc + 1)
  }

  function Steps(m: Module, env: Environment, code: seq<Inst>, n: nat, c: Control): Control {
    if n == 0 then c else Steps(m, env, code, n - 1, Step(m, env, code, c))
  }

  lemma {:induction false} StepsAdd(m: Module, env: Environment, code: seq<Inst>, a: nat, b: nat, c: Control)
    ensures Steps(m, env, code, a + b, c) == Steps(m, env, code, b, Steps(m, env, code, a, c))
  {
    if a > 0 {
      StepsAdd(m, env, code, a - 1, b, Step(m, env, code, c));
    }
  }

  lemma {:induction false} OverStays(m: Module, env: Environment, code: seq<Inst>, n: nat, c: Control)
    requires c.Over?
    ensures Steps(m, env, code, n, c) == c
  {
    if n > 0 {
      OverStays(m, env, code, n - 1, c);
    }
  }

  lemma {:induction false} GraphOverStays(m: Module, env: Environment, body: Body, n: nat, c: Control)
    requires c.Over?
    ensures RunGraph(m, env, body, n, c) == c
  {
    if n > 0 {
      GraphOverStays(m, env, body, n - 1, c);
    }
  }

  /** Straight-line code found at `pc` runs as it does on its own. */
  lemma {:induction false} StraightSteps(m: Module, env: Environment, code: seq<Inst>, insts: seq<Inst>, pc: nat,
                                         st: State)
    requires pc + |insts| <= |code| && code[pc..pc + |insts|] == insts
    requires forall k :: 0 <= k < |insts| ==> !IsControl(insts[k])
    ensures Steps(m, env, code, |insts|, At(pc, st)) == OutcomeControl(Run(m, env, insts, st), pc + |insts|)
  {
    if insts != [] {
      assert code[pc] == insts[0] && !IsControl(code[pc]);
      assert Step(m, env, code, At(pc, st)) == OutcomeControl(Execute(m, env, insts[0], st), pc + 1);
      match Execute(m, env, insts[0], st)
      case Ok(st') =>
        assert code[pc + 1..pc + 1 + |insts[1..]|] == insts[1..];
        StraightSteps(m, env, code, insts[1..], pc + 1, st');
      case _ =>
        OverStays(m, env, code, |insts| - 1, Step(m, env, code, At(pc, st)));
    }
  }

  // ----- the layout -----

  /** The reachable block that is laid out after block `i`, or the number of blocks. */
  function NextReachable(reach: seq<bool>, i: nat): (j: nat)
    requires i < |reach|
    ensures i < j <= |reach| && (j < |reach| ==> reach[j]) && forall k :: i < k < j ==> !reach[k]
    decreases |reach| - i
  {
    if i + 1 == |reach| || reach[i + 1] then i + 1 else NextReachable(reach, i + 1)
  }

  /** A block's last instructions; jumps still name the block they lead to. */
  function TerminatorCode(t: Terminator, next: nat, freeCount: U24): seq<Inst> {
    match t
    case ReturnTo => [if freeCount > 0 then Inst.ReturnFree(freeCount) else Inst.Return]
    case PanicOut => [Inst.Panic]
    case JumpTo(n) => if n != next then [Inst.Jump(n)] else []
    case BranchTo(kind, n0, n1) =>
      if n0 == next then [Inst.BranchIf(Opposite(kind), n1)]
      else if n1 == next then [Inst.BranchIf(First(kind), n0)]
      else [Inst.BranchIf(Opposite(kind), n1), Inst.Jump(n0)]
    case _ => []
  }

  function BlockCode(body: Body, reach: seq<bool>, i: nat): seq<Inst>
    requires i < |body.blocks| == |reach|
  {
    [Inst.Block(body.blocks[i].sig)] + body.blocks[i].insts
    + TerminatorCode(body.blocks[i].terminator, NextReachable(reach, i), body.freeCount)
  }

  /** The code of the reachable blocks among the first `n`, jumps still naming blocks. */
  function Symbolic(body: Body, reach: seq<bool>, n: nat): seq<Inst>
    requires n <= |body.blocks| == |reach|
  {
    if n == 0 then []
    else Symbolic(body, reach, n - 1) + (if reach[n - 1] then BlockCode(body, reach, n - 1) else [])
  }

  /** Where the code of block `i` starts, after a prologue of `base` instructions. */
  function OffsetOf(body: Body, reach: seq<bool>, base: nat, i: nat): nat
    requires i <= |body.blocks| == |reach|
  {
    base + |Symbolic(body, reach, i)|
  }

  /** A jump at `at` to a block becomes the distance to just after the block's marker. */
  function Patched(body: Body, reach: seq<bool>, base: nat, i: Inst, at: nat): Inst
    requires |body.blocks| == |reach|
  {
    match i
    case Jump(d) => if 0 <= d < |reach| then Inst.Jump(OffsetOf(body, reach, base, d) + 1 - at) else i
    case BranchIf(cc, d) =>
      if 0 <= d < |reach| then Inst.BranchIf(cc, OffsetOf(body, reach, base, d) + 1 - at) else i
    case _ => i
  }

  /** The prologue, then the reachable blocks with their jumps patched. */
  function FlatCode(body: Body, reach: seq<bool>, prologue: seq<Inst>): (code: seq<Inst>)
    requires |body.blocks| == |reach|
    ensures |code| == |prologue| + |Symbolic(body, reach, |reach|)|
  {
    var symbolic := Symbolic(body, reach, |reach|);
    prologue + seq(|symbolic|, k requires 0 <= k < |symbolic| =>
                     Patched(body, reach, |prologue|, symbolic[k], |prologue| + k))
  }

  /** A block that ended with a call that always panics. */
  ghost predicate NeverEnds(m: Module, env: Environment, insts: seq<Inst>) {
    forall st :: !Run(m, env, insts, st).Ok?
  }

  ghost predicate WellFormedBlock(m: Module, env: Environment, b: CodeBlock) {
    && (forall k :: 0 <= k < |b.insts| ==> !IsControl(b.insts[k]))
    && b.terminator != Unterminated
    && (b.terminator == Terminated ==> NeverEnds(m, env, b.insts))
  }

  /** The reachable set holds the entry and is closed under successors. */
  predicate ClosedReach(body: Body, reach: seq<bool>) {
    && |body.blocks| == |reach| > 0 && reach[0]
    && (forall i :: 0 <= i < |reach| && reach[i] ==>
          forall n :: n in Successors(body.blocks[i].terminator) ==> n < |reach| && reach[n])
  }

  /** What the layout is handed: terminated straight-line blocks and a closed reachable set. */
  ghost predicate WellFormed(m: Module, env: Environment, body: Body, reach: seq<bool>) {
    && ClosedReach(body, reach)
    && forall i :: 0 <= i < |reach| && reach[i] ==> WellFormedBlock(m, env, body.blocks[i])
  }

  lemma {:induction false} SymbolicPrefix(body: Body, reach: seq<bool>, i: nat, n: nat)
    requires i <= n <= |body.blocks| == |reach|
    ensures Symbolic(body, reach, i) <= Symbolic(body, reach, n)
  {
    if i < n {
      SymbolicPrefix(body, reach, i, n - 1);
    }
  }

  /** Blocks that are not reachable take no room. */
  lemma {:induction false} SameOffset(body: Body, reach: seq<bool>, i: nat, n: nat)
    requires i <= n <= |body.blocks| == |reach|
    requires forall k :: i <= k < n ==> !reach[k]
    ensures Symbolic(body, reach, i) == Symbolic(body, reach, n)
  {
    if i < n {
      SameOffset(body, reach, i, n - 1);
    }
  }

  lemma BlockFits(body: Body, reach: seq<bool>, prologue: seq<Inst>, i: nat)
    requires i < |body.blocks| == |reach| && reach[i]
    ensures OffsetOf(body, reach, |prologue|, i) + |BlockCode(body, reach, i)|
         == OffsetOf(body, reach, |prologue|, i + 1) <= |FlatCode(body, reach, prologue)|
  {
    SymbolicPrefix(body, reach, i + 1, |reach|);
  }

  /** The code of a reachable block is found, patched, at its offset. */
  lemma BlockIsPlaced(body: Body, reach: seq<bool>, prologue: seq<Inst>, i: nat, t: nat)
    requires i < |body.blocks| == |reach| && reach[i] && t < |BlockCode(body, reach, i)|
    ensures OffsetOf(body, reach, |prologue|, i) + t < |FlatCode(body, reach, prologue)|
    ensures FlatCode(body, reach, prologue)[OffsetOf(body, reach, |prologue|, i) + t]
         == Patched(body, reach, |prologue|, BlockCode(body, reach, i)[t], OffsetOf(body, reach, |prologue|, i) + t)
  {
    SymbolicPrefix(body, reach, i + 1, |reach|);
    var k := |Symbolic(body, reach, i)| + t;
    assert Symbolic(body, reach, i + 1)[k] == BlockCode(body, reach, i)[t];
    assert Symbolic(body, reach, |reach|)[k] == BlockCode(body, reach, i)[t];
  }

  lemma StraightIsNotPatched(body: Body, reach: seq<bool>, base: nat, i: Inst, at: nat)
    requires |body.blocks| == |reach| && !IsControl(i)
    ensures Patched(body, reach, base, i, at) == i
  {
  }

  lemma InstsArePlaced(body: Body, reach: seq<bool>, prologue: seq<Inst>, i: nat)
    requires i < |body.blocks| == |reach| && reach[i]
    requires forall k :: 0 <= k < |body.blocks[i].insts| ==> !IsControl(body.blocks[i].insts[k])
    ensures TailOf(body, reach, |prologue|, i) <= |FlatCode(body, reach, prologue)|
    ensures var from, to := OffsetOf(body, reach, |prologue|, i) + 1, TailOf(body, reach, |prologue|, i);
            FlatCode(body, reach, prologue)[from..to] == body.blocks[i].insts
  {
    BlockFits(body, reach, prologue, i);
    var code, insts := FlatCode(body, reach, prologue), body.blocks[i].insts;
    var at := OffsetOf(body, reach, |prologue|, i) + 1;
    forall k | 0 <= k < |insts| ensures code[at + k] == insts[k] {
      BlockIsPlaced(body, reach, prologue, i, 1 + k);
      StraightIsNotPatched(body, reach, |prologue|, insts[k], at + k);
    }
  }

  /** Where the terminator of block `i` starts. */
  function TailOf(body: Body, reach: seq<bool>, base: nat, i: nat): nat
    requires i < |body.blocks| == |reach|
  {
    OffsetOf(body, reach, base, i) + 1 + |body.blocks[i].insts|
  }

  function Tail(body: Body, reach: seq<bool>, i: nat): seq<Inst>
    requires i < |body.blocks| == |reach|
  {
    TerminatorCode(body.blocks[i].terminator, NextReachable(reach, i), body.freeCount)
  }

  /** The instructions of a block's terminator, where they are. */
  lemma TerminatorIsPlaced(body: Body, reach: seq<bool>, prologue: seq<Inst>, i: nat, t: nat)
    requires i < |body.blocks| == |reach| && reach[i] && t < |Tail(body, reach, i)|
    ensures TailOf(body, reach, |prologue|, i) + t < |FlatCode(body, reach, prologue)|
    ensures FlatCode(body, reach, prologue)[TailOf(body, reach, |prologue|, i) + t]
         == Patched(body, reach, |prologue|, Tail(body, reach, i)[t], TailOf(body, reach, |prologue|, i) + t)
  {
    BlockIsPlaced(body, reach, prologue, i, 1 + |body.blocks[i].insts| + t);
  }

  // ----- running -----

  /** Control in the graph and control in the flat code name the same place: block `i`, just after
      its marker. */
  function Placed(body: Body, reach: seq<bool>, base: nat, c: Control): Control
    requires |body.blocks| == |reach|
  {
    match c
    case Over(_) => c
    case At(i, st) => if 0 <= i < |reach| then At(OffsetOf(body, reach, base, i) + 1, st) else Over(Stuck)
  }

  /** Control inside the graph is at a reachable block. */
  predicate InGraph(reach: seq<bool>, c: Control) {
    c.At? ==> 0 <= c.place < |reach| && reach[c.place]
  }

  lemma MarkerStep(m: Module, env: Environment, body: Body, reach: seq<bool>, prologue: seq<Inst>, i: nat, st: State)
    requires i < |body.blocks| == |reach| && reach[i]
    ensures Step(m, env, FlatCode(body, reach, prologue), At(OffsetOf(body, reach, |prologue|, i), st))
         == At(OffsetOf(body, reach, |prologue|, i) + 1, st)
  {
    BlockIsPlaced(body, reach, prologue, i, 0);
  }

  /** Falling off the end of block `i` reaches the next reachable block, past its marker. */
  lemma FallThrough(m: Module, env: Environment, body: Body, reach: seq<bool>, prologue: seq<Inst>, i: nat, st: State)
    requires i < |body.blocks| == |reach| && NextReachable(reach, i) < |reach|
    ensures Step(m, env, FlatCode(body, reach, prologue), At(OffsetOf(body, reach, |prologue|, i + 1), st))
         == Placed(body, reach, |prologue|, At(NextReachable(reach, i), st))
  {
    SameOffset(body, reach, i + 1, NextReachable(reach, i));
    MarkerStep(m, env, body, reach, prologue, NextReachable(reach, i), st);
  }

  lemma OneStep(m: Module, env: Environment, code: seq<Inst>, c: Control)
    ensures Steps(m, env, code, 1, c) == Step(m, env, code, c)
  {
    assert Steps(m, env, code, 0, Step(m, env, code, c)) == Step(m, env, code, c);
  }

  lemma TwoSteps(m: Module, env: Environment, code: seq<Inst>, c: Control)
    ensures Steps(m, env, code, 2, c) == Step(m, env, code, Step(m, env, code, c))
  {
    OneStep(m, env, code, Step(m, env, code, c));
  }

  /** A jump of a terminator goes to the block it names. */
  lemma PlacedJump(m: Module, env: Environment, body: Body, reach: seq<bool>, prologue: seq<Inst>, i: nat, t: nat,
                   d: nat, st: State)
    requires i < |body.blocks| == |reach| && reach[i] && d < |reach|
    requires t < |Tail(body, reach, i)| && Tail(body, reach, i)[t] == Inst.Jump(d)
    ensures Step(m, env, FlatCode(body, reach, prologue), At(TailOf(body, reach, |prologue|, i) + t, st))
         == Placed(body, reach, |prologue|, At(d, st))
  {
    TerminatorIsPlaced(body, reach, prologue, i, t);
  }

  lemma PlacedBranch(m: Module, env: Environment, body: Body, reach: seq<bool>, prologue: seq<Inst>, i: nat,
                     cc: Condition, d: nat, st: State)
    requires i < |body.blocks| == |reach| && reach[i] && d < |reach| && st.stack != []
    requires Tail(body, reach, i) != [] && Tail(body, reach, i)[0] == Inst.BranchIf(cc, d)
    ensures Step(m, env, FlatCode(body, reach, prologue), At(TailOf(body, reach, |prologue|, i), st))
         == if Holds(cc, Signed(st.stack[0])) then Placed(body, reach, |prologue|, At(d, Replace(st, 1, [])))
            else At(TailOf(body, reach, |prologue|, i) + 1, Replace(st, 1, []))
  {
    TerminatorIsPlaced(body, reach, prologue, i, 0);
  }

  /** Running past the last instruction of a terminator reaches the next reachable block. */
  lemma PlacedFallThrough(m: Module, env: Environment, body: Body, reach: seq<bool>, prologue: seq<Inst>, i: nat,
                          st: State)
    requires i < |body.blocks| == |reach| && reach[i] && NextReachable(reach, i) < |reach|
    ensures Step(m, env, FlatCode(body, reach, prologue),
                 At(TailOf(body, reach, |prologue|, i) + |Tail(body, reach, i)|, st))
         == Placed(body, reach, |prologue|, At(NextReachable(reach, i), st))
  {
    BlockFits(body, reach, prologue, i);
    FallThrough(m, env, body, reach, prologue, i, st);
  }

  /** A jump, taken or left out because its target comes next. */
  lemma JumpSimulates(m: Module, env: Environment, body: Body, reach: seq<bool>, prologue: seq<Inst>, i: nat, st: State)
    requires ClosedReach(body, reach) && i < |reach| && reach[i] && body.blocks[i].terminator.JumpTo?
    ensures Step(m, env, FlatCode(body, reach, prologue), At(TailOf(body, reach, |prologue|, i), st))
         == Placed(body, reach, |prologue|, At(body.blocks[i].terminator.next0, st))
  {
    var n := body.blocks[i].terminator.next0;
    assert n in Successors(body.blocks[i].terminator);
    if n == NextReachable(reach, i) {
      PlacedFallThrough(m, env, body, reach, prologue, i, st);
    } else {
      PlacedJump(m, env, body, reach, prologue, i, 0, n, st);
    }
  }

  lemma OppositeIsNegation(kind: BranchKind, s: int)
    ensures Holds(Opposite(kind), s) <==> !Holds(First(kind), s)
  {
  }

  /** The first instruction of a two-way branch: the condition it tests and the block it names. */
  function BranchHead(t: Terminator, next: nat): (Condition, nat)
    requires t.BranchTo?
  {
    if t.next0 != next && t.next1 == next then (First(t.kind), t.next0) else (Opposite(t.kind), t.next1)
  }

  lemma BranchHeadStep(m: Module, env: Environment, body: Body, reach: seq<bool>, prologue: seq<Inst>, i: nat,
                       st: State)
    requires ClosedReach(body, reach) && i < |reach| && reach[i] && body.blocks[i].terminator.BranchTo?
    requires st.stack != []
    ensures var (cc, d) := BranchHead(body.blocks[i].terminator, NextReachable(reach, i));
            var tail := TailOf(body, reach, |prologue|, i);
            Step(m, env, FlatCode(body, reach, prologue), At(tail, st))
            == if Holds(cc, Signed(st.stack[0])) then Placed(body, reach, |prologue|, At(d, Replace(st, 1, [])))
               else At(tail + 1, Replace(st, 1, []))
  {
    var t := body.blocks[i].terminator;
    assert t.next0 in Successors(t) && t.next1 in Successors(t);
    var (cc, d) := BranchHead(t, NextReachable(reach, i));
    PlacedBranch(m, env, body, reach, prologue, i, cc, d, st);
  }

  /** The successors of a reachable block are reachable. */
  lemma SuccessorsReach(body: Body, reach: seq<bool>, i: nat)
    requires ClosedReach(body, reach) && i < |reach| && reach[i] && body.blocks[i].terminator.BranchTo?
    ensures var t := body.blocks[i].terminator;
            t.next0 < |reach| && reach[t.next0] && t.next1 < |reach| && reach[t.next1]
  {
    var t := body.blocks[i].terminator;
    assert t.next0 in Successors(t) && t.next1 in Successors(t);
  }

  /** Where a branch that is not taken goes on. */
  function RestOf(t: Terminator, next: nat): nat
    requires t.BranchTo?
  {
    if t.next0 != next && t.next1 == next then t.next1 else t.next0
  }

  lemma BranchTail(body: Body, reach: seq<bool>, i: nat)
    requires i < |body.blocks| == |reach| && body.blocks[i].terminator.BranchTo?
    ensures var t, next := body.blocks[i].terminator, NextReachable(reach, i);
            if RestOf(t, next) == next then |Tail(body, reach, i)| == 1
            else |Tail(body, reach, i)| == 2 && Tail(body, reach, i)[1] == Inst.Jump(RestOf(t, next))
  {
  }

  /** After a branch that is not taken: the next block follows, or a jump to the first successor. */
  lemma BranchRest(m: Module, env: Environment, body: Body, reach: seq<bool>, prologue: seq<Inst>, i: nat, st: State)
    requires i < |body.blocks| == |reach| && reach[i] && body.blocks[i].terminator.BranchTo?
    requires RestOf(body.blocks[i].terminator, NextReachable(reach, i)) < |reach|
    ensures Step(m, env, FlatCode(body, reach, prologue), At(TailOf(body, reach, |prologue|, i) + 1, st))
         == Placed(body, reach, |prologue|, At(RestOf(body.blocks[i].terminator, NextReachable(reach, i)), st))
  {
    var rest := RestOf(body.blocks[i].terminator, NextReachable(reach, i));
    BranchTail(body, reach, i);
    if rest == NextReachable(reach, i) {
      PlacedFallThrough(m, env, body, reach, prologue, i, st);
    } else {
      PlacedJump(m, env, body, reach, prologue, i, 1, rest, st);
    }
  }

  /** A two-way branch, in whichever of its three forms. */
  lemma BranchSimulates(m: Module, env: Environment, body: Body, reach: seq<bool>, prologue: seq<Inst>, i: nat,
                        st: State)
      returns (n: nat)
    requires ClosedReach(body, reach) && i < |reach| && reach[i] && body.blocks[i].terminator.BranchTo?
    requires st.stack != []
    ensures 1 <= n
    ensures Steps(m, env, FlatCode(body, reach, prologue), n, At(TailOf(body, reach, |prologue|, i), st))
         == Placed(body, reach, |prologue|, Leaves(body.blocks[i].terminator, body.freeCount, st))
  {
    var code, start := FlatCode(body, reach, prologue), At(TailOf(body, reach, |prologue|, i), st);
    var t := body.blocks[i].terminator;
    OppositeIsNegation(t.kind, Signed(st.stack[0]));
    OneStep(m, env, code, start);
    TwoSteps(m, env, code, start);
    BranchHeadStep(m, env, body, reach, prologue, i, st);
    SuccessorsReach(body, reach, i);
    BranchRest(m, env, body, reach, prologue, i, Replace(st, 1, []));
    n := if Holds(BranchHead(t, NextReachable(reach, i)).0, Signed(st.stack[0])) then 1 else 2;
  }

  lemma TerminatorSimulates(m: Module, env: Environment, body: Body, reach: seq<bool>, prologue: seq<Inst>, i: nat,
                            st: State)
      returns (n: nat)
    requires ClosedReach(body, reach) && i < |reach| && reach[i]
    requires body.blocks[i].terminator != Unterminated && body.blocks[i].terminator != Terminated
    ensures 1 <= n
    ensures Steps(m, env, FlatCode(body, reach, prologue), n, At(TailOf(body, reach, |prologue|, i), st))
         == Placed(body, reach, |prologue|, Leaves(body.blocks[i].terminator, body.freeCount, st))
  {
    var code, tail := FlatCode(body, reach, prologue), TailOf(body, reach, |prologue|, i);
    n := 1;
    OneStep(m, env, code, At(tail, st));
    match body.blocks[i].terminator
    case JumpTo(_) => JumpSimulates(m, env, body, reach, prologue, i, st);
    case BranchTo(_, _, _) =>
      if st.stack == [] {
        TerminatorIsPlaced(body, reach, prologue, i, 0);
      } else {
        n := BranchSimulates(m, env, body, reach, prologue, i, st);
      }
    case ReturnTo => TerminatorIsPlaced(body, reach, prologue, i, 0);
    case PanicOut => TerminatorIsPlaced(body, reach, prologue, i, 0);
    case _ =>
  }

  /** One block of the graph is one or more steps of the flat code, to the same place. */
  lemma BlockSimulates(m: Module, env: Environment, body: Body, reach: seq<bool>, prologue: seq<Inst>, i: nat,
                       st: State)
      returns (n: nat)
    requires WellFormed(m, env, body, reach) && i < |reach| && reach[i]
    ensures 1 <= n
    ensures Steps(m, env, FlatCode(body, reach, prologue), n, Placed(body, reach, |prologue|, At(i, st)))
         == Placed(body, reach, |prologue|, RunBlock(m, env, body, At(i, st)))
    ensures InGraph(reach, RunBlock(m, env, body, At(i, st)))
  {
    var code, insts := FlatCode(body, reach, prologue), body.blocks[i].insts;
    var at := OffsetOf(body, reach, |prologue|, i) + 1;
    assert WellFormedBlock(m, env, body.blocks[i]);
    InstsArePlaced(body, reach, prologue, i);
    StraightSteps(m, env, code, insts, at, st);
    match Run(m, env, insts, st)
    case Ok(st') =>
      assert body.blocks[i].terminator == Terminated ==> NeverEnds(m, env, insts);
      var k := TerminatorSimulates(m, env, body, reach, prologue, i, st');
      StepsAdd(m, env, code, |insts|, k, At(at, st));
      n := |insts| + k;
      assert forall s :: s in Successors(body.blocks[i].terminator) ==> s < |reach| && reach[s];
      assert body.blocks[i].terminator.JumpTo?
          ==> body.blocks[i].terminator.next0 in Successors(body.blocks[i].terminator);
      assert body.blocks[i].terminator.BranchTo? ==>
          body.blocks[i].terminator.next0 in Successors(body.blocks[i].terminator)
          && body.blocks[i].terminator.next1 in Successors(body.blocks[i].terminator);
    case _ =>
      n := |insts|;
  }

  /** `n` blocks of the graph are at least `n` steps of the flat code. */
  lemma {:induction false} GraphSimulates(m: Module, env: Environment, body: Body, reach: seq<bool>,
                                          prologue: seq<Inst>,
                                          n: nat, c: Control)
      returns (k: nat)
    requires WellFormed(m, env, body, reach) && InGraph(reach, c)
    ensures n <= k
    ensures Steps(m, env, FlatCode(body, reach, prologue), k, Placed(body, reach, |prologue|, c))
         == Placed(body, reach, |prologue|, RunGraph(m, env, body, n, c))
    ensures InGraph(reach, RunGraph(m, env, body, n, c))
  {
    var code := FlatCode(body, reach, prologue);
    if n == 0 {
      k := 0;
    } else if c.Over? {
      k := n;
      OverStays(m, env, code, n, c);
      GraphOverStays(m, env, body, n, c);
    } else {
      var a := BlockSimulates(m, env, body, reach, prologue, c.place, c.state);
      var b := GraphSimulates(m, env, body, reach, prologue, n - 1, RunBlock(m, env, body, c));
      StepsAdd(m, env, code, a, b, Placed(body, reach, |prologue|, c));
      k := a + b;
    }
  }

  /** Just after the marker of the entry block, which the prologue runs into. */
  function EntryPoint(prologue: seq<Inst>): nat { |prologue| + 1 }

  predicate GraphEnds(m: Module, env: Environment, body: Body, n: nat, st: State, result: Result) {
    RunGraph(m, env, body, n, At(0, st)) == Over(result)
  }

  predicate FlatEnds(m: Module, env: Environment, code: seq<Inst>, k: nat, pc: int, st: State, result: Result) {
    Steps(m, env, code, k, At(pc, st)) == Over(result)
  }

  /** Linearisation preserves meaning: from the entry block, the graph ends with a result exactly
      when the flat code does, and it is the same result. */
  lemma LinearisationCorrect(m: Module, env: Environment, body: Body, reach: seq<bool>, prologue: seq<Inst>,
                             st: State, result: Result)
    requires WellFormed(m, env, body, reach)
    ensures (exists n: nat :: GraphEnds(m, env, body, n, st, result))
            <==> (exists k: nat :: FlatEnds(m, env, FlatCode(body, reach, prologue), k, EntryPoint(prologue), st,
                                            result))
  {
    var code, start := FlatCode(body, reach, prologue), At(|prologue| + 1, st);
    assert OffsetOf(body, reach, |prologue|, 0) == |prologue|;
    assert Placed(body, reach, |prologue|, At(0, st)) == start;
    if n: nat :| GraphEnds(m, env, body, n, st, result) {
      var k := GraphSimulates(m, env, body, reach, prologue, n, At(0, st));
      assert FlatEnds(m, env, code, k, EntryPoint(prologue), st, result);
    }
    if k: nat :| FlatEnds(m, env, code, k, EntryPoint(prologue), st, result) {
      var k' := GraphSimulates(m, env, body, reach, prologue, k, At(0, st));
      StepsAdd(m, env, code, k, k' - k, start);
      OverStays(m, env, code, k' - k, Over(result));
      assert GraphEnds(m, env, body, k, st, result);
    }
  }

  /** Every jump of the flat code lands just after the marker of a reachable successor, and its
      distance fits the 24 bits it is stored in when the code has fewer than 2^16 instructions. */
  lemma JumpsLandOnBlocks(body: Body, reach: seq<bool>, prologue: seq<Inst>, i: nat, t: nat) returns (d: nat)
    requires ClosedReach(body, reach) && i < |reach| && reach[i]
    requires t < |Tail(body, reach, i)| && (Tail(body, reach, i)[t].Jump? || Tail(body, reach, i)[t].BranchIf?)
    requires |FlatCode(body, reach, prologue)| < 0x1_0000
    ensures d < |reach| && reach[d] && d in Successors(body.blocks[i].terminator)
    ensures var code, at := FlatCode(body, reach, prologue), TailOf(body, reach, |prologue|, i) + t;
            && at < |code| && (code[at].Jump? || code[at].BranchIf?)
            && 1 <= at + code[at].target == OffsetOf(body, reach, |prologue|, d) + 1 <= |code|
            && code[at + code[at].target - 1] == Inst.Block(body.blocks[d].sig)
            && -0x80_0000 <= code[at].target < 0x80_0000
  {
    TerminatorIsPlaced(body, reach, prologue, i, t);
    d := Tail(body, reach, i)[t].target;
    assert d in Successors(body.blocks[i].terminator);
    BlockIsPlaced(body, reach, prologue, d, 0);
  }
}
