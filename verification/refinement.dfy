// The instructions the builder leaves behind do what the builder calls mean.

module Refinement {
  import opened Words
  import opened Allocations
  import opened Bytecode
  import opened Layouts
  import opened Vm
  import opened Builder
  import opened Meaning
  import opened Immediates

  // ----- what is assumed of the machine around one frame -----

  predicate LocalSlotOk(m: Module, frame: Frame, memory: Memory, l: nat)
    requires l < |m.locals|
  {
    var k := frame.firstLocal + m.locals[l].index;
    k < TWO_30
    && (m.locals[l].layout.alignment <= POINTER_ALIGNMENT ==>
          k < |memory.allocations| && memory.allocations[k].ptr == Wrap(frame.base + m.locals[l].offset))
  }

  predicate GlobalSlotOk(m: Module, memory: Memory, g: nat)
    requires g < |m.globals|
  {
    m.globals[g].defined ==>
      g < |memory.allocations|
      && memory.allocations[g].generation % 4 == 0
      && memory.allocations[g].size <= m.globals[g].size
      && (m.globals[g].alignment >= POINTER_ALIGNMENT ==> memory.allocations[g].ptr % 8 == 0)
  }

  /** The slots of the frame's locals and of the globals are where the builder assumes them. */
  ghost predicate SlotsOk(m: Module, frame: Frame, memory: Memory) {
    && (forall l :: 0 <= l < |m.locals| ==> LocalSlotOk(m, frame, memory, l))
    && (forall g :: 0 <= g < |m.globals| ==> GlobalSlotOk(m, memory, g))
  }

  ghost predicate Delivers(m: Module, frame: Frame, memory: Memory, outputs: nat,
                           result: Option<(seq<Word>, Memory)>) {
    result.Some? ==>
      |result.value.0| == outputs && (SlotsOk(m, frame, memory) ==> SlotsOk(m, frame, result.value.1))
  }

  /** A foldable builtin computes what the builder computed with it, and one that always panics does. */
  ghost predicate FoldsAgree(m: Module, env: Environment) {
    && (forall b: Builtin, ins, memory :: b.noProcess && b.constantFold ==>
          env.builtin(b, ins, memory)
          == match m.fold(b, ins) { case None => None case Some(outs) => Some((outs, memory)) })
    && (forall b: Builtin, ins, memory :: b.alwaysPanic ==> env.builtin(b, ins, memory) == None)
  }

  /** Callees obey their signatures, never move the slots of a live frame, and builtins
      agree with how they are folded. */
  ghost predicate Honest(m: Module, env: Environment, frame: Frame) {
    && (forall f, ins, memory :: 0 <= f < |m.functions| ==>
          Delivers(m, frame, memory, m.functions[f].outputs, env.call(f, ins, memory)))
    && (forall b: Builtin, ins, memory ::
          Delivers(m, frame, memory, b.sig.outputs, env.builtin(b, ins, memory)))
    && (forall kind, sig: Signature, ins, memory ::
          Delivers(m, frame, memory, sig.outputs, env.fiber(kind, sig, ins, memory)))
    && FoldsAgree(m, env)
  }

  // ----- the abstract stack describes the concrete one -----

  /** What the machine may hold where a constant is tracked. */
  predicate MayHold(v: Value, w: Word)
    requires v.Constant?
  {
    match v.faith
    case Exact => w == v.w
    case Lower => LowHalf(w) == LowHalf(v.w)
    case AllOnes => v.w == 0 && w == ALL_ONES
  }

  predicate Describes(m: Module, frame: Frame, v: Value, w: Word) {
    match v
    case Unknown => true
    case Constant(_, _) => MayHold(v, w)
    case LocalAddress(l) => l < |m.locals| && w == Vm.LocalAddress(frame, m.locals[l].index)
  }

  ghost predicate Tracks(m: Module, vs: seq<Value>, st: State) {
    |vs| <= |st.stack| && forall k :: 0 <= k < |vs| ==> Describes(m, st.frame, vs[k], st.stack[k])
  }

  /** Running the block so far from `start` gives `st`, and the abstract stack describes it. */
  ghost predicate Follows(m: Module, env: Environment, b: Build, start: State, st: State) {
    && Run(m, env, b.insts, start) == Ok(st)
    && Tracks(m, b.vstack, st)
    && SlotsOk(m, st.frame, st.memory)
    && st.frame == start.frame
  }

  // ----- deleting instructions -----

  /** How the state before a deletable instruction relates to the one after it. */
  ghost predicate Undoes(removal: Removal, before: State, st: State) {
    && before.(stack := st.stack) == st
    && match removal
       case Pushes => st.stack != [] && st.stack[1..] == before.stack
       case Rewrites => |st.stack| == |before.stack| > 0 && st.stack[1..] == before.stack[1..]
       case Combines => |st.stack| + 1 == |before.stack| >= 2 && st.stack[1..] == before.stack[2..]
       case Stays => true
  }

  lemma DeletableUndoes(m: Module, env: Environment, i: Inst, before: State, st: State)
    requires RemovalOf(i) != Stays && Execute(m, env, i, before) == Ok(st)
    ensures Undoes(RemovalOf(i), before, st)
  {
  }

  lemma DeleteLastRuns(m: Module, env: Environment, b: Build, start: State, st: State) returns (before: State)
    requires Run(m, env, b.insts, start) == Ok(st) && LastRemoval(b) != Stays
    ensures Run(m, env, DeleteLast(b).insts, start) == Ok(before)
    ensures Undoes(LastRemoval(b), before, st)
  {
    var init, last := b.insts[..|b.insts| - 1], b.insts[|b.insts| - 1];
    assert b.insts == init + [last];
    RunLast(m, env, init, last, start);
    before := Run(m, env, init, start).state;
    DeletableUndoes(m, env, last, before, st);
  }

  lemma {:induction false} PopTopsRun(m: Module, env: Environment, n: nat, st: State)
    requires n <= |st.stack|
    ensures Run(m, env, PopTops(n), st) == Ok(st.(stack := st.stack[n..]))
  {
    if n == 0 {
      assert st.stack[0..] == st.stack;
    } else {
      var st' := Replace(st, 1, []);
      assert st'.stack == st.stack[1..];
      assert Execute(m, env, Inst.PopTop, st) == Ok(st');
      assert PopTops(n)[0] == Inst.PopTop && PopTops(n)[1..] == PopTops(n - 1);
      PopTopsRun(m, env, n - 1, st');
      assert st'.stack[n - 1..] == st.stack[n..];
    }
  }

  /** Deleting backwards has the effect of popping the values. */
  lemma {:induction false} PopTopNRuns(m: Module, env: Environment, b: Build, n: nat, start: State, st: State)
    requires Run(m, env, b.insts, start) == Ok(st)
    requires n <= |st.stack|
    ensures Run(m, env, PopTopN(b, n).insts, start) == Ok(st.(stack := st.stack[n..]))
    decreases |b.insts|
  {
    if n == 0 {
      assert st.stack[0..] == st.stack;
    } else if LastRemoval(b) == Stays {
      RunConcat(m, env, b.insts, PopTops(n), start);
      PopTopsRun(m, env, n, st);
    } else {
      var before := DeleteLastRuns(m, env, b, start, st);
      var n' := LeftToPop(LastRemoval(b), n);
      PopTopNRuns(m, env, DeleteLast(b), n', start, before);
      assert before.stack[n'..] == st.stack[n..];
    }
  }

  // ----- the calls whose folding is exact -----

  /** A comparison folded on a constant: on the lower half alone only equality can be told, and only
      if that half is not zero; `null` is tracked as 0 and is less than zero. */
  predicate ExactCc(cc: Condition, v: Value) {
    v.Constant? ==>
      match v.faith
      case Exact => true
      case Lower => LowHalf(v.w) != 0 && (cc == Eq || cc == Ne)
      case AllOnes => cc == Le || cc == Gt
  }

  /** A branch folded on a constant. */
  predicate ExactBranch(v: Value) {
    v.Constant? ==>
      match v.faith
      case Exact => true
      case Lower => LowHalf(v.w) != 0
      case AllOnes => false
  }

  /** What is added to an address for a constant index: nothing if the offset is negative. */
  function FoldedOffset(v: Value, element: Layout): int
    requires v.Constant? && element.alignment > 0
  {
    var offset := Signed(v.w) * RoundUp(element.size, element.alignment);
    if offset > 0 then offset else 0
  }

  /** A constant index that adds, modulo 2^32, what the index that is really there would. */
  predicate ExactIndex(v: Value, element: Layout)
    requires element.alignment > 0
  {
    v.Constant? ==>
      var multiple: int := RoundUp(element.size, element.alignment);
      var held := if v.faith.AllOnes? then -multiple else Signed(v.w) * multiple;
      (FoldedOffset(v, element) - held) % 0x1_0000_0000 == 0
  }

  /** A constant address folded to a global is the start of that global, or no access to it at all. */
  predicate ExactGlobal(m: Module, v: Value, ty: Type, store: bool) {
    match FoldAccess(m, v, ty, store)
    case ToGlobal(g) =>
      && v.Constant? && g < |m.globals|
      && (v.faith.Exact? ==>
            AddressGeneration(v.w) != 0 || AddressOffset(v.w) == 0
            || AddressOffset(v.w) + VALUE_LAYOUT.size > m.globals[g].size
            || AddressOffset(v.w) + VALUE_LAYOUT.size >= TWO_32 || AddressOffset(v.w) % 8 != 0)
      && (v.faith.Lower? ==> AddressGeneration(v.w) != 0 || m.globals[g].size < 16)
    case _ => true
  }

  predicate AllMayHold(vs: seq<Value>, ws: seq<Word>) {
    AllConstant(vs) && |vs| == |ws| && forall k :: 0 <= k < |vs| ==> MayHold(vs[k], ws[k])
  }

  /** A builtin that is folded gives the same on all that the machine may hold for its arguments. */
  ghost predicate FoldsAlike(m: Module, builtin: Builtin, vs: seq<Value>) {
    AllConstant(vs) && builtin.noProcess && builtin.constantFold && m.fold(builtin, ConstantsOf(vs)).Some? ==>
      forall ws: seq<Word> :: AllMayHold(vs, ws) ==> m.fold(builtin, ws) == m.fold(builtin, ConstantsOf(vs))
  }

  ghost predicate Guarded(m: Module, op: Op, b: Build) {
    match op
    case Cc(cc) => b.vstack != [] ==> ExactCc(cc, b.vstack[0])
    case ArrayElement(element) => b.vstack != [] && element.alignment > 0 ==> ExactIndex(b.vstack[0], element)
    case LoadField(ty, _) => b.vstack != [] ==> ExactGlobal(m, b.vstack[0], ty, false)
    case StoreField(ty, _) => b.vstack != [] ==> ExactGlobal(m, b.vstack[0], ty, true)
    case CallBuiltin(builtin) =>
      builtin.sig.inputs <= |b.vstack| ==> FoldsAlike(m, builtin, b.vstack[..builtin.sig.inputs])
    case _ => true
  }

  // ----- one builder call -----

  /** A store to memory does not touch the table. */
  lemma SameSlots(m: Module, st: State, st': State)
    requires SlotsOk(m, st.frame, st.memory)
    ensures st'.frame == st.frame && st'.memory.allocations == st.memory.allocations
            ==> SlotsOk(m, st'.frame, st'.memory)
  {
    if st'.frame == st.frame && st'.memory.allocations == st.memory.allocations {
      forall l | 0 <= l < |m.locals| ensures LocalSlotOk(m, st'.frame, st'.memory, l) {
        assert LocalSlotOk(m, st.frame, st.memory, l);
      }
      forall g | 0 <= g < |m.globals| ensures GlobalSlotOk(m, st'.memory, g) {
        assert GlobalSlotOk(m, st.memory, g);
      }
    }
  }

  lemma AppendRuns(m: Module, env: Environment, insts: seq<Inst>, i: Inst, start: State, st: State)
    requires Run(m, env, insts, start) == Ok(st)
    ensures Run(m, env, insts + [i], start) == Execute(m, env, i, st)
  {
    RunLast(m, env, insts, i, start);
  }

  /** Popping `n` values keeps the invariant. */
  lemma PopFollows(m: Module, env: Environment, b: Build, n: nat, start: State, st: State)
    requires Follows(m, env, b, start, st) && n <= |b.vstack|
    ensures Follows(m, env, PopTopN(Discard(b, n), n), start, st.(stack := st.stack[n..]))
  {
    PopTopNRuns(m, env, Discard(b, n), n, start, st);
  }

  /** Pushing values that are described keeps the invariant, once the instructions push them. */
  lemma PushFollows(m: Module, env: Environment, b: Build, insts: seq<Inst>, vs: seq<Value>, ws: seq<Word>,
                    start: State, st: State)
    requires Follows(m, env, b, start, st)
    requires Run(m, env, b.insts + insts, start) == Ok(Pushed(st, ws))
    requires |vs| == |ws| && forall k :: 0 <= k < |vs| ==> Describes(m, st.frame, vs[k], ws[k])
    ensures Follows(m, env, PushValues(Append(b, insts), vs), start, Pushed(st, ws))
  {
    var st' := Pushed(st, ws);
    assert st'.stack == ws + st.stack;
    assert st.stack[0..] == st.stack;
  }

  lemma UintFollows(m: Module, env: Environment, b: Build, value: Word, start: State, st: State)
    requires Follows(m, env, b, start, st)
    ensures Follows(m, env, PushUint(b, value), start, Pushed(st, [value]))
  {
    RunConcat(m, env, b.insts, Immediate(value), start);
    ImmediatePushes(m, env, value, st);
    PushFollows(m, env, b, Immediate(value), [Known(value)], [value], start, st);
  }

  lemma {:induction false} UintsFollow(m: Module, env: Environment, b: Build, values: seq<Word>, start: State,
                                       st: State)
    requires Follows(m, env, b, start, st)
    ensures Follows(m, env, PushUints(b, values), start, Pushed(st, values))
  {
    if values == [] {
      assert Pushed(st, values) == st;
    } else {
      UintsFollow(m, env, b, values[1..], start, st);
      var st' := Pushed(st, values[1..]);
      UintFollows(m, env, PushUints(b, values[1..]), values[0], start, st');
      assert Replace(st', 0, [values[0]]) == Pushed(st, values);
    }
  }

  /** One instruction that pushes a described value. */
  lemma PushOneFollows(m: Module, env: Environment, b: Build, i: Inst, v: Value, w: Word, start: State, st: State)
    requires Follows(m, env, b, start, st)
    requires Execute(m, env, i, st) == Ok(Pushed(st, [w])) && Describes(m, st.frame, v, w)
    ensures Follows(m, env, PushValues(Append(b, [i]), [v]), start, Pushed(st, [w]))
  {
    AppendRuns(m, env, b.insts, i, start, st);
    PushFollows(m, env, b, [i], [v], [w], start, st);
  }

  lemma GlobalAddrFollows(m: Module, env: Environment, g: nat, b: Build, start: State, st: State)
    requires Follows(m, env, b, start, st) && g < TWO_24
    ensures Follows(m, env, EmitGlobalAddr(g, b), start, Pushed(st, [MakeAddress(g, 0, 0)]))
  {
    PushOneFollows(m, env, b, Inst.GlobalAddr(g), Known(MakeAddress(g, 0, 0)), MakeAddress(g, 0, 0), start, st);
  }

  lemma LocalAddrFollows(m: Module, env: Environment, l: nat, b: Build, start: State, st: State)
    requires Follows(m, env, b, start, st) && l < |m.locals| && m.locals[l].index < 0x100
    ensures Follows(m, env, EmitLocalAddr(m, l, b), start, Pushed(st, [Vm.LocalAddress(st.frame, m.locals[l].index)]))
  {
    PushOneFollows(m, env, b.(addrCount := b.addrCount + 1), Inst.LocalAddr(m.locals[l].index),
                   Value.LocalAddress(l), Vm.LocalAddress(st.frame, m.locals[l].index), start, st);
  }

  /** Of a function's address the lower half is what the builder tracks. */
  lemma FunctionAddrFollows(m: Module, env: Environment, f: nat, high: U32, b: Build, start: State, st: State)
    requires Follows(m, env, b, start, st) && f < |m.functions|
    ensures Follows(m, env, EmitFunctionAddr(m, f, high, b), start, Pushed(st, [FunctionAddress(m, env, f, st)]))
  {
    var v, w := Constant(WithHigh(AddressOfFunction(m, f), high), Lower), FunctionAddress(m, env, f, st);
    assert Describes(m, st.frame, v, w) by {
      PartsOfLow(AddressOfFunction(m, f), high);
      PartsOfLow(AddressOfFunction(m, f), env.stale(st));
    }
    PushOneFollows(m, env, b, Inst.FunctionAddr(f), v, w, start, st);
  }

  lemma NullFollows(m: Module, env: Environment, b: Build, start: State, st: State)
    requires Follows(m, env, b, start, st)
    ensures Follows(m, env, EmitNull(b), start, Pushed(st, [ALL_ONES]))
  {
    PushOneFollows(m, env, b, Inst.PushN(0), Constant(0, AllOnes), ALL_ONES, start, st);
  }

  function Removed<T>(s: seq<T>, idx: nat): seq<T>
    requires idx < |s|
  {
    s[..idx] + s[idx + 1..]
  }

  lemma RemovedFirst<T>(s: seq<T>)
    requires s != []
    ensures Removed(s, 0) == s[1..]
  {
  }

  lemma PopBelowFollows(m: Module, env: Environment, idx: U16, b: Build, start: State, st: State)
    requires Follows(m, env, b, start, st) && 0 < idx < |b.vstack|
    ensures Follows(m, env, Append(b.(vstack := Removed(b.vstack, idx)), [Inst.Pop(idx)]), start,
                    st.(stack := Removed(st.stack, idx)))
  {
    RemovedTracks(m, b.vstack, idx, st);
    AppendRuns(m, env, b.insts, Inst.Pop(idx), start, st);
  }

  lemma PopOpFollows(m: Module, env: Environment, idx: U16, b: Build, start: State, st: State)
    requires Follows(m, env, b, start, st) && idx < |b.vstack|
    ensures Follows(m, env, EmitPop(idx, b), start, st.(stack := Removed(st.stack, idx)))
  {
    if idx == 0 {
      PopFollows(m, env, b, 1, start, st);
      RemovedFirst(b.vstack);
      RemovedFirst(st.stack);
    } else {
      PopBelowFollows(m, env, idx, b, start, st);
    }
  }

  lemma RemovedTracks(m: Module, vs: seq<Value>, idx: nat, st: State)
    requires Tracks(m, vs, st) && idx < |vs|
    ensures Tracks(m, Removed(vs, idx), st.(stack := Removed(st.stack, idx)))
  {
    var vs', stack' := Removed(vs, idx), Removed(st.stack, idx);
    forall k | 0 <= k < |vs'| ensures Describes(m, st.frame, vs'[k], stack'[k]) {
      var k' := if k < idx then k else k + 1;
      assert vs'[k] == vs[k'] && stack'[k] == st.stack[k'];
    }
  }

  lemma PickFollows(m: Module, env: Environment, idx: U16, b: Build, start: State, st: State)
    requires Follows(m, env, b, start, st) && idx < |b.vstack|
    ensures Follows(m, env, EmitPick(idx, b), start, Pushed(st, [st.stack[idx]]))
  {
    var i := if idx == 0 then Inst.Dup else Inst.Pick(idx);
    PushOneFollows(m, env, b, i, b.vstack[idx], st.stack[idx], start, st);
  }

  lemma RolledTracks(m: Module, vs: seq<Value>, idx: nat, st: State)
    requires Tracks(m, vs, st) && idx < |vs|
    ensures Tracks(m, Rolled(vs, idx), st.(stack := Rolled(st.stack, idx)))
  {
    var st' := st.(stack := Rolled(st.stack, idx));
    forall k | 0 <= k < |vs| ensures Describes(m, st.frame, Rolled(vs, idx)[k], st'.stack[k]) {
      var k' := if k == 0 then idx else if k <= idx then k - 1 else k;
      assert Rolled(vs, idx)[k] == vs[k'] && st'.stack[k] == st.stack[k'];
    }
  }

  lemma SwapRolls(m: Module, env: Environment, st: State)
    requires |st.stack| >= 2
    ensures Execute(m, env, Inst.Swap, st) == Ok(st.(stack := Rolled(st.stack, 1)))
  {
    assert Rolled(st.stack, 1) == [st.stack[1], st.stack[0]] + st.stack[2..];
  }

  /** No instruction, `swap` or `roll`: each rolls the stack. */
  lemma RollRuns(m: Module, env: Environment, idx: U16, insts: seq<Inst>, start: State, st: State)
    requires Run(m, env, insts, start) == Ok(st) && idx < |st.stack|
    ensures Run(m, env, insts + RollCode(idx), start) == Ok(st.(stack := Rolled(st.stack, idx)))
  {
    if idx == 0 {
      assert Rolled(st.stack, 0) == st.stack;
      assert insts + [] == insts;
    } else if idx == 1 {
      SwapRolls(m, env, st);
      AppendRuns(m, env, insts, Inst.Swap, start, st);
    } else {
      AppendRuns(m, env, insts, Inst.Roll(idx), start, st);
    }
  }

  lemma RollFollows(m: Module, env: Environment, idx: U16, b: Build, start: State, st: State)
    requires Follows(m, env, b, start, st) && idx < |b.vstack|
    ensures Follows(m, env, EmitRoll(idx, b), start, st.(stack := Rolled(st.stack, idx)))
  {
    RolledTracks(m, b.vstack, idx, st);
    RollRuns(m, env, idx, b.insts, start, st);
  }

  /** An instruction that replaces `n` described values by undescribed ones keeps the invariant. */
  lemma UnknownFollows(m: Module, env: Environment, b: Build, i: Inst, n: nat, outputs: nat, start: State,
                       st: State, st': State)
    requires Follows(m, env, b, start, st) && n <= |b.vstack|
    requires Execute(m, env, i, st) == Ok(st')
    requires st'.frame == st.frame && SlotsOk(m, st'.frame, st'.memory)
    requires |st'.stack| == |st.stack| - n + outputs && st'.stack[outputs..] == st.stack[n..]
    ensures Follows(m, env, PushValues(Append(Discard(b, n), [i]), Unknowns(outputs)), start, st')
  {
    AppendRuns(m, env, b.insts, i, start, st);
    var vs := Unknowns(outputs) + b.vstack[n..];
    forall k | 0 <= k < |vs| ensures Describes(m, st'.frame, vs[k], st'.stack[k]) {
      if k >= outputs {
        assert st'.stack[k] == st'.stack[outputs..][k - outputs];
      }
    }
  }

  lemma ExactCcHolds(cc: Condition, v: Value, w: Word)
    requires v.Constant? && MayHold(v, w) && ExactCc(cc, v)
    ensures Holds(cc, Signed(w)) == Holds(cc, Signed(v.w))
  {
  }

  lemma CcFollows(m: Module, env: Environment, cc: Condition, b: Build, start: State, st: State)
    requires Follows(m, env, b, start, st) && b.vstack != [] && ExactCc(cc, b.vstack[0])
    ensures Follows(m, env, EmitCc(cc, b), start, Replace(st, 1, [Truth(Holds(cc, Signed(st.stack[0])))]))
  {
    hide Run, PopTopN, Holds, Signed;
    var st' := Replace(st, 1, [Truth(Holds(cc, Signed(st.stack[0])))]);
    if b.vstack[0].Constant? {
      assert Describes(m, st.frame, b.vstack[0], st.stack[0]);
      ExactCcHolds(cc, b.vstack[0], st.stack[0]);
      var value := Truth(Holds(cc, Signed(b.vstack[0].w)));
      PopFollows(m, env, b, 1, start, st);
      var popped := PopTopN(Discard(b, 1), 1);
      var st1 := st.(stack := st.stack[1..]);
      PushOneFollows(m, env, popped, Inst.Push(value), Known(value), value, start, st1);
      assert st' == Pushed(st1, [value]);
    } else {
      UnknownFollows(m, env, b, Inst.Cc(cc), 1, 1, start, st, st');
      assert Unknowns(1) == [Unknown];
    }
  }

  /** Offsets count modulo 2^32. */
  lemma SameOffsetAdded(w: Word, d: int, e: int)
    ensures (d - e) % 0x1_0000_0000 == 0 <==> AddToOffset(w, d) == AddToOffset(w, e)
  {
    var o := w / 0x1_0000_0000;
    assert (d - e) % 0x1_0000_0000 == 0 <==> (o + d) % 0x1_0000_0000 == (o + e) % 0x1_0000_0000;
  }

  lemma AddNothing(w: Word)
    ensures AddToOffset(w, 0) == w
  {
  }

  lemma MultipleTimes(n: int, c: int, d: int)
    requires d > 0 && n % d == 0
    ensures (n * c) % d == 0
  {
    var q := n / d;
    assert n == q * d;
    assert n * c == (q * c) * d + 0;
    DivMod(q * c, d, 0);
  }

  /** The offset that the index in place means, as far as the builder can tell it. */
  lemma HeldOffset(v: Value, multiple: int, w: Word)
    requires v.Constant? && MayHold(v, w)
    ensures ((if v.faith.AllOnes? then -multiple else Signed(v.w) * multiple) - multiple * Signed(w)) % 0x1_0000_0000
            == 0
  {
    if v.faith.Lower? {
      SignedLow(v.w, w);
      MultipleTimes(Signed(v.w) - Signed(w), multiple, 0x1_0000_0000);
      assert Signed(v.w) * multiple - multiple * Signed(w) == (Signed(v.w) - Signed(w)) * multiple;
    }
  }

  lemma SignedLow(v: Word, w: Word)
    requires LowHalf(v) == LowHalf(w)
    ensures (Signed(v) - Signed(w)) % 0x1_0000_0000 == 0
  {
  }

  lemma SameRest(a: int, b: int, c: int)
    requires (b - c) % 0x1_0000_0000 == 0
    ensures (a - b) % 0x1_0000_0000 == 0 <==> (a - c) % 0x1_0000_0000 == 0
  {
  }

  /** An index is exact if and only if what is added for it is what the index in place means. */
  lemma ExactIndexAdds(v: Value, element: Layout, w: Word, address: Word)
    requires element.alignment > 0 && v.Constant? && MayHold(v, w)
    ensures var meant := RoundUp(element.size, element.alignment) * Signed(w);
            ExactIndex(v, element) <==> AddToOffset(address, FoldedOffset(v, element)) == AddToOffset(address, meant)
  {
    var multiple: int := RoundUp(element.size, element.alignment);
    var held := if v.faith.AllOnes? then -multiple else Signed(v.w) * multiple;
    HeldOffset(v, multiple, w);
    SameRest(FoldedOffset(v, element), held, multiple * Signed(w));
    SameOffsetAdded(address, FoldedOffset(v, element), multiple * Signed(w));
  }

  lemma DynamicElementFollows(m: Module, env: Environment, element: Layout, b: Build, start: State, st: State)
    requires Follows(m, env, b, start, st) && |b.vstack| >= 2 && element.alignment > 0
    requires RoundUp(element.size, element.alignment) < TWO_24
    ensures Means(m, env, Op.ArrayElement(element), st).Ok?
    ensures Follows(m, env,
                    PushValues(Append(Discard(b, 2), [Inst.ArrayElement(RoundUp(element.size, element.alignment))]),
                               [Unknown]),
                    start, Means(m, env, Op.ArrayElement(element), st).state)
  {
    var st' := Means(m, env, Op.ArrayElement(element), st).state;
    UnknownFollows(m, env, b, Inst.ArrayElement(RoundUp(element.size, element.alignment)), 2, 1, start, st, st');
    assert Unknowns(1) == [Unknown];
  }

  /** Adding a known offset to the address on top; nothing is emitted unless it is positive. */
  lemma OffsetFollows(m: Module, env: Environment, offset: int, b: Build, start: State, st: State)
    requires Follows(m, env, b, start, st) && b.vstack != [] && offset < TWO_24
    ensures Follows(m, env,
                    PushValues(Append(Discard(b, 1), if offset > 0 then [Inst.AggregateMember(offset)] else []),
                               [Unknown]),
                    start, Replace(st, 1, [AddToOffset(st.stack[0], if offset > 0 then offset else 0)]))
  {
    var st' := Replace(st, 1, [AddToOffset(st.stack[0], if offset > 0 then offset else 0)]);
    if offset > 0 {
      UnknownFollows(m, env, b, Inst.AggregateMember(offset), 1, 1, start, st, st');
      assert Unknowns(1) == [Unknown];
    } else {
      AddNothing(st.stack[0]);
      assert st' == st;
      assert b.insts + [] == b.insts;
    }
  }

  lemma ConstantElementFollows(m: Module, env: Environment, element: Layout, b: Build, start: State, st: State)
    requires Follows(m, env, b, start, st) && |b.vstack| >= 2 && element.alignment > 0 && b.vstack[0].Constant?
    requires !b.terminated && !b.errored && !EmitArrayElement(element, b).errored && ExactIndex(b.vstack[0], element)
    ensures Means(m, env, Op.ArrayElement(element), st).Ok?
    ensures Follows(m, env, EmitArrayElement(element, b), start, Means(m, env, Op.ArrayElement(element), st).state)
  {
    var st' := Means(m, env, Op.ArrayElement(element), st).state;
    assert Describes(m, st.frame, b.vstack[0], st.stack[0]);
    var offset := Signed(b.vstack[0].w) * RoundUp(element.size, element.alignment);
    PopFollows(m, env, b, 1, start, st);
    var popped := PopTopN(Discard(b, 1), 1);
    var st1 := st.(stack := st.stack[1..]);
    PopTopNIgnoresVstack(Discard(b, 1), Discard(b, 2), 1);
    assert Discard(popped, 1) == PopTopN(Discard(b, 2), 1);
    OffsetFollows(m, env, offset, popped, start, st1);
    ExactIndexAdds(b.vstack[0], element, st.stack[0], st1.stack[0]);
    assert st' == Replace(st1, 1, [AddToOffset(st1.stack[0], FoldedOffset(b.vstack[0], element))]);
  }

  lemma ElementFollows(m: Module, env: Environment, element: Layout, b: Build, start: State, st: State)
    requires Follows(m, env, b, start, st) && !b.terminated && !b.errored
    requires !EmitArrayElement(element, b).errored && ExactIndex(b.vstack[0], element)
    ensures Means(m, env, Op.ArrayElement(element), st).Ok?
    ensures Follows(m, env, EmitArrayElement(element, b), start, Means(m, env, Op.ArrayElement(element), st).state)
  {
    if b.vstack[0].Constant? {
      ConstantElementFollows(m, env, element, b, start, st);
    } else {
      DynamicElementFollows(m, env, element, b, start, st);
    }
  }

  /** Which instructions are deleted does not depend on the abstract stack. */
  lemma {:induction false} PopTopNIgnoresVstack(b: Build, c: Build, n: nat)
    requires b.insts == c.insts && b.addrCount == c.addrCount
    ensures PopTopN(b, n).insts == PopTopN(c, n).insts && PopTopN(b, n).addrCount == PopTopN(c, n).addrCount
    decreases |b.insts|
  {
    if n > 0 && LastRemoval(b) != Stays {
      PopTopNIgnoresVstack(DeleteLast(b), DeleteLast(c), LeftToPop(LastRemoval(b), n));
    }
  }

  lemma SelectFollows(m: Module, env: Environment, count: U16, b: Build, start: State, st: State)
    requires Follows(m, env, b, start, st) && 2 <= count < |b.vstack|
    requires Means(m, env, Op.Select(count), st).Ok?
    ensures Follows(m, env, PushValues(Append(Discard(b, count + 1), [Inst.Select(count - 1)]), [Unknown]), start,
                    Means(m, env, Op.Select(count), st).state)
  {
    UnknownFollows(m, env, b, Inst.Select(count - 1), count + 1, 1, start, st,
                   Means(m, env, Op.Select(count), st).state);
    assert Unknowns(1) == [Unknown];
  }

  lemma MemberFollows(m: Module, env: Environment, members: seq<Layout>, member: nat, b: Build, start: State, st: State)
    requires Follows(m, env, b, start, st) && !b.terminated && !b.errored
    requires !EmitAggregateMember(members, member, b).errored
    requires Means(m, env, Op.AggregateMember(members, member), st).Ok?
    ensures Follows(m, env, EmitAggregateMember(members, member, b), start,
                    Means(m, env, Op.AggregateMember(members, member), st).state)
  {
    var offset := MemberOffset(members, member);
    var st' := Means(m, env, Op.AggregateMember(members, member), st).state;
    if offset == 0 {
      AddNothing(st.stack[0]);
      assert st' == st;
    } else {
      UnknownFollows(m, env, b, Inst.AggregateMember(offset), 1, 1, start, st, st');
      assert Unknowns(1) == [Unknown];
    }
  }

  // ----- calls -----

  lemma CallFollows(m: Module, env: Environment, f: nat, b: Build, start: State, st: State)
    requires Follows(m, env, b, start, st) && Honest(m, env, st.frame)
    requires f < |m.functions| && m.functions[f].inputs <= |b.vstack|
    requires CallFunction(m, env, f, st).Ok?
    ensures Follows(m, env,
                    PushValues(Append(Discard(b, m.functions[f].inputs), [Inst.Call(f)]),
                               Unknowns(m.functions[f].outputs)),
                    start, CallFunction(m, env, f, st).state)
  {
    var n := m.functions[f].inputs;
    var result := env.call(f, st.stack[..n], st.memory);
    assert Delivers(m, st.frame, st.memory, m.functions[f].outputs, result);
    UnknownFollows(m, env, b, Inst.Call(f), n, m.functions[f].outputs, start, st, CallFunction(m, env, f, st).state);
  }

  /** All ones claim 255 inputs and 255 outputs, and an offset behind the end of any slot. */
  lemma NullNamesNothing()
    ensures FunctionInputs(ALL_ONES) == 255 && FunctionOutputs(ALL_ONES) == 255
    ensures AddressOffset(ALL_ONES) == 0xFFFF_FFFF
  {
  }

  lemma FoldedIndirectFollows(m: Module, env: Environment, sig: Signature, b: Build, start: State, st: State)
    requires Follows(m, env, b, start, st) && Honest(m, env, st.frame) && sig.inputs < |b.vstack|
    requires ConstantFunction(m, b.vstack[0], sig).Some? && CalledIndirectly(m, env, sig, st).Ok?
    ensures Follows(m, env,
                    PushValues(Append(PopTopN(Discard(b, sig.inputs + 1), 1),
                                      [Inst.Call(ConstantFunction(m, b.vstack[0], sig).value)]), Unknowns(sig.outputs)),
                    start, CalledIndirectly(m, env, sig, st).state)
  {
    assert Describes(m, st.frame, b.vstack[0], st.stack[0]);
    NullNamesNothing();
    if b.vstack[0].faith.Lower? {
      SameParts(b.vstack[0].w, st.stack[0]);
    }
    var f := FunctionIndex(st.stack[0]);
    assert ConstantFunction(m, b.vstack[0], sig) == Some(f);
    var st1 := st.(stack := st.stack[1..]);
    assert Replace(st, 1, []) == st1;
    PopFollows(m, env, b, 1, start, st);
    var popped := PopTopN(Discard(b, 1), 1);
    PopTopNIgnoresVstack(Discard(b, 1), Discard(b, sig.inputs + 1), 1);
    assert Discard(popped, sig.inputs) == PopTopN(Discard(b, sig.inputs + 1), 1);
    CallFollows(m, env, f, popped, start, st1);
  }

  lemma DynamicIndirectFollows(m: Module, env: Environment, sig: Signature, b: Build, start: State, st: State)
    requires Follows(m, env, b, start, st) && Honest(m, env, st.frame) && sig.inputs < |b.vstack|
    requires CalledIndirectly(m, env, sig, st).Ok?
    ensures Follows(m, env, PushValues(Append(Discard(b, sig.inputs + 1), [Inst.CallIndirect(sig)]),
                                       Unknowns(sig.outputs)),
                    start, CalledIndirectly(m, env, sig, st).state)
  {
    var f := FunctionIndex(st.stack[0]);
    var st1 := st.(stack := st.stack[1..]);
    assert Replace(st, 1, []) == st1;
    var result := env.call(f, st1.stack[..sig.inputs], st.memory);
    assert Delivers(m, st.frame, st.memory, sig.outputs, result);
    UnknownFollows(m, env, b, Inst.CallIndirect(sig), sig.inputs + 1, sig.outputs, start, st,
                   CalledIndirectly(m, env, sig, st).state);
  }

  lemma FiberFollows(m: Module, env: Environment, kind: FiberKind, sig: Signature, b: Build, start: State, st: State)
    requires Follows(m, env, b, start, st) && Honest(m, env, st.frame)
    requires FiberArguments(kind, sig) <= |b.vstack| && Means(m, env, Op.Fiber(kind, sig), st).Ok?
    ensures Follows(m, env,
                    PushValues(Append(Discard(b, FiberArguments(kind, sig)), [Inst.Fiber(kind, sig)]),
                               Unknowns(sig.outputs)),
                    start, Means(m, env, Op.Fiber(kind, sig), st).state)
  {
    var n := FiberArguments(kind, sig);
    assert Delivers(m, st.frame, st.memory, sig.outputs, env.fiber(kind, sig, st.stack[..n], st.memory));
    UnknownFollows(m, env, b, Inst.Fiber(kind, sig), n, sig.outputs, start, st,
                   Means(m, env, Op.Fiber(kind, sig), st).state);
  }

  lemma PanicIfFollows(m: Module, env: Environment, b: Build, start: State, st: State)
    requires Follows(m, env, b, start, st) && |b.vstack| >= 2
    requires Means(m, env, Op.PanicIf, st).Ok?
    ensures Follows(m, env, Append(Discard(b, 2), [Inst.PanicIf]), start, Means(m, env, Op.PanicIf, st).state)
  {
    UnknownFollows(m, env, b, Inst.PanicIf, 2, 0, start, st, Means(m, env, Op.PanicIf, st).state);
    assert Unknowns(0) + b.vstack[2..] == b.vstack[2..];
  }

  lemma BuiltinEffect(m: Module, env: Environment, builtin: Builtin, st: State)
    requires SlotsOk(m, st.frame, st.memory) && Honest(m, env, st.frame)
    requires ValidBuiltin(builtin) && CallBuiltinImpl(env, builtin, st).Ok?
    ensures var st' := CallBuiltinImpl(env, builtin, st).state;
            && builtin.sig.inputs <= |st.stack|
            && |st'.stack| == |st.stack| - builtin.sig.inputs + builtin.sig.outputs
            && st'.stack[builtin.sig.outputs..] == st.stack[builtin.sig.inputs..]
            && st'.frame == st.frame && SlotsOk(m, st'.frame, st'.memory)
  {
    var st' := CallBuiltinImpl(env, builtin, st).state;
    if builtin.impl.Other? {
      var n := builtin.sig.inputs;
      assert Delivers(m, st.frame, st.memory, builtin.sig.outputs, env.builtin(builtin, st.stack[..n], st.memory));
    } else {
      SameSlots(m, st, st');
    }
  }

  /** The two instructions of a builtin call. */
  lemma AppendBuiltinFollows(m: Module, env: Environment, builtin: Builtin, b: Build, start: State, st: State)
    requires Follows(m, env, b, start, st) && Honest(m, env, st.frame)
    requires ValidBuiltin(builtin) && builtin.sig.inputs <= |b.vstack|
    requires CallBuiltinImpl(env, builtin, st).Ok?
    ensures Follows(m, env, AppendBuiltin(Discard(b, builtin.sig.inputs), builtin), start,
                    CallBuiltinImpl(env, builtin, st).state)
  {
    var i := Inst.CallBuiltin(builtin, !(builtin.noProcess && builtin.noPanic));
    var signature := Inst.CallBuiltinSig(builtin.sig);
    BuiltinEffect(m, env, builtin, st);
    var st' := CallBuiltinImpl(env, builtin, st).state;
    UnknownFollows(m, env, b, i, builtin.sig.inputs, builtin.sig.outputs, start, st, st');
    AppendRuns(m, env, b.insts + [i], signature, start, st');
    assert b.insts + [i] + [signature] == b.insts + [i, signature];
  }

  lemma FoldedBuiltinFollows(m: Module, env: Environment, builtin: Builtin, b: Build, start: State, st: State)
    requires Follows(m, env, b, start, st) && Honest(m, env, st.frame)
    requires ValidBuiltin(builtin) && builtin.noProcess && builtin.constantFold
    requires builtin.sig.inputs <= |b.vstack| && AllConstant(b.vstack[..builtin.sig.inputs])
    requires m.fold(builtin, ConstantsOf(b.vstack[..builtin.sig.inputs])).Some?
    requires FoldsAlike(m, builtin, b.vstack[..builtin.sig.inputs])
    ensures CallBuiltinImpl(env, builtin, st).Ok?
    ensures Follows(m, env,
                    PushUints(PopTopN(Discard(b, builtin.sig.inputs), builtin.sig.inputs),
                              m.fold(builtin, ConstantsOf(b.vstack[..builtin.sig.inputs])).value),
                    start, CallBuiltinImpl(env, builtin, st).state)
  {
    var n := builtin.sig.inputs;
    var inputs := st.stack[..n];
    forall k | 0 <= k < n ensures MayHold(b.vstack[..n][k], inputs[k]) {
      assert Describes(m, st.frame, b.vstack[k], st.stack[k]);
    }
    assert AllMayHold(b.vstack[..n], inputs);
    var outputs := m.fold(builtin, ConstantsOf(b.vstack[..n])).value;
    assert env.builtin(builtin, inputs, st.memory) == Some((outputs, st.memory));
    PopFollows(m, env, b, n, start, st);
    var st1 := st.(stack := st.stack[n..]);
    UintsFollow(m, env, PopTopN(Discard(b, n), n), outputs, start, st1);
    assert Pushed(st1, outputs) == CallBuiltinImpl(env, builtin, st).state;
  }

  lemma BuiltinFollows(m: Module, env: Environment, builtin: Builtin, b: Build, start: State, st: State)
    requires Follows(m, env, b, start, st) && Honest(m, env, st.frame) && !b.terminated && !b.errored
    requires !EmitBuiltin(m, builtin, b).errored && CallBuiltinImpl(env, builtin, st).Ok?
    requires builtin.sig.inputs <= |b.vstack| ==> FoldsAlike(m, builtin, b.vstack[..builtin.sig.inputs])
    ensures Follows(m, env, EmitBuiltin(m, builtin, b), start, CallBuiltinImpl(env, builtin, st).state)
    ensures !EmitBuiltin(m, builtin, b).terminated
  {
    var n := builtin.sig.inputs;
    var arguments := st.stack[..n];
    assert builtin.alwaysPanic ==> env.builtin(builtin, arguments, st.memory) == None;
    if AllConstant(b.vstack[..n]) && builtin.noProcess && builtin.constantFold
       && m.fold(builtin, ConstantsOf(b.vstack[..n])).Some? {
      FoldedBuiltinFollows(m, env, builtin, b, start, st);
    } else {
      AppendBuiltinFollows(m, env, builtin, b, start, st);
    }
  }

  // ----- loads and stores -----

  /** An access at offset 0 of a slot is to where the slot's memory starts. */
  lemma DereferenceAtStart(table: seq<Allocation>, address: Word, writing: bool)
    requires AddressOffset(address) == 0 && AddressAllocation(address) < |table|
    ensures var ptr := Dereference(table, address, VALUE_LAYOUT, writing);
            ptr.Some? ==> ptr.value == table[AddressAllocation(address)].ptr
  {
    assert Wrap(table[AddressAllocation(address)].ptr + 0) == table[AddressAllocation(address)].ptr;
  }

  lemma LocalAddressParts(frame: Frame, index: nat)
    requires frame.firstLocal + index < TWO_30
    ensures AddressAllocation(Vm.LocalAddress(frame, index)) == frame.firstLocal + index
    ensures AddressOffset(Vm.LocalAddress(frame, index)) == 0
  {
    AddressRoundTrip(frame.firstLocal + index, frame.localGeneration, 0);
  }

  /** A checked access through a local's address is to the local's place in the frame. */
  lemma LocalPointer(m: Module, st: State, l: nat, writing: bool)
    requires l < |m.locals| && m.locals[l].layout.alignment <= POINTER_ALIGNMENT
    requires LocalSlotOk(m, st.frame, st.memory, l)
    ensures var ptr := Dereference(st.memory.allocations, Vm.LocalAddress(st.frame, m.locals[l].index), VALUE_LAYOUT,
                                   writing);
            ptr.Some? ==> ptr.value == Wrap(st.frame.base + m.locals[l].offset)
  {
    LocalAddressParts(st.frame, m.locals[l].index);
    DereferenceAtStart(st.memory.allocations, Vm.LocalAddress(st.frame, m.locals[l].index), writing);
  }

  /** A checked access through an exact constant address is to the start of the global. */
  lemma GlobalPointer(m: Module, st: State, v: Value, w: Word, store: bool)
    requires FoldAccess(m, v, ValueType, store).ToGlobal? && ExactGlobal(m, v, ValueType, store) && MayHold(v, w)
    requires GlobalSlotOk(m, st.memory, FoldAccess(m, v, ValueType, store).global)
    ensures var ptr := Dereference(st.memory.allocations, w, VALUE_LAYOUT, store);
            ptr.Some? ==> ptr.value == st.memory.allocations[AddressAllocation(v.w)].ptr
  {
    if v.faith.AllOnes? {
      NullNamesNothing();
    } else {
      SameParts(v.w, w);
      var a := st.memory.allocations[AddressAllocation(w)];
      assert AddressOffset(w) == 0 ==> Wrap(a.ptr + 0) == a.ptr;
      if AddressOffset(w) % 8 != 0 {
        assert (a.ptr + AddressOffset(w)) % 8 != 0;
        WrapKeepsMod8(a.ptr + AddressOffset(w));
      }
    }
  }

  lemma WrapKeepsMod8(n: int)
    ensures Wrap(n) % 8 == n % 8
  {
    var q := n / 0x1_0000_0000_0000_0000;
    assert n == q * 0x1_0000_0000_0000_0000 + Wrap(n);
    assert n - Wrap(n) == 8 * (q * 0x2000_0000_0000_0000);
  }

  lemma LoadFolded(m: Module, env: Environment, ptr: Word, i: Inst, b: Build, start: State, st: State)
    requires Follows(m, env, b, start, st) && b.vstack != []
    requires Dereference(st.memory.allocations, st.stack[0], VALUE_LAYOUT, false) == Some(ptr)
    requires var st1 := st.(stack := st.stack[1..]);
             Execute(m, env, i, st1) == Ok(Pushed(st1, [Load(st.memory, ptr)]))
    ensures Loaded(env, ValueType, 0, st) == Ok(Replace(st, 1, [Load(st.memory, ptr)]))
    ensures Follows(m, env, PushValues(Append(PopTopN(Discard(b, 1), 1), [i]), [Unknown]), start,
                    Replace(st, 1, [Load(st.memory, ptr)]))
  {
    PopFollows(m, env, b, 1, start, st);
    var st1 := st.(stack := st.stack[1..]);
    PushOneFollows(m, env, PopTopN(Discard(b, 1), 1), i, Unknown, Load(st.memory, ptr), start, st1);
    assert Pushed(st1, [Load(st.memory, ptr)]) == Replace(st, 1, [Load(st.memory, ptr)]);
    var at := Replace(st, 1, [ptr]);
    assert at.stack[1..] == st.stack[1..];
    assert Replace(at, 1, [Load(st.memory, ptr)]) == Replace(st, 1, [Load(st.memory, ptr)]);
  }

  /** What a described local's address points to, if the access is allowed. */
  lemma LocalDereference(m: Module, env: Environment, l: nat, b: Build, start: State, st: State, writing: bool)
    requires Follows(m, env, b, start, st) && b.vstack != [] && b.vstack[0] == Value.LocalAddress(l)
    requires FoldAccess(m, b.vstack[0], ValueType, writing) == ToLocal(l)
    ensures var ptr := Dereference(st.memory.allocations, st.stack[0], VALUE_LAYOUT, writing);
            ptr.Some? ==> ptr.value == Wrap(st.frame.base + m.locals[l].offset)
  {
    assert Describes(m, st.frame, b.vstack[0], st.stack[0]);
    assert LocalSlotOk(m, st.frame, st.memory, l);
    LocalPointer(m, st, l, writing);
  }

  lemma LoadedIsAllowed(env: Environment, st: State)
    requires st.stack != [] && Loaded(env, ValueType, 0, st).Ok?
    ensures Dereference(st.memory.allocations, st.stack[0], VALUE_LAYOUT, false).Some?
  {
  }

  lemma StoredIsAllowed(env: Environment, st: State)
    requires st.stack != [] && Stored(env, ValueType, 0, st).Ok?
    ensures Dereference(st.memory.allocations, st.stack[0], VALUE_LAYOUT, true).Some?
  {
  }

  lemma LocalLoadFollows(m: Module, env: Environment, l: nat, b: Build, start: State, st: State)
    requires Follows(m, env, b, start, st) && b.vstack != [] && b.vstack[0] == Value.LocalAddress(l)
    requires FoldAccess(m, b.vstack[0], ValueType, false) == ToLocal(l) && m.locals[l].index < 0x100
    requires Loaded(env, ValueType, 0, st).Ok?
    ensures Follows(m, env, PushValues(Append(PopTopN(Discard(b, 1), 1),
                                              [Inst.LoadLocalValue(m.locals[l].index, m.locals[l].offset)]), [Unknown]),
                    start, Loaded(env, ValueType, 0, st).state)
  {
    LocalDereference(m, env, l, b, start, st, false);
    LoadedIsAllowed(env, st);
    LoadFolded(m, env, Wrap(st.frame.base + m.locals[l].offset),
               Inst.LoadLocalValue(m.locals[l].index, m.locals[l].offset), b, start, st);
  }

  lemma GlobalLoadFollows(m: Module, env: Environment, g: nat, b: Build, start: State, st: State)
    requires Follows(m, env, b, start, st) && b.vstack != [] && ExactGlobal(m, b.vstack[0], ValueType, false)
    requires FoldAccess(m, b.vstack[0], ValueType, false) == ToGlobal(g) && g < TWO_24
    requires Loaded(env, ValueType, 0, st).Ok?
    ensures Follows(m, env, PushValues(Append(PopTopN(Discard(b, 1), 1), [Inst.LoadGlobalValue(g)]), [Unknown]), start,
                    Loaded(env, ValueType, 0, st).state)
  {
    assert Describes(m, st.frame, b.vstack[0], st.stack[0]);
    assert GlobalSlotOk(m, st.memory, g);
    GlobalPointer(m, st, b.vstack[0], st.stack[0], false);
    LoadFolded(m, env, st.memory.allocations[g].ptr, Inst.LoadGlobalValue(g), b, start, st);
  }

  /** The call of a type's load or store function on a checked pointer. */
  lemma AccessFollows(m: Module, env: Environment, layout: Layout, writing: bool, field: Word, builtin: Builtin,
                      b: Build, start: State, st: State, at: State)
    requires Follows(m, env, b, start, st) && Honest(m, env, st.frame) && b.vstack != []
    requires Deref(st, layout, writing) == Ok(at) && !b.terminated && !b.errored
    requires CallBuiltinImpl(env, builtin, Pushed(at, [field])).Ok? && !builtin.constantFold
    requires var deref := if writing then Inst.DerefMut(layout) else Inst.DerefConst(layout);
             !EmitAccess(m, Discard(b, 1), deref, field, builtin).errored
    ensures var deref := if writing then Inst.DerefMut(layout) else Inst.DerefConst(layout);
            Follows(m, env, EmitAccess(m, Discard(b, 1), deref, field, builtin), start,
                    CallBuiltinImpl(env, builtin, Pushed(at, [field])).state)
            && !EmitAccess(m, Discard(b, 1), deref, field, builtin).terminated
  {
    var deref := if writing then Inst.DerefMut(layout) else Inst.DerefConst(layout);
    assert Execute(m, env, deref, st) == Ok(at);
    UnknownFollows(m, env, b, deref, 1, 1, start, st, at);
    assert Unknowns(1) == [Unknown];
    var b1 := PushValues(Append(Discard(b, 1), [deref]), [Unknown]);
    UintFollows(m, env, b1, field, start, at);
    BuiltinFollows(m, env, builtin, PushUint(b1, field), start, Pushed(at, [field]));
  }

  lemma LoadFollows(m: Module, env: Environment, ty: Type, field: nat, b: Build, start: State, st: State)
    requires Follows(m, env, b, start, st) && Honest(m, env, st.frame) && !b.terminated && !b.errored
    requires !EmitLoad(m, ty, field, b).errored && ExactGlobal(m, b.vstack[0], ty, false)
    requires Means(m, env, Op.LoadField(ty, field), st).Ok?
    ensures Follows(m, env, EmitLoad(m, ty, field, b), start, Means(m, env, Op.LoadField(ty, field), st).state)
    ensures !EmitLoad(m, ty, field, b).terminated
  {
    assert Describes(m, st.frame, b.vstack[0], st.stack[0]);
    match FoldAccess(m, b.vstack[0], ty, false)
    case ToLocal(l) =>
      LocalLoadFollows(m, env, l, b, start, st);
    case ToGlobal(g) =>
      GlobalLoadFollows(m, env, g, b, start, st);
    case Dynamic =>
      if ty.OpaqueType? && IsEmptyType(ty, ty.load) {
        PopFollows(m, env, b, 1, start, st);
        UintFollows(m, env, PopTopN(Discard(b, 1), 1), 0, start, st.(stack := st.stack[1..]));
      } else {
        DynamicLoadFollows(m, env, ty, field, b, start, st);
      }
  }

  lemma DynamicLoadFollows(m: Module, env: Environment, ty: Type, field: nat, b: Build, start: State, st: State)
    requires Follows(m, env, b, start, st) && Honest(m, env, st.frame) && !b.terminated && !b.errored
    requires b.vstack != [] && field < TWO_64 && (ty.OpaqueType? ==> ty.load.Some?)
    requires Loaded(env, ty, field, st).Ok?
    requires var builtin := FieldBuiltin(if ty == ValueType then LoadValue else Other(ty.load.value), 2, 1);
             !EmitAccess(m, Discard(b, 1), Inst.DerefConst(TypeLayout(ty)), field, builtin).errored
    ensures var builtin := FieldBuiltin(if ty == ValueType then LoadValue else Other(ty.load.value), 2, 1);
            Follows(m, env, EmitAccess(m, Discard(b, 1), Inst.DerefConst(TypeLayout(ty)), field, builtin), start,
                    Loaded(env, ty, field, st).state)
            && !EmitAccess(m, Discard(b, 1), Inst.DerefConst(TypeLayout(ty)), field, builtin).terminated
  {
    var builtin := FieldBuiltin(if ty == ValueType then LoadValue else Other(ty.load.value), 2, 1);
    var at := Deref(st, TypeLayout(ty), false).state;
    var called := Pushed(at, [field]);
    assert called.stack[..2] == [field, at.stack[0]];
    assert called.stack[2..] == at.stack[1..];
    AccessFollows(m, env, TypeLayout(ty), false, field, builtin, b, start, st, at);
  }

  lemma StoreFolded(m: Module, env: Environment, ptr: Word, i: Inst, b: Build, start: State, st: State)
    requires Follows(m, env, b, start, st) && |b.vstack| >= 2
    requires Dereference(st.memory.allocations, st.stack[0], VALUE_LAYOUT, true) == Some(ptr)
    requires var st1 := st.(stack := st.stack[1..]);
             Execute(m, env, i, st1) == Ok(Replace(st1, 1, []).(memory := Store(st.memory, ptr, st.stack[1])))
    ensures Stored(env, ValueType, 0, st) == Ok(Replace(st, 2, []).(memory := Store(st.memory, ptr, st.stack[1])))
    ensures Follows(m, env, Discard(Append(PopTopN(Discard(b, 1), 1), [i]), 1), start,
                    Replace(st, 2, []).(memory := Store(st.memory, ptr, st.stack[1])))
  {
    hide Run, PopTopN, TryGet, Execute;
    PopFollows(m, env, b, 1, start, st);
    var st1 := st.(stack := st.stack[1..]);
    var st' := Replace(st, 2, []).(memory := Store(st.memory, ptr, st.stack[1]));
    assert Replace(st1, 1, []).stack == st'.stack;
    SameSlots(m, st, st');
    var popped := PopTopN(Discard(b, 1), 1);
    UnknownFollows(m, env, popped, i, 1, 0, start, st1, st');
    assert Unknowns(0) + popped.vstack[1..] == popped.vstack[1..];
    var at := Replace(st, 1, [ptr]);
    assert at.stack[1] == st.stack[1] && at.stack[2..] == st.stack[2..];
    assert Replace(at, 2, []) == Replace(st, 2, []);
  }

  lemma LocalStoreFollows(m: Module, env: Environment, l: nat, b: Build, start: State, st: State)
    requires Follows(m, env, b, start, st) && |b.vstack| >= 2 && b.vstack[0] == Value.LocalAddress(l)
    requires FoldAccess(m, b.vstack[0], ValueType, true) == ToLocal(l) && m.locals[l].index < 0x100
    requires Stored(env, ValueType, 0, st).Ok?
    ensures Follows(m, env, Discard(Append(PopTopN(Discard(b, 1), 1),
                                           [Inst.StoreLocalValue(m.locals[l].index, m.locals[l].offset)]), 1),
                    start, Stored(env, ValueType, 0, st).state)
  {
    LocalDereference(m, env, l, b, start, st, true);
    StoredIsAllowed(env, st);
    StoreFolded(m, env, Wrap(st.frame.base + m.locals[l].offset),
                Inst.StoreLocalValue(m.locals[l].index, m.locals[l].offset), b, start, st);
  }

  lemma GlobalStoreFollows(m: Module, env: Environment, g: nat, b: Build, start: State, st: State)
    requires Follows(m, env, b, start, st) && |b.vstack| >= 2 && ExactGlobal(m, b.vstack[0], ValueType, true)
    requires FoldAccess(m, b.vstack[0], ValueType, true) == ToGlobal(g) && g < TWO_24
    requires Stored(env, ValueType, 0, st).Ok?
    ensures Follows(m, env, Discard(Append(PopTopN(Discard(b, 1), 1), [Inst.StoreGlobalValue(g)]), 1), start,
                    Stored(env, ValueType, 0, st).state)
  {
    assert Describes(m, st.frame, b.vstack[0], st.stack[0]);
    assert GlobalSlotOk(m, st.memory, g);
    GlobalPointer(m, st, b.vstack[0], st.stack[0], true);
    StoreFolded(m, env, st.memory.allocations[g].ptr, Inst.StoreGlobalValue(g), b, start, st);
  }

  lemma DynamicStoreFollows(m: Module, env: Environment, ty: Type, field: nat, b: Build, start: State, st: State)
    requires Follows(m, env, b, start, st) && Honest(m, env, st.frame) && !b.terminated && !b.errored
    requires b.vstack != [] && field < TWO_64 && (ty.OpaqueType? ==> ty.store.Some?)
    requires Stored(env, ty, field, st).Ok?
    requires var builtin := FieldBuiltin(if ty == ValueType then StoreValue else Other(ty.store.value), 3, 0);
             !EmitAccess(m, Discard(b, 1), Inst.DerefMut(TypeLayout(ty)), field, builtin).errored
    ensures var builtin := FieldBuiltin(if ty == ValueType then StoreValue else Other(ty.store.value), 3, 0);
            Follows(m, env, EmitAccess(m, Discard(b, 1), Inst.DerefMut(TypeLayout(ty)), field, builtin), start,
                    Stored(env, ty, field, st).state)
            && !EmitAccess(m, Discard(b, 1), Inst.DerefMut(TypeLayout(ty)), field, builtin).terminated
  {
    var builtin := FieldBuiltin(if ty == ValueType then StoreValue else Other(ty.store.value), 3, 0);
    var at := Deref(st, TypeLayout(ty), true).state;
    var called := Pushed(at, [field]);
    assert called.stack[..3] == [field, at.stack[0], at.stack[1]];
    assert called.stack[3..] == at.stack[2..];
    AccessFollows(m, env, TypeLayout(ty), true, field, builtin, b, start, st, at);
  }

  lemma StoreFollows(m: Module, env: Environment, ty: Type, field: nat, b: Build, start: State, st: State)
    requires Follows(m, env, b, start, st) && Honest(m, env, st.frame) && !b.terminated && !b.errored
    requires !EmitStore(m, ty, field, b).errored && ExactGlobal(m, b.vstack[0], ty, true)
    requires Means(m, env, Op.StoreField(ty, field), st).Ok?
    ensures Follows(m, env, EmitStore(m, ty, field, b), start, Means(m, env, Op.StoreField(ty, field), st).state)
    ensures !EmitStore(m, ty, field, b).terminated
  {
    assert Describes(m, st.frame, b.vstack[0], st.stack[0]);
    match FoldAccess(m, b.vstack[0], ty, true)
    case ToLocal(l) =>
      LocalStoreFollows(m, env, l, b, start, st);
    case ToGlobal(g) =>
      GlobalStoreFollows(m, env, g, b, start, st);
    case Dynamic =>
      if ty.OpaqueType? && IsEmptyType(ty, ty.store) {
        PopFollows(m, env, b, 2, start, st);
        assert Replace(st, 2, []) == st.(stack := st.stack[2..]);
      } else {
        DynamicStoreFollows(m, env, ty, field, b, start, st);
      }
  }

  // ----- whole blocks -----

  predicate IsCallOrAccess(op: Op) {
    op.LoadField? || op.StoreField? || op.Call? || op.CallIndirect? || op.CallBuiltin? || op.PanicIf? || op.Fiber?
  }

  lemma CallOrAccessFollows(m: Module, env: Environment, op: Op, b: Build, start: State, st: State)
    requires IsCallOrAccess(op) && Follows(m, env, b, start, st) && Honest(m, env, start.frame)
    requires !b.terminated && !b.errored && !Emit(m, op, b).errored && Guarded(m, op, b)
    requires Means(m, env, op, st).Ok?
    ensures Follows(m, env, Emit(m, op, b), start, Means(m, env, op, st).state)
    ensures !Emit(m, op, b).terminated
  {
    match op
    case LoadField(ty, field) => LoadFollows(m, env, ty, field, b, start, st);
    case StoreField(ty, field) => StoreFollows(m, env, ty, field, b, start, st);
    case Call(f) => CallFollows(m, env, f, b, start, st);
    case CallIndirect(sig) =>
      if ConstantFunction(m, b.vstack[0], sig).Some? {
        FoldedIndirectFollows(m, env, sig, b, start, st);
      } else {
        DynamicIndirectFollows(m, env, sig, b, start, st);
      }
    case CallBuiltin(builtin) => BuiltinFollows(m, env, builtin, b, start, st);
    case PanicIf => PanicIfFollows(m, env, b, start, st);
    case Fiber(kind, sig) => FiberFollows(m, env, kind, sig, b, start, st);
  }

  /** One builder call: if it means something on the state reached so far, the instructions of the
      block now reach that state, and the abstract stack still describes it. */
  lemma EmitFollows(m: Module, env: Environment, op: Op, b: Build, start: State, st: State)
    requires Follows(m, env, b, start, st) && Honest(m, env, start.frame)
    requires !b.terminated && !b.errored && !Emit(m, op, b).errored && Guarded(m, op, b)
    requires Means(m, env, op, st).Ok?
    ensures Follows(m, env, Emit(m, op, b), start, Means(m, env, op, st).state)
    ensures !Emit(m, op, b).terminated
  {
    hide Follows, Honest, PopTopN, Immediate, Dereference, Holds, Signed;
    match op
    case Uint(value) => UintFollows(m, env, b, value, start, st);
    case Null => NullFollows(m, env, b, start, st);
    case GlobalAddr(g) => GlobalAddrFollows(m, env, g, b, start, st);
    case LocalAddr(l) => LocalAddrFollows(m, env, l, b, start, st);
    case FunctionAddr(f, high) => FunctionAddrFollows(m, env, f, high, b, start, st);
    case Cc(cc) => CcFollows(m, env, cc, b, start, st);
    case Pop(idx) => PopOpFollows(m, env, idx, b, start, st);
    case Pick(idx) => PickFollows(m, env, idx, b, start, st);
    case Roll(idx) => RollFollows(m, env, idx, b, start, st);
    case Select(count) => SelectFollows(m, env, count, b, start, st);
    case ArrayElement(element) => ElementFollows(m, env, element, b, start, st);
    case AggregateMember(members, member) => MemberFollows(m, env, members, member, b, start, st);
    case _ => CallOrAccessFollows(m, env, op, b, start, st);
  }

  /** Every call of the list is guarded at the point it is made. */
  ghost predicate GuardedAll(m: Module, ops: seq<Op>, b: Build) {
    ops == []
    || (GuardedAll(m, ops[..|ops| - 1], b) && Guarded(m, ops[|ops| - 1], EmitAll(m, ops[..|ops| - 1], b)))
  }

  lemma ErrorsStay(m: Module, op: Op, b: Build)
    requires b.errored || b.terminated
    ensures Emit(m, op, b) == b
  {
  }

  /** A whole block: if the builder calls mean a state, the emitted instructions reach exactly
      that state, and what the builder knows of the stack is true of it. */
  lemma {:induction false} BlockRefines(m: Module, env: Environment, ops: seq<Op>, b: Build, start: State)
    requires Follows(m, env, b, start, start) && b.insts == [] && Honest(m, env, start.frame)
    requires !b.errored && !b.terminated && !EmitAll(m, ops, b).errored && GuardedAll(m, ops, b)
    requires MeansAll(m, env, ops, start).Ok?
    ensures Follows(m, env, EmitAll(m, ops, b), start, MeansAll(m, env, ops, start).state)
    ensures !EmitAll(m, ops, b).terminated
  {
    if ops != [] {
      var init, op := ops[..|ops| - 1], ops[|ops| - 1];
      var before := EmitAll(m, init, b);
      if before.errored {
        ErrorsStay(m, op, before);
      }
      BlockRefines(m, env, init, b, start);
      EmitFollows(m, env, op, before, start, MeansAll(m, env, init, start).state);
    }
  }
}
