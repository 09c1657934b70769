// Where the builder's folding departs from what its calls mean, and exactly when it does not.

module Exactness {
  import opened Words
  import opened Allocations
  import opened Bytecode
  import opened Layouts
  import opened Vm
  import opened Builder
  import opened Meaning
  import opened Immediates
  import opened Refinement

  // ----- what is tracked -----

  /** `null` is tracked as the constant 0 but pushes all ones. */
  lemma NullIsMistracked(m: Module, env: Environment, b: Build, start: State, st: State)
    requires Follows(m, env, b, start, st) && !b.terminated && !b.errored
    ensures Means(m, env, Op.Null, st).Ok?
    ensures Run(m, env, Emit(m, Op.Null, b).insts, start) == Means(m, env, Op.Null, st)
    ensures var v, w := Emit(m, Op.Null, b).vstack[0], Means(m, env, Op.Null, st).state.stack[0];
            v.Constant? && v.w == 0 && w == ALL_ONES
  {
    AppendRuns(m, env, b.insts, Inst.PushN(0), start, st);
  }

  /** The address of a function is tracked with the right lower half; its upper half is that of an
      uninitialised value, and the machine's is that of the cell it writes to. */
  lemma FunctionAddrTracked(m: Module, env: Environment, f: nat, high: U32, b: Build, start: State, st: State)
    requires Follows(m, env, b, start, st) && !b.terminated && !b.errored && f < |m.functions|
    ensures Means(m, env, Op.FunctionAddr(f, high), st).Ok?
    ensures Run(m, env, Emit(m, Op.FunctionAddr(f, high), b).insts, start)
            == Means(m, env, Op.FunctionAddr(f, high), st)
    ensures var v := Emit(m, Op.FunctionAddr(f, high), b).vstack[0];
            var w := Means(m, env, Op.FunctionAddr(f, high), st).state.stack[0];
            && v.Constant? && LowHalf(v.w) == LowHalf(w) == AddressOfFunction(m, f)
            && (v.w == w <==> high == env.stale(st))
  {
    PartsOfLow(AddressOfFunction(m, f), high);
    PartsOfLow(AddressOfFunction(m, f), env.stale(st));
    AppendRuns(m, env, b.insts, Inst.FunctionAddr(f), start, st);
  }

  /** Constants as the builder tracks them: `null` is the only one that is all ones instead. */
  predicate IsTracked(v: Value) {
    v.Constant? && (v.faith.AllOnes? ==> v.w == 0)
  }

  // ----- comparisons and branches -----

  /** Folding a comparison is right whatever the machine may hold if and only if `ExactCc`. */
  lemma CcExact(cc: Condition, v: Value)
    requires IsTracked(v)
    ensures ExactCc(cc, v) <==> forall w: Word :: MayHold(v, w) ==> Holds(cc, Signed(w)) == Holds(cc, Signed(v.w))
  {
    if v.faith.Lower? {
      var low := LowHalf(v.w);
      PartsOfLow(low, 0);
      PartsOfLow(low, 1);
      PartsOfLow(low, 0x8000_0000);
      assert MayHold(v, WithHigh(low, 0)) && MayHold(v, WithHigh(low, 1)) && MayHold(v, WithHigh(low, 0x8000_0000));
      assert Signed(WithHigh(low, 0)) == low && Signed(WithHigh(low, 1)) > 0 > Signed(WithHigh(low, 0x8000_0000));
      if ExactCc(cc, v) {
        forall w: Word | MayHold(v, w) ensures Holds(cc, Signed(w)) == Holds(cc, Signed(v.w)) {
          ExactCcHolds(cc, v, w);
        }
      }
    } else if v.faith.AllOnes? {
      assert MayHold(v, ALL_ONES);
    }
  }

  lemma LowOfZero()
    ensures LowHalf(0) == 0 && LowHalf(0x1_0000_0000) == 0
  {
  }

  /** Folding a branch is right whatever the machine may hold if and only if `ExactBranch`. */
  lemma BranchExact(v: Value)
    requires IsTracked(v)
    ensures ExactBranch(v) <==> forall w: Word :: MayHold(v, w) ==> (w != 0) == (v.w != 0)
  {
    if v.faith.Lower? {
      if LowHalf(v.w) == 0 {
        LowOfZero();
        assert MayHold(v, 0) && MayHold(v, 0x1_0000_0000);
      } else {
        forall w: Word | MayHold(v, w) ensures w != 0 && v.w != 0 {
          LowOfZero();
        }
      }
    } else if v.faith.AllOnes? {
      assert MayHold(v, ALL_ONES);
    }
  }

  lemma AllOfTwo(m: Module, env: Environment, first: Op, second: Op, b: Build, st: State)
    ensures EmitAll(m, [first, second], b) == Emit(m, second, Emit(m, first, b))
    ensures MeansAll(m, env, [first, second], st)
         == match Means(m, env, first, st) case Ok(st') => Means(m, env, second, st') case o => o
  {
    assert [first, second][..1] == [first] && [first][..0] == [];
    assert EmitAll(m, [first], b) == Emit(m, first, EmitAll(m, [], b));
    assert MeansAll(m, env, [], st) == Ok(st);
    assert MeansAll(m, env, [first], st) == Means(m, env, first, st);
  }

  /** A comparison with what was just pushed leaves a single push of the folded result. */
  lemma ComparedPush(m: Module, cc: Condition, i: Inst, v: Value)
    requires RemovalOf(i) == Pushes && v.Constant?
    ensures var b := Emit(m, Op.Cc(cc), PushValues(Append(Fresh(0, 0), [i]), [v]));
            b.insts == [Inst.Push(Truth(Holds(cc, Signed(v.w))))] && !b.errored
  {
    hide Signed, Holds, Truth;
    var b := PushValues(Append(Fresh(0, 0), [i]), [v]);
    assert b.insts == [i] && b.vstack[0] == v;
    var popped := Discard(b, 1);
    assert PopTopN(popped, 1) == PopTopN(DeleteLast(popped), LeftToPop(RemovalOf(popped.insts[0]), 1));
    assert DeleteLast(popped).insts == [];
  }

  lemma ComparedMeans(m: Module, env: Environment, w: Word, cc: Condition, start: State)
    ensures Means(m, env, Op.Cc(cc), Pushed(start, [w])) == Ok(Pushed(start, [Truth(Holds(cc, Signed(w)))]))
  {
    hide Signed, Holds, Truth;
    var meant := Truth(Holds(cc, Signed(w)));
    assert Pushed(start, [w]).stack[1..] == start.stack;
    assert Replace(Pushed(start, [w]), 1, [meant]) == Pushed(start, [meant]);
  }

  /** A value is pushed and compared with zero. */
  lemma PushedAndCompared(m: Module, env: Environment, op: Op, i: Inst, v: Value, w: Word, cc: Condition, start: State)
    requires Means(m, env, op, start) == Ok(Pushed(start, [w])) && RemovalOf(i) == Pushes && v.Constant?
    requires Emit(m, op, Fresh(0, 0)) == PushValues(Append(Fresh(0, 0), [i]), [v])
    ensures MeansAll(m, env, [op, Op.Cc(cc)], start) == Ok(Pushed(start, [Truth(Holds(cc, Signed(w)))]))
    ensures !EmitAll(m, [op, Op.Cc(cc)], Fresh(0, 0)).errored
    ensures Run(m, env, EmitAll(m, [op, Op.Cc(cc)], Fresh(0, 0)).insts, start)
         == Ok(Pushed(start, [Truth(Holds(cc, Signed(v.w)))]))
  {
    hide EmitAll, MeansAll, Emit, Means, Run, PopTopN;
    AllOfTwo(m, env, op, Op.Cc(cc), Fresh(0, 0), start);
    ComparedMeans(m, env, w, cc, start);
    ComparedPush(m, cc, i, v);
    RunOne(m, env, Inst.Push(Truth(Holds(cc, Signed(v.w)))), start);
  }

  /** `null` compared with zero is compiled to its meaning if and only if the condition is `le` or `gt`. */
  lemma NullComparesExactly(m: Module, env: Environment, cc: Condition, start: State)
    ensures MeansAll(m, env, [Op.Null, Op.Cc(cc)], start) == Ok(Pushed(start, [Truth(Holds(cc, -1))]))
    ensures !EmitAll(m, [Op.Null, Op.Cc(cc)], Fresh(0, 0)).errored
    ensures var code := EmitAll(m, [Op.Null, Op.Cc(cc)], Fresh(0, 0)).insts;
            (Run(m, env, code, start) == MeansAll(m, env, [Op.Null, Op.Cc(cc)], start)) <==> (cc == Le || cc == Gt)
  {
    PushedAndCompared(m, env, Op.Null, Inst.PushN(0), Constant(0, AllOnes), ALL_ONES, cc, start);
    SamePush(start, Truth(Holds(cc, 0)), Truth(Holds(cc, -1)));
  }

  lemma SamePush(start: State, v: Word, w: Word)
    ensures Pushed(start, [v]) == Pushed(start, [w]) <==> v == w
  {
    assert Pushed(start, [v]).stack[0] == v && Pushed(start, [w]).stack[0] == w;
  }

  /** The address of a function, less than zero: after a cell with a high bit has been used and popped,
      it is, but the comparison is folded to 0. */
  lemma FunctionAddrMiscompiles(m: Module, env: Environment, f: nat, start: State)
    requires f < |m.functions| && env.stale(start) >= 0x8000_0000
    ensures MeansAll(m, env, [Op.FunctionAddr(f, 0), Op.Cc(Lt)], start) == Ok(Pushed(start, [1]))
    ensures !EmitAll(m, [Op.FunctionAddr(f, 0), Op.Cc(Lt)], Fresh(0, 0)).errored
    ensures Run(m, env, EmitAll(m, [Op.FunctionAddr(f, 0), Op.Cc(Lt)], Fresh(0, 0)).insts, start)
            == Ok(Pushed(start, [0]))
  {
    var v, w := Constant(WithHigh(AddressOfFunction(m, f), 0), Lower), FunctionAddress(m, env, f, start);
    PushedAndCompared(m, env, Op.FunctionAddr(f, 0), Inst.FunctionAddr(f), v, w, Lt, start);
    assert Signed(w) < 0 <= Signed(v.w);
  }

  // ----- constant indices -----

  /** A constant index is compiled to its meaning if and only if the offset that is added for it, none
      if it is negative, agrees modulo 2^32.  The upper half of a function address does not matter,
      and `null` is a negative index. */
  lemma ConstantIndexExact(m: Module, env: Environment, element: Layout, b: Build, start: State, st: State)
    requires Follows(m, env, b, start, st) && |b.vstack| >= 2 && element.alignment > 0 && b.vstack[0].Constant?
    requires !b.terminated && !b.errored && !EmitArrayElement(element, b).errored
    ensures Means(m, env, Op.ArrayElement(element), st).Ok?
    ensures Run(m, env, EmitArrayElement(element, b).insts, start) == Means(m, env, Op.ArrayElement(element), st)
            <==> ExactIndex(b.vstack[0], element)
  {
    assert Describes(m, st.frame, b.vstack[0], st.stack[0]);
    var offset := Signed(b.vstack[0].w) * RoundUp(element.size, element.alignment);
    PopFollows(m, env, b, 1, start, st);
    var popped := PopTopN(Discard(b, 1), 1);
    var st1 := st.(stack := st.stack[1..]);
    PopTopNIgnoresVstack(Discard(b, 1), Discard(b, 2), 1);
    assert Discard(popped, 1) == PopTopN(Discard(b, 2), 1);
    OffsetFollows(m, env, offset, popped, start, st1);
    ExactIndexAdds(b.vstack[0], element, st.stack[0], st.stack[1]);
    var added := Replace(st1, 1, [AddToOffset(st1.stack[0], FoldedOffset(b.vstack[0], element))]);
    assert Run(m, env, EmitArrayElement(element, b).insts, start) == Ok(added);
    var meant := Means(m, env, Op.ArrayElement(element), st).state;
    assert added.stack[0] == AddToOffset(st.stack[1], FoldedOffset(b.vstack[0], element));
    assert meant.stack[0] == AddToOffset(st.stack[1], RoundUp(element.size, element.alignment) * Signed(st.stack[0]));
    assert added.stack[1..] == st.stack[2..] == meant.stack[1..];
    assert added.stack == [added.stack[0]] + added.stack[1..] && meant.stack == [meant.stack[0]] + meant.stack[1..];
  }

  function NegativeIndex(g: nat): seq<Op> {
    [Op.GlobalAddr(g), Op.Uint(ALL_ONES), Op.ArrayElement(VALUE_LAYOUT)]
  }

  lemma AddressAndIndex(m: Module, env: Environment, g: nat, index: Word, start: State)
    requires g < TWO_24
    ensures var ops, address := [Op.GlobalAddr(g), Op.Uint(index)], MakeAddress(g, 0, 0);
            && MeansAll(m, env, ops, start) == Ok(Pushed(Pushed(start, [address]), [index]))
            && EmitAll(m, ops, Fresh(0, 0))
               == PushUint(PushValues(Append(Fresh(0, 0), [Inst.GlobalAddr(g)]), [Known(address)]), index)
  {
    hide MeansAll, EmitAll, MakeAddress, Immediate;
    AllOfTwo(m, env, Op.GlobalAddr(g), Op.Uint(index), Fresh(0, 0), start);
  }

  /** The element before the first of any global: the address should move back by 8 but stays where it is. */
  lemma NegativeIndexMiscompiles(m: Module, env: Environment, g: nat, start: State)
    requires g < TWO_24
    ensures var address := MakeAddress(g, 0, 0);
            && MeansAll(m, env, NegativeIndex(g), start) == Ok(Pushed(start, [AddToOffset(address, -8)]))
            && !EmitAll(m, NegativeIndex(g), Fresh(0, 0)).errored
            && Run(m, env, EmitAll(m, NegativeIndex(g), Fresh(0, 0)).insts, start) == Ok(Pushed(start, [address]))
            && AddToOffset(address, -8) != address
  {
    hide MeansAll, EmitAll, Run, Means, EmitArrayElement, Immediate, MakeAddress, AddToOffset, Signed, RoundUp;
    var ops, address := NegativeIndex(g), MakeAddress(g, 0, 0);
    AllOfThree(m, env, ops, start);
    assert ops[..2] == [ops[0], ops[1]];
    AddressAndIndex(m, env, g, ALL_ONES, start);
    MinusOne(VALUE_LAYOUT);
    IndexMeans(m, env, VALUE_LAYOUT, address, ALL_ONES, -8, start);
    IndexCode(VALUE_LAYOUT, g, address, ALL_ONES, Inst.PushN(0));
    RunOne(m, env, Inst.GlobalAddr(g), start);
    EightBack(address);
  }

  lemma AllOfThree(m: Module, env: Environment, ops: seq<Op>, start: State)
    requires |ops| == 3
    ensures EmitAll(m, ops, Fresh(0, 0)) == Emit(m, ops[2], EmitAll(m, ops[..2], Fresh(0, 0)))
    ensures MeansAll(m, env, ops, start)
         == match MeansAll(m, env, ops[..2], start) case Ok(st) => Means(m, env, ops[2], st) case o => o
  {
  }

  lemma EightBack(address: Word)
    ensures AddToOffset(address, -8) != address
  {
    SameOffsetAdded(address, -8, 0);
    AddNothing(address);
  }

  lemma MinusOne(element: Layout)
    requires element == VALUE_LAYOUT
    ensures RoundUp(element.size, element.alignment) * Signed(ALL_ONES) == -8
    ensures Signed(ALL_ONES) * RoundUp(element.size, element.alignment) == -8
    ensures Immediate(ALL_ONES) == [Inst.PushN(0)]
  {
  }

  lemma IndexMeans(m: Module, env: Environment, element: Layout, address: Word, index: Word, delta: int, start: State)
    requires element.alignment > 0 && delta == RoundUp(element.size, element.alignment) * Signed(index)
    ensures Means(m, env, Op.ArrayElement(element), Pushed(Pushed(start, [address]), [index]))
         == Ok(Pushed(start, [AddToOffset(address, delta)]))
  {
    var st := Pushed(Pushed(start, [address]), [index]);
    assert st.stack == [index, address] + start.stack;
    assert Replace(st, 2, [AddToOffset(address, delta)]) == Pushed(start, [AddToOffset(address, delta)]);
  }

  /** A negative index that one instruction pushed is deleted, and nothing is added for it. */
  lemma IndexCode(element: Layout, g: U24, address: Word, index: Word, i: Inst)
    requires element.alignment > 0 && Signed(index) * RoundUp(element.size, element.alignment) < 0
    requires Immediate(index) == [i] && RemovalOf(i) == Pushes
    ensures var b := PushUint(PushValues(Append(Fresh(0, 0), [Inst.GlobalAddr(g)]), [Known(address)]), index);
            EmitArrayElement(element, b).insts == [Inst.GlobalAddr(g)] && !EmitArrayElement(element, b).errored
  {
    var b := PushUint(PushValues(Append(Fresh(0, 0), [Inst.GlobalAddr(g)]), [Known(address)]), index);
    assert b.insts == [Inst.GlobalAddr(g), i];
    assert b.vstack == [Known(index), Known(address)];
    var popped := Discard(b, 2);
    assert PopTopN(popped, 1) == PopTopN(DeleteLast(popped), 0);
    assert DeleteLast(popped).insts == [Inst.GlobalAddr(g)];
    assert [Inst.GlobalAddr(g)] + [] == [Inst.GlobalAddr(g)];
  }

  // ----- folded builtins -----

  /** The call of a builtin that is folded is compiled to its meaning if and only if the builtin gives
      the same on what the machine holds as on what is tracked. */
  lemma FoldedBuiltinExact(m: Module, env: Environment, builtin: Builtin, b: Build, start: State, st: State)
    requires Follows(m, env, b, start, st) && Honest(m, env, st.frame) && !b.terminated && !b.errored
    requires ValidBuiltin(builtin) && builtin.noProcess && builtin.constantFold && !EmitBuiltin(m, builtin, b).errored
    requires AllConstant(b.vstack[..builtin.sig.inputs])
    requires m.fold(builtin, ConstantsOf(b.vstack[..builtin.sig.inputs])).Some?
    ensures Run(m, env, EmitBuiltin(m, builtin, b).insts, start) == Means(m, env, Op.CallBuiltin(builtin), st)
            <==> m.fold(builtin, st.stack[..builtin.sig.inputs])
                 == m.fold(builtin, ConstantsOf(b.vstack[..builtin.sig.inputs]))
  {
    var n := builtin.sig.inputs;
    var outputs := m.fold(builtin, ConstantsOf(b.vstack[..n])).value;
    PopFollows(m, env, b, n, start, st);
    var st1 := st.(stack := st.stack[n..]);
    UintsFollow(m, env, PopTopN(Discard(b, n), n), outputs, start, st1);
    assert Run(m, env, EmitBuiltin(m, builtin, b).insts, start) == Ok(Pushed(st1, outputs));
    match m.fold(builtin, st.stack[..n])
    case None =>
    case Some(meant) => SameTail(outputs, meant, st1.stack);
  }

  lemma SameTail(a: seq<Word>, b: seq<Word>, tail: seq<Word>)
    ensures a + tail == b + tail <==> a == b
  {
    if a + tail == b + tail {
      assert a == (a + tail)[..|a|] == (b + tail)[..|b|] == b;
    }
  }

  /** Whatever a builtin computes, folding it is right if and only if all its arguments are tracked
      exactly, or it is not folded anyway. */
  lemma ArgumentsExact(m: Module, builtin: Builtin, vs: seq<Value>)
    requires forall k :: 0 <= k < |vs| && vs[k].Constant? ==> IsTracked(vs[k])
    ensures (forall fold :: FoldsAlike(m.(fold := fold), builtin, vs))
            <==> !(AllConstant(vs) && builtin.noProcess && builtin.constantFold)
                 || forall k :: 0 <= k < |vs| ==> vs[k].faith.Exact?
  {
    if AllConstant(vs) && builtin.noProcess && builtin.constantFold {
      if k :| 0 <= k < |vs| && !vs[k].faith.Exact? {
        var m' := m.(fold := (_, ws) => Some(ws));
        var w := Another(vs[k]);
        var ws := seq(|vs|, j requires 0 <= j < |vs| => if vs[j].faith.AllOnes? then ALL_ONES else vs[j].w)[k := w];
        assert AllMayHold(vs, ws) && ws[k] != ConstantsOf(vs)[k];
        assert !FoldsAlike(m', builtin, vs);
      } else {
        forall fold ensures FoldsAlike(m.(fold := fold), builtin, vs) {
          forall ws: seq<Word> | AllMayHold(vs, ws) ensures ws == ConstantsOf(vs) {
          }
        }
      }
    }
  }

  /** Something else the machine may hold. */
  lemma Another(v: Value) returns (w: Word)
    requires IsTracked(v) && !v.faith.Exact?
    ensures MayHold(v, w) && w != v.w
  {
    if v.faith.AllOnes? {
      w := ALL_ONES;
    } else {
      PartsOfLow(LowHalf(v.w), 0);
      PartsOfLow(LowHalf(v.w), 1);
      w := WithHigh(LowHalf(v.w), if v.w == WithHigh(LowHalf(v.w), 0) then 1 else 0);
    }
  }

  // ----- constant addresses of globals -----

  /** A load through what is tracked as `v`, with its slot as the process set it up. */
  ghost predicate LoadsGlobal(m: Module, env: Environment, v: Value, g: nat, st: State)
    requires g < |m.globals| && g < TWO_24 && v.Constant?
  {
    st.stack != [] && MayHold(v, st.stack[0]) && GlobalSlotOk(m, st.memory, g) && Loaded(env, ValueType, 0, st).Ok?
    ==> Execute(m, env, Inst.LoadGlobalValue(g), st.(stack := st.stack[1..])) == Loaded(env, ValueType, 0, st)
  }

  /** The folding of a load to a global is right in all states exactly when the address is the
      global's start or can never be read. */
  lemma GlobalLoadExact(m: Module, env: Environment, v: Value)
    requires IsTracked(v) && FoldAccess(m, v, ValueType, false).ToGlobal? && AddressAllocation(v.w) < TWO_24
    ensures (forall st :: LoadsGlobal(m, env, v, AddressAllocation(v.w), st)) <==> ExactGlobal(m, v, ValueType, false)
  {
    var g := AddressAllocation(v.w);
    if ExactGlobal(m, v, ValueType, false) {
      forall st ensures LoadsGlobal(m, env, v, g, st) {
        if
          && st.stack != [] && MayHold(v, st.stack[0])
          && GlobalSlotOk(m, st.memory, g) && Loaded(env, ValueType, 0, st).Ok? {
          ExactGlobalLoad(m, env, v, st);
        }
      }
    } else {
      var w := InexactAddress(m, v);
      var st := GlobalWitness(m, w);
      InexactGlobalLoad(m, env, w, st);
      assert !LoadsGlobal(m, env, v, g, st);
    }
  }

  lemma ExactGlobalLoad(m: Module, env: Environment, v: Value, st: State)
    requires v.Constant? && FoldAccess(m, v, ValueType, false).ToGlobal? && ExactGlobal(m, v, ValueType, false)
    requires st.stack != [] && MayHold(v, st.stack[0]) && GlobalSlotOk(m, st.memory, AddressAllocation(v.w))
    requires Loaded(env, ValueType, 0, st).Ok? && AddressAllocation(v.w) < TWO_24
    ensures Execute(m, env, Inst.LoadGlobalValue(AddressAllocation(v.w)), st.(stack := st.stack[1..]))
         == Loaded(env, ValueType, 0, st)
  {
    GlobalPointer(m, st, v, st.stack[0], false);
    var ptr := st.memory.allocations[AddressAllocation(v.w)].ptr;
    var at := Replace(st, 1, [ptr]);
    assert at.stack[1..] == st.stack[1..];
  }

  /** An address into the middle of the global. */
  predicate ReadsMiddle(m: Module, w: Word) {
    && AddressAllocation(w) < |m.globals| && m.globals[AddressAllocation(w)].defined
    && AddressGeneration(w) == 0 && AddressOffset(w) != 0 && AddressOffset(w) % 8 == 0
    && AddressOffset(w) + 8 <= m.globals[AddressAllocation(w)].size && AddressOffset(w) + 8 < TWO_32
  }

  lemma InexactAddress(m: Module, v: Value) returns (w: Word)
    requires IsTracked(v) && FoldAccess(m, v, ValueType, false).ToGlobal? && !ExactGlobal(m, v, ValueType, false)
    ensures MayHold(v, w) && AddressAllocation(w) == AddressAllocation(v.w) && ReadsMiddle(m, w)
  {
    w := v.w;
    if v.faith.Lower? {
      PartsOfLow(LowHalf(v.w), 8);
      w := WithHigh(LowHalf(v.w), 8);
      SameParts(v.w, w);
    }
  }

  /** A process with the global at address 0, whose word at the offset of `w` is 1. */
  ghost function GlobalWitness(m: Module, w: Word): State
    requires AddressAllocation(w) < |m.globals|
    requires AddressOffset(w) + 8 < TWO_32
  {
    var slot := Allocation(0, AddressOffset(w) + 8, 0, StaticMut, Allocated, Unsplit, ReachableExplicit, false);
    State([w], Frame(0, 0, 0, 0),
          Memory(seq(AddressAllocation(w) + 1, _ => slot), 0, map[AddressOffset(w) := 1]))
  }

  lemma InexactGlobalLoad(m: Module, env: Environment, w: Word, st: State)
    requires ReadsMiddle(m, w)
    requires st == GlobalWitness(m, w) && AddressAllocation(w) < TWO_24
    ensures GlobalSlotOk(m, st.memory, AddressAllocation(w)) && Loaded(env, ValueType, 0, st).Ok?
    ensures Execute(m, env, Inst.LoadGlobalValue(AddressAllocation(w)), st.(stack := st.stack[1..]))
         != Loaded(env, ValueType, 0, st)
  {
    var offset := AddressOffset(w);
    assert Wrap(0 + offset) == offset;
    assert Dereference(st.memory.allocations, w, VALUE_LAYOUT, false) == Some(offset);
    var at := Replace(st, 1, [offset]);
    assert Deref(st, VALUE_LAYOUT, false) == Ok(at);
    assert Loaded(env, ValueType, 0, st) == Ok(Replace(at, 1, [1]));
    assert Replace(at, 1, [1]).stack[0] == 1;
    assert Load(st.memory, 0) == 0;
    var st1 := st.(stack := st.stack[1..]);
    assert Execute(m, env, Inst.LoadGlobalValue(AddressAllocation(w)), st1) == Ok(Pushed(st1, [0]));
    assert Pushed(st1, [0]).stack[0] == 0;
  }

  // ----- what folding does where the calls panic -----

  /** `null` without its instruction. */
  lemma NullPopped()
    ensures var b := EmitNull(Fresh(0, 0));
            b.vstack == [Constant(0, AllOnes)] && b.insts == [Inst.PushN(0)] && PopTopN(Discard(b, 1), 1).insts == []
  {
    var b := EmitNull(Fresh(0, 0));
    assert b.insts == [Inst.PushN(0)] && b.vstack[0] == Constant(0, AllOnes);
    var popped := Discard(b, 1);
    assert PopTopN(popped, 1) == PopTopN(DeleteLast(popped), 0);
    assert DeleteLast(popped).insts == [];
  }

  /** `null` is no function, so to call it panics; but called with no inputs for no outputs it is
      folded to a call of function 0. */
  lemma NullIsCalled(m: Module, env: Environment, start: State)
    requires m.functions != []
    ensures MeansAll(m, env, [Op.Null, Op.CallIndirect(Signature(0, 0))], start) == Panicked
    ensures EmitAll(m, [Op.Null, Op.CallIndirect(Signature(0, 0))], Fresh(0, 0)).insts == [Inst.Call(0)]
  {
    AllOfTwo(m, env, Op.Null, Op.CallIndirect(Signature(0, 0)), Fresh(0, 0), start);
    NullNamesNothing();
    NullPopped();
    var b := EmitNull(Fresh(0, 0));
    assert ConstantFunction(m, b.vstack[0], Signature(0, 0)) == Some(0);
    assert [] + [Inst.Call(0)] == [Inst.Call(0)];
  }

  /** `null` is no address, so to load from it panics; but if the first global can be loaded from, it
      is folded to a load of that. */
  lemma NullIsLoaded(m: Module, env: Environment, start: State)
    requires FoldAccess(m, Constant(0, AllOnes), ValueType, false) == ToGlobal(0)
    ensures MeansAll(m, env, [Op.Null, Op.LoadField(ValueType, 0)], start) == Panicked
    ensures EmitAll(m, [Op.Null, Op.LoadField(ValueType, 0)], Fresh(0, 0)).insts == [Inst.LoadGlobalValue(0)]
  {
    AllOfTwo(m, env, Op.Null, Op.LoadField(ValueType, 0), Fresh(0, 0), start);
    NullNamesNothing();
    NullPopped();
    var st := Pushed(start, [ALL_ONES]);
    assert Dereference(st.memory.allocations, st.stack[0], VALUE_LAYOUT, false) == None;
    assert [] + [Inst.LoadGlobalValue(0)] == [Inst.LoadGlobalValue(0)];
  }
}
