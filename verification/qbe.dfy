// The QBE backend: straight-line stack code becomes code on registers, register i holding the i-th
// value from the bottom of the stack.

module Qbe {
  import opened Words
  import opened Allocations
  import opened Bytecode
  import opened Vm
  import opened Layouts
  import opened Builder
  import opened Immediates

  // ----- the builtins the backend expands in place -----

  datatype Arithmetic =
    | And | Or | Xor
    | AddSigned | AddUnsigned | SubSigned | SubUnsigned | MulSigned | MulUnsigned
    | CompareSigned | CompareUnsigned

  function BitAnd(a: nat, b: nat): nat {
    if a == 0 then 0 else 2 * BitAnd(a / 2, b / 2) + (if a % 2 == 1 && b % 2 == 1 then 1 else 0)
  }

  function BitXor(a: nat, b: nat): nat {
    if a == 0 then b else 2 * BitXor(a / 2, b / 2) + (if a % 2 != b % 2 then 1 else 0)
  }

  function Sign(less: bool, greater: bool): int {
    (if greater then 1 else 0) - (if less then 1 else 0)
  }

  /** What the machine's builtin computes: two's complement results, wrapped to a word. */
  function Computes(op: Arithmetic, lhs: Word, rhs: Word): Word {
    match op
    case And => Wrap(BitAnd(lhs, rhs))
    case Or => OrWord(lhs, rhs)
    case Xor => Wrap(BitXor(lhs, rhs))
    case AddSigned => Wrap(Signed(lhs) + Signed(rhs))
    case AddUnsigned => Wrap(lhs + rhs)
    case SubSigned => Wrap(Signed(lhs) - Signed(rhs))
    case SubUnsigned => Wrap(lhs - rhs)
    case MulSigned => Wrap(Signed(lhs) * Signed(rhs))
    case MulUnsigned => Wrap(lhs * rhs)
    case CompareSigned => Wrap(Sign(Signed(lhs) < Signed(rhs), Signed(lhs) > Signed(rhs)))
    case CompareUnsigned => Wrap(Sign(lhs < rhs, lhs > rhs))
  }

  /** Which builtins are which. */
  type Known = map<nat, Arithmetic>

  predicate IsKnown(known: Known, b: Builtin) {
    b.impl.Other? && b.impl.id in known && b.sig == Signature(2, 1)
  }

  ghost predicate ComputesKnown(known: Known, env: Environment) {
    forall b: Builtin, lhs: Word, rhs: Word, memory :: IsKnown(known, b) ==>
      env.builtin(b, [rhs, lhs], memory) == Some(([Computes(known[b.impl.id], lhs, rhs)], memory))
  }

  // ----- the target -----

  datatype Reg = R(i: nat) | Tmp | Tmp2

  datatype Operand = FromReg(reg: Reg) | Literal(w: Word)

  datatype BinaryOp = QAnd | QOr | QXor | QAdd | QSub | QMul

  datatype Comparison = IEq | INe | SLt | SLe | SGt | SGe | ULt | UGt

  datatype Op =
    | Copy(dest: Reg, src: Operand)
    | Binary(dest: Reg, op: BinaryOp, lhs: Operand, rhs: Operand)
    | Compare(dest: Reg, cc: Comparison, lhs: Operand, rhs: Operand)

  datatype Registers = Registers(values: map<nat, Word>, tmp: Word, tmp2: Word)

  function Get(q: Registers, r: Reg): Word {
    match r
    case R(i) => if i in q.values then q.values[i] else 0
    case Tmp => q.tmp
    case Tmp2 => q.tmp2
  }

  function Set(q: Registers, r: Reg, w: Word): Registers {
    match r
    case R(i) => q.(values := q.values[i := w])
    case Tmp => q.(tmp := w)
    case Tmp2 => q.(tmp2 := w)
  }

  function Value(q: Registers, v: Operand): Word {
    match v case FromReg(r) => Get(q, r) case Literal(w) => w
  }

  function Binarily(op: BinaryOp, a: Word, b: Word): Word {
    match op
    case QAnd => Wrap(BitAnd(a, b))
    case QOr => OrWord(a, b)
    case QXor => Wrap(BitXor(a, b))
    case QAdd => Wrap(a + b)
    case QSub => Wrap(a - b)
    case QMul => Wrap(a * b)
  }

  predicate Compares(cc: Comparison, a: Word, b: Word) {
    match cc
    case IEq => a == b
    case INe => a != b
    case SLt => Signed(a) < Signed(b)
    case SLe => Signed(a) <= Signed(b)
    case SGt => Signed(a) > Signed(b)
    case SGe => Signed(a) >= Signed(b)
    case ULt => a < b
    case UGt => a > b
  }

  function Perform(op: Op, q: Registers): Registers {
    match op
    case Copy(dest, src) => Set(q, dest, Value(q, src))
    case Binary(dest, o, a, b) => Set(q, dest, Binarily(o, Value(q, a), Value(q, b)))
    case Compare(dest, cc, a, b) => Set(q, dest, Truth(Compares(cc, Value(q, a), Value(q, b))))
  }

  function PerformAll(ops: seq<Op>, q: Registers): Registers {
    if ops == [] then q else PerformAll(ops[1..], Perform(ops[0], q))
  }

  lemma {:induction false} PerformConcat(a: seq<Op>, b: seq<Op>, q: Registers)
    ensures PerformAll(a + b, q) == PerformAll(b, PerformAll(a, q))
  {
    if a == [] {
      assert a + b == b;
    } else {
      assert (a + b)[1..] == a[1..] + b;
      PerformConcat(a[1..], b, Perform(a[0], q));
    }
  }

  // ----- the translation -----

  function Reg0(i: nat): Operand { FromReg(R(i)) }

  /** The value a push group leaves: the push, and a second and third part right behind it. */
  function GroupValue(first: Word, insts: seq<Inst>, k: nat): Word
    requires k < |insts|
  {
    if k + 1 < |insts| && insts[k + 1].Push2? then
      var second := OrWord(first, insts[k + 1].value * 0x100_0000);
      if k + 2 >= |insts| || !insts[k + 2].Push3? then second
      else OrWord(second, Wrap(insts[k + 2].value * 0x1_0000_0000_0000))
    else if k + 1 < |insts| && insts[k + 1].Push3? then OrWord(first, Wrap(insts[k + 1].value * 0x1_0000_0000_0000))
    else first
  }

  /** `count` registers from `from` on each take the value of the next one. */
  function Shift(from: nat, count: nat): seq<Op>
    decreases count
  {
    if count == 0 then [] else [Copy(R(from), Reg0(from + 1))] + Shift(from + 1, count - 1)
  }

  function ConditionOf(cc: Condition): Comparison {
    match cc case Eq => IEq case Ne => INe case Lt => SLt case Le => SLe case Gt => SGt case Ge => SGe
  }

  /** Operands in registers `n` and `n + 1`, the result in register `n`. */
  function ArithmeticCode(op: Arithmetic, n: nat): seq<Op> {
    var lhs, rhs := Reg0(n), Reg0(n + 1);
    match op
    case And => [Binary(R(n), QAnd, lhs, rhs)]
    case Or => [Binary(R(n), QOr, lhs, rhs)]
    case Xor => [Binary(R(n), QXor, lhs, rhs)]
    case AddSigned => [Binary(R(n), QAdd, lhs, rhs)]
    case AddUnsigned => [Binary(R(n), QAdd, lhs, rhs)]
    case SubSigned => [Binary(R(n), QSub, lhs, rhs)]
    case SubUnsigned => [Binary(R(n), QSub, lhs, rhs)]
    case MulSigned => [Binary(R(n), QMul, lhs, rhs)]
    case MulUnsigned => [Binary(R(n), QMul, lhs, rhs)]
    case CompareSigned =>
      [Compare(Tmp, SGt, lhs, rhs), Compare(Tmp2, SLt, lhs, rhs), Binary(R(n), QSub, FromReg(Tmp), FromReg(Tmp2))]
    case CompareUnsigned =>
      [Compare(Tmp, UGt, lhs, rhs), Compare(Tmp2, ULt, lhs, rhs), Binary(R(n), QSub, FromReg(Tmp), FromReg(Tmp2))]
  }

  function RollOps(idx: nat, depth: nat): seq<Op>
    requires idx < depth
  {
    [Copy(Tmp, Reg0(depth - 1 - idx))] + Shift(depth - 1 - idx, idx) + [Copy(R(depth - 1), FromReg(Tmp))]
  }

  predicate Supported(known: Known, i: Inst) {
    match i
    case Nop => true
    case CallBuiltinSig(_) => true
    case Push(_) => true
    case PushN(_) => true
    case Push2(_) => true
    case Push3(_) => true
    case Cc(_) => true
    case Pop(_) => true
    case PopTop => true
    case Pick(_) => true
    case Dup => true
    case Roll(_) => true
    case Swap => true
    case CallBuiltin(b, _) => IsKnown(known, b)
    case _ => false
  }

  /** How many values an instruction needs. */
  function Needs(i: Inst): nat {
    match i
    case Cc(_) => 1
    case Pop(idx) => idx + 1
    case PopTop => 1
    case Pick(idx) => idx + 1
    case Dup => 1
    case Roll(idx) => idx + 1
    case Swap => 2
    case CallBuiltin(_, _) => 2
    case _ => 0
  }

  function DepthAfterInst(i: Inst, depth: nat): nat
    requires Needs(i) <= depth
  {
    match i
    case Push(_) => depth + 1
    case PushN(_) => depth + 1
    case Pop(_) => depth - 1
    case PopTop => depth - 1
    case Pick(_) => depth + 1
    case Dup => depth + 1
    case CallBuiltin(_, _) => depth - 1
    case _ => depth
  }

  /** What is written for instruction `k`, with `depth` values on the stack before it. */
  function CodeAt(known: Known, insts: seq<Inst>, k: nat, depth: nat): seq<Op>
    requires k < |insts| && Supported(known, insts[k]) && Needs(insts[k]) <= depth
  {
    match insts[k]
    case Push(v) => [Copy(R(depth), Literal(GroupValue(v, insts, k)))]
    case PushN(v) => [Copy(R(depth), Literal(GroupValue(ALL_ONES - v, insts, k)))]
    case Cc(cc) => [Compare(R(depth - 1), ConditionOf(cc), Reg0(depth - 1), Literal(0))]
    case Pop(idx) => Shift(depth - 1 - idx, idx)
    case Pick(idx) => [Copy(R(depth), Reg0(depth - 1 - idx))]
    case Dup => [Copy(R(depth), Reg0(depth - 1))]
    case Roll(idx) => RollOps(idx, depth)
    case Swap => RollOps(1, depth)
    case CallBuiltin(b, _) => ArithmeticCode(known[b.impl.id], depth - 2)
    case _ => []
  }

  /** Whether the whole list from `k` on can be translated: everything is known and has its operands. */
  predicate Translatable(known: Known, insts: seq<Inst>, k: nat, depth: nat)
    requires k <= |insts|
    decreases |insts| - k
  {
    k == |insts|
    || (Supported(known, insts[k]) && Needs(insts[k]) <= depth
        && Translatable(known, insts, k + 1, DepthAfterInst(insts[k], depth)))
  }

  function CodeFrom(known: Known, insts: seq<Inst>, k: nat, depth: nat): seq<Op>
    requires k <= |insts| && Translatable(known, insts, k, depth)
    decreases |insts| - k
  {
    if k == |insts| then []
    else CodeAt(known, insts, k, depth) + CodeFrom(known, insts, k + 1, DepthAfterInst(insts[k], depth))
  }

  /** Second and third parts of a value stand right behind its first part. */
  predicate Grouped(insts: seq<Inst>) {
    forall k :: 0 <= k < |insts| ==> InGroup(insts, k)
  }

  predicate IsFirst(i: Inst) { i.Push? || i.PushN? }

  predicate InGroup(insts: seq<Inst>, k: nat)
    requires k < |insts|
  {
    && (insts[k].Push2? ==> k > 0 && IsFirst(insts[k - 1]))
    && (insts[k].Push3? ==> k > 0 && (IsFirst(insts[k - 1]) || insts[k - 1].Push2?))
  }

  // ----- simulation -----

  /** Register `i` holds the `i`-th value from the bottom. */
  predicate Mirrors(q: Registers, stack: seq<Word>) {
    forall k :: 0 <= k < |stack| ==> Get(q, R(|stack| - 1 - k)) == stack[k]
  }

  lemma {:induction false} ShiftEffect(from: nat, count: nat, q: Registers, i: nat)
    ensures Get(PerformAll(Shift(from, count), q), R(i))
         == if from <= i < from + count then Get(q, R(i + 1)) else Get(q, R(i))
    ensures PerformAll(Shift(from, count), q).tmp == q.tmp
    decreases count
  {
    if count > 0 {
      var ops := Shift(from, count);
      var q' := Perform(ops[0], q);
      assert ops[1..] == Shift(from + 1, count - 1);
      ShiftEffect(from + 1, count - 1, q', i);
    }
  }

  lemma PopSimulates(idx: nat, stack: seq<Word>, q: Registers)
    requires idx < |stack| && Mirrors(q, stack)
    ensures Mirrors(PerformAll(Shift(|stack| - 1 - idx, idx), q), stack[..idx] + stack[idx + 1..])
  {
    var n, stack' := |stack|, stack[..idx] + stack[idx + 1..];
    var q' := PerformAll(Shift(n - 1 - idx, idx), q);
    forall k | 0 <= k < |stack'| ensures Get(q', R(|stack'| - 1 - k)) == stack'[k] {
      var i := |stack'| - 1 - k;
      ShiftEffect(n - 1 - idx, idx, q, i);
      assert stack'[k] == stack[if k < idx then k else k + 1];
      assert Get(q, R(n - 1 - (if k < idx then k else k + 1))) == stack[if k < idx then k else k + 1];
    }
  }

  lemma RollSimulates(idx: nat, stack: seq<Word>, q: Registers)
    requires idx < |stack| && Mirrors(q, stack)
    ensures Mirrors(PerformAll(RollOps(idx, |stack|), q), [stack[idx]] + stack[..idx] + stack[idx + 1..])
  {
    var n, stack' := |stack|, [stack[idx]] + stack[..idx] + stack[idx + 1..];
    var first, shift, last := [Copy(Tmp, Reg0(n - 1 - idx))], Shift(n - 1 - idx, idx), [Copy(R(n - 1), FromReg(Tmp))];
    var q1 := Perform(first[0], q);
    var q2 := PerformAll(shift, q1);
    PerformConcat(first + shift, last, q);
    PerformConcat(first, shift, q);
    assert first[1..] == [] && last[1..] == [];
    assert PerformAll(first, q) == q1;
    var q' := Perform(last[0], q2);
    assert PerformAll(RollOps(idx, n), q) == q';
    ShiftEffect(n - 1 - idx, idx, q1, 0);
    assert Get(q, R(n - 1 - idx)) == stack[idx];
    forall k | 0 <= k < |stack'| ensures Get(q', R(n - 1 - k)) == stack'[k] {
      if k > 0 {
        ShiftEffect(n - 1 - idx, idx, q1, n - 1 - k);
        var j := if k <= idx then k - 1 else k;
        assert stack'[k] == stack[j];
        assert Get(q, R(n - 1 - j)) == stack[j];
      }
    }
  }

  // ----- arithmetic -----

  lemma WrapsAlike(a: int, b: int, c: int)
    requires a == b + c * 0x1_0000_0000_0000_0000
    ensures Wrap(a) == Wrap(b)
  {
  }

  function Borrow(w: Word): int
    ensures Signed(w) == w - Borrow(w) * 0x1_0000_0000_0000_0000
  {
    if w < 0x8000_0000_0000_0000 then 0 else 1
  }

  lemma SignedProduct(a: Word, b: Word)
    ensures Wrap(Signed(a) * Signed(b)) == Wrap(a * b)
  {
    var x, y := Borrow(a), Borrow(b);
    var big := 0x1_0000_0000_0000_0000;
    assert a * b == Signed(a) * Signed(b) + (x * Signed(b) + Signed(a) * y + x * y * big) * big by {
      calc {
        a * b;
        (Signed(a) + x * big) * (Signed(b) + y * big);
        Signed(a) * Signed(b) + x * big * Signed(b) + Signed(a) * (y * big) + x * big * (y * big);
        Signed(a) * Signed(b) + (x * Signed(b) + Signed(a) * y + x * y * big) * big;
      }
    }
    WrapsAlike(a * b, Signed(a) * Signed(b), x * Signed(b) + Signed(a) * y + x * y * big);
  }

  /** The backend has one addition, subtraction and multiplication for signed and unsigned values. */
  lemma SameArithmetic(op: Arithmetic, lhs: Word, rhs: Word)
    ensures Computes(op, lhs, rhs) == match op
            case And => Binarily(QAnd, lhs, rhs)
            case Or => Binarily(QOr, lhs, rhs)
            case Xor => Binarily(QXor, lhs, rhs)
            case AddSigned => Binarily(QAdd, lhs, rhs)
            case AddUnsigned => Binarily(QAdd, lhs, rhs)
            case SubSigned => Binarily(QSub, lhs, rhs)
            case SubUnsigned => Binarily(QSub, lhs, rhs)
            case MulSigned => Binarily(QMul, lhs, rhs)
            case MulUnsigned => Binarily(QMul, lhs, rhs)
            case CompareSigned => Wrap(Truth(Compares(SGt, lhs, rhs)) - Truth(Compares(SLt, lhs, rhs)))
            case CompareUnsigned => Wrap(Truth(Compares(UGt, lhs, rhs)) - Truth(Compares(ULt, lhs, rhs)))
  {
    match op
    case AddSigned => WrapsAlike(lhs + rhs, Signed(lhs) + Signed(rhs), Borrow(lhs) + Borrow(rhs));
    case SubSigned => WrapsAlike(lhs - rhs, Signed(lhs) - Signed(rhs), Borrow(lhs) - Borrow(rhs));
    case MulSigned => SignedProduct(lhs, rhs);
    case _ =>
  }

  /** The code for a builtin leaves its result in the first operand's register and changes no other. */
  lemma ArithmeticEffect(op: Arithmetic, n: nat, q: Registers)
    ensures var q' := PerformAll(ArithmeticCode(op, n), q);
            Get(q', R(n)) == Computes(op, Get(q, R(n)), Get(q, R(n + 1)))
            && forall i: nat :: i != n ==> Get(q', R(i)) == Get(q, R(i))
  {
    var ops := ArithmeticCode(op, n);
    SameArithmetic(op, Get(q, R(n)), Get(q, R(n + 1)));
    if |ops| == 1 {
      PerformOne(ops[0], q);
    } else {
      PerformThree(ops[0], ops[1], ops[2], q);
    }
  }

  lemma PerformThree(a: Op, b: Op, c: Op, q: Registers)
    ensures PerformAll([a, b, c], q) == Perform(c, Perform(b, Perform(a, q)))
  {
    assert [a, b, c][1..] == [b, c] && [b, c][1..] == [c];
    PerformOne(c, Perform(b, Perform(a, q)));
  }

  lemma ArithmeticSimulates(op: Arithmetic, stack: seq<Word>, q: Registers)
    requires |stack| >= 2 && Mirrors(q, stack)
    ensures Mirrors(PerformAll(ArithmeticCode(op, |stack| - 2), q), [Computes(op, stack[1], stack[0])] + stack[2..])
  {
    var n := |stack| - 2;
    ArithmeticEffect(op, n, q);
    assert Get(q, R(|stack| - 1 - 1)) == stack[1] && Get(q, R(|stack| - 1 - 0)) == stack[0];
    var stack', q' := [Computes(op, stack[1], stack[0])] + stack[2..], PerformAll(ArithmeticCode(op, n), q);
    forall k | 0 <= k < |stack'| ensures Get(q', R(|stack'| - 1 - k)) == stack'[k] {
      if k > 0 {
        assert stack'[k] == stack[k + 1] == Get(q, R(|stack| - 1 - (k + 1)));
      }
    }
  }

  // ----- one instruction -----

  lemma ConditionAgrees(cc: Condition, w: Word)
    ensures Compares(ConditionOf(cc), w, 0) == Holds(cc, Signed(w))
  {
  }

  lemma WriteTop(q: Registers, stack: seq<Word>, w: Word)
    requires Mirrors(q, stack)
    ensures Mirrors(Set(q, R(|stack|), w), [w] + stack)
    ensures stack != [] ==> Mirrors(Set(q, R(|stack| - 1), w), [w] + stack[1..])
  {
  }

  predicate IsValuePart(i: Inst) { IsFirst(i) || i.Push2? || i.Push3? }

  lemma PerformOne(op: Op, q: Registers)
    ensures PerformAll([op], q) == Perform(op, q)
  {
    assert [op][1..] == [];
  }

  /** Before and after an instruction, the registers mirror the stack. */
  ghost predicate StepMirrors(known: Known, m: Module, env: Environment, insts: seq<Inst>, k: nat, st: State,
                              q: Registers)
    requires k < |insts| && Supported(known, insts[k]) && Needs(insts[k]) <= |st.stack|
  {
    match Execute(m, env, insts[k], st)
    case Ok(st') =>
      |st'.stack| == DepthAfterInst(insts[k], |st.stack|)
      && Mirrors(PerformAll(CodeAt(known, insts, k, |st.stack|), q), st'.stack)
    case _ => false
  }

  lemma ShuffleSimulates(known: Known, m: Module, env: Environment, insts: seq<Inst>, k: nat, st: State, q: Registers)
    requires k < |insts| && Supported(known, insts[k]) && Needs(insts[k]) <= |st.stack| && Mirrors(q, st.stack)
    requires insts[k].Pop? || insts[k].PopTop? || insts[k].Roll? || insts[k].Swap?
    ensures StepMirrors(known, m, env, insts, k, st, q)
  {
    var s := st.stack;
    match insts[k] {
      case Pop(idx) => PopSimulates(idx, s, q);
      case PopTop =>
      case Roll(idx) => RollSimulates(idx, s, q);
      case Swap =>
        RollSimulates(1, s, q);
        assert [s[1]] + s[..1] + s[2..] == [s[1], s[0]] + s[2..];
    }
  }

  lemma CopySimulates(known: Known, m: Module, env: Environment, insts: seq<Inst>, k: nat, st: State, q: Registers)
    requires k < |insts| && Supported(known, insts[k]) && Needs(insts[k]) <= |st.stack| && Mirrors(q, st.stack)
    requires insts[k].Pick? || insts[k].Dup? || insts[k].Cc?
    ensures StepMirrors(known, m, env, insts, k, st, q)
  {
    var s, depth := st.stack, |st.stack|;
    PerformOne(CodeAt(known, insts, k, depth)[0], q);
    match insts[k] {
      case Pick(idx) =>
        assert Get(q, R(depth - 1 - idx)) == s[idx];
        WriteTop(q, s, s[idx]);
      case Dup =>
        assert Get(q, R(depth - 1 - 0)) == s[0];
        WriteTop(q, s, s[0]);
      case Cc(cc) =>
        assert Get(q, R(depth - 1 - 0)) == s[0];
        ConditionAgrees(cc, s[0]);
        WriteTop(q, s, Truth(Holds(cc, Signed(s[0]))));
    }
  }

  lemma BuiltinSimulates(known: Known, m: Module, env: Environment, insts: seq<Inst>, k: nat, st: State, q: Registers)
    requires k < |insts| && Supported(known, insts[k]) && Needs(insts[k]) <= |st.stack| && Mirrors(q, st.stack)
    requires insts[k].CallBuiltin? && ComputesKnown(known, env)
    ensures StepMirrors(known, m, env, insts, k, st, q)
  {
    var s, b := st.stack, insts[k].builtin;
    assert s[..2] == [s[0], s[1]];
    assert env.builtin(b, [s[0], s[1]], st.memory) == Some(([Computes(known[b.impl.id], s[1], s[0])], st.memory));
    ArithmeticSimulates(known[b.impl.id], s, q);
  }

  /** Any instruction but the parts of a pushed value. */
  lemma InstSimulates(known: Known, m: Module, env: Environment, insts: seq<Inst>, k: nat, st: State, q: Registers)
    requires k < |insts| && Supported(known, insts[k]) && Needs(insts[k]) <= |st.stack| && !IsValuePart(insts[k])
    requires ComputesKnown(known, env) && Mirrors(q, st.stack)
    ensures StepMirrors(known, m, env, insts, k, st, q)
  {
    var i := insts[k];
    if i.Pop? || i.PopTop? || i.Roll? || i.Swap? {
      ShuffleSimulates(known, m, env, insts, k, st, q);
    } else if i.Pick? || i.Dup? || i.Cc? {
      CopySimulates(known, m, env, insts, k, st, q);
    } else if i.CallBuiltin? {
      BuiltinSimulates(known, m, env, insts, k, st, q);
    }
  }

  // ----- pushed values -----

  /** How many instructions push the value that starts at `k`. */
  function GroupLength(insts: seq<Inst>, k: nat): (n: nat)
    requires k < |insts|
    ensures 1 <= n && k + n <= |insts|
  {
    if k + 1 < |insts| && insts[k + 1].Push2? then (if k + 2 < |insts| && insts[k + 2].Push3? then 3 else 2)
    else if k + 1 < |insts| && insts[k + 1].Push3? then 2
    else 1
  }

  lemma RunStep(m: Module, env: Environment, insts: seq<Inst>, k: nat, st: State)
    requires k < |insts|
    ensures Run(m, env, insts[k..], st)
         == match Execute(m, env, insts[k], st) case Ok(st') => Run(m, env, insts[k + 1..], st') case o => o
  {
    assert insts[k..][0] == insts[k] && insts[k..][1..] == insts[k + 1..];
  }

  function FirstPart(i: Inst): Word
    requires IsFirst(i)
  {
    if i.Push? then i.value else ALL_ONES - i.value
  }

  /** The machine or-s the parts of a value together one by one; the backend reads ahead.  Both push
      the same value. */
  lemma GroupRuns(m: Module, env: Environment, insts: seq<Inst>, k: nat, st: State)
    requires k < |insts| && IsFirst(insts[k])
    ensures Run(m, env, insts[k..], st)
         == Run(m, env, insts[k + GroupLength(insts, k)..], Pushed(st, [GroupValue(FirstPart(insts[k]), insts, k)]))
  {
    var first := FirstPart(insts[k]);
    RunStep(m, env, insts, k, st);
    var st1 := Pushed(st, [first]);
    if GroupLength(insts, k) > 1 {
      RunStep(m, env, insts, k + 1, st1);
      var w := if insts[k + 1].Push2? then OrWord(first, insts[k + 1].value * 0x100_0000)
               else OrWord(first, Wrap(insts[k + 1].value * 0x1_0000_0000_0000));
      assert Replace(st1, 1, [w]) == Pushed(st, [w]);
      if GroupLength(insts, k) > 2 {
        RunStep(m, env, insts, k + 2, Pushed(st, [w]));
        var w' := OrWord(w, Wrap(insts[k + 2].value * 0x1_0000_0000_0000));
        assert Replace(Pushed(st, [w]), 1, [w']) == Pushed(st, [w']);
      }
    }
  }

  /** Nothing is written for the second and third parts of a value. */
  lemma PartCode(known: Known, insts: seq<Inst>, k: nat, depth: nat)
    requires k < |insts| && (insts[k].Push2? || insts[k].Push3?) && Translatable(known, insts, k, depth)
    ensures Translatable(known, insts, k + 1, depth)
    ensures CodeFrom(known, insts, k, depth) == CodeFrom(known, insts, k + 1, depth)
  {
    assert [] + CodeFrom(known, insts, k + 1, depth) == CodeFrom(known, insts, k + 1, depth);
  }

  lemma GroupCode(known: Known, insts: seq<Inst>, k: nat, depth: nat, q: Registers)
    requires k < |insts| && IsFirst(insts[k]) && Translatable(known, insts, k, depth)
    ensures Translatable(known, insts, k + GroupLength(insts, k), depth + 1)
    ensures PerformAll(CodeFrom(known, insts, k, depth), q)
         == PerformAll(CodeFrom(known, insts, k + GroupLength(insts, k), depth + 1),
                       Set(q, R(depth), GroupValue(FirstPart(insts[k]), insts, k)))
  {
    FirstCode(known, insts, k, depth, q);
    if GroupLength(insts, k) > 1 {
      PartCode(known, insts, k + 1, depth + 1);
      if GroupLength(insts, k) > 2 {
        PartCode(known, insts, k + 2, depth + 1);
      }
    }
  }

  lemma FirstCode(known: Known, insts: seq<Inst>, k: nat, depth: nat, q: Registers)
    requires k < |insts| && IsFirst(insts[k]) && Translatable(known, insts, k, depth)
    ensures Translatable(known, insts, k + 1, depth + 1)
    ensures PerformAll(CodeFrom(known, insts, k, depth), q)
         == PerformAll(CodeFrom(known, insts, k + 1, depth + 1),
                       Set(q, R(depth), GroupValue(FirstPart(insts[k]), insts, k)))
  {
    var ops := CodeAt(known, insts, k, depth);
    PerformConcat(ops, CodeFrom(known, insts, k + 1, depth + 1), q);
    PerformOne(ops[0], q);
  }

  // ----- the theorem -----

  predicate StartsGroup(insts: seq<Inst>, k: nat) {
    k < |insts| ==> !insts[k].Push2? && !insts[k].Push3?
  }

  lemma NextStartsGroup(insts: seq<Inst>, k: nat)
    requires k < |insts| && Grouped(insts) && StartsGroup(insts, k)
    ensures IsFirst(insts[k]) ==> StartsGroup(insts, k + GroupLength(insts, k))
    ensures !IsFirst(insts[k]) ==> StartsGroup(insts, k + 1)
  {
    var next := if IsFirst(insts[k]) then k + GroupLength(insts, k) else k + 1;
    if next < |insts| {
      assert InGroup(insts, next);
    }
  }

  /** The machine and the registers have both got on from `k` in state `st` to `k'` in `st'`. */
  ghost predicate GotOn(known: Known, m: Module, env: Environment, insts: seq<Inst>, k: nat, st: State, q: Registers,
                        k': nat, st': State, q': Registers)
    requires k <= |insts| && Translatable(known, insts, k, |st.stack|)
  {
    && k < k' <= |insts| && StartsGroup(insts, k')
    && Run(m, env, insts[k..], st) == Run(m, env, insts[k'..], st')
    && Translatable(known, insts, k', |st'.stack|) && Mirrors(q', st'.stack)
    && PerformAll(CodeFrom(known, insts, k, |st.stack|), q) == PerformAll(CodeFrom(known, insts, k', |st'.stack|), q')
  }

  lemma GroupGetsOn(known: Known, m: Module, env: Environment, insts: seq<Inst>, k: nat, st: State, q: Registers)
    requires k < |insts| && Translatable(known, insts, k, |st.stack|) && Grouped(insts) && IsFirst(insts[k])
    requires Mirrors(q, st.stack)
    ensures var w := GroupValue(FirstPart(insts[k]), insts, k);
            GotOn(known, m, env, insts, k, st, q, k + GroupLength(insts, k), Pushed(st, [w]), Set(q, R(|st.stack|), w))
  {
    NextStartsGroup(insts, k);
    GroupRuns(m, env, insts, k, st);
    GroupCode(known, insts, k, |st.stack|, q);
    WriteTop(q, st.stack, GroupValue(FirstPart(insts[k]), insts, k));
  }

  lemma InstGetsOn(known: Known, m: Module, env: Environment, insts: seq<Inst>, k: nat, st: State, q: Registers)
      returns (st': State, q': Registers)
    requires k < |insts| && Translatable(known, insts, k, |st.stack|) && Grouped(insts)
    requires StartsGroup(insts, k) && !IsFirst(insts[k]) && ComputesKnown(known, env) && Mirrors(q, st.stack)
    ensures GotOn(known, m, env, insts, k, st, q, k + 1, st', q')
  {
    var depth := |st.stack|;
    NextStartsGroup(insts, k);
    InstSimulates(known, m, env, insts, k, st, q);
    RunStep(m, env, insts, k, st);
    st' := Execute(m, env, insts[k], st).state;
    var ops := CodeAt(known, insts, k, depth);
    q' := PerformAll(ops, q);
    PerformConcat(ops, CodeFrom(known, insts, k + 1, DepthAfterInst(insts[k], depth)), q);
  }

  /** Straight-line code translated for the backend: wherever the machine's stack and the registers
      agree before the rest of the list, they agree after it. */
  lemma {:induction false} CodeSimulates(known: Known, m: Module, env: Environment, insts: seq<Inst>, k: nat,
                                         st: State, q: Registers)
    requires k <= |insts| && Translatable(known, insts, k, |st.stack|) && Grouped(insts) && StartsGroup(insts, k)
    requires ComputesKnown(known, env) && Mirrors(q, st.stack)
    ensures Run(m, env, insts[k..], st).Ok?
    ensures Mirrors(PerformAll(CodeFrom(known, insts, k, |st.stack|), q), Run(m, env, insts[k..], st).state.stack)
    decreases |insts| - k
  {
    if k < |insts| {
      if IsFirst(insts[k]) {
        var w := GroupValue(FirstPart(insts[k]), insts, k);
        GroupGetsOn(known, m, env, insts, k, st, q);
        CodeSimulates(known, m, env, insts, k + GroupLength(insts, k), Pushed(st, [w]), Set(q, R(|st.stack|), w));
      } else {
        var st', q' := InstGetsOn(known, m, env, insts, k, st, q);
        CodeSimulates(known, m, env, insts, k + 1, st', q');
      }
    }
  }

  /** The backend reads every integer constant back as the builder was given it. */
  lemma ImmediateDecodes(m: Module, env: Environment, value: Word, st: State)
    ensures IsFirst(Immediate(value)[0]) && GroupLength(Immediate(value), 0) == |Immediate(value)|
    ensures GroupValue(FirstPart(Immediate(value)[0]), Immediate(value), 0) == value
  {
    var insts := Immediate(value);
    ImmediatePushes(m, env, value, st);
    GroupRuns(m, env, insts, 0, st);
    assert insts[0..] == insts && insts[|insts|..] == [];
    var w := GroupValue(FirstPart(insts[0]), insts, 0);
    assert Pushed(st, [w]).stack[0] == w && Pushed(st, [value]).stack[0] == value;
  }

  /** The whole of a block, from the values it is entered with. */
  lemma BlockSimulates(known: Known, m: Module, env: Environment, insts: seq<Inst>, st: State, q: Registers)
    requires Translatable(known, insts, 0, |st.stack|) && Grouped(insts)
    requires ComputesKnown(known, env) && Mirrors(q, st.stack)
    ensures Run(m, env, insts, st).Ok?
    ensures Mirrors(PerformAll(CodeFrom(known, insts, 0, |st.stack|), q), Run(m, env, insts, st).state.stack)
  {
    if insts != [] {
      assert InGroup(insts, 0);
    }
    CodeSimulates(known, m, env, insts, 0, st, q);
    assert insts[0..] == insts;
  }

  // ----- the code generator's loop -----

  /** One instruction: what is written, and the stack's count of registers after it. */
  method GenerateInst(known: Known, insts: seq<Inst>, ip: nat, depth: nat) returns (code: seq<Op>, vstack: nat)
    requires ip < |insts| && Supported(known, insts[ip]) && Needs(insts[ip]) <= depth
    ensures code == CodeAt(known, insts, ip, depth) && vstack == DepthAfterInst(insts[ip], depth)
  {
    code, vstack := [], depth;
    match insts[ip] {
      case Push(v) =>
        code := [Copy(R(vstack), Literal(GroupValue(v, insts, ip)))];
        vstack := vstack + 1;
      case PushN(v) =>
        code := [Copy(R(vstack), Literal(GroupValue(ALL_ONES - v, insts, ip)))];
        vstack := vstack + 1;
      case Cc(cc) =>
        code := [Compare(R(vstack - 1), ConditionOf(cc), Reg0(vstack - 1), Literal(0))];
      case Pop(idx) =>
        code := GenerateShift(vstack - 1 - idx, vstack - 1);
        vstack := vstack - 1;
      case PopTop =>
        vstack := vstack - 1;
      case Pick(idx) =>
        code := [Copy(R(vstack), Reg0(vstack - 1 - idx))];
        vstack := vstack + 1;
      case Dup =>
        code := [Copy(R(vstack), Reg0(vstack - 1))];
        vstack := vstack + 1;
      case Roll(idx) =>
        var shift := GenerateShift(vstack - 1 - idx, vstack - 1);
        code := [Copy(Tmp, Reg0(vstack - 1 - idx))] + shift + [Copy(R(vstack - 1), FromReg(Tmp))];
      case Swap =>
        var shift := GenerateShift(vstack - 2, vstack - 1);
        code := [Copy(Tmp, Reg0(vstack - 2))] + shift + [Copy(R(vstack - 1), FromReg(Tmp))];
      case CallBuiltin(b, _) =>
        code := ArithmeticCode(known[b.impl.id], vstack - 2);
        vstack := vstack - 1;
      case _ =>
    }
  }

  /** Writes the code of a block, counting the stack's registers as it goes. */
  method Generate(known: Known, insts: seq<Inst>, inputs: nat) returns (code: seq<Op>)
    requires Translatable(known, insts, 0, inputs)
    ensures code == CodeFrom(known, insts, 0, inputs)
  {
    code := [];
    var vstack, ip := inputs, 0;
    while ip < |insts|
      invariant 0 <= ip <= |insts|
      invariant Translatable(known, insts, ip, vstack)
      invariant code + CodeFrom(known, insts, ip, vstack) == CodeFrom(known, insts, 0, inputs)
    {
      var ops, after := GenerateInst(known, insts, ip, vstack);
      ConcatAgain(code, ops, CodeFrom(known, insts, ip + 1, after));
      code, vstack, ip := code + ops, after, ip + 1;
    }
    assert code + [] == code;
  }

  lemma ConcatAgain(a: seq<Op>, b: seq<Op>, c: seq<Op>)
    ensures (a + b) + c == a + (b + c)
  {
  }

  lemma ShiftSnoc(from: nat, n: nat)
    ensures Shift(from, n + 1) == Shift(from, n) + [Copy(R(from + n), Reg0(from + n + 1))]
    decreases n
  {
    if n > 0 {
      ShiftSnoc(from + 1, n - 1);
    }
  }

  /** The loop that moves registers down by one. */
  method GenerateShift(from: nat, to: nat) returns (code: seq<Op>)
    requires from <= to
    ensures code == Shift(from, to - from)
  {
    code := [];
    var i := from;
    while i < to
      invariant from <= i <= to
      invariant code == Shift(from, i - from)
    {
      ShiftSnoc(from, i - from);
      code := code + [Copy(R(i), Reg0(i + 1))];
      i := i + 1;
    }
  }

  // ----- blocks made by the builder are grouped -----

  lemma GroupedConcat(a: seq<Inst>, b: seq<Inst>)
    requires Grouped(a) && Grouped(b)
    ensures Grouped(a + b)
  {
    forall k | 0 <= k < |a + b| ensures InGroup(a + b, k) {
      if k < |a| {
        assert InGroup(a, k);
      } else {
        assert InGroup(b, k - |a|);
      }
    }
  }

  lemma GroupedPrefix(a: seq<Inst>, n: nat)
    requires Grouped(a) && n <= |a|
    ensures Grouped(a[..n])
  {
    forall k | 0 <= k < n ensures InGroup(a[..n], k) {
      assert InGroup(a, k);
    }
  }

  lemma {:induction false} PopTopNGrouped(b: Build, n: nat)
    requires Grouped(b.insts)
    ensures Grouped(PopTopN(b, n).insts)
    decreases |b.insts|
  {
    if n > 0 {
      if LastRemoval(b) == Stays {
        GroupedConcat(b.insts, PopTops(n));
      } else {
        GroupedPrefix(b.insts, |b.insts| - 1);
        PopTopNGrouped(DeleteLast(b), LeftToPop(LastRemoval(b), n));
      }
    }
  }

  lemma {:induction false} UintsGrouped(b: Build, values: seq<Word>)
    requires Grouped(b.insts)
    ensures Grouped(PushUints(b, values).insts)
  {
    if values != [] {
      UintsGrouped(b, values[1..]);
      GroupedConcat(PushUints(b, values[1..]).insts, Immediate(values[0]));
    }
  }

  lemma BuiltinGrouped(m: Module, builtin: Builtin, b: Build)
    requires Grouped(b.insts)
    ensures Grouped(EmitBuiltin(m, builtin, b).insts)
  {
    var n := builtin.sig.inputs;
    if n <= |b.vstack| {
      PopTopNGrouped(Discard(b, n), n);
      if AllConstant(b.vstack[..n]) && m.fold(builtin, ConstantsOf(b.vstack[..n])).Some? {
        UintsGrouped(PopTopN(Discard(b, n), n), m.fold(builtin, ConstantsOf(b.vstack[..n])).value);
      }
      GroupedConcat(b.insts, [Inst.CallBuiltin(builtin, !(builtin.noProcess && builtin.noPanic)),
                              Inst.CallBuiltinSig(builtin.sig)]);
    }
  }

  lemma AccessGrouped(m: Module, b: Build, deref: Inst, field: nat, builtin: Builtin)
    requires Grouped(b.insts) && !deref.Push2? && !deref.Push3?
    ensures Grouped(EmitAccess(m, b, deref, field, builtin).insts)
  {
    if field < TWO_64 {
      GroupedConcat(b.insts, [deref]);
      GroupedConcat(b.insts + [deref], Immediate(field));
      BuiltinGrouped(m, builtin, PushUint(PushValues(Append(b, [deref]), [Unknown]), field));
    }
  }

  /** What each call leaves is what was there, some of it deleted from the end, and a grouped list. */
  lemma EmitGrouped(m: Module, op: Builder.Op, b: Build)
    requires Grouped(b.insts)
    ensures Grouped(Emit(m, op, b).insts)
  {
    if b.terminated || b.errored {
    } else if op.LoadField? || op.StoreField? {
      LoadStoreGrouped(m, op, b);
    } else if op.CallBuiltin? {
      BuiltinGrouped(m, op.builtin, b);
    } else {
      SimpleGrouped(m, op, b);
    }
  }

  lemma LoadStoreGrouped(m: Module, op: Builder.Op, b: Build)
    requires Grouped(b.insts) && (op.LoadField? || op.StoreField?)
    ensures Grouped(Emit(m, op, b).insts)
  {
    if b.vstack != [] && !b.terminated && !b.errored {
      var popped := Discard(b, 1);
      PopTopNGrouped(popped, 1);
      if |b.vstack| >= 2 {
        PopTopNGrouped(Discard(b, 2), 2);
      }
      var rest := PopTopN(popped, 1).insts;
      GroupedConcat(rest, Immediate(0));
      match FoldAccess(m, b.vstack[0], op.ty, op.StoreField?) {
        case ToLocal(l) =>
          GroupedConcat(rest, [if op.LoadField? then Inst.LoadLocalValue(m.locals[l].index % 0x100, m.locals[l].offset)
                               else Inst.StoreLocalValue(m.locals[l].index % 0x100, m.locals[l].offset)]);
        case ToGlobal(g) =>
          GroupedConcat(rest, [if op.LoadField? then Inst.LoadGlobalValue(g % TWO_24)
                               else Inst.StoreGlobalValue(g % TWO_24)]);
        case Dynamic =>
          var load := if op.ty == ValueType || op.ty.load.None? then LoadValue else Other(op.ty.load.value);
          var store := if op.ty == ValueType || op.ty.store.None? then StoreValue else Other(op.ty.store.value);
          var impl := if op.LoadField? then load else store;
          if op.LoadField? {
            AccessGrouped(m, popped, Inst.DerefConst(TypeLayout(op.ty)), op.field, FieldBuiltin(impl, 2, 1));
          } else {
            AccessGrouped(m, popped, Inst.DerefMut(TypeLayout(op.ty)), op.field, FieldBuiltin(impl, 3, 0));
          }
      }
    }
  }

  predicate IsPart(i: Inst) { i.Push2? || i.Push3? }

  /** A list that was cut at the end and then got one instruction that is no part of a value. */
  lemma CutAndOne(b: Build, k: nat, i: Inst)
    requires Grouped(b.insts) && !IsPart(i)
    ensures Grouped(PopTopN(b, k).insts) && Grouped(PopTopN(b, k).insts + [i]) && Grouped(b.insts + [i])
    ensures Grouped(PopTopN(b, k).insts + []) && Grouped(b.insts + [])
  {
    PopTopNGrouped(b, k);
    GroupedConcat(PopTopN(b, k).insts, [i]);
    GroupedConcat(b.insts, [i]);
    assert b.insts + [] == b.insts && PopTopN(b, k).insts + [] == PopTopN(b, k).insts;
  }

  /** The calls that append at most one instruction, after deleting some. */
  lemma SimpleGrouped(m: Module, op: Builder.Op, b: Build)
    requires Grouped(b.insts) && !op.LoadField? && !op.StoreField? && !op.CallBuiltin? && !b.errored && !b.terminated
    ensures Grouped(Emit(m, op, b).insts)
  {
    var top := if b.vstack == [] then b else Discard(b, 1);
    match op {
      case Uint(value) => GroupedConcat(b.insts, Immediate(value));
      case Null => CutAndOne(b, 0, Inst.PushN(0));
      case GlobalAddr(g) => if g < TWO_24 { CutAndOne(b, 0, Inst.GlobalAddr(g)); }
      case LocalAddr(l) =>
        if l < |m.locals| && m.locals[l].index < 0x100 { CutAndOne(b, 0, Inst.LocalAddr(m.locals[l].index)); }
      case FunctionAddr(f, _) => CutAndOne(b, 0, Inst.FunctionAddr(f));
      case Cc(cc) =>
        CutAndOne(top, 1, Inst.Cc(cc));
        if b.vstack != [] && b.vstack[0].Constant? {
          CutAndOne(top, 1, Inst.Push(Truth(Holds(cc, Signed(b.vstack[0].w)))));
        }
      case Pop(idx) =>
        if idx < |b.vstack| { CutAndOne(b.(vstack := b.vstack[..idx] + b.vstack[idx + 1..]), 1, Inst.Pop(idx)); }
      case Pick(idx) => CutAndOne(b, 0, if idx == 0 then Inst.Dup else Inst.Pick(idx));
      case Roll(idx) => CutAndOne(b, 0, if idx == 1 then Inst.Swap else Inst.Roll(idx));
      case Select(count) => if count >= 2 { CutAndOne(b, 0, Inst.Select(count - 1)); }
      case ArrayElement(element) => ElementGrouped(element, b);
      case AggregateMember(members, member) =>
        if member < |members| && !(exists k :: 0 <= k < |members| && members[k].alignment == 0)
           && 0 <= MemberOffset(members, member) < TWO_24 {
          CutAndOne(b, 0, Inst.AggregateMember(MemberOffset(members, member)));
        }
      case Call(f) => CutAndOne(b, 0, Inst.Call(f));
      case CallIndirect(sig) =>
        CutAndOne(b, 0, Inst.CallIndirect(sig));
        if sig.inputs < |b.vstack| && ConstantFunction(m, b.vstack[0], sig).Some? {
          CutAndOne(Discard(b, sig.inputs + 1), 1, Inst.Call(ConstantFunction(m, b.vstack[0], sig).value));
        }
      case PanicIf => CutAndOne(b, 0, Inst.PanicIf);
      case Fiber(kind, sig) => CutAndOne(b, 0, Inst.Fiber(kind, sig));
    }
  }

  lemma ElementGrouped(element: Layout, b: Build)
    requires Grouped(b.insts)
    ensures Grouped(EmitArrayElement(element, b).insts)
  {
    if |b.vstack| >= 2 && element.alignment > 0 {
      var multiple := RoundUp(element.size, element.alignment);
      if b.vstack[0].Constant? {
        var offset := Signed(b.vstack[0].w) * multiple;
        CutAndOne(Discard(b, 2), 1, Inst.AggregateMember(if 0 <= offset < TWO_24 then offset else 0));
      } else if multiple < TWO_24 {
        CutAndOne(b, 0, Inst.ArrayElement(multiple));
      }
    }
  }

  /** Every block the builder makes can be handed to the simulation. */
  lemma {:induction false} BuilderGroups(m: Module, ops: seq<Builder.Op>, inputs: nat, count: int)
    ensures Grouped(EmitAll(m, ops, Fresh(inputs, count)).insts)
  {
    if ops != [] {
      BuilderGroups(m, ops[..|ops| - 1], inputs, count);
      EmitGrouped(m, ops[|ops| - 1], EmitAll(m, ops[..|ops| - 1], Fresh(inputs, count)));
    }
  }
}
