// The instruction set: one constructor per instruction the virtual machine executes.

module Bytecode {
  import opened Words
  import opened Allocations

  datatype Signature = Signature(inputs: U8, outputs: U8)

  datatype Condition = Eq | Ne | Lt | Le | Gt | Ge

  predicate Holds(cc: Condition, s: int) {
    match cc
    case Eq => s == 0
    case Ne => s != 0
    case Lt => s < 0
    case Le => s <= 0
    case Gt => s > 0
    case Ge => s >= 0
  }

  function Truth(b: bool): Word { if b then 1 else 0 }

  /** The load and store functions of `lauf.Value`, or any other builtin. */
  datatype Implementation = LoadValue | StoreValue | Other(id: nat)

  datatype Builtin = Builtin(
    impl: Implementation,
    sig: Signature,
    noPanic: bool,
    noProcess: bool,
    vmDirective: bool,
    constantFold: bool,
    alwaysPanic: bool)

  datatype FiberKind = Resume | Transfer | Suspend

  /** A fiber handle lies below the arguments of a resume or transfer. */
  function FiberArguments(kind: FiberKind, sig: Signature): nat {
    if kind == Suspend then sig.inputs else sig.inputs + 1
  }

  datatype Inst =
      // control flow; the targets of jumps are relative to the instruction
    | Nop
    | Block(sig: Signature)
    | Return
    | ReturnFree(count: U24)
    | Jump(target: int)
    | BranchIf(cc: Condition, target: int)
    | Panic
    | PanicIf
    | Exit
      // calls
    | Call(function_: nat)
    | CallIndirect(sig: Signature)
    | CallBuiltin(builtin: Builtin, saveRegisters: bool)
    | CallBuiltinSig(sig: Signature)
    | Fiber(kind: FiberKind, sig: Signature)
      // values
    | Push(value: U24)
    | PushN(value: U24)
    | Push2(value: U24)
    | Push3(value: U24)
    | GlobalAddr(value: U24)
    | FunctionAddr(function_: nat)
    | LocalAddr(index: U8)
    | Cc(cc: Condition)
      // stack
    | Pop(idx: U16)
    | PopTop
    | Pick(idx: U16)
    | Dup
    | Roll(idx: U16)
    | Swap
    | Select(idx: U16)
      // memory
    | SetupLocalAlloc(count: U24)
    | LocalAlloc(layout: Layout)
    | LocalAllocAligned(layout: Layout)
    | LocalStorage(size: U24)
    | DerefConst(layout: Layout)
    | DerefMut(layout: Layout)
    | ArrayElement(multiple: U24)
    | AggregateMember(value: U24)
    | LoadLocalValue(index: U8, offset: U16)
    | StoreLocalValue(index: U8, offset: U16)
    | LoadGlobalValue(value: U24)
    | StoreGlobalValue(value: U24)

  datatype Global = Global(size: nat, alignment: nat, isMutable: bool, defined: bool)

  datatype Local = Local(layout: Layout, index: U16, offset: U16)

  /** What is known of the surrounding module while one of its functions is built or run. */
  datatype Module = Module(
    functions: seq<Signature>,
    globals: seq<Global>,
    locals: seq<Local>,
    fold: (Builtin, seq<Word>) -> Option<seq<Word>>)

  /** The index and the counts of a function, packed into 32 bits. */
  function AddressOfFunction(m: Module, f: nat): U32
    requires f < |m.functions|
  {
    MakeFunctionAddress(f % 0x1_0000, m.functions[f].inputs, m.functions[f].outputs)
  }

  const POINTER_ALIGNMENT := 8

  const VALUE_LAYOUT := Layout(8, 8)
}
