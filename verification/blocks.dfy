// A function body as a graph of basic blocks, and what running the graph means.

module Blocks {
  import opened Words
  import opened Allocations
  import opened Bytecode
  import opened Vm

  /** The comparison of a two-way terminator: the first successor is taken when the popped value
      meets the first condition, the second one otherwise. */
  datatype BranchKind = NeEq | LtGe | LeGt

  function First(kind: BranchKind): Condition {
    match kind case NeEq => Ne case LtGe => Lt case LeGt => Le
  }

  function Opposite(kind: BranchKind): Condition {
    match kind case NeEq => Eq case LtGe => Ge case LeGt => Gt
  }

  datatype Terminator =
    | Unterminated
    | Terminated
    | ReturnTo
    | JumpTo(next0: nat)
    | BranchTo(kind: BranchKind, next0: nat, next1: nat)
    | PanicOut

  datatype CodeBlock = CodeBlock(sig: Signature, insts: seq<Inst>, terminator: Terminator)

  /** `freeCount` is the number of locals a return frees, 0 if it frees none. */
  datatype Body = Body(blocks: seq<CodeBlock>, freeCount: U24)

  datatype Result = Returned(state: State) | PanickedOut | Stuck

  /** Where control is after some steps. */
  datatype Control = At(place: int, state: State) | Over(result: Result)

  function Successors(t: Terminator): seq<nat> {
    match t
    case JumpTo(n) => [n]
    case BranchTo(_, n0, n1) => [n0, n1]
    case _ => []
  }

  /** `return_free`: the frame's locals are marked freed in turn, and the freed slots at the end of
      the table are dropped. */
  function FreeLocals(table: seq<Allocation>, first: nat, count: nat): Option<seq<Allocation>>
    decreases count
  {
    if count == 0 then Some(table)
    else if first >= |table| || table[first].split != Unsplit then None
    else FreeLocals(table[first := table[first].(status := Freed)], first + 1, count - 1)
  }

  function DropFreed(table: seq<Allocation>): (r: seq<Allocation>)
    ensures r <= table
    ensures r == [] || r[|r| - 1].status != Freed
  {
    if table == [] || table[|table| - 1].status != Freed then table
    else DropFreed(table[..|table| - 1])
  }

  function RemoveFreed(memory: Memory): Memory {
    var kept := DropFreed(memory.allocations);
    if kept == memory.allocations then memory
    else memory.(allocations := kept, generation := (memory.generation + 1) % 0x100)
  }

  function FreeAndReturn(st: State, count: nat): Result {
    match FreeLocals(st.memory.allocations, st.frame.firstLocal, count)
    case None => PanickedOut
    case Some(table) => Returned(st.(memory := RemoveFreed(st.memory.(allocations := table))))
  }

  /** A return from a function that frees `count` locals, or none. */
  function ReturnWith(st: State, count: nat): Result {
    if count == 0 then Returned(st) else FreeAndReturn(st, count)
  }

  /** The terminator of a block of the graph. */
  function Leaves(t: Terminator, freeCount: nat, st: State): Control {
    match t
    case ReturnTo => Over(ReturnWith(st, freeCount))
    case PanicOut => Over(if st.stack == [] then Stuck else PanickedOut)
    case JumpTo(n) => At(n, st)
    case BranchTo(kind, n0, n1) =>
      if st.stack == [] then Over(Stuck)
      else At(if Holds(First(kind), Signed(st.stack[0])) then n0 else n1, Replace(st, 1, []))
    case _ => Over(Stuck)
  }

  function OutcomeControl(o: Outcome, place: int): Control {
    match o
    case Ok(st) => At(place, st)
    case Panicked => Over(PanickedOut)
    case Fault => Over(Stuck)
  }

  /** Running one block of the graph. */
  function RunBlock(m: Module, env: Environment, body: Body, c: Control): Control {
    match c
    case Over(_) => c
    case At(i, st) =>
      if i < 0 || i >= |body.blocks| then Over(Stuck)
      else
        match Run(m, env, body.blocks[i].insts, st)
        case Ok(st') => Leaves(body.blocks[i].terminator, body.freeCount, st')
        case o => OutcomeControl(o, i)
  }

  /** Running the graph for `n` blocks. */
  function RunGraph(m: Module, env: Environment, body: Body, n: nat, c: Control): Control {
    if n == 0 then c else RunGraph(m, env, body, n - 1, RunBlock(m, env, body, c))
  }
}
