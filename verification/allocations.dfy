// The slots of a process's memory table and the checks every access goes through.

module Allocations {
  import opened Words

  datatype Option<+T> = None | Some(value: T)

  datatype Layout = Layout(size: nat, alignment: nat)

  datatype Source = StaticConst | StaticMut | LocalMemory | HeapMemory | FiberMemory

  datatype Status = Allocated | Freed | Poison

  datatype Split = Unsplit | SplitFirst | SplitMiddle | SplitLast

  datatype Tracking = Unreachable | Reachable | ReachableExplicit

  datatype Allocation = Allocation(
    ptr: Word,
    size: U32,
    generation: U8,
    source: Source,
    status: Status,
    split: Split,
    gc: Tracking,
    weak: bool)

  predicate IsConst(source: Source) {
    source == StaticConst || source == FiberMemory
  }

  /** The distance from `address` up to the next multiple of `alignment`. */
  function AlignOffset(address: nat, alignment: nat): nat
    requires alignment > 0
  {
    var misaligned := address % alignment;
    if misaligned != 0 then alignment - misaligned else 0
  }

  predicate IsAligned(address: nat, alignment: nat)
    requires alignment > 0
  {
    AlignOffset(address, alignment) == 0
  }

  function MakeLocalAlloc(memory: Word, size: U32, generation: U8): Allocation {
    Allocation(memory, size, generation, LocalMemory, Allocated, Unsplit, ReachableExplicit, false)
  }

  function MakeHeapAlloc(memory: Word, size: nat, generation: U8): Allocation {
    Allocation(memory, size % 0x1_0000_0000, generation, HeapMemory, Allocated, Unsplit, Unreachable, false)
  }

  function MakeFiberAlloc(fiber: Word): Allocation {
    Allocation(fiber, 0, 0, FiberMemory, Poison, Unsplit, Unreachable, false)
  }

  /** The slot an address names, if its generation bits are still those of the slot. */
  function TryGet(table: seq<Allocation>, address: Word): (slot: Option<nat>)
    ensures slot.Some? ==> slot.value < |table|
  {
    var index := AddressAllocation(address);
    if index >= |table| then None
    else if table[index].generation % 4 != AddressGeneration(address) then None
    else Some(index)
  }

  /** The native pointer for an access of `layout` at `offset` into `a`, if the access is allowed. */
  function CheckedOffset(a: Allocation, offset: U32, layout: Layout): Option<Word>
    requires layout.alignment > 0
  {
    if a.status != Allocated then None
    else if offset + layout.size > a.size then None
    else
      var ptr := Wrap(a.ptr + offset);
      if !IsAligned(ptr, layout.alignment) then None else Some(ptr)
  }

  /** Address to native pointer, for reading or (`writing`) for writing. */
  function Dereference(table: seq<Allocation>, address: Word, layout: Layout, writing: bool): Option<Word>
    requires layout.alignment > 0
  {
    match TryGet(table, address)
    case None => None
    case Some(index) =>
      if writing && IsConst(table[index].source) then None
      else CheckedOffset(table[index], AddressOffset(address), layout)
  }
}
