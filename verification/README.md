# lauf, modelled and verified in Dafny

lauf is a small virtual machine whose bytecode is made by a builder. The builder is an optimising
compiler in one pass: it follows the value stack abstractly, deletes instructions it can prove
useless, folds constants, branches, calls, loads and stores, and lays the reachable blocks out flat.
The virtual machine then runs the result without looking at the depth of its stack except at calls,
so its safety rests on the builder's bookkeeping. Programs use sandboxed memory, a table of slots
with generation-tagged addresses, a garbage collector and allocations that can be split, and fibers,
each with a value stack and a call stack.

`dafny verify dfyconfig.toml` checks the whole project.

## How it is organised

Values are words: integers below 2^64, with every wrap-around, truncation and sign written out. The
top of a value stack is element 0. What happens outside (a callee as one function sees it, a builtin,
the host allocator, the operating system, the size a stack grows to) is a parameter.

**The builder and the machine it targets.**
`words`, `allocations`, `bytecode` and `vm` are the words, the checked addresses, the instruction set
and one function case per instruction handler (`Vm.Execute`). `layouts` is the layout arithmetic.
`builder` gives every emitter as a function from the build so far to the build after it
(`Builder.Emit`); `asm_builder` has the same emitters as methods on builder and block objects that
push to and pop from instruction lists, proved to do exactly that. `meaning` says what a builder call
promises without looking at any instruction (`Meaning.Means`), and `refinement` proves that the
optimised instructions keep the promise, as long as no folding takes a constant that is not what the
machine holds. Two constants are such: `null`, and the upper half of a function's address. `exactness`
says for each folding when it may take them, and gives inputs for which it goes wrong; `faith` proves
that noting which constants these are changes nothing the builder does. `blocks` runs a function as a graph, `flat` lays it out and
proves that nothing changes, `emission` is the code that writes it: the depth-first estimate, the
prologue, both body layouts, the patching, all on arrays. `compiler`, `depth`, `emitted`, `compiled`,
`locals`, `address_count`, `local_slots`, `direct_locals` and `typing` join these into theorems about
whole functions. `machine`, `scheduling`, `saved_stacks`, `stack_safety` and `no_faults` are the
machine across calls and fibers, and `leaf_functions` connects it with the machine that runs one
function; `interpreter` and `process` are its handlers and its fiber switches in the form the source
has, on a stack of cells that grows downwards and on a process object. `qbe` is the translation of straight-line code for the
QBE backend.

**The sandboxed memory.** `slot_table` is the table as an object, with the collector's worklist loops
and all slot operations as methods. `collector` defines reachability from the collector's own roots,
`pieces` splitting and merging, `ledger` the books kept with the host allocator, and `generations`
what the two generation bits of an address catch.

**Stacks and pages.** `call_stack` is the call stack of linked pages, `page_cache` the page allocator
below it.

The main theorems build on one another as follows. `Refinement.BlockRefines`,
`Compiler.SourceRefines` and `Flat.GraphSimulates` give `CompiledFunctions.CompilationCorrect`; with
the prologue that is `FunctionCorrect` and `DirectLocals.DirectFunctionCorrect`.
`Depth.BlockBalanced` and `Typing.CompiledIsTyped` type every function that was built without an
error, `Scheduling.StepSchedules` keeps the chain of fibers, and both give
`StackSafety.BuiltProgramsAreSafe` for every run of every such program. With what the builder puts into
blocks (`EmittedCode.BlockEmitted`) and where saved stack pointers lead (`SavedStacks.StepPoints`) that
becomes `NoFaults.BuiltProgramsNeverFault`.

## Where the code departs from what it intends

Each of these is a theorem with the exact condition, or a witness.

- `null` is tracked as the constant 0 but pushes all ones (`NullIsMistracked`). Moving, storing or
  returning it is right. What is folded on it is right exactly for the comparisons `le` and `gt`, and
  wrong for `eq`, `ne`, `lt` and `ge` (`CcExact`, `NullComparesExactly`), for every branch
  (`BranchExact`), and in general for builtins (`ArgumentsExact`). An indirect call of it is made a call
  of function 0, and an access through it an access to global 0 (`NullIsCalled`, `NullIsLoaded`).
- A function address has four bytes, and a value eight. The instruction leaves the other four as the
  stack cell had them, the builder's constant leaves them uninitialised (`FunctionAddrTracked`). Indirect
  calls do not look at them. Comparisons and branches do, so `function_addr` followed by `cc lt` can push
  1 and be folded to 0 (`FunctionAddrMiscompiles`).
- A constant negative array index emits no offset: the address stays where it was (`ConstantIndexExact`,
  `NegativeIndexMiscompiles`).
- The test for "the plain address of a global" joins with `&&` what should be joined with `||`, so a
  constant address into the middle of a global is folded to its start (`GlobalLoadExact`).
- An indirect call on a constant is made direct if the counts packed in the constant are those of the call;
  the machine compares the same. A program can pack others than the function's own. The depths stay right
  exactly if the function takes no more than there is and changes the depth by as much as the call
  (`IndirectBalanced`, `IndirectCallExact`); otherwise the function reads below its caller's values
  (`ForgedCallUnderflows`).
- The count of `local_addr` instructions has 16 bits: a function with 2^16 of them gets no slots for its
  locals (`AllocatesWhenNeeded`, `CounterOverflows`).
- A panic of the machine hands its message on in place of the stack pointer, and that is saved with the
  fiber (`SavedExactly`). Resumed, such a fiber goes on with the message for its stack
  (`ResumingPanicked`). The collector walks the stacks of all fibers from their saved pointers, so its
  theorems are about processes in which no fiber was stopped by such a panic.
- The list of cases above `lauf_runtime_merge_allocation` leaves out a last piece followed by the
  first piece of the block that comes next in memory. The code accepts that merge, and afterwards
  neither block is tiled (`MergeKeepsTiling`, `CrossingMergeBreaks`, `CrossingMergeExample`). A split at
  offset 0 is accepted too and leaves an empty piece (`SplitKeepsTiling`, `SplitAtStartExample`).
- The comment in `page_allocator::try_extend` says that freed blocks are always merged. They are
  merged only with a free block before them (`MergesOnlyForward`, `NeverJoinedExample`).
- `exit` marks a fiber done before it checks the number of values, so when that check panics, the
  assertion in `suspend` fails (`MismatchExample`). So it does for a suspend to the host that waits for
  another number of values, and when the host destroys a fiber one of whose locals is in pieces.
  `StepSchedules` shows that these are the only ways in which a status assertion fails.

## Model

| member | source | states |
|---|---|---|
| `Refinement.EmitFollows` | src/lauf/asm/builder.cpp:734-1383 | One builder call, whatever it deletes, folds or appends: if the block so far reaches a state that the abstract stack describes, and the call means a further state, the block now reaches exactly that state and the new abstract stack is true of it: constants, but for what is noted of `null` and of the upper halves of function addresses, and addresses of locals. It holds wherever the folding on the constant at hand is exact (`Guarded`). |
| `Refinement.BlockRefines` | src/lauf/asm/builder.cpp:734-1383 | For every list of builder calls on a block, in which nothing is folded on a constant that is not exact for it: if what the calls mean one by one does not panic, the optimised list gives the same stack and memory from every starting state, and what the builder tracks at any stack position is what the machine holds there. |
| `Refinement.PopTopNRuns` | src/lauf/asm/builder.cpp:21-111 | Deleting backwards through pushes, rewrites and binary operations, and popping what is left, leaves the stack without its top `n` values and everything else as it was. |
| `Refinement.CcFollows` | src/lauf/asm/builder.cpp:1052-1111 | A comparison, folded on a constant or emitted, pushes 1 exactly if the condition holds of the signed value that the machine holds; on a constant, whenever `ExactCc`. |
| `Refinement.RollRuns` | src/lauf/asm/builder.cpp:1165-1179 | Nothing, `swap` or `roll`, depending on the position, all move the value at the position to the top. |
| `Refinement.LocalDereference` | src/lauf/asm/builder.cpp:1250-1295 | When the access to a tracked local address is allowed by the checks at run time, the checked pointer is the frame's base plus the local's build-time offset, so the unchecked access that replaces it reads or writes the same word. |
| `Refinement.GlobalPointer` | src/lauf/asm/builder.cpp:1263-1289 | When the access through a constant that is folded to a global, with offset and generation 0 and whatever upper half the machine holds, is allowed, its checked pointer is the start of that global's memory. |
| `Exactness.NullIsMistracked` | src/lauf/asm/builder.cpp:993-1000 | After `null` the code pushes what it should, but the tracked constant is another word in every run. |
| `Exactness.FunctionAddrTracked` | src/lauf/asm/builder.cpp:1031-1044 | After `function_addr` the code pushes what it should, and the tracked constant has the same lower half; it is the same word if and only if its uninitialised upper half happens to be that of the stack cell. |
| `Exactness.CcExact` | src/lauf/asm/builder.cpp:1052-1111 | A comparison folded on a tracked constant is right for everything the machine may hold if and only if `ExactCc`: always for an exact constant, for a function address exactly for `eq` and `ne` and with something in its lower half, and for `null` exactly for `le` and `gt`. |
| `Exactness.BranchExact` | src/lauf/asm/builder.cpp:638-722 | A branch folded on a tracked constant goes the right way for everything the machine may hold if and only if the constant is exact, or is a function address with something in its lower half. |
| `Exactness.NullComparesExactly` | src/lauf/asm/builder.cpp:993-1000 | `null` compared with zero compiles to what it means if and only if the condition is `le` or `gt`; for the other four it pushes the opposite. |
| `Exactness.FunctionAddrMiscompiles` | src/lauf/vm_execute.cpp:510-522 | A function address that is pushed where the sign bit is left over, and compared with `lt`, means 1 and compiles to code that pushes 0. |
| `Exactness.ConstantIndexExact` | src/lauf/asm/builder.cpp:1195-1219 | A constant array index, whatever is noted of it, is compiled to its meaning if and only if the offset that is added for it, none if it is negative, agrees modulo 2^32; the upper half of a function address does not matter, and `null` is the index -1. |
| `Exactness.NegativeIndexMiscompiles` | src/lauf/asm/builder.cpp:1195-1219 | The address of a global and the index -1: what it means lies 8 bytes before what the code pushes. |
| `Exactness.FoldedBuiltinExact` | src/lauf/asm/builder.cpp:808-875 | A builtin call that is folded is compiled to its meaning if and only if the builtin gives the same results for the words the machine holds as for the tracked ones. |
| `Exactness.ArgumentsExact` | src/lauf/asm/builder.cpp:808-875 | Whatever a builtin computes, folding it is right if and only if all its arguments are exact, or it is not folded anyway. |
| `Exactness.GlobalLoadExact` | src/lauf/asm/builder.cpp:1272-1289 | Folding a load through a constant address, exact or that of a function, to a load of the global is right in every state if and only if the address is the global's start or can never be read. |
| `Exactness.NullIsCalled` | src/lauf/asm/builder.cpp:748-790 | An indirect call of `null` without arguments and results should panic, and is compiled to a call of function 0. |
| `Exactness.NullIsLoaded` | src/lauf/asm/builder.cpp:1250-1295 | A load through `null` should panic, and is compiled to a load of global 0 if there is one large enough. |
| `Faithless.EmitAlike` | src/lauf/asm/builder.cpp:734-1383 | No builder call depends on what is noted of the constants: from builds that differ only in that, it makes builds that differ only in that. |
| `Faithless.EndAlike` | src/lauf/asm/builder.cpp:611-732 | The same for the ends of blocks, which get the same terminator. |
| `Immediates.ImmediatePushes` | src/lauf/asm/builder.cpp:937-967 | The push instructions emitted for any 64-bit value leave exactly that value on top of any stack. |
| `Immediates.ImmediateIsShortest` | src/lauf/asm/builder.cpp:937-967 | No sequence of the four push instructions that pushes just the value is shorter. |
| `AsmBuilders.AsmBlock.RollValue` | src/lauf/asm/builder.hpp:112-131 | The loop that shifts the cells of the abstract stack moves the value at the position to the top and the ones above it down by one. |
| `AsmBuilders.AsmBlock.PopValues` | src/lauf/asm/builder.hpp:94-105 | Popping succeeds exactly if the values are there, and takes them off; otherwise the abstract stack is empty afterwards. |
| `AsmBuilders.AsmBuilder.AddPopTopN` | src/lauf/asm/builder.cpp:21-111 | The loop over the end of the instruction list deletes and pops just what its specification does, and lowers the count of taken local addresses by those it deletes. |
| `AsmBuilders.AsmBuilder.Uint` | src/lauf/asm/builder.cpp:937-974 | The emitter leaves its block as `Emit` does, and the builder valid: its counter is the number of `local_addr` instructions. |
| `AsmBuilders.AsmBuilder.LocalAddr` | src/lauf/asm/builder.cpp:1016-1029 | The same for the address of a local, which raises the count. |
| `AsmBuilders.AsmBuilder.Cc` | src/lauf/asm/builder.cpp:1052-1111 | The same for a comparison in all its folded forms. |
| `AsmBuilders.AsmBuilder.Pop` | src/lauf/asm/builder.cpp:1135-1149 | The same for popping at a position. |
| `AsmBuilders.AsmBuilder.Pick` | src/lauf/asm/builder.cpp:1151-1163 | The same for duplicating a value. |
| `AsmBuilders.AsmBuilder.Roll` | src/lauf/asm/builder.cpp:1165-1179 | The same for moving a value to the top. |
| `AsmBuilders.AsmBuilder.Select` | src/lauf/asm/builder.cpp:1181-1193 | The same for selecting one of several values. |
| `AsmBuilders.AsmBuilder.ArrayElement` | src/lauf/asm/builder.cpp:1195-1219 | The same for indexing, with the index constant or not. |
| `AsmBuilders.AsmBuilder.AggregateMember` | src/lauf/asm/builder.cpp:1221-1240 | The same for the address of a member. |
| `AsmBuilders.AsmBuilder.CallBuiltin` | src/lauf/asm/builder.cpp:792-875 | The same for a builtin: the loop that pops constant arguments, the folded call, the loop that pushes its results, or the emitted call; one that always panics ends the block. |
| `AsmBuilders.AsmBuilder.Call` | src/lauf/asm/builder.cpp:734-746 | The same for a direct call. |
| `AsmBuilders.AsmBuilder.CallIndirect` | src/lauf/asm/builder.cpp:748-790 | The same for an indirect call, made direct if the address is a constant of a function with that signature. |
| `AsmBuilders.AsmBuilder.LoadField` | src/lauf/asm/builder.cpp:1297-1339 | The same for a load, folded to a local or a global or through a checked pointer. |
| `AsmBuilders.AsmBuilder.StoreField` | src/lauf/asm/builder.cpp:1341-1383 | The same for a store. |
| `AsmBuilders.AsmBuilder.Fiber` | src/lauf/asm/builder.cpp:905-935 | The same for the three fiber instructions. |
| `AsmBuilders.AsmBuilder.Return` | src/lauf/asm/builder.cpp:611-622 | Ends the current block with a return, or with an error exactly if the stack does not hold the outputs. |
| `AsmBuilders.AsmBuilder.Jump` | src/lauf/asm/builder.cpp:624-636 | Ends the current block with a jump, if the stack holds what the target takes. |
| `AsmBuilders.AsmBuilder.Branch` | src/lauf/asm/builder.cpp:638-722 | Ends the current block as specified, on a constant, with equal targets, fused with a comparison or on the value; it returns the target exactly if the direction is known. |
| `AddressCount.EmitCounted` | src/lauf/asm/builder.cpp:46-57 | Every builder call, whatever it deletes or folds, changes the shared count of taken local addresses by the change of the number of `local_addr` instructions in its block. |
| `AddressCount.CountIsTotal` | src/lauf/asm/builder.cpp:1016-1029 | However calls on different blocks and the ends of blocks are interleaved, the count is the number of `local_addr` instructions in all blocks. |
| `AddressCount.AllocatesWhenNeeded` | src/lauf/asm/builder.cpp:215-258 | With the 16-bit counter, a function that takes a local's address gets its allocations if and only if the number of such instructions is not a multiple of 2^16, so always below that. |
| `AddressCount.CounterOverflows` | src/lauf/asm/builder.hpp:218 | A session of 2^16 calls of `local_addr`, on two blocks: no error is reported, both are within the depth limit, and the counter ends at 0. |
| `LocalSlots.CounterOf` | src/lauf/asm/builder.hpp:218 | Over any calls on any blocks, the counter that decides about the prologue is the number of `local_addr` instructions in all blocks of the function, modulo 2^16. |
| `LocalSlots.AddressesHaveSlots` | src/lauf/vm_execute.cpp:788-807 | If that number is no multiple of 2^16: in a new frame, after the prologue, every `local_addr` of every block finds the slot of its own local, one of those the prologue made. |
| `LocalSlots.ReturnFreesThem` | src/lauf/vm_execute.cpp:211-228 | A return frees exactly the slots that the function's prologue made, none if it made none, and panics exactly if one of them is in pieces. |
| `LocalSlots.CompiledIsFlat` | src/lauf/asm/builder.cpp:382-426 | For a function that the builder made, both layouts of the body are the same code: a single block never ends in a two-way branch. |
| `Depth.EmitBalanced` | src/lauf/asm/builder.cpp:734-1383 | A builder call keeps the abstract depth equal to the depth the block's instructions have when run, never below the block's inputs and never above the recorded maximum, if and only if it is not an indirect call that is folded to a function of other counts (`Genuine`). |
| `Depth.IndirectBalanced` | src/lauf/asm/builder.cpp:748-790 | An indirect call keeps the depths right if and only if it is not folded, or the function takes no more values than there are and changes the depth by as much as the signature of the call says. |
| `Depth.ForgedCallUnderflows` | src/lauf/asm/builder.cpp:748-790 | A constant whose packed counts are 0 and 0, for a function that takes two values, called as taking none: the block builds without an error to a call below the bottom of the stack. |
| `EmittedCode.BlockEmitted` | src/lauf/asm/builder.cpp:611-1383 | Whatever calls it is built from, a block holds no jump and no instruction of the prologue; its functions, globals and locals exist, its layouts can be checked, and its builtins are called with the registers saved unless they never need them. |
| `Depth.BlockBalanced` | src/lauf/asm/builder.hpp:51-160 | The same for every list of calls on a block, however it was optimised. |
| `Compiler.SourceBlockRefines` | src/lauf/asm/builder.cpp:611-732 | One block with its end: where its builder calls mean to go, and in what state, is where its instructions and its terminator go, also when the branch is folded or fused. |
| `Compiler.SourceRefines` | src/lauf/asm/builder.cpp:611-732 | The same for any number of blocks in turn. |
| `Flat.GraphSimulates` | src/lauf/asm/builder.cpp:261-379 | Any number of blocks of the graph are at least as many steps of the flat code, to the same place in the same state: fallthrough without a jump, inverted conditions and patched distances change nothing. |
| `Flat.LinearisationCorrect` | src/lauf/asm/builder.cpp:261-379 | From the entry block, the graph ends with a result if and only if the flat code ends with that result. |
| `Flat.JumpsLandOnBlocks` | src/lauf/asm/builder.cpp:358-378 | Every jump of the flat code lands just after the `block` marker of a reachable successor, and its distance fits its 24 bits. |
| `Emission.Visit` | src/lauf/asm/builder.cpp:160-201 | The recursive visit of the estimate, on an array of marks: it marks exactly what it should, adds up the costs of what it newly marked and reports an unterminated block. |
| `Emission.EstimateInstCount` | src/lauf/asm/builder.cpp:151-213 | The estimate ends on every graph, cyclic or not; it marks exactly the blocks that a path from the entry reaches, and is at least what the prologue and the body will take. |
| `Emission.CodeFitsCost` | src/lauf/asm/builder.cpp:164-196 | No block takes more instructions than it was estimated to. |
| `Emission.EmitPrologue` | src/lauf/asm/builder.cpp:215-258 | The loop writes the prologue of either form. |
| `Emission.EmitBody` | src/lauf/asm/builder.cpp:261-379 | Writing the reachable blocks in order and then patching all recorded jumps leaves exactly the flat code, after what was there before, within the estimated space. |
| `Emission.EmitLinearBody` | src/lauf/asm/builder.cpp:382-426 | The layout for a single block: the flat code without any jump, and for a two-way branch, which can only lead back, a pop and a jump to the start. |
| `Emission.LoopingLeaves` | src/lauf/asm/builder.cpp:382-426 | That pop and jump do what the branch does. |
| `Emission.LargestDepth` | src/lauf/asm/builder.cpp:488-499 | The loop finds the largest of the blocks' depths. |
| `Emission.PatchesFit` | src/lauf/asm/builder.cpp:261-300 | At most two patches per block are recorded. |
| `Emission.BuildFinish` | src/lauf/asm/builder.cpp:459-503 | Finishing a build gives the prologue and the body's code of exactly the reachable blocks, and succeeds if and only if no error was reported, all reachable blocks are terminated, layouts of locals, code and depth fit their fields; the recorded depth is then the largest of all blocks. |
| `CompiledFunctions.CompiledWellFormed` | src/lauf/asm/builder.cpp:808-875 | A function built without an error has only straight code in its blocks, and a block that ends in a call that always panics can not be run to its end. |
| `CompiledFunctions.CompilationCorrect` | src/lauf/asm/builder.cpp:459-503 | After any number of blocks of builder calls that have not panicked, the optimised, flat and patched code has, at least as many steps later, reached the same block in the same state or returned with the same result. |
| `CompiledFunctions.PrologueRuns` | src/lauf/asm/builder.cpp:215-258 | A call runs the prologue once and then into the entry block past its marker, which is where jumps back to the entry block land. |
| `CompiledFunctions.FunctionCorrect` | src/lauf/asm/builder.cpp:459-503 | The whole function from its call on: in a new frame, with nothing assumed of the locals' slots, its code does what its builder calls mean. |
| `DirectLocals.DirectFunctionCorrect` | src/lauf/asm/builder.cpp:244-256 | A function that takes no local's address gets room for its locals but no slots. Its code still does what its builder calls mean in a frame in which every local has a slot, step for step, until it looks up a slot that is not there or calls something that panics without it. |
| `DirectLocals.StepsSame` | src/lauf/vm_execute.cpp:788-807 | Code that takes no local's address runs the same with more slots in the table; where the two runs part, the one with fewer slots was asking for one it has not. |
| `FrameLocals.DeclaredIsLaidOut` | src/lauf/asm/builder.cpp:531-563 | For every list of locals that fits 16 bits, the recorded offset of each pointer-aligned one is the space of all before it, and the recorded size is the space of all. |
| `FrameLocals.PrologueAllocates` | src/lauf/vm_execute.cpp:665-706 | The prologue gives each local its slot at its build-time index, its memory at its build-time offset if it is pointer-aligned, aligned and inside its reserved space in any case, and ends with the frame's next offset at the builder's total. |
| `FrameLocals.PrologueReserves` | src/lauf/vm_execute.cpp:708-714 | The other form of the prologue reserves the same total and changes nothing else. |
| `FrameLocals.LocalsAreDisjoint` | src/lauf/vm_execute.cpp:678-706 | Locals lie in order, without overlap, and below the frame's next offset. |
| `FrameLocals.FreeLocalsEffect` | src/lauf/vm_execute.cpp:211-228 | `return_free` marks exactly the frame's slots freed, and panics if and only if one of them is split. |
| `Layouts.AggregateLayout` | src/lauf/asm/type.cpp:18-33 | The loop computes the layout of the whole list of members. |
| `Layouts.MembersInOrder` | src/lauf/asm/type.cpp:18-33 | Each member's offset is a multiple of its alignment, and less than one alignment after the end of the member before it. |
| `Layouts.MembersAreDisjoint` | src/lauf/asm/type.cpp:18-33 | Members do not overlap and lie inside the aggregate. |
| `Layouts.AppendedMembersStay` | src/lauf/asm/builder.cpp:1221-1240 | Appending members moves none of those that are there. |
| `Layouts.AggregateAlignment` | src/lauf/asm/type.cpp:18-33 | For power-of-two alignments the aggregate's alignment is a power of two that every member's divides. |
| `Layouts.ArrayMembersAligned` | src/lauf/asm/type.cpp:10-16 | In an array whose base is aligned, every member of every element is aligned. |
| `Layouts.AlignUp` | src/lauf/support/align.hpp:23-28 | Adding the offset gives the next multiple of the alignment. |
| `Typing.MaxDepthBounds` | src/lauf/asm/builder.cpp:488-499 | The function's recorded maximum is at least that of each of its blocks. |
| `Typing.MaxDepthIsLargest` | src/lauf/asm/builder.cpp:488-499 | The maximum that the types use is the one that `BuildFinish` records. |
| `Typing.CompiledIsTyped` | src/lauf/asm/builder.cpp:611-757 | In the flat code of a function built without an error, at every place that can be reached the depth above the frame's base is the one the builder tracked there, at most the recorded maximum; the instruction's operands are there, and every jump, fallthrough and return arrives with the depth its target expects. |
| `Typing.DepthsAreSingle` | src/lauf/asm/builder.cpp:611-757 | Every place in the code is tracked with one depth only. |
| `Interpreters.Interpreter.ExecuteInst` | src/lauf/vm_execute.cpp:463-832 | Every straight-line handler, on the cells of a stack that grows downwards and on the registers, does what the specification of its instruction says, if its operands and room for its results are there; `function_addr` keeps the upper half of the cell it writes to. |
| `Interpreters.Interpreter.Roll` | src/lauf/vm_execute.cpp:624-635 | Moving the cells in place moves the value at the position to the top. |
| `Interpreters.Interpreter.Select` | src/lauf/vm_execute.cpp:648-662 | Selecting replaces index and values by the selected one, and panics exactly if the index is too large. |
| `Interpreters.Interpreter.Grow` | src/lauf/runtime/stack.hpp:201-217 | Growing copies the values to the end of the larger block: the stack's contents, frame and memory stay, and only the free space grows. |
| `StackSafety.HandlerEffect` | src/lauf/vm_execute.cpp:463-832 | A handler takes its operands from the top, leaves its results there, and changes nothing below. |
| `StackSafety.StepKeeps` | src/lauf/vm_execute.cpp:93-108 | Every step of the machine, including calls, stack growth, returns, fiber switches and panics, and everything the host or a builtin does with fibers, keeps all stacks of all fibers in order, if an indirect call keeps the counts (`Sound`). |
| `StackSafety.EveryRunIsSafe` | src/lauf/vm_execute.cpp:69-108 | The same over whole runs of any typed program, with one fiber running at most and all status assertions holding. |
| `StackSafety.NoUnderflow` | src/lauf/vm_execute.cpp:463-662 | In every safe state the running function's depth above its base is one its next instruction is typed with, at most the recorded maximum, and the operands are above the base. |
| `StackSafety.IndirectCallExact` | src/lauf/vm_execute.cpp:350-364 | An indirect call that the machine accepts leaves a safe state if and only if its function takes no more than the caller has above its base and changes the depth by as much as the call claims. |
| `StackSafety.LimitExactly` | src/lauf/runtime/stack.hpp:184-217 | In every safe state, at any depth of calls: the stack pointer a fiber runs or was suspended with lies in its own stack, with the 255 values kept for builtins free below it, if and only if the fiber was not stopped by a panic of the machine. |
| `StackSafety.MismatchExample` | src/lauf/vm_execute.cpp:274-312 | A process that the host starts and waits for another number of values than its root function returns: after a run with every assertion holding, the last step makes one fail. |
| `StackSafety.ReturnNets` | src/lauf/vm_execute.cpp:205-209 | When a function returns, its outputs are where its inputs were, and its caller goes on at the depth the next instruction is typed with. |
| `StackSafety.BuiltProgramsAreTyped` | src/lauf/asm/builder.cpp:488-499 | A program all of whose functions were built without an error is typed by the depths their builders tracked. |
| `StackSafety.BuiltProgramsAreSafe` | src/lauf/vm_execute.cpp:69-460 | From an empty process, in every state of every run of such a program: at most one fiber runs, all status assertions held, stack pointers lie in their own stacks above their limits exactly for the fibers that the machine did not stop by a panic, and the running function is at the depth its builder tracked with its operands there. |
| `SavedStacks.StepPoints` | src/lauf/runtime/process.cpp:339-356 | Every permitted step, of the machine, the host or a builtin, keeps all saved stack pointers where they belong: in the fiber's own stack at its depth, or at the message of the panic that stopped it; and no fiber that is resumed is given another's. |
| `SavedStacks.SavedExactly` | src/lauf/vm_execute.cpp:57-67 | The saved stack pointer of a fiber that does not run lies in its own stack if and only if it was not stopped by a panic of the machine. |
| `SavedStacks.ResumingPanicked` | src/lauf/vm_execute.cpp:367-423 | A fiber that has panicked can be resumed with no values; it then goes on with a stack pointer that is not its own if and only if it was the machine that panicked. |
| `NoFaults.StepIsTame` | src/lauf/vm_execute.cpp:194-832 | No permitted step of a typed program faults: no handler reads below its stack, leaves its code, meets an instruction of the wrong place, or looks up a slot of a global that is not there, and no fiber goes on with a stack pointer that is not its own. |
| `NoFaults.BuiltProgramsNeverFault` | src/lauf/vm_execute.cpp:194-832 | From an empty process, no run of a program that the builder finished ever faults. |
| `LeafFunctions.StepAgrees` | src/lauf/vm_execute.cpp:93-108 | One step of the machine with fibers, inside a function that calls nothing, is one step of the machine that runs a single function's code, on the same stack, frame and memory, whatever calls and fibers lie around it. |
| `LeafFunctions.StepsAgree` | src/lauf/vm_execute.cpp:93-108 | The same for any number of steps. |
| `LeafFunctions.LeafCorrect` | src/lauf/vm_execute.cpp:69-228 | A built function that calls nothing, entered by a call on any fiber: the machine gets to where its builder calls mean to be, or back to the caller with the stack and memory they mean. |
| `Scheduling.StepSchedules` | src/lauf/vm_execute.cpp:274-460 | Every permitted step keeps exactly one fiber running, the current one, with a finite duplicate-free chain of suspended parents; and the status assertions hold in it if and only if it is not an end or suspend with a number of values its receiver does not wait for, nor the host's destruction of a fiber with a local in pieces while the fiber that was current does not run. |
| `Scheduling.SwitchKeepsChain` | src/lauf/vm_execute.cpp:367-423 | A switch that the machine accepts leaves a chain of parents if and only if its target is not on the running fiber's chain. |
| `Processes.RunningProcess.TransferArguments` | src/lauf/runtime/process.hpp:72-86 | Moves the values if they are as many as expected, and otherwise nothing. |
| `Processes.RunningProcess.FiberSwitch` | src/lauf/vm_execute.cpp:367-423 | The resume and transfer instructions, as updates of the process and its fibers, do what the machine's step says, with every assertion on the way. |
| `Processes.RunningProcess.FiberSuspend` | src/lauf/vm_execute.cpp:425-460 | The same for suspending, to a parent or to the host. |
| `Processes.RunningProcess.Exit` | src/lauf/vm_execute.cpp:274-312 | The same for the end of a fiber. |
| `Processes.RunningProcess.Stop` | src/lauf/runtime/process.cpp:339-356 | The same for `lauf_runtime_panic`: the current fiber is suspended with the registers saved last. |
| `Processes.RunningProcess.Panic` | src/lauf/vm_execute.cpp:57-67 | The same for a panic of the machine, whose message is saved for the stack pointer. |
| `Processes.RunningProcess.HostResume` | src/lauf/runtime/process.cpp:206-270 | The same for a resume by the host, up to where the machine starts. |
| `Processes.RunningProcess.CreateFiber` | src/lauf/runtime/process.cpp:9-42 | A new fiber is ready and waits for the inputs of its root function; its slot is the new last one and its handle; no other fiber changes. |
| `Processes.RunningProcess.FreeFramesOf` | src/lauf/runtime/process.cpp:313-331 | The loops over the calls in progress and over the slots of each free the locals in order, up to one that is in pieces. |
| `Processes.RunningProcess.DestroyFiber` | src/lauf/runtime/process.cpp:302-337 | The locals of all calls in progress are freed, the fiber and its slot are gone and the table is trimmed; or the current fiber panics, exactly if a local is in pieces; the assertion holds exactly if the fiber was not running. |
| `SlotTables.SlotTable.NewAllocation` | src/lauf/runtime/memory.hpp:202-213 | The new slot is the last one, and its address, with offset 0, resolves to it. |
| `SlotTables.SlotTable.RemoveFreed` | src/lauf/runtime/memory.hpp:257-271 | The loop drops exactly the freed slots at the end, and raises the generation exactly if there were any. |
| `SlotTables.SlotTable.SplitUp` | src/lauf/runtime/memory.cpp:422-452 | Splits or refuses as specified; the two addresses name the two pieces. |
| `SlotTables.SlotTable.MergeUp` | src/lauf/runtime/memory.cpp:454-493 | Merges or refuses as specified. |
| `SlotTables.SlotTable.PoisonAllocation` | src/lauf/runtime/memory.cpp:402-409 | Poisons exactly an allocated slot. |
| `SlotTables.SlotTable.UnpoisonAllocation` | src/lauf/runtime/memory.cpp:411-420 | Undoes it, except for fibers. |
| `SlotTables.SlotTable.DeclareReachable` | src/lauf/runtime/memory.cpp:495-511 | Sets or takes away the explicit mark of a heap allocation, and of nothing else. |
| `SlotTables.SlotTable.DeclareWeak` | src/lauf/runtime/memory.cpp:513-530 | Sets or takes away the weak mark. |
| `SlotTables.SlotTable.HeapAlloc` | src/lauf/lib/heap.cpp:14-30 | The block from the host becomes the last slot, owned by the heap. |
| `SlotTables.SlotTable.HeapFree` | src/lauf/lib/heap.cpp:47-62 | Gives back the base pointer of a whole live heap allocation and frees its slot; anything else panics and changes nothing. |
| `SlotTables.SlotTable.CleanUp` | src/lauf/runtime/process.cpp:75-102 | The loop at the end of a process gives back the base pointers of whole blocks and of first pieces, and empties the table. |
| `SlotTables.SlotTable.FollowPending` | src/lauf/runtime/memory.cpp:359-365 | The worklist ends, each slot being pushed at most once; afterwards everything a marked, not weak slot points to is marked, and everything marked is reachable. |
| `SlotTables.SlotTable.Sweep` | src/lauf/runtime/memory.cpp:367-396 | The sweep frees exactly the unreachable unsplit heap allocations and the unreachable fibers, resets the marks, and returns the freed sizes and blocks. |
| `SlotTables.SlotTable.Collect` | src/lauf/runtime/memory.cpp:275-400 | The whole collection in terms of reachability alone: each slot is freed exactly if no path from the roots leads to it and it may be freed, nothing else changes, all marks but the explicit ones are gone, and the result is the sum of the freed sizes. |
| `Collector.MarkingIsExact` | src/lauf/runtime/memory.cpp:275-365 | A live slot that is not explicitly reachable is marked if and only if a path of aligned words through memory that is not weak leads from a root to it. |
| `Collector.ReachableSurvives` | src/lauf/runtime/memory.cpp:367-396 | Whatever a path reaches survives a collection, unchanged, and the path is still there. |
| `Collector.CollectingTwice` | src/lauf/runtime/memory.cpp:275-400 | Collecting again from the same roots frees nothing more. |
| `Pieces.SplitKeeps` | src/lauf/runtime/memory.cpp:422-452 | A split strictly inside a piece keeps all blocks exactly tiled by their pieces, in order, tagged by position. |
| `Pieces.SplitKeepsTiling` | src/lauf/runtime/memory.cpp:422-452 | A split that is accepted leaves the blocks tiled if and only if it is not at offset 0. |
| `Pieces.SplitAtStartExample` | src/lauf/runtime/memory.cpp:422-452 | A block of 8 bytes split at offset 0: accepted, and no tiling describes the table. |
| `Pieces.MergeKeepsTiling` | src/lauf/runtime/memory.cpp:454-493 | A merge that is accepted leaves the blocks tiled if and only if the first piece is not the last of its block, which is if and only if both are pieces of one block. |
| `Pieces.CrossingMergeBreaks` | src/lauf/runtime/memory.cpp:474-488 | After a merge across two blocks no tiling describes the table. |
| `Pieces.CrossingMergeExample` | src/lauf/runtime/memory.cpp:474-488 | A table of two split blocks, tiled and disjoint, the last piece of one next to the first of the other: their merge is accepted, and no tiling describes the table. |
| `Pieces.WholeAgain` | src/lauf/runtime/memory.cpp:264-273 | A live slot is unsplit, so can be freed or returned from, if and only if it is the only piece of its block, with the block's start and size. |
| `Ledgers.EventKeeps` | src/lauf/lib/heap.cpp:14-87 | Every operation on the table keeps the tiling, the disjointness and the balance: each heap block taken from the host was given back or is still there, once. |
| `Ledgers.RunKeeps` | src/lauf/lib/heap.cpp:14-87 | The same over every run, in which the tiled blocks are exactly the ones the process was ever given. |
| `Ledgers.EverythingGoesBack` | src/lauf/runtime/process.cpp:75-102 | From an empty table, over any run followed by the cleanup, each heap block is given back by its base pointer exactly as often as it was taken, also blocks that are in pieces at the end. |
| `Generations.LiveSlotStays` | src/lauf/runtime/memory.hpp:202-271 | Over any run, a slot that stays live keeps its index, its allocation and its generation. |
| `Generations.LiveAddressResolves` | src/lauf/runtime/memory.hpp:224-234 | Its address resolves to it throughout. |
| `Generations.StaleAddress` | src/lauf/runtime/memory.hpp:202-271 | What any address of a heap or local allocation does after any run: refused if the slot is gone, found if the allocation is still there, and if the slot was reused by another, found if and only if the table shrank a positive multiple of 4 times between the two. |
| `Generations.SplitRevivesStaleAddress` | src/lauf/runtime/memory.cpp:433-449 | A piece keeps the generation of the whole, so an old address of the slot it gets is accepted if and only if it has that generation. |
| `Qbe.SameArithmetic` | src/lauf/backend/qbe.cpp:277-349 | One addition, subtraction and multiplication serve the signed and the unsigned builtins, and comparisons are the difference of two tests. |
| `Qbe.PopSimulates` | src/lauf/backend/qbe.cpp:736-741 | The loop of register copies for `pop` leaves register i holding value i from the bottom of the stack without the popped one. |
| `Qbe.RollSimulates` | src/lauf/backend/qbe.cpp:750-758 | The copies for `roll`, with the value kept aside, do the same for the rolled stack. |
| `Qbe.InstSimulates` | src/lauf/backend/qbe.cpp:655-758 | The code of one instruction keeps register i holding value i from the bottom. |
| `Qbe.GroupRuns` | src/lauf/backend/qbe.cpp:655-688 | Reading ahead over the parts of a constant decodes the value that the machine builds from them one by one. |
| `Qbe.ImmediateDecodes` | src/lauf/backend/qbe.cpp:655-688 | For every 64-bit value the look-ahead decodes what the builder was given, over exactly the instructions emitted for it. |
| `Qbe.CodeSimulates` | src/lauf/backend/qbe.cpp:655-758 | From any instruction of a block on: if registers and stack agree before the rest, they agree after it. |
| `Qbe.BlockSimulates` | src/lauf/backend/qbe.cpp:137-758 | The same for whole blocks of the instructions that are translated. |
| `Qbe.BuilderGroups` | src/lauf/asm/builder.cpp:937-967 | In every block the builder can make, the parts of a constant follow one another as the look-ahead needs. |
| `Qbe.Generate` | src/lauf/backend/qbe.cpp:137-758 | The loop that counts the stack's registers writes exactly the code of the simulation. |
| `Qbe.GenerateInst` | src/lauf/backend/qbe.cpp:655-758 | One turn of that loop: what is written, and the new count. |
| `CallStacks.EveryRunPacks` | src/lauf/vm_execute.cpp:81-108 | Over any run of calls, returns and growth, frames stay packed: each within one page, in the order of the chunks. |
| `CallStacks.PageOfFrame` | src/lauf/runtime/stack.hpp:89-92 | Rounding a frame's address down to a page gives its chunk and no other. |
| `CallStacks.FramesAreDisjoint` | src/lauf/runtime/stack.hpp:128-148 | Live frames do not overlap, including the space they reserve, and later frames lie in the same or later chunks. |
| `CallStacks.GrownTakesTheCall` | src/lauf/runtime/stack.hpp:150-155 | A stack that had no room for a call has it after `grow`, at the start of the new page. |
| `CallStacks.CallStack.NewCallFrame` | src/lauf/runtime/stack.hpp:128-148 | Puts the frame in the current or the next chunk, or refuses and changes nothing. |
| `CallStacks.CallStack.Grow` | src/lauf/runtime/stack.hpp:150-155 | Links one more page after the current chunk and counts it. |
| `CallStacks.CallStack.Clear` | src/lauf/runtime/stack.hpp:74-87 | The walk over the chunks hands back every block of pages exactly once. |
| `PageCache.EveryRunConserves` | src/lauf/support/page_allocator.cpp:49-120 | Over any sequence of operations cached and outstanding blocks stay pairwise disjoint, and the counter is exactly their total; what a release leaves of it is the total of the outstanding ones. |
| `PageCache.MergesOnlyForward` | src/lauf/support/page_allocator.cpp:104-120 | Giving a block back keeps the cache fully merged if and only if no free block starts where it ends. |
| `PageCache.NeverJoinedExample` | src/lauf/support/page_allocator.cpp:104-120 | A block of one page given back where the only free block starts at its end: the two are never joined. |
| `PageCache.PageAllocator.Allocate` | src/lauf/support/page_allocator.cpp:49-77 | The walk takes the first cached block that is large enough, whole, or new pages. |
| `PageCache.PageAllocator.TryExtend` | src/lauf/support/page_allocator.cpp:79-102 | Extends as the system allows and counts the difference. |
| `PageCache.PageAllocator.Deallocate` | src/lauf/support/page_allocator.cpp:104-120 | Joins the block to the first free one that ends where it starts, or puts it in front of the list. |
| `PageCache.PageAllocator.Release` | src/lauf/support/page_allocator.cpp:122-137 | The walk takes every cached block off the counter and returns what is left. |

## Left out

What contracts leave unsaid:

- EmitFollows: says nothing of builder calls whose meaning panics or reads below the stack; folding may then skip the panic, as `NullIsCalled` and `NullIsLoaded` show. Foldings on constants that are not exact for them are excluded by `Guarded`, whose conditions are those of `exactness`.
- BlockRefines: the same; and locals are taken not to be poisoned or split while a block accesses them directly, because it has no check then. The upper half that a stack cell keeps is a function of the state the block is in; in the machine with fibers each step chooses it.
- CompilationCorrect: speaks of runs that have not panicked, as long as callees, which are parameters here, obey their signatures and never move a live frame's slots (`Honest`). Nothing is claimed of a build that reported an error.
- FunctionCorrect: for functions that take a local's address or have no locals; the others are `DirectFunctionCorrect`.
- DirectFunctionCorrect: callees must give the same results when the table has more slots after theirs, so one that hands out addresses of its own is not covered: those addresses differ between the two runs.
- LeafCorrect: for functions that call nothing. Across calls the meaning of a callee depends on the frame that the call stack gives it, which a call as a parameter does not have.
- BuiltProgramsAreSafe: programs must not resume, transfer to or destroy a fiber on the running fiber's chain of parents, or resume one that panicked, and a fiber must not end or suspend with another number of values than its receiver waits for; for resumed panicked fibers see `ResumingPanicked`. An indirect call must keep the counts, and so must every folded one; that this is exact is `IndirectCallExact` and `IndirectBalanced`. Nothing is said of what is saved for a fiber that panics while the host, not the machine, runs: it is whatever was saved last.
- BuiltProgramsNeverFault: builtins must keep the slots of globals, the table must have fewer than 2^30 slots, and while the machine runs only builtins destroy fibers.
- EveryRunIsSafe: without nested `lauf_runtime_call` and without the step limit.
- GlobalLoadExact: for loads of `lauf.Value`; stores use the same test.
- StaleAddress: fibers always carry generation 0, so for a slot that a fiber reuses it says only when the old address is accepted; pieces that were split off are `SplitRevivesStaleAddress`.
- EverythingGoesBack: new memory does not overlap what the process has, splits are strictly inside a piece and merges stay within a block; what other splits and merges do is in `pieces`. The host does not leak allocations through its own interface.
- EveryRunPacks: the page allocator's blocks are parameters that overlap nothing the stack has, and a callee's frame must fit a page.
- Release: the source leaves its list of freed blocks dangling, so nothing is claimed of an allocator that is used after it.

What is not modelled:

- The text frontend, the reader and writer, the dump backend, the tools, debug printing, stack traces and debug locations: input and output.
- Linking, submodules, native functions and native globals; function addresses are looked up in one module.
- The internals of `array_list` and of the arena: lists are sequences, and the array the code is written to has the estimated size.
- The growth of the slot table: it is unbounded, so nothing is said of the table's capacity.
- Value identifiers (`lauf_asm_inst_value`), which only name stack positions.
- Signed overflow in the address arithmetic of indices, whose product is taken exactly.
- The skip of the signature word after a builtin call, which is an instruction that does nothing here.
- The locals of a fiber that the collector destroys, and the survival of the running fiber's parents: the collector does not treat them as roots.
- Control flow, calls, divisions, overflow tests and memory accesses of the QBE backend.
- Other builtins, which are parameters that obey their signature; mutexes, panic handlers, tail calls and pointer compression.
- Bit masks for alignment: with power-of-two alignments they are the remainders used here.
