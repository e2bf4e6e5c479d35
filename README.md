# gnat-llvm LLVM wrapper: self-contained decision and layout logic

The C++ wrapper `llvm-interface/llvm_wrapper.cc` sits between the GNAT LLVM
back end and the LLVM C++ API. Almost all of it forwards a single call to LLVM.
This project models the parts that carry logic of their own:

- **TBAA node layout** (module `TbaaNodes`, `tbaa.dfy`). These builders lay out
  the operand vectors of type-based alias analysis metadata: a scalar type node
  `[parent, size, name]`, a struct type node
  `[parent, size, name, (field, offset, size)*]` and a `tbaa.struct` node
  `(offset, size, type)*`. A metadata operand is an abstract datatype
  `MD = Null | Node(id) | Const(u64) | Str(string)`. The two struct builders are
  methods that fill a pre-sized array in a loop, as the source fills its
  `SmallVector`. The array starts out all `Null`, because `SmallVector(n)`
  value-initialises its pointers. The methods return the array's contents,
  which are the operands `MDNode::get` receives. A ghost count of stores per
  slot shows that every slot is written exactly once.
- **Width-normalising constant equality** (module `ConstantCompare`,
  `apint.dfy`). `Equal_Constants` sign-extends the narrower `APInt` to the wider
  width and then compares bit patterns. Here an `APInt` is `(width, bits)`,
  with `SignedValue` giving its two's-complement value and `Sext` widening it.
- **Optimisation pipeline selection** (module `OptimizePipeline`,
  `pipeline.dfy`). This is the decision part of `LLVM_Optimize_Module`, written
  as a pure function that returns a `Plan`. A plan holds the level, the tuning
  options, the default pipeline requested from the pass builder, and the loop
  passes appended after it.
- **Predecessor check** (module `BlockPreds`, `preds.dfy`).
  `All_Preds_Are_Unc_Branches` is a loop with an early exit over a block's
  predecessors. Each predecessor is given as the successor count of its
  terminator.

`ctypes.dfy` defines the C integer types used in the signatures: `u64` for
`uint64_t` and `i32` for `int`.

Read-only C input arrays (`MDNode *fields[]`, `uint64_t offsets[]`, ...) are
modelled as sequences, because the builders only read them. The `LLVMContext`
and `MDBuilder` arguments are left out. So are the uniquing that `MDNode::get`
performs and the `Int64` constant wrapping: `Const(v)` stands for
`createConstant(ConstantInt::get(Int64, v))`.

## Model

| member | source | states |
|---|---|---|
| TbaaNodes.ScalarTypeNodeOps | llvm-interface/llvm_wrapper.cc:238-246 | the scalar type node has exactly three operands: parent, then the size constant, then the name string |
| TbaaNodes.FieldTriples | llvm-interface/llvm_wrapper.cc:260-267 | the field part of a struct type node for n fields has exactly 3n operands |
| TbaaNodes.StructTypeNodeOps | llvm-interface/llvm_wrapper.cc:255-267 | the struct type node for n fields has 3n+3 operands, with parent, size constant and name in slots 0, 1 and 2 |
| TbaaNodes.Store | llvm-interface/llvm_wrapper.cc:257-266 | one store into the operand vector: slot k receives the item, every other slot is unchanged, and the ghost tally of slot k (and only slot k) goes up by one; the builders make every store, including those at lines 282-286, through it |
| TbaaNodes.StructTypeNodeLayout | llvm-interface/llvm_wrapper.cc:255-267 | the struct type node has 3n+3 operands; slots 0, 1, 2 hold parent, size constant and name; for every i < n, slot 3+3i is fields[i], slot 3+3i+1 is Const(offsets[i]) and slot 3+3i+2 is Const(sizes[i]) |
| TbaaNodes.CreateStructTypeNode | llvm-interface/llvm_wrapper.cc:248-270 | for num_fields >= 0 with every input array at least num_fields long, the vector filled in place by the loop is exactly the struct type node layout, none of its index arithmetic leaves the bounds, and each slot is stored exactly once (every store goes through TbaaNodes.Store, which also tallies it) |
| TbaaNodes.StructNodeOps | llvm-interface/llvm_wrapper.cc:279-287 | the tbaa.struct operand list for n fields has exactly 3n operands |
| TbaaNodes.StructNodeLayout | llvm-interface/llvm_wrapper.cc:279-287 | the tbaa.struct node has 3n operands; for every i < n, slot 3i is Const(offsets[i]), slot 3i+1 is Const(sizes[i]) and slot 3i+2 is types[i] |
| TbaaNodes.CreateStructNode | llvm-interface/llvm_wrapper.cc:272-290 | for num_fields >= 0 with every input array at least num_fields long, the vector filled in place by the loop is exactly the tbaa.struct layout, all indices stay in bounds, and each slot is stored exactly once (every store goes through TbaaNodes.Store) |
| TbaaNodes.StructTypeNodeWithoutFields | llvm-interface/llvm_wrapper.cc:238-269 | a struct type node with zero fields has the same operands as a scalar type node with the same name, size and parent |
| TbaaNodes.StructLayoutsAgree | llvm-interface/llvm_wrapper.cc:260-287 | for the same field arrays, the struct type node's (field, offset, size) triple of field i is the tbaa.struct node's (offset, size, type) triple of field i rotated by one slot, shifted past the three header slots |
| ConstantCompare.SignedValue | llvm-interface/llvm_wrapper.cc:743-757 | the two's-complement value of a w-bit pattern lies in [-2^(w-1), 2^(w-1)) |
| ConstantCompare.Sext | llvm-interface/llvm_wrapper.cc:752-755 | sign extension to a width w at least the current one gives a valid w-bit pattern with the same signed value |
| ConstantCompare.SextBitLayout | llvm-interface/llvm_wrapper.cc:752-755 | sign extension keeps the low bits and sets every new high bit to the sign bit: it adds 2^width times zero or the all-ones (w - width)-bit number |
| ConstantCompare.SignedValueInjective | llvm-interface/llvm_wrapper.cc:757 | at one width, two patterns have equal signed values if and only if they are the same pattern |
| ConstantCompare.EqualConstants | llvm-interface/llvm_wrapper.cc:749-758 | Equal_Constants(v1, v2) holds if and only if the signed values of v1 and v2 are equal, whatever the two widths |
| ConstantCompare.EqualConstantsSymmetric | llvm-interface/llvm_wrapper.cc:749-757 | Equal_Constants gives the same answer with its operands swapped |
| ConstantCompare.EqualConstantsSameWidth | llvm-interface/llvm_wrapper.cc:752-756 | for operands of equal width no extension happens and the comparison is bitwise equality |
| OptimizePipeline.LevelFor | llvm-interface/llvm_wrapper.cc:595-599 | the level is O0 exactly when CodeOptLevel is outside 1..3; otherwise its number is CodeOptLevel |
| OptimizePipeline.LevelMapping | llvm-interface/llvm_wrapper.cc:595-599 | CodeOptLevel 1, 2, 3 select O1, O2, O3; every other integer, negative or above 3, selects O0 (both directions) |
| OptimizePipeline.LevelRoundTrip | llvm-interface/llvm_wrapper.cc:595-599 | mapping a level to its number and back gives that level |
| OptimizePipeline.SelectPipeline | llvm-interface/llvm_wrapper.cc:595-663 | the plan's level is the mapped level; the O0 pipeline is chosen exactly when CodeOptLevel is 0, and any other pipeline is built at the mapped level; OurLoopPass is appended iff NeedLoopInfo, loop rotation iff NeedLoopInfo and CodeOptLevel is 0 |
| OptimizePipeline.TuningRule | llvm-interface/llvm_wrapper.cc:600-604 | loop unrolling and interleaving are both the negation of NoUnrollLoops; loop and SLP vectorisation negate their No flags; MergeFunctions is passed through |
| OptimizePipeline.O0Selection | llvm-interface/llvm_wrapper.cc:646-663 | CodeOptLevel 0 selects the O0 pipeline at level O0, built for LTO pre-linking iff either kind of LTO is prepared; loop rotation then OurLoopPass are appended iff NeedLoopInfo |
| OptimizePipeline.OptimizingSelection | llvm-interface/llvm_wrapper.cc:653-663 | any other CodeOptLevel: ThinLTO pre-link wins over LTO pre-link, which wins over the per-module pipeline; all are built at the mapped level and followed only by OurLoopPass, iff NeedLoopInfo |
| OptimizePipeline.ExtraPassesRule | llvm-interface/llvm_wrapper.cc:646-663 | OurLoopPass is appended, as the last pass, iff NeedLoopInfo, at every level; loop rotation is appended iff NeedLoopInfo and CodeOptLevel is 0 |
| OptimizePipeline.OutOfRangeLevelReachesOptimizingBuilder | llvm-interface/llvm_wrapper.cc:595-659 | a CodeOptLevel outside 0..3 maps to O0 yet takes one of the optimising builders (ThinLTO, LTO or per-module), which is then asked for level O0 |
| BlockPreds.AllPredsAreUncBranches | llvm-interface/llvm_wrapper.cc:918-927 | the loop with early return yields true iff every predecessor's terminator has exactly one successor; so a block with no predecessors passes vacuously |

## Left out

- Attribute, flag and metadata setters and getters, and the IRBuilder, instruction-creation and insertion shims (lines 41-236, 292-341, 343-520, 775-948, apart from `All_Preds_Are_Unc_Branches`): each forwards one call to LLVM and has no logic of its own.
- `Get_Float_From_Words_And_Exp`, `Pred_FP`, `Convert_FP_To_String`, `Get_Infinity` (lines 668-734): they depend on APFloat rounding and formatting.
- `map_from_llvmopcode` (lines 803-813): its cases are generated by a macro from LLVM's `Instruction.def`, which is not part of this model.
- Building and running the pass manager, analysis registration, target-library setup and target initialisation (lines 529-542, 606-645, 664): library plumbing. Only the decision table is modelled.
- Pass-plugin loading in `LLVM_Optimize_Module` (lines 613-628): loading the plugin and its error path (copy the message, return 1) go through the plugin loader, so they are not modelled.
- `SizeOptLevel` and `RerollLoops` are parameters of `LLVM_Optimize_Module` that its body never reads. `SelectPipeline` leaves them out for that reason.
- `OurLoopPass::run` (lines 566-577): it only reads loop information into unused locals and then preserves all analyses.
- `GNATCallbackVH` / `Notify_On_Value_Delete` (lines 958-985): lifetime tracking through LLVM callbacks, which are not modelled. Note that `deleted()` runs `delete this` and only then reads `this->fn` and `this->val` (lines 971-972), which is a use after free.
- TbaaNodes.CreateStructTypeNode and TbaaNodes.CreateStructNode require `num_fields >= 0`, input arrays at least `num_fields` long, and `num_fields * 3 (+ 3)` within the range of `int`. In the source `num_fields` is a signed `int`. A negative value makes the loop bound `i < num_fields` (lines 260, 280) wrap to a huge unsigned value, and makes the vector size wrap to a huge `size_t`, except for `num_fields = -1` in the struct type node: there the size `num_fields * 3 + 3` is 0, so the header store `Ops[0] = parent` (line 257) is already out of range. An overflowing product is undefined behaviour. Those inputs are not modelled.
- `OptimizePipeline.OutOfRangeLevelReachesOptimizingBuilder` states the selection as written. Whether LLVM's optimising builders accept level O0 is decided inside LLVM, which is not part of this model.
- Uniquing of metadata nodes by `MDNode::get` and the `LLVMContext` / `MDBuilder` arguments: the model keeps only the operand list handed to `MDNode::get`.
