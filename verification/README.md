# DeepVM, modelled and proved

DeepVM assembles WebAssembly text into the binary format, loads binary modules, and interprets them with a
recursive bytecode interpreter over its own allocator. This project models those parts in Dafny and proves what they
are for. `dafny verify dfyconfig.toml` checks all of it.

The main theorem, `EndToEnd.ProgramResult`, goes from a structured program with named labels, locals, globals,
functions and types to what loading and running its file comes to, and says that this is what sections 4.4.5 to 4.4.7 of
the WebAssembly Core Specification 1.0 give, from the memory and table its section 4.5.4 starts with: the same value, the
same trap, or neither ever ends. `Text.ReadAndRun` puts the text of the bodies in front. Its parts:

| part | modules |
|---|---|
| numbers and instructions as bytes | Bytes, Leb, Isa, Opcodes |
| text: tokens, expressions, literals | Sexpr, Numerals |
| the assembler's rules, and the assembler in place | Assembler, Emitter, TypeTable, Writer |
| what source programs are, and that the emitted bytes are theirs; other forms the assembler takes | Source, Emission, Scoping, Forms |
| sections written and read back, the loader in place, and the bytes of the format | Sections, Loader, Reader, Format |
| the bytecode machine, its scan for the end of a construct, its arithmetic | Machine, Blocks, Alu |
| the interpreter in place, with its frames and allocations | Interpreter, Program |
| the standard's semantics, and the discipline under which the machine keeps to it | Wasm, Discipline |
| bytecode loop, structured run, standard: one refines the other | Control, Layout, Simulation, Preservation |
| branch countdown, termination, expression trees, exact deviations | Unwinding, Expressions, Deviations, Calls |
| results that do not depend on fuel | Fuel |
| what a program starts with, by the standard and by the code | Instance |
| all together, from text as well, and a program to show that the conditions can be met | EndToEnd, Text, Example |
| the allocator's small bins and its skip list, pure and in place | FastBins, Allocator, SkipList |

Every algorithm that the program runs in place is a method on a class or an array (Emitter, Writer, Reader,
Interpreter, TypeTable, Allocator, SkipList) proved equal to a function, and the theorems are about that function. The
machine is stepped with fuel that only calls and loop restarts consume, and the standard's semantics spends it at the
same places. `Fuel` proves for both that what ends with some fuel ends the same way with more, so a file and a program
each have one result, or run for ever, and the main theorem relates those.

Where the program departs from the standard, the departure is kept and its exact condition is proved:

* An `if` leaves its condition under its result, a call its arguments, and a forward branch its surplus operands.
  `Discipline.ProgOk` is a test on the program text that confines these to places with no other operand pending; under
  it the machine's stack always ends in the standard's. Outside it, each is shown on an instruction that then meets the
  leftover, with the exact condition under which it makes no difference: `Deviations.IfUnderOperand`,
  `Calls.CallUnderOperand`, `Deviations.SurplusUnderBranch`. A call's stack is the standard's exactly if the function takes
  no arguments: `Calls.CallExactIff`.
* `call_indirect` runs the function it finds whatever its type, and written without a type it is assembled with type 0:
  `Calls.IndirectIff`, `Forms.IndirectUntyped`.
* `gt_s` and `ge_s` compare unsigned, and the remainder of the minimum by -1 crashes: `Alu.RelAgrees` and
  `Alu.BinAgrees` say that nothing else differs.
* Loads and stores have no bounds: `Deviations.LoadIff`, `Deviations.StoreIff`.
* In the theorems a run that meets such operands or such an access, or a `call_indirect` on a function of another type
  or on an import, is `Deviant` and nothing is claimed of it.
* Only the first 1024 bytes of a file are read; a longer file of a program does not load: `EndToEnd.FileLoadsIff`.
* A memory declared with no pages gets one, and one of two pages or more gets none, because the pool has two pages in
  all; an element segment that does not fit is cut: `Instance.MemoryIff`, `Instance.TableIff`. A program that declares no
  memory gets a page, which `Instance.MemoryUnusedCall` shows to be harmless.
* Written folded, the label of an `if` is in scope in its condition, the operands of `br` are dropped, so are all but the
  first of `br_if` and of the other instructions with a fixed number of operands, and with fewer operands than that the
  instruction is refused: `Scoping.FoldedIsStandardIff`, `Scoping.ConditionsDiffer`, `Scoping.BranchOperandsLost`,
  `Scoping.OperandBefore`.
* A name given twice stands for the first entity: `Assembler.FirstIsOnlyIff`.
* The scan for the end of a construct counts in 8 bits, reads constants as 5-byte numbers, floating-point ones too, and does
  not know `f64.add` to `f64.copysign`: `Blocks.ReadBlockIffShallow`, `Leb.SkipSigned`, `Blocks.SkipFloatConst`,
  `Blocks.SkipFloat`.
* A data segment's offset is written signed and read unsigned: `Sections.DataRoundTrip`.
* Declaring a type signature twice loses its first name and shifts the numbers of the types after it, and a function
  typed by the lost name gets the empty type: `TypeTable.NameResolvesIff`, `TypeTable.NumbersKeptIff`, `TypeTable.LostName`.
* The small-block allocator's guard before a carve compares less than the carve needs: `FastBins.CarveIff`, `Allocator.GuardTooWeak`.

doc/flow_control.md says that surplus operands should be dropped when a construct or function is left and that this
is not done yet; the model follows the code.

## Model

| member | source | states |
|---|---|---|
| EndToEnd.ProgramResult | src/deep_main.c:64-150 | For every program that meets Accepted (its names, types and numbers are in order, it obeys the discipline, has a main and a file of at most 1024 bytes): if the standard's run, from its own initial memory and table and with names resolved by its rule, ends in a value or a trap, running the file the assembler writes returns that value or crashes; if it never ends, neither does the file; a run that meets one of the listed deviations is excepted |
| EndToEnd.ProgramMeaning | src/deep_interp.c:1922-1993 | The same at every amount of fuel, which both spend at the same places |
| EndToEnd.FileLoadsIff | src/deep_main.c:13-100 | A program's file, of which 1024 bytes are read, loads exactly if it is no longer than that, and otherwise the program ends with an error |
| Fuel.MoreSeq | src/deep_interp.c:462-658 | In the standard's semantics every outcome but running out of fuel stays the same with more fuel |
| Fuel.MoreExec | src/deep_interp.c:462-535 | So it does in the machine, for any code and any state |
| Fuel.FileResultIs | src/deep_main.c:64-150 | So any file has one result, which every run of it that ends returns, or none of its runs ends |
| EndToEnd.AssembleAndRun | src/deep_main.c:64-150 | The same for the imperative programs in a row: the type table is filled and the functions' types numbered, AssembleModule writes the file, DeepLoad reads it, CallMain runs it |
| Text.ReadAndRun | src/deep_wat.c:1551-1586 | The same from text: however the function bodies are spelled, with any spaces and comments, tokenizing, parsing, assembling, loading and running them returns what the standard says |
| Text.SpelledIsRead | src/deep_wat.c:162-309 | A body's folded instructions, printed with any gaps that keep their tokens apart, are read back as its forms |
| Instance.MemoryIff | src/deep_main.c:94-100 | The memory and the page count the program starts with are the standard's exactly if at least one page is declared and the pages fit the pool: none become one, and for two the allocator returns NULL |
| Instance.EmptyMemory | src/deep_main.c:94-97 | (memory 0): memory.size answers 1, the standard's answers 0 |
| Instance.BigMemory | src/deep_main.c:15-22 | (memory 2): the program goes on without any memory, the standard has 131072 bytes |
| Instance.TableIff | src/deep_main.c:120-138 | The table the program starts with is the standard's, in which the last segment covering a position decides, exactly if every element segment fits: the standard refuses to start otherwise, the program drops what lies outside |
| Instance.SegmentOutside | src/deep_main.c:130-137 | A table of one entry and a segment at 5: the standard does not start, the program starts with the table empty |
| Instance.MemoryUnusedCall | src/deep_main.c:92-97 | A program without memory instructions does the same whatever the memory, so the page it is given undeclared makes no difference |
| EndToEnd.CallMeaning | src/deep_interp.c:1833-1919 | A call of any function of a loaded program, its arguments alone on the stack, agrees with the standard's call where that does not deviate: globals and memory as the standard leaves them, the caller's locals as they were, jump_depth 0, and the machine's stack ending in the standard's results |
| EndToEnd.MachineImplements | src/deep_loader.c:654-680 | Loading the file of a program puts every function's code, locals layout, globals, table and memory size where the machine needs them |
| EndToEnd.CodeIsLowered | src/deep_wat.c:1435-1495 | The bytes emitted for a body are the encoding of the body with its names resolved by the standard's rule, and the interpreter's scan copes with them; for which bodies this holds is Scoping.FoldedIsStandardIff |
| EndToEnd.FormsAreModule | src/deep_wat.c:1073-1142 | The forms of a program, with the table and the type numbers that registering its uses gives, assemble to exactly the module the theorem is about |
| EndToEnd.TypesRegistered | src/deep_wat.c:996-1026 | Registering a program's type uses gives its types in the standard's order, declared ones first, then new ones given inline, and each use the number of its type |
| TypeTable.EnterAllIs | src/deep_wat.c:996-1026 | Entering uses inserts exactly the signatures wanted that are not there, once each and without a name, and no use resolves differently after it |
| EndToEnd.TypesKept | src/deep_wat.c:1073-1083 | Declared types of distinct signatures leave the type table with their numbers and names |
| Example.ReturnsFortyTwo | src/deep_interp.c:1922-1993 | The conditions of the end-to-end theorem can be met: a program with an inline type, a named block and a branch meets all of them, and its file returns 42 |
| Example.FileIs | src/deep_wat.c:1144-1540 | That program's file, byte for byte |
| Control.ExecSeq | src/deep_interp.c:462-658 | The bytecode loop, which finds the ends of constructs by scanning, does on emitted code exactly what running the structured program does, with the same fuel, and goes on after it from the same state |
| Control.ExecFrame | src/deep_interp.c:462-535 | A frame of emitted code closed by an end or else byte ends as its structured body does |
| Control.CallRefines | src/deep_interp.c:1833-1919 | call_function on a linked function does what the structured call does |
| Preservation.SimSeq | src/deep_interp.c:462-658 | For all code of the discipline, from states that hold the same locals, globals and memory, the machine and the standard agree on every outcome that is not a deviation: fall through, branch, return, trap, out of fuel; the machine's stack always ends in the standard's, exactly so where nothing is left under results |
| Preservation.SimBody | src/deep_interp.c:1995-2040 | A construct's body, restarted for every branch to a loop's own label from the entry stack, agrees with the standard's |
| Preservation.SimIf | src/deep_interp.c:537-590 | An if with its condition alone on the stack agrees with the standard's, the condition staying under the result |
| Preservation.SimCall | src/deep_interp.c:1833-1919 | A call agrees with the standard's, its arguments staying under the results |
| Deviations.IfUnderOperand | src/deep_interp.c:568-581 | With another operand pending, an if deviates: the machine and the standard agree exactly when the pending operand equals the condition |
| Deviations.SurplusUnderBranch | doc/flow_control.md:7 | A forward branch over a surplus operand deviates: they agree exactly when the surplus equals the pending operand |
| Deviations.LoadIff | src/deep_interp.c:674-789 | The interpreter's load, which reads the pool at base plus address, is the model's load and does what the standard says exactly when address plus width stays within linear memory; beyond, it pushes what lies there and the standard traps |
| Deviations.StoreIff | src/deep_interp.c:790-870 | The same for a store, which then touches nothing in the pool but linear memory |
| Calls.CallLeaves | src/deep_interp.c:1833-1919 | A call of a function that leaves nothing itself, under any pending operands, keeps everything it found on the stack, its arguments too, and puts its results on top; globals, memory, locals and traps are the standard's |
| Calls.CallExactIff | src/deep_interp.c:1852-1869 | So the stack is the standard's after a call exactly if the function takes no arguments |
| Calls.CallUnderOperand | src/deep_interp.c:1852-1869 | a + f(b), for any f from one i32 to one: the standard adds the result to a, the machine to b; they agree exactly when a equals b |
| Calls.IdentityUnderOperand | src/deep_interp.c:1852-1869 | With the identity for f: a + b in the standard, b + b in the machine |
| Calls.IndirectIff | src/deep_interp.c:638-658 | call_indirect with any type on a function without parameters that returns: the machine runs it, the standard traps exactly when the type is another |
| Unwinding.UnwindSeq | src/deep_interp.c:468-475 | For all code, in the discipline or not, the countdown of jump_depth reaches exactly the construct a branch names, which is restarted from its entry stack if it is a loop whose body has not ended below it, and left if it is no loop; a return stops at the nearest call |
| Unwinding.CallsSettle | src/deep_interp.c:1905-1907 | With all branch depths in scope, a call that ends returns with jump_depth 0 and the caller's locals |
| Unwinding.StraightCodeEnds | src/deep_interp.c:462-535 | Emitted code without loops and calls ends or faults without spending any fuel |
| Unwinding.BodiesInside | src/deep_interp.c:490-590 | Every body found by the scan lies strictly inside what is left of the frame around it, and the instruction pointer moves past it |
| Expressions.ExecTree | src/deep_wat.c:641-784 | Executing the bytes emit_folded writes for any well-typed operand tree, in any state, consumes exactly those bytes, pushes exactly the tree's values over an untouched stack and has its left-to-right effects on locals, globals and memory; it faults where the tree traps; nothing is said of trees that deviate |
| Expressions.RunTree | src/deep_interp.c:903-925 | The same for the resolved code of a tree |
| Blocks.ReadBlockFindsEnd | src/deep_interp.c:237-459 | Bracket matching: on an emitted body nested at most 255 deep, closed by end or else, the scan stops right behind that byte, whatever bytes the immediates hold and whatever follows |
| Blocks.ReadBlockIffShallow | src/deep_interp.c:241-278 | The scan finds the matching end exactly when the body nests at most 255 deep: deeper ones wrap the 8-bit count |
| Blocks.ReadBlock | src/deep_interp.c:237-459 | The loop of read_block computes the scan |
| Blocks.SkipFloat | src/deep_interp.c:279-408 | The scan steps over the floating-point instructions without immediates except f64.add to f64.copysign, which it does not know, and over their loads and stores |
| Blocks.SkipFloatConst | src/deep_interp.c:409-425 | It steps over an f32.const exactly if the top bit of its four bytes is set in the first three and clear in the last, and over an f64.const never |
| Blocks.SkipUnknown | src/deep_interp.c:454-456 | On the bytes from 0x05 to 0xFF that are no opcodes, or that it does not expect, it gives up |
| Leb.SkipSigned | src/deep_interp.c:409-425 | Skipping a signed constant with the unsigned reader steps over it exactly when its encoding has at most five bytes |
| Alu.BinAgrees | src/deep_interp.c:1186-1417 | Every integer operator agrees with the standard's, traps included, except exactly: the remainder of the minimum by -1; what and, or, xor and signed division are, which both sides share, BitwiseIs and DivisionIs say |
| Alu.RelAgrees | src/deep_interp.c:949-1100 | Every comparison agrees with the standard's except exactly gt_s and ge_s on operands of different signs |
| Alu.UnAndCvtAgree | src/deep_interp.c:1533-1728 | Counts, zero tests and conversions between the integer types always agree with the standard's; what the counts are, CountsAre says |
| Alu.RotateByOr | src/deep_interp.c:1381-1417 | Rotation by shifting and or-ing is rotation |
| Alu.ShrSByOr | src/deep_interp.c:1352-1373 | The arithmetic shift by or-ing ones above the logical one is the quotient by the power of two, rounded down |
| Alu.BitwiseIs | src/deep_interp.c:1296-1300 | Bit k of and, or and xor is the and, or and xor of the operands' bits k, for every k and both widths |
| Alu.DivisionIs | src/deep_interp.c:1228-1269 | div_s and rem_s for every divisor but zero, and but the minimum by -1: dividend = quotient * divisor + remainder, the remainder smaller than the divisor and of the dividend's sign |
| Alu.CountsAre | src/deep_interp.c:1533-1600 | clz is the number of zeros above the highest one, ctz the number of zeros below the lowest, both the width for zero, and popcnt the number of ones |
| Alu.SgnIs | src/deep_interp.c:1228-1241 | The signed reading of a pattern is the number in the signed range that is congruent to it |
| Interpreter.Env.constructor | src/deep_main.c:91-138 | The environment and main's frame, with the frame discipline established |
| Interpreter.Env.ExecInstructions | src/deep_interp.c:462-1831 | The in-place loop refines the machine; when it returns, at the end of its code or by a branch or return, the current frame, the frames below it, the current locals and the set of live allocations are as at entry |
| Interpreter.Env.ExecBlock | src/deep_interp.c:490-535 | block and loop: descriptor and type record allocated, the body entered, both freed whichever way it was left |
| Interpreter.Env.ExecIf | src/deep_interp.c:537-590 | if: both arms located, one entered, every descriptor freed on both paths |
| Interpreter.Env.ExecBranch | src/deep_interp.c:593-622 | br, br_if and return set the countdown |
| Interpreter.Env.ExecIndirect | src/deep_interp.c:638-658 | call_indirect: element looked up, missing ones crash, the callee run |
| Interpreter.Env.EnterFrame | src/deep_interp.c:1995-2040 | Returns with cur_frame, local_vars and the control stack index as at entry, the frame freed, and the pointer behind the construct |
| Interpreter.Env.CallFunction | src/deep_interp.c:1833-1919 | A call of a function of the module: arguments copied to the callee's slots and the rest cleared; returns with the caller's frame and locals current again and with everything it allocated freed |
| Interpreter.Env.CallMain | src/deep_interp.c:1922-1993 | Returns what the machine returns; when it returns a value nothing is live any more and the control stack is back at entry 0 |
| Interpreter.Env.ExecLocal | src/deep_interp.c:903-925 | local.get, set and tee on the frame's bytes |
| Interpreter.Env.ExecLoad | src/deep_interp.c:674-789 | Loads of all integer widths within linear memory, sign-extended where signed |
| Interpreter.Env.ExecStore | src/deep_interp.c:790-870 | Stores of all integer widths within linear memory |
| Layout.ReadSlot | src/deep_interp.c:903-910 | A local's bytes lie between its offset and the next local's: the packed frame holds the typed locals in disjoint slots |
| Layout.WriteSlot | src/deep_interp.c:911-925 | Writing a slot is a map update: all other locals keep their values |
| Layout.CallLocals | src/deep_interp.c:1852-1869 | Copying the argument bytes to the front of a cleared area puts each argument in its slot, all other locals zero |
| EndToEnd.PrefixSumsAre | src/deep_loader.c:310-349 | The loader's offsets are the prefix sums of the type sizes |
| Leb.LebU32RoundTrip | src/deep_wat.c:86-93 | Every u32 takes at most 5 bytes and is read back with exactly those bytes consumed, whatever follows |
| Leb.LebS32RoundTrip | src/deep_wat.c:95-105 | The same for every s32 |
| Leb.LebS64RoundTrip | src/deep_wat.c:107-117 | The same for every s64, in at most 10 bytes |
| Leb.SameLength | src/deep_loader.c:54-90 | Over the same bytes the unsigned and the signed reader stop at the same place |
| Leb.ReadLeb | src/deep_loader.c:54-134 | The readers' loop, truncating and sign-extending as it goes, computes the exact number cut to the width |
| Leb.ByteBuf.PutLebU32 | src/deep_wat.c:86-93 | The writer's loop appends the unsigned encoding |
| Leb.ByteBuf.PutLebS | src/deep_wat.c:95-117 | The writers' loop appends the signed encoding |
| Leb.UnsignedReadOfSigned | src/deep_loader.c:432-448 | A number written signed and read unsigned comes back exactly when it is non-negative or needs all five bytes |
| Leb.RawIs | src/deep_loader.c:54-134 | Any bytes of which exactly the last is below 0x80, minimal or not, are read as the sum of their 7-bit groups, less the sign where signed, if there are at most as many as allowed; else they are too long |
| Leb.LebUMeans | src/deep_wat.c:86-93 | The unsigned encoding of a number is such bytes, and they mean that number |
| Leb.LebSMeans | src/deep_wat.c:95-117 | So is the signed encoding |
| Bytes.LeIs | src/deep_mem.c:185-254 | Byte k of a stored word is its digit k to base 256 |
| Isa.FetchOfEnc | src/deep_interp.c:478-481 | Decoding an encoded instruction gives it back and the position behind it |
| Opcodes.BinOpcodes | src/deep_wat.c:315-376 | The k-th binary operator of the standard's numbering is written by its word, has the byte 0x6A + k or 0x7C + k, and that byte runs that operator |
| Opcodes.RelOpcodes | src/deep_wat.c:315-376 | The same for the comparisons from 0x46 and 0x51 |
| Opcodes.AccessOpcodes | src/deep_wat.c:315-376 | The same for the loads from 0x28 and the stores from 0x36: word, byte, width, number of bytes and sign |
| Opcodes.IndexOpcodes | src/deep_wat.c:315-376 | The same for locals, globals and the memory size, with their immediates |
| Opcodes.PlainOpcodes | src/deep_wat.c:315-376 | The words and bytes of control and of the instructions without immediates |
| Opcodes.WordsIff | src/deep_wat.c:315-376 | Outside the floating-point instructions, which are left out, the table has exactly the listed words |
| Opcodes.BytesIff | src/deep_interp.c:462-1831 | The plain instructions run are exactly those with the listed opcodes |
| Sections.DataRoundTrip | src/deep_loader.c:432-448 | A data segment's bytes come back; its offset comes back exactly when it is below 0xF8000000 |
| Sections.ExpandClusters | src/deep_wat.c:1473-1487 | Expanding the run-length clusters of a list of local types gives the list back |
| Sections.ClustersAreRuns | src/deep_wat.c:1473-1487 | The clusters are the maximal runs: none empty, no two neighbours of one type |
| Sections.LocalsRoundTrip | src/deep_loader.c:300-325 | The clusters written are the clusters read |
| Sections.PutLocals | src/deep_wat.c:1473-1489 | The cluster loop writes exactly the encoded clusters |
| Loader.SplitOfPlaced | src/deep_loader.c:180-200 | Section framing: the sections found are the sections written, with their extents |
| Loader.LoadOfModule | src/deep_loader.c:654-680 | Module round trip: the file of a module whose numbers fit loads exactly when it defines a function and each function has a known type, at most 255 locals and known local types; then types, imports, function types, local layouts, body bytes, table, memory, globals, exports, start, elements and data are what was written |
| Format.ValueTypeBytes | include/deep_opcode.h:10-13 | 0x7F is i32 and has 4 bytes, 0x7E is i64 and has 8, 0x7D and 0x7C the floats, 0x40 no result, wherever the assembler, the loader, the machine or the typing look at a type byte; no other byte is a value type |
| Format.FileIs | src/deep_wat.c:1144-1540 | A module with every section, and with i32 and i64 parameters, locals and globals, is written as these literal bytes, header included |
| Format.FileLoads | src/deep_loader.c:654-680 | From those bytes the loader gets these types, imports, limits, global bits, exports, start, elements, data, code position and local offsets |
| Format.LoadableIs | src/deep_loader.c:247-353 | A function is taken exactly if its type is there, it has at most 255 parameters and locals together, and all are of the five known type bytes; so is an import by its parameters |
| Loader.EntryIs | src/deep_loader.c:300-349 | A code entry, whatever size it gives: the code is what the size leaves behind the locals, the next entry begins where the size ends, and with a size that does not cover the locals, where the subtraction of the C code wraps, the model does not load |
| Reader.CreateSectionList | src/deep_loader.c:180-200 | The linked list built in the file's order holds exactly the sections found |
| Reader.ComputeOffsets | src/deep_loader.c:325-349 | The offsets loop over the clusters computes the prefix sums of the expanded types |
| Reader.DeepModule.DecodeFunctions | src/deep_loader.c:247-353 | The function decoder fills in every function's description, imports first |
| Reader.DeepModule.DecodeEachSection | src/deep_loader.c:599-652 | Decoding along the list computes the loaded module |
| Reader.DeepLoad | src/deep_loader.c:654-680 | deep_load succeeds and computes exactly as its specification |
| Program.FillTable | src/deep_main.c:120-138 | Table filled with the sentinel and the element segments applied in order |
| Program.ElemInTable | src/deep_main.c:130-137 | A segment that fits is found in the table entry by entry, and nothing else changes |
| Program.DeepMain | src/deep_main.c:64-150 | Read at most 1024 bytes, load, build the environment and run main, as specified by RunDeep; which function that is, FindMainIff says |
| Program.FindMainIff | src/deep_interp.c:1926-1937 | The function run is the one of the last export whose name is the bytes of "main"; none is run exactly if no export has that name |
| Loader.CutLoadsIff | src/deep_loader.c:180-200 | The file of a module without data segments, cut anywhere, does not load |
| Emission.FoldedEmits | src/deep_wat.c:567-784 | emit_folded on any folded instruction writes the encoding of what it emits of it: the operands it takes, then the instruction, names resolved; it fails where a name does not resolve or an operand is missing |
| Emission.SeqEmits | src/deep_wat.c:799-941 | The same for emit_seq on a body of folded instructions |
| Forms.MemArgIs | src/deep_wat.c:544-560 | offset= and align= are read in any order and number; the last offset that is a number counts, and without one it is 0 |
| Forms.AccessBytes | src/deep_wat.c:754-774 | A load or store is its opcode, alignment 0 and that offset, with one operand or two; refused if they are missing |
| Forms.ArgsInOrder | src/deep_wat.c:777-783 | Operands are emitted from the first to the last |
| Forms.IndirectUntyped | src/deep_wat.c:682-705 | call_indirect without a type is written with type 0, whatever that is |
| Forms.ThenOnly | src/deep_wat.c:616-636 | A folded if without an else has one arm and no else byte |
| Forms.BareArm | src/deep_wat.c:616-636 | A folded if without then and else lists has as its arm what follows the condition, up to the first (else ...) |
| Forms.ResultForms | src/deep_wat.c:505-538 | (result) without a type is no result, of several types the first counts, and an unknown one is refused |
| Forms.EndStops | src/deep_wat.c:799-941 | end and else end a flat sequence where they stand, and a folded body must not hold them |
| Scoping.FoldedIsStandardIff | src/deep_wat.c:567-784 | The bytes of a folded body are those of the program the standard means exactly when every branch by name has its label equally far away in both readings and every instruction has the operands the assembler takes, neither more, which it drops, nor fewer, which it refuses |
| Scoping.OperandBefore | src/deep_wat.c:747-752 | (i32.const 1) (drop): the standard takes the operand from before, the assembler refuses the body |
| Assembler.FirstIsOnlyIff | src/deep_wat.c:451-462 | Taking the first entity of a name is taking the one entity so named, for every name, exactly if no name is given twice |
| Source.ResolvesIff | src/deep_wat.c:451-462 | With unique names, a reference by name or number resolves to what it stands for and to nothing else |
| Scoping.BranchOperandsLost | src/deep_wat.c:709-722 | The operand of a folded br is dropped, and of a folded br_if with a value and a condition the condition is dropped and the value becomes the condition |
| Emission.FlatSeqEmits | src/deep_wat.c:799-941 | The same for emit_seq on flat code, each construct closed by its own end and the rest going on with the outer labels |
| Emission.LookupMnemonic | src/deep_wat.c:315-376 | The opcode table gives every instruction of the integer fragment its own opcode |
| Scoping.FindLabelIsNearest | src/deep_wat.c:465-481 | A label's depth is the number of constructs between the branch and the innermost construct of that name; a name that no enclosing construct has is an error |
| Scoping.FlatEqualsFoldedIff | src/deep_wat.c:799-941 | The flat and the folded form of a body assemble to the same bytes exactly under the same condition |
| Scoping.FlatEqualsFolded | src/deep_wat.c:567-941 | In particular whenever no if condition branches by name out of itself and no operand is dropped, and then also fail together |
| Scoping.ConditionsDiffer | src/deep_wat.c:611-613 | The concrete program on which they differ: the label of an if is pushed before its condition is emitted |
| Scoping.EncInjective | src/deep_wat.c:567-941 | Different programs have different bytes |
| Emitter.Emitter.EmitFolded | src/deep_wat.c:567-784 | In place: appends the specified bytes and, on success, leaves the label stack as it found it; these are FoldedEmits' for written programs, and the laws of Forms say the rest |
| Emitter.Emitter.EmitSeq | src/deep_wat.c:799-941 | The same for the loop over a body, with its status and next position |
| Emitter.Emitter.ResolveLabel | src/deep_wat.c:465-481 | The search from the innermost label outwards computes the depth |
| Emitter.ResolveName | src/deep_wat.c:451-462 | The search through a name table |
| Writer.AssembleModule | src/deep_wat.c:1144-1540 | The emitting half of assemble_module: fails exactly if a body does not assemble, and otherwise the output is the file of the module, section by section; Format.FileIs and Example.FileIs give such files byte for byte |
| Writer.PutEntry | src/deep_wat.c:1469-1497 | One code entry: length, clusters, instructions, end |
| Writer.PutSection | src/deep_wat.c:946-950 | Id, length and payload appended |
| TypeTable.NameResolvesIff | src/deep_wat.c:1073-1083 | A declared type name stands for its signature exactly if no later declaration names the same signature; otherwise the name is unknown |
| TypeTable.NumbersKeptIff | src/deep_wat.c:1073-1083 | Declared types keep their positions as indices exactly if no signature is declared twice |
| TypeTable.Table.FindOrAddType | src/deep_wat.c:983-993 | The index of an equal signature, or a new last entry |
| TypeTable.Table.RegisterAll | src/deep_wat.c:1101-1133 | Every function gets the type its (type ...) names, if that resolves, and otherwise an entry that holds its own signature in the final table, however many are registered after it; the table gains exactly those signatures and has no duplicates |
| TypeTable.Table.DeclareTypes | src/deep_wat.c:1073-1083 | The declaration loop computes the table |
| TypeTable.LostName | src/deep_wat.c:996-1026 | A function that gives its type only by a name another declaration took over gets the empty signature |
| Sexpr.PrintParse | src/deep_wat.c:162-309 | Every S-expression of plain atoms, printed with any spaces, line comments and nested block comments between its tokens, is tokenized and parsed back to itself with every token consumed; only a line comment directly behind an opening parenthesis is excluded, where the two would open a block comment |
| Sexpr.PrintParseUnended | src/deep_wat.c:162-255 | The same for text that ends in a line comment without a newline |
| Sexpr.ScansIff | src/deep_wat.c:162-255 | A character separates tokens exactly if it is a space, tab, newline, carriage return, vertical tab or form feed, and continues a word exactly if it is none of those, no parenthesis, no semicolon and no quotation mark |
| Sexpr.LexStops | src/deep_wat.c:162-255 | At a semicolon that does not begin a comment the scan stands still, whatever follows |
| Sexpr.UnclosedComment | src/deep_wat.c:174-190 | A block comment that is not closed swallows the rest of the text |
| Sexpr.ParseUnclosed | src/deep_wat.c:295-309 | A list that the text ends in is read as the list of what was there, and all tokens are consumed |
| Sexpr.Tokenize | src/deep_wat.c:162-255 | The scanning loop computes the tokens; it says where the code would loop on a lone semicolon; ScansIff says which characters separate |
| Sexpr.Parse | src/deep_wat.c:295-309 | The recursive reader computes the parsed expression |
| Numerals.IntLitOfText | src/deep_wat.c:484-503 | Every int64_t in decimal is read back |
| Numerals.IntLitIs | src/deep_wat.c:484-503 | Any sign, any prefix, any digits and underscores: the number written, modulo 2^64 and read as signed, or an error exactly if a character is no digit of the base or none is there |
| Numerals.IntLitOfHex | src/deep_wat.c:484-503 | Every 64-bit number in hexadecimal, of either case, is read back as its signed reading |
| Numerals.IndexTextIs | src/deep_wat.c:451-462 | An index is decimal digits with an optional sign, the number cut at the greatest int64_t; a negative one or another character is no index |
| Numerals.ParseIntLit | src/deep_wat.c:484-503 | The digit loop, wrapping at 64 bits, computes the literal |
| FastBins.RunKeeps | src/deep_mem.c:185-254 | After every run of small requests, releases and writes by owners, while the remainder can hold what is carved, the pool's invariant holds |
| FastBins.StepKeeps | src/deep_mem.c:185-360 | Each operation keeps the invariant, and the contents of every live block it is not about |
| FastBins.InvMeans | src/deep_mem.c:143-165 | At every point of every run blocks are pairwise disjoint and inside the pool above the remainder, and free_memory plus the payloads in use is the initial value |
| FastBins.BinMeans | src/deep_mem.c:207-228 | Following a bin's links in the buffer ends and meets exactly the free blocks of its size, none twice |
| FastBins.AllocGives | src/deep_mem.c:185-254 | A request gets the cleared payload of a block not in use, of at least the size asked for; NULL exactly where free_memory or the remainder does not cover it |
| FastBins.AllocTakes | src/deep_mem.c:207-247 | A request is served with a free block of its size rounded up to 8 bytes if there is one, the remainder keeping its end, and else with the end of the remainder, which loses that size and 12 bytes; free_memory loses that size |
| FastBins.FreeThenAlloc | src/deep_mem.c:207-360 | A request right after a release of that size gets the same block back, and bins, remainder and free_memory are as before |
| FastBins.FreeTwice | src/deep_mem.c:312-337 | Freeing a block that is already free changes nothing |
| FastBins.CarveIff | src/deep_mem.c:229-247 | A carve keeps the remainder's recorded size equal to the distance from its head to its end less the payload offset exactly when head, block and trailing word fit: the code's own guard lets larger ones through |
| Allocator.GuardTooWeak | src/deep_mem.c:229-247 | On the pool deep_mem_init makes of 200 bytes a request of 8 passes that guard and does not fit, and the record is wrong after it |
| FastBins.FreeCovers | src/deep_mem.c:143-165 | free_memory always covers what is left of the remainder |
| Allocator.Allocator.constructor | src/deep_mem.c:124-168 | deep_mem_init establishes the invariant on an empty pool |
| Allocator.Allocator.Malloc | src/deep_mem.c:185-254 | deep_malloc in place on the buffer: the whole new pool and the pointer are the specified ones |
| Allocator.Allocator.Free | src/deep_mem.c:312-360 | deep_free in place on the buffer: the whole new pool is the specified one |
| SkipList.InvMeans | include/deep_mem.h:46-60 | Following any level's relative offsets from the head ends, meets exactly the blocks with that level, in ascending size, none twice; they are a subsequence of the level below; the bottom level has every block |
| SkipList.InsertKeeps | src/deep_mem.c:640-661 | Inserting a block of a new size, with any level from 1 to 13, keeps that on all levels, adds exactly that block, and changes no offset of a block or level it need not |
| SkipList.RemoveKeeps | src/deep_mem.c:669-691 | Removing a block keeps it on all levels and takes out exactly that block |
| SkipList.RemoveUndoesInsert | src/deep_mem.c:640-691 | Removing a block right after its insertion gives every other block back all of its offsets |
| SkipList.RunKeeps | src/deep_mem.c:640-691 | After any run of insertions and removals the bottom level links exactly the blocks inserted and not since removed |
| SkipList.Index.FindOnIndex | src/deep_mem.c:529-556 | The walk along one level ends at the last block smaller than the size |
| SkipList.Index.Insert | src/deep_mem.c:640-661 | The level loop in place, as specified |
| SkipList.Index.Remove | src/deep_mem.c:669-691 | The level loop in place, as specified |

## Left out

- Floating point: `f32` and `f64` constants, arithmetic, conversions, loads and stores, and the host arithmetic behind them.
- `br_table`: how the scan steps over it is modelled; emitting and executing it is not. The scan evaluates its count
  before it moves the pointer, the order the C code intends.
- `if` without `else`: the interpreter always scans for a second arm, so the source programs of the theorems write both.
- 64-bit operands of `drop` and `select`, which the interpreter treats as 32-bit ones; both are modelled on 32-bit operands.
- Interpreter.Env.CallFunction: imported functions; their types and indices are loaded and counted, and calling one is a
  crash of the model, since the native print functions are host code.
- Imports other than functions, custom sections, the names in exports beyond their bytes.
- Interpreter.Env.ExecLoad: out of range the machine of the model stops, where the C code reads on in the pool, as
  Deviations.LoadIff says; no result is claimed of such a run.
- Interpreter.Env.ExecStore: the same for stores and Deviations.StoreIff.
- Unwinding.UnwindSeq: a loop restarted after its body ended below the loop's entry stack stops the model, where the C
  code goes on with the bytes still lying above; code of the discipline never does this.
- Successful `memory.grow`: the reallocation behind it is a stub that always refuses.
- EndToEnd.ProgramResult: the fixed sizes of the operand stack, of the control stack of 100 frames and of the pool behind
  every allocation but the linear memory; the model's stacks are unbounded and its other allocations succeed.
- Copying data segments into memory, which the loader reads but the program never does; the end-to-end theorem is
  about programs without data segments, whose round trip is in Sections and Loader.
- EndToEnd.AssembleAndRun: picking names, signatures, locals, exports and segments out of the top-level forms, the part of
  the assembler's first half that is not its type table. The program's forms are given; Text reads the bodies.
- Text.ReadAndRun: each body is a text of its own, a list of its instructions, not a part of one text for the module.
- String literals in text, non-ASCII characters, the zero byte as end of input; a lone semicolon, on which the
  tokenizer never ends, is a result of its own in the model.
- Reading past the end of a file or of an array is an outcome of the model, not a memory access; freeing what the
  loader allocated is not modelled.
- Interpreter.Env.CallMain: allocations made before a crash are not claimed to be freed, because the C program exits there.
- Search, merging and splitting in the sorted bins and chains of blocks of equal size: `_find_sorted_block_by_size`
  runs past the level array, and the rest depends on it. Insertion and removal are modelled on blocks of distinct sizes,
  with the level as any number from 1 to 13 in place of the random generator.
- SkipList.Index: blocks are keyed by address in a map instead of lying in one buffer; overlap of blocks is not modelled.
- FastBins.RunKeeps: requests are of 1 to 56 bytes, the sizes the fast bins serve; a request for 57 to 64 bytes goes to the sorted bins.
- FastBins: a block's link is eight bytes of the buffer holding a position in it, in place of a host pointer.
- `deep_realloc` and `deep_mem_migrate`, which are stubs; logging, opcode names, the command line and file access.
