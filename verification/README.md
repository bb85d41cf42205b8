# A verified model of paranoiascape-recomp

This project models six parts of the repository and proves what they are for.

1. **The recompiler** (`mips.dfy`, `r3000.dfy`, `instructions.dfy`, `function_analysis.dfy`,
   `function_starts.dfy`, `control_flow.dfy`, `code_generator.dfy`,
   `jump_tables.dfy`, `layout.dfy`, `loops.dfy`, `text.dfy`, `labels.dfy`, `machines.dfy`,
   `translation.dfy`, `reach.dfy`, `recompiler.dfy`, `names.dfy`, `closed_program.dfy`,
   `pipeline.dfy`; examples in `small_exes.dfy`, `loose_labels.dfy`, `differences.dfy`). The source
   machine is the R3000A with its branch delay slots, stepped one instruction at a time; it decodes its
   words for itself (`R3000`), and `Instructions` relates the recompiler's reading to it. The target is the emitted C
   as a list of statements with labels, gotos, saved branch conditions, calls and returns. What a
   single ordinary instruction does, what the C statement for it does, and what a callee does are
   parameters (`Machines.Host`): the theorems hold for every choice under which the statement for a
   word has the effect of the word (`Translation.Agrees`) and callees keep `$zero` zero. Calls, tail
   calls and the return are events that carry all registers and memory, and a callee's reply may
   depend on the whole history of events.
   `Recompiler.PreservesMeaning` and `Recompiler.SameEnd` are the main results. Their conditions are
   in `Translation.Supported` and can be read off the words of the function: no control flow in a
   slot, no likely or and-link branches, readable slots, a slot of JR or JALR that leaves the register
   read alone, a slot of JAL or JALR that does not touch the link register, a link register of JALR
   that is neither its source nor `$zero`, and jump-table entries that do not label an unaligned
   address or a skipped slot. Functions with jump tables are included wherever the cases lie, and so
   are functions with stack frames. The emitted code differs from the R3000A in three ways: at an
   indirect jump out of the function it takes the frame off the stack; an indirect jump inside the
   function to an address that is no case of the switch becomes a call of that address; and off the
   last word it returns if no function is known to follow or the last block is not known to be
   reached. `Machines.Seen` spells them out, `Recompiler.AgreesExactly` says for each run that they are
   the only ones, `differences.dfy` has a function of one or three words for each, and
   `Recompiler.SameEvents` gives conditions under which none can happen.
2. **The PNG writer** (`bits.dfy`, `inflate.dfy`, `fixed_huffman.dfy`, `deflate.dfy`, `zlib.dfy`,
   `adler.dfy`, `crc.dfy`, `png.dfy`, `png_file.dfy`), against a reader written from RFC 1950, RFC 1951 and RFC 2083.
3. **The GP0 interpreter** (`ring.dfy`, `gp0.dfy`, `gpu_interpreter.dfy`, `primitives.dfy`): a class
   with the ring FIFO, the command buffer and the streaming state, against a word-by-word parser, that
   against a parser that takes whole commands off the front, and both against an encoder of primitives.
   The renderer is the list of events it is told.
4. **The video decoder** (`bit_reader.dfy`, `mdec_tables.dfy`, `mdec.dfy`): the cached bit reader
   against a plain bit sequence, and block decoding against an encoder of legal blocks.
5. **Audio** (`audio_ring.dfy`, `resampler.dfy`, `spu.dfy`): the lock-free ring as a state machine over
   the single loads and stores of its two threads, the resampler against its closed form, and the
   life of an SPU voice.
6. **The trigger engine** (`triggers.dfy`), against a property of the history of a condition.

`seqs.dfy` and `Options` hold small helpers. Methods follow the loops and the field updates of the
source and are proved against specification functions; the theorems are about those functions.

Seven things hold of the code only under a condition and are stated with exactly that condition.

- Compressed data can be read back if and only if it is not empty (`Zlib.Compress`, `Zlib.EmptyFails`).
- The functions found are proper pieces of the code if and only if the executable does not end in two
  `jr $ra` words (`FunctionAnalysis.FunctionsTile`, with the eight bytes of `TwoReturnsFail`).
- An extra label asked for by a jump table is printed if and only if it is aligned and not an in-block
  delay slot (`Labels.LabelsPrinted`, with the executable of `LooseLabels.GotoMisses`).
- An entry of a recognised table that lies in the function is a case of the switch if and only if it
  starts a block or the pre-scan reads it, too (`Recompiler.TableCases`, with the executable of
  `LooseLabels.EntryMisses`): the pre-scan follows no comparison of two registers and takes only tables
  of fewer than 512 entries (`JumpTables.TablesAgree`).
- The table of a dispatch without `addiu` is recognised as such if and only if no earlier addition is
  taken for its low half (`JumpTables.ShortDispatchExactly`, with the words of `LooseLabels.TableMoves`).
- The words of a primitive are carried out as one command if and only if it is no line of many points
  and no square of 8 (`Primitives.TakenExactly`, with the words of `SquareWaits` and `LineFallsApart`):
  the interpreter looks at bit 27 alone for a size of its own, where the GPU has the two bits 27 and 28,
  and it executes a line of many points at its header.
- The emitted function has the events of the R3000A if and only if the run does not end in one of the
  three ways above (`Recompiler.AgreesExactly`, with `Differences.NopRunsOff` and `JumpDiffers`).

One comment of the source is not what the code does: a fall-through call does not depend on whether
the function has a return anywhere (`code_generator.cpp:1281-1289` against `1290-1320`); the model follows the code.

## Model

| member | source | states |
|---|---|---|
| `Recompiler.PreservesMeaning` | paranoiascape-recomp/recompiler/src/code_generator.cpp:806-1212 | Main theorem: from the start of any supported function that nothing intercepts, jump tables and stack frames included, after any number n of instructions of the delay-slot machine, which decodes its words for itself (branch condition read before the slot, slot executed, then the transfer), there is a number m of statements of the emitted function that has brought it to the same point: equal registers and memory at every instruction boundary and the same calls before; when the machine has left the function the emitted function has ended, with the events that Machines.Seen derives from the way of leaving. |
| `Recompiler.SameEnd` | paranoiascape-recomp/recompiler/src/code_generator.cpp:806-1320 | The emitted function ends with a list of calls, tail calls and return, each with its registers and memory, if and only if the R3000A leaves the function with them, up to the differences spelled out in Machines.Seen: an indirect jump to an address that is no case of its switch becomes a call, after which the frame is taken off the stack, and a run off the last word may become a return. |
| `Recompiler.AgreesExactly` | paranoiascape-recomp/recompiler/src/code_generator.cpp:1107-1145 | Exactly when the two are the same: for each run, the emitted function has the events of the R3000A if and only if the run does not leave by an indirect jump to an address outside in a function with a frame, does not take an indirect jump to an address inside that is no case of the switch, and does not run off the last word without a known next function and a last block that is the entry or has a predecessor. |
| `Recompiler.SameEvents` | paranoiascape-recomp/recompiler/src/code_generator.cpp:1280-1320 | Functions that have exactly the events of the R3000A in every run: no frame or no indirect jump; a jump at the end, or a known next function and a live last block, or a dead last block into which no table leads; and for those with indirect jumps, runs in which these go where the table says or outside, with tables whose entries inside are all labels. |
| `Recompiler.TableCases` | paranoiascape-recomp/recompiler/src/code_generator.cpp:1108-1135 | Exactly which entries of the table found for an indirect jump are cases of its switch, of those in the function: the ones that start a block or that the pre-scan reads from some table of the function. |
| `Recompiler.LabelWhen` | paranoiascape-recomp/recompiler/src/code_generator.cpp:1239-1274 | An address of the function is a label if and only if it starts a block or the pre-scan reads it from a table. |
| `Recompiler.Intercepted` | paranoiascape-recomp/recompiler/src/code_generator.cpp:1226-1230 | A call that the override table takes runs nothing of the function. |
| `Recompiler.TableNeverMisses` | paranoiascape-recomp/recompiler/src/code_generator.cpp:990-1135 | Every entry of a table of fewer than 512 entries that lies in the function is a case of the switch, if no comparison of registers in reach of the scan has a bound that can be traced. |
| `LooseLabels.EntryMisses` | paranoiascape-recomp/recompiler/src/code_generator.cpp:1051-1087 | Eight instructions with a bound loaded by ori and compared by sltu, and one table entry e inside the function: the translator finds the table, the pre-scan does not, and e is no case of the switch, whatever it is. |
| `Recompiler.NeverBroken` | paranoiascape-recomp/recompiler/src/code_generator.cpp:919-1204 | No goto of a running emitted function ever names a label that is not there. |
| `Recompiler.NoExtraEvents` | paranoiascape-recomp/recompiler/src/code_generator.cpp:806-1212 | Whatever the emitted function has called after m statements, some run of the delay-slot machine has called, in the same order, up to where the two differ; the converse of PreservesMeaning for runs that never end. |
| `Recompiler.EndMatters` | paranoiascape-recomp/recompiler/src/code_generator.cpp:1289-1320 | For any supported function with no function known to follow: a run that steps off the last word goes on at the end of the function on the R3000A and ends in a bare return in the emitted function; any other run agrees, unless it leaves by an indirect jump with a frame or strays to an address that is no case. |
| `Differences.NopRunsOff` | paranoiascape-recomp/recompiler/src/code_generator.cpp:1289-1320 | A function of one nop with nothing known to follow: the R3000A goes on at the next word, the emitted function returns. |
| `Differences.JumpDiffers` | paranoiascape-recomp/recompiler/src/code_generator.cpp:1136-1145 | A frame of eight bytes and jr $v0, for every value of $v0: the emitted function calls the target and pops the frame; the R3000A makes a tail call of a target outside with the frame on the stack, and jumps to one inside without a call. |
| `Recompiler.UnitIsRegular` | paranoiascape-recomp/recompiler/src/code_generator.cpp:1239-1274 | The checks a caller can make (whole words, no control flow in a slot, no likely or and-link branches, readable slots, entries of the tables found by the pre-scan that are aligned and no skipped slots) are enough for the emitted function to be read address by address. |
| `Translation.Simulates` | paranoiascape-recomp/recompiler/src/code_generator.cpp:806-1212 | The simulation behind the theorem, for any matching pair of states, with the counting that makes neither machine run ahead without end. |
| `Translation.FlowStep` | paranoiascape-recomp/recompiler/src/code_generator.cpp:868-1204 | A control-flow word with its slot: two instructions of the R3000A end where the statements emitted for them end, for every kind of branch, jump, call, return and indirect jump. |
| `Translation.IntendedIs` | paranoiascape-recomp/recompiler/src/control_flow.cpp:56-174 | What the recompiler takes a control-flow word for is what the R3000A does with it: the pending transfer, the link register and the test, for every word of the supported kinds. |
| `Reach.TailAtEnd` | paranoiascape-recomp/recompiler/src/code_generator.cpp:1280-1320 | Where control can run off the end, the emitted text ends in a call of the next function if and only if one is known and the last block is the entry or has a predecessor. |
| `Reach.RunLawful` | paranoiascape-recomp/recompiler/src/control_flow.cpp:283-327 | Runs of the R3000A stay in blocks that are the entry or have a predecessor, if the cases of jump tables lie in such blocks; they run off the end only from there, and leave by an indirect jump, or stray, only in a function that has one. |
| `Translation.SeekText` | paranoiascape-recomp/recompiler/src/code_generator.cpp:806-862 | A goto to a label of the function arrives at the text of the address the label names. |
| `Text.BodyIsText` | paranoiascape-recomp/recompiler/src/code_generator.cpp:1276-1320 | The emitted body, block after block and then the fall-through, is the address-wise text of the function: each word once, each slot with its branch and not again unless a label separates them. |
| `Text.ExitCodeIsFlowText` | paranoiascape-recomp/recompiler/src/code_generator.cpp:868-1204 | What the emitter writes for the exit of a block depends only on the word and on which targets start a block. |
| `Layout.BlocksTile` | paranoiascape-recomp/recompiler/src/control_flow.cpp:178-281 | Every word of the function is in exactly one block. |
| `Layout.FlowIsExit` | paranoiascape-recomp/recompiler/src/code_generator.cpp:819-905 | If no delay slot holds control flow, a control-flow word is the exit of its block and sits at exactly the address at which the emitter looks for it: none is silently skipped. |
| `Layout.SequentialHoldsNoFlow` | paranoiascape-recomp/recompiler/src/code_generator.cpp:861-866 | A block that ends without control flow holds none. |
| `Layout.SequentialSuccessor` | paranoiascape-recomp/recompiler/src/control_flow.cpp:313-325 | A block that ends without control flow runs on into the block that the text puts next to it, or off the end of the function. |
| `Layout.GraphIsLaid` | paranoiascape-recomp/recompiler/src/control_flow.cpp:352-377 | The graph the analysis computes has all the properties the proofs use: ascending blocks, boundaries at every target and after every slot, exits, successors, converse edges. |
| `Layout.GraphConverse` | paranoiascape-recomp/recompiler/src/control_flow.cpp:283-327 | Successor and predecessor lists are converses, with multiplicity. |
| `Loops.CyclesAreCut` | paranoiascape-recomp/recompiler/src/control_flow.cpp:329-350 | Every cycle of the built graph goes through a recorded edge whose target carries the loop flag. |
| `Loops.RestIsAcyclic` | paranoiascape-recomp/recompiler/src/control_flow.cpp:329-350 | Along edges that were not recorded addresses only climb, so that without the recorded edges the graph is acyclic. |
| `Loops.RecordedAre` | paranoiascape-recomp/recompiler/src/control_flow.cpp:329-350 | An edge is recorded if and only if it is an edge of the graph that does not go to a higher address. |
| `Loops.OnlyHeadersMarked` | paranoiascape-recomp/recompiler/src/control_flow.cpp:329-350 | A block carries the loop flag only if a recorded edge goes to it. |
| `ControlFlow.Analyze` | paranoiascape-recomp/recompiler/src/control_flow.cpp:9-173 | The two classifiers agree: a word analyses to a kind if and only if it is control flow, and exactly those have a slot. |
| `R3000.DecodeEncode` | paranoiascape-recomp/recompiler/src/control_flow.cpp:56-174 | The reference decoder reads every control-flow instruction from its encoded word: twelve instructions, all registers, offsets and indices. |
| `Instructions.ReadAlike` | paranoiascape-recomp/recompiler/src/control_flow.cpp:9-174 | For every address and word: control flow for the recompiler if and only if for the R3000A, likely branches exactly the opcodes that it lacks, and kind and target those of the instruction. |
| `Instructions.TargetsAre` | paranoiascape-recomp/recompiler/src/control_flow.cpp:41-54 | The target of every encoded branch is (address + 4 + 4 * offset) mod 2^32, that of every encoded jump the region of the slot with 4 * index. |
| `Instructions.KindsAre` | paranoiascape-recomp/recompiler/src/control_flow.cpp:56-174 | The kind of every encoded instruction, jr $ra as the return, and the registers that jr and jalr name. |
| `Instructions.LinksAre` | paranoiascape-recomp/recompiler/src/code_generator.cpp:906-919 | The emitter writes the link register for exactly bltzal and bgezal. |
| `Instructions.TracedWords` | paranoiascape-recomp/recompiler/src/code_generator.cpp:1071-1098 | A comparison sltu and the ori or addiu that loads its bound, as encoded words, for all registers and constants. |
| `Instructions.UpperWord` | paranoiascape-recomp/recompiler/src/code_generator.cpp:1049-1069 | A lui as an encoded word, for all registers and constants. |
| `ControlFlow.FindBlockBoundaries` | paranoiascape-recomp/recompiler/src/control_flow.cpp:178-228 | Computes the boundaries of a function. |
| `ControlFlow.BuildBasicBlocks` | paranoiascape-recomp/recompiler/src/control_flow.cpp:230-281 | Computes the blocks cut at the boundaries, each with its extent and exit. |
| `ControlFlow.LengthInWords` | paranoiascape-recomp/recompiler/src/control_flow.cpp:248-255 | The recorded length of a block is its extent in words. |
| `ControlFlow.LinkBasicBlocks` | paranoiascape-recomp/recompiler/src/control_flow.cpp:283-327 | Computes the successor and predecessor lists, in address order. |
| `ControlFlow.DetectLoops` | paranoiascape-recomp/recompiler/src/control_flow.cpp:329-350 | Computes the recorded edges and raises the loop flags. |
| `ControlFlow.AnalyzeFunction` | paranoiascape-recomp/recompiler/src/control_flow.cpp:352-377 | Computes the whole graph of a function. |
| `CodeGenerator.Generator.TranslateBasicBlock` | paranoiascape-recomp/recompiler/src/code_generator.cpp:806-1212 | Emits the text of a block: label, words, slot before exit, exit by kind. |
| `CodeGenerator.Generator.EmitIndirect` | paranoiascape-recomp/recompiler/src/code_generator.cpp:986-1145 | Emits an indirect jump: scans back for a table, reads its entries, and writes a switch over the labelled ones, each once in first-seen order, and the default path with its stack adjustment. |
| `CodeGenerator.CasesAre` | paranoiascape-recomp/recompiler/src/code_generator.cpp:1108-1130 | The cases of a switch are exactly the labelled entries of the table, and no case appears twice. |
| `JumpTables.ScanForTable` | paranoiascape-recomp/recompiler/src/code_generator.cpp:997-1105 | Runs the backward scan (load, addition, constant, upper half, bound by sltiu or traced through sltu; 40 words, not past the function; fewer than 1024 entries for the translator and 512 for the pre-scan). |
| `JumpTables.DispatchFound` | paranoiascape-recomp/recompiler/src/code_generator.cpp:990-1105 | The sequence sltiu, lui, addiu, addu, lw, jr, with other words between that do not look like a part of it and whatever before it, is recognised by both scans, with base the sum of its three constants and as many entries as the index is compared with; with sltu in place of sltiu it is recognised by the translator, with the bound it traces; and no table is found when the count reaches the limit of the scan or the sum is 0. |
| `JumpTables.ShortDispatchExactly` | paranoiascape-recomp/recompiler/src/code_generator.cpp:990-1105 | The sequence without addiu, where the load carries the low half: its own table is found if and only if no addition to the first operand of the addu, in the run of additions of constants just before the comparison, is taken for the low half, or only one of 0. |
| `LooseLabels.TableMoves` | paranoiascape-recomp/recompiler/src/code_generator.cpp:1030-1105 | A dispatch without addiu whose index has 4 added before the comparison: both scans place its table four bytes further on. |
| `JumpTables.NoTable` | paranoiascape-recomp/recompiler/src/code_generator.cpp:1051-1105 | Without a comparison in reach that bounds the index, neither scan finds a table. |
| `JumpTables.TablesAgree` | paranoiascape-recomp/recompiler/src/code_generator.cpp:1239-1266 | If no comparison of registers in reach has a bound to be traced to, the pre-scan finds the table of the translator if and only if it has fewer than 512 entries, and otherwise none. |
| `JumpTables.EntryIsRead` | paranoiascape-recomp/recompiler/src/code_generator.cpp:1114-1120 | The entries are exactly the readable words of the table. |
| `SmallExes.IsMadeOf` | paranoiascape-recomp/recompiler/include/ps1_exe_parser.h:71-84 | The words of an executable are read from its bytes lowest byte first: any list of words, laid out so, reads back word by word. |
| `LooseLabels.GotoMisses` | paranoiascape-recomp/recompiler/src/code_generator.cpp:1239-1274 | Seven instructions and one table entry e: the emitted function has a case that goes to e, and its label is printed only if e is aligned and not the slot of the jump; with the entry start + 1 or start + 24 the goto has no label. |
| `CodeGenerator.Generator.CollectExtraLabels` | paranoiascape-recomp/recompiler/src/code_generator.cpp:1239-1274 | Scans every indirect jump and collects the addresses inside the function that its table names and that start no block. |
| `CodeGenerator.Generator.GenerateFunction` | paranoiascape-recomp/recompiler/src/code_generator.cpp:1214-1322 | Emits the call of the override table, the blocks in order, and the fall-through call when the last block runs off the end and is reachable. |
| `CodeGenerator.Generator.GenerateAllFunctions` | paranoiascape-recomp/recompiler/src/code_generator.cpp:1340-1414 | Emits a stub or a body for every function, with the function that begins at its end as its fall-through. |
| `CodeGenerator.Generator.Deduplicate` | paranoiascape-recomp/recompiler/src/code_generator.cpp:1518-1665 | Keeps the first function of every start address and collects the known starts. |
| `CodeGenerator.Generator.ExportList` | paranoiascape-recomp/recompiler/src/code_generator.cpp:1674-1685 | Reads each address back from the name of its definition. |
| `CodeGenerator.Generator.GenerateFile` | paranoiascape-recomp/recompiler/src/code_generator.cpp:1416-1705 | Emits the file: known set, deduplication, definitions, exported list. |
| `Labels.LabelsPrinted` | paranoiascape-recomp/recompiler/src/code_generator.cpp:806-872 | How often the emitted function prints a label it was asked for: exactly once if it starts a block or is aligned and no in-block delay slot, and otherwise never. |
| `Labels.GotosClosed` | paranoiascape-recomp/recompiler/src/code_generator.cpp:1108-1135 | Given that condition on extra labels, every goto of a function names exactly one label of it. |
| `Labels.CallsRefer` | paranoiascape-recomp/recompiler/src/code_generator.cpp:919-1204 | Every call by name in a function names a known function or the one that follows. |
| `ClosedProgram.GotosClosed` | paranoiascape-recomp/recompiler/src/code_generator.cpp:1239-1320 | Every goto in a definition of the file names exactly one label of that definition. |
| `ClosedProgram.CallsClosed` | paranoiascape-recomp/recompiler/src/code_generator.cpp:1354-1408 | Every call by name in a definition, fall-through calls included, names exactly one definition of the file. |
| `ClosedProgram.DefinedOnce` | paranoiascape-recomp/recompiler/src/code_generator.cpp:1652-1669 | Every known function has exactly one definition. |
| `ClosedProgram.ExportsMatch` | paranoiascape-recomp/recompiler/src/code_generator.cpp:1671-1685 | The exported list has one entry per definition, with the address its name was made of. |
| `ClosedProgram.NamesDistinct` | paranoiascape-recomp/recompiler/src/code_generator.cpp:1654-1669 | Two definitions of the file never have the same name. |
| `ClosedProgram.KeptFirst` | paranoiascape-recomp/recompiler/src/code_generator.cpp:1654-1665 | Deduplication keeps the first function given for an address. |
| `Names.NameRoundTrip` | paranoiascape-recomp/recompiler/src/code_generator.cpp:1674-1684 | The address printed into a function name is read back unchanged. |
| `Names.ParseHex` | paranoiascape-recomp/recompiler/src/code_generator.cpp:1677-1679 | strtoul with base 16 and a 32-bit unsigned long: leading spaces, a sign and a 0x prefix are skipped, then the longest run of hexadecimal digits is read; what does not fit saturates. |
| `Names.DigitsAre` | paranoiascape-recomp/recompiler/src/code_generator.cpp:1674-1679 | Digits of both cases are read, upper-case ones are printed. |
| `Names.CutIs` | paranoiascape-recomp/recompiler/src/code_generator.cpp:1677-1679 | A negated number is the one that adds up to zero modulo 2^32; what does not fit is 0xFFFFFFFF. |
| `FunctionAnalysis.FunctionsTile` | paranoiascape-recomp/recompiler/src/function_analysis.cpp:285-335 | Functions follow each other from the first start to the end of the executable, and each is a non-empty run of whole words if and only if the executable does not end in two jr $ra words. |
| `FunctionAnalysis.TwoReturnsFail` | paranoiascape-recomp/recompiler/src/function_analysis.cpp:112-117 | Two jr $ra words and nothing else: the analysis returns a function that starts and ends at the end of the executable. |
| `FunctionAnalysis.HeldOnce` | paranoiascape-recomp/recompiler/src/function_analysis.cpp:285-300 | Every address from the first start on is in exactly one function. |
| `FunctionAnalysis.EndIsStart` | paranoiascape-recomp/recompiler/src/function_analysis.cpp:112-117 | The end of the executable is taken for a function start if and only if its last two words are jr $ra. |
| `FunctionAnalysis.FoundStart` | paranoiascape-recomp/recompiler/src/function_analysis.cpp:72-122 | The start found for a return lies between the load address and the word after the return, and is that word exactly when the word before the return is a return too. |
| `FunctionStarts.StartIs` | paranoiascape-recomp/recompiler/src/function_analysis.cpp:72-122 | The start found for a return is the nearest word before it that opens a frame outside a delay slot, or the second word after the nearest return, whichever comes first going back; failing both, the first word of the code or the one 4096 words back. |
| `FunctionStarts.PrologueIs` | paranoiascape-recomp/recompiler/src/function_analysis.cpp:24-39 | The words taken for opening a frame of n bytes are exactly 0x27BE0000 - n, for n from 1 to 0x8000. |
| `FunctionStarts.SlotFollows` | paranoiascape-recomp/recompiler/src/function_analysis.cpp:54-70 | The words taken for having a slot are exactly the control flow of the R3000A and the condition branches of two coprocessors. |
| `FunctionStarts.EncodedCalls` | paranoiascape-recomp/recompiler/src/function_analysis.cpp:239-260 | An encoded jal with index i has the function at 0x80000000 + 4 * i, if that is in the executable. |
| `FunctionStarts.FrameIs` | paranoiascape-recomp/recompiler/src/function_analysis.cpp:302-313 | The frame recorded for a function is the one that its first word opens. |
| `FunctionStarts.DataExactly` | paranoiascape-recomp/recompiler/src/function_analysis.cpp:163-181 | When a function is taken for data, without divisions: the counts against 6, 31, 61 and 8, 51 in a hundred words, by size. |
| `FunctionStarts.OdditiesAre` | paranoiascape-recomp/recompiler/src/function_analysis.cpp:131-161 | What is counted of a word: an encoded jal out of main memory, and an opcode that is not in the list of the R3000A. |
| `FunctionAnalysis.CalleesAreFunctions` | paranoiascape-recomp/recompiler/src/function_analysis.cpp:239-260 | The target of every call into the executable is the start of a function. |
| `FunctionAnalysis.FollowedBy` | paranoiascape-recomp/recompiler/src/function_analysis.cpp:286-300 | The fall-through of every function but the last calls the function that begins at its end. |
| `FunctionAnalysis.FunctionAnalyzer.FindFunctionStart` | paranoiascape-recomp/recompiler/src/function_analysis.cpp:72-122 | Scans back for a prologue that is no delay slot, a return, the load address, or 4096 words. |
| `FunctionAnalysis.FunctionAnalyzer.AddForcedEntry` | paranoiascape-recomp/recompiler/src/function_analysis.cpp:10-15 | Keeps only entries inside the executable. |
| `FunctionAnalysis.FunctionAnalyzer.Analyze` | paranoiascape-recomp/recompiler/src/function_analysis.cpp:183-336 | Computes the function table from the returns, the call targets, the forced entries and the data heuristic. |
| `FunctionAnalysis.FunctionAnalyzer.IsLikelyDataSection` | paranoiascape-recomp/recompiler/src/function_analysis.cpp:124-181 | Counts the calls out of main memory and the undefined opcodes of a range and compares them with the thresholds for its size. |
| `Pipeline.PassesFit` | paranoiascape-recomp/recompiler/src/main_psx.cpp:193-366 | What the analysis hands to the generator satisfies what the closed-program theorems ask for. |
| `Pipeline.Recompile` | paranoiascape-recomp/recompiler/src/main_psx.cpp:155-366 | The whole program: fixed entries, the list of further functions read line by line, analysis, graphs, samples and file, to the definitions that the theorems are about. |
| `Pipeline.AnalyzeAllFunctions` | paranoiascape-recomp/recompiler/src/control_flow.cpp:379-403 | The graphs of all functions, under their start addresses. |
| `Pipeline.EndsAreKnown` | paranoiascape-recomp/recompiler/src/code_generator.cpp:1397-1405 | What a function is emitted with as its successor begins where it ends, and only the last function can be emitted with none. |
| `Pipeline.FileHolds` | paranoiascape-recomp/recompiler/src/code_generator.cpp:1340-1414 | The i-th definition of the file that the passes make of an executable is the emitted function that the theorems of Recompiler are about, unless it has been taken for data. |
| `Zlib.Compress` | paranoiascape-recomp/runner/include/stb_image_write.h:895-1022 | For every byte sequence and quality, decoding the output by RFC 1950 and RFC 1951 gives the input back if and only if the input is not empty, on the fixed-Huffman path and on the stored fallback alike. The stream begins with the bytes 0x78 0x5e. |
| `Zlib.EmptyFails` | paranoiascape-recomp/runner/include/stb_image_write.h:984-999 | The stream written for empty input holds no block and cannot be decoded. |
| `Zlib.StoredDecodes` | paranoiascape-recomp/runner/include/stb_image_write.h:984-999 | The stored blocks decode to the data, whatever follows (section 3.2.4 of RFC 1951). |
| `Zlib.Close` | paranoiascape-recomp/runner/include/stb_image_write.h:975-978 | Writes the end-of-block code and fewer than eight zero bits, to a whole number of bytes. |
| `Zlib.Store` | paranoiascape-recomp/runner/include/stb_image_write.h:986-998 | Writes the data in stored blocks of at most 32767 bytes, the last one marked final. |
| `Deflate.Encode` | paranoiascape-recomp/runner/include/stb_image_write.h:911-974 | Writes tokens that expand to exactly the data, whatever the hash chains and the lazy matching choose. |
| `Deflate.Step` | paranoiascape-recomp/runner/include/stb_image_write.h:922-971 | One round of the search: a copy or a literal, which describe the next bytes of the data. |
| `Deflate.FindMatch` | paranoiascape-recomp/runner/include/stb_image_write.h:924-933 | The last of the longest matches in the window if one has length 3 or more; no entry in the window matches further. |
| `Deflate.NextIsBetter` | paranoiascape-recomp/runner/include/stb_image_write.h:941-955 | Whether some entry in the window of the next position matches longer. |
| `Deflate.Remember` | paranoiascape-recomp/runner/include/stb_image_write.h:934-939 | Adds the position to its chain, halving the chain first when it has reached twice the quality. |
| `Deflate.MatchCopies` | paranoiascape-recomp/runner/include/stb_image_write.h:859-865 | Copying the counted length from an earlier position continues the data, even when the copy runs into its own output. |
| `Deflate.FindCount` | paranoiascape-recomp/runner/include/stb_image_write.h:859-865 | Counts how far two positions agree, up to 258 and the end of the data. |
| `Deflate.Add` | paranoiascape-recomp/runner/include/stb_image_write.h:880-881 | Appends the bits lowest first, through the or into the 32-bit buffer, which never overflows. |
| `Deflate.Flush` | paranoiascape-recomp/runner/include/stb_image_write.h:839-847 | Moves whole bytes out of the bit buffer without changing the bits written. |
| `Deflate.Reverse` | paranoiascape-recomp/runner/include/stb_image_write.h:849-857 | Reverses the low bits of a code. |
| `Deflate.AddSymbol` | paranoiascape-recomp/runner/include/stb_image_write.h:882-889 | Appends the fixed code of a symbol, highest bit first. |
| `FixedHuffman.SymbolRoundTrip` | paranoiascape-recomp/runner/include/stb_image_write.h:884-889 | The fixed codes are a prefix code: each is read back as its symbol, whatever follows (section 3.2.6 of RFC 1951). |
| `FixedHuffman.TokenRoundTrip` | paranoiascape-recomp/runner/include/stb_image_write.h:957-970 | A literal or a match is decoded and applied (section 3.2.5 of RFC 1951). |
| `FixedHuffman.BlockRoundTrip` | paranoiascape-recomp/runner/include/stb_image_write.h:915-975 | A whole fixed block decodes to what its tokens expand to, and leaves the reader just past the end-of-block code. |
| `FixedHuffman.LengthTable` | paranoiascape-recomp/runner/include/stb_image_write.h:901-902 | The literal length table is the one that follows from the extra-bit counts of the format. |
| `FixedHuffman.DistanceTable` | paranoiascape-recomp/runner/include/stb_image_write.h:903-904 | The literal distance table is the one that follows from the extra-bit counts of the format. |
| `Adler.Compute` | paranoiascape-recomp/runner/include/stb_image_write.h:1001-1016 | Reducing only after blocks of at most 5552 bytes, with a short first block, gives the per-byte-reduced checksum (section 2.2 of RFC 1950). |
| `Adler.AddOne` | paranoiascape-recomp/runner/include/stb_image_write.h:1007 | Within a block neither sum reaches 2^32. |
| `Adler.LargestBlock` | paranoiascape-recomp/runner/include/stb_image_write.h:1004-1010 | With blocks of 5553 bytes the second sum could reach 2^32. |
| `Crc.Compute` | paranoiascape-recomp/runner/src/crc32.c:20-27 | The table-driven checksum equals the bit-at-a-time reflected CRC-32 (section 8 of RFC 1952). |
| `Crc.InitTable` | paranoiascape-recomp/runner/src/crc32.c:11-18 | Fills the table with eight steps of each byte value. |
| `Crc.TableStep` | paranoiascape-recomp/runner/src/crc32.c:24-25 | Eight steps at once: linearity of the step over exclusive or. |
| `Crc.ComputeLiteral` | paranoiascape-recomp/runner/include/stb_image_write.h:1024-1071 | The checksum with the literal table equals the bit-at-a-time one. |
| `Crc.LiteralIsTable` | paranoiascape-recomp/runner/include/stb_image_write.h:1029-1063 | Each of the 256 literals is eight steps of its index. |
| `Crc.ChecksumOfEnd` | paranoiascape-recomp/runner/include/stb_image_write.h:1065-1070 | The known value 0xAE426082 for the letters IEND. |
| `Png.WriteImageData` | paranoiascape-recomp/runner/include/stb_image_write.h:1144-1178 | Inflating and unfiltering the image data gives back every row in writing order, and these rows are the pixels in their places: byte k of row y is the one at origin + stride * y + k of the buffer, or counted from the last row if the image is flipped; for strides of either sign. |
| `PngFile.WriteFile` | paranoiascape-recomp/runner/include/stb_image_write.h:1179-1211 | The whole file: a reader that checks the signature, every chunk length and every checksum gets the size, the components and the rows, which are the pixels in their places; and the file is the PNG file of three chunks that PngFile.IsPng describes byte by byte. |
| `PngFile.FileIsPng` | paranoiascape-recomp/runner/include/stb_image_write.h:1189-1211 | The literal signature, the thirteen header bytes with colour types 0, 4, 2, 6, the tags and lengths, the CRC-32 of tag and data of each chunk, and the twelve bytes of IEND. |
| `Png.PixelsInPlace` | paranoiascape-recomp/runner/include/stb_image_write.h:1092-1100 | All bytes of all rows, flipped or not, are those of the buffer, with neither Start nor SignedStride in the statement. |
| `PngFile.ChunkRoundTrip` | paranoiascape-recomp/runner/include/stb_image_write.h:1073-1081 | A chunk reads back with its type and data, whatever follows it (section 3.2 of RFC 2083). |
| `Png.EncodeLine` | paranoiascape-recomp/runner/include/stb_image_write.h:1092-1126 | Fills the line buffer with the residues of the chosen filter, the row above taken as zeros for the first row. |
| `Png.UnfilterRestores` | paranoiascape-recomp/runner/include/stb_image_write.h:1092-1126 | The standard unfilter (section 6 of RFC 2083) undoes each of the filters 0 to 4. |
| `Png.FirstIsResidue` | paranoiascape-recomp/runner/include/stb_image_write.h:1094-1117 | On the first pixel of a row the remapped filters 0, 1, 0, 5, 6 write what the standard filters write above a row of zeros. |
| `Png.LaterIsResidue` | paranoiascape-recomp/runner/include/stb_image_write.h:1118-1125 | The same for the rest of the row. |
| `Png.Paeth` | paranoiascape-recomp/runner/include/stb_image_write.h:1083-1089 | Chooses the nearest of the three neighbours to their linear prediction, earlier ones on a tie. |
| `Png.BestFilter` | paranoiascape-recomp/runner/include/stb_image_write.h:1151-1170 | Tries the five filters and keeps the first of least cost. |
| `Png.ChosenIsLeast` | paranoiascape-recomp/runner/include/stb_image_write.h:1151-1165 | That filter costs no more than any other whose cost is below 2^31 - 1. |
| `GpuInterpreter.Gpu.WriteGP0` | paranoiascape-recomp/runner/src/gpu_interpreter.cpp:25-55 | A single word: the FIFO is empty before and after, nothing is dropped, and the state is that of the word-by-word parser. |
| `GpuInterpreter.Gpu.WriteBatch` | paranoiascape-recomp/runner/src/gpu_interpreter.cpp:107-135 | Up to 64 words pushed and then processed end in the same state, with the same commands and uploads, as the same words one call at a time (WriteEach). |
| `GpuInterpreter.Gpu.WriteEach` | paranoiascape-recomp/runner/src/gpu_interpreter.cpp:25-55 | The words one call at a time, against the same fold. |
| `GpuInterpreter.Gpu.ProcessFIFO` | paranoiascape-recomp/runner/src/gpu_interpreter.cpp:168-266 | Empties the FIFO into the parser, from any reachable state, streaming included. |
| `GpuInterpreter.Gpu.StreamWord` | paranoiascape-recomp/runner/src/gpu_interpreter.cpp:146-166 | Takes one or two pixels; |staging| + remaining stays width * height, and the upload happens exactly when it is complete. |
| `GpuInterpreter.Gpu.BeginStreaming` | paranoiascape-recomp/runner/src/gpu_interpreter.cpp:215-245 | Clamps the dimensions to 1024 by 512 and starts the transfer; with a zero dimension the command is executed as it is. |
| `GpuInterpreter.Gpu.Push` | paranoiascape-recomp/runner/src/gpu_interpreter.cpp:107-116 | Appends a word to the ring, or drops it when 64 are there. |
| `GpuInterpreter.Gpu.Pop` | paranoiascape-recomp/runner/src/gpu_interpreter.cpp:118-127 | Takes the oldest word. |
| `GpuInterpreter.Gpu.ResetCommandBuffer` | paranoiascape-recomp/runner/src/gpu_interpreter.cpp:1060-1068 | GP1(01h) drops the command being collected and leaves a transfer under way active. |
| `GpuInterpreter.Gpu.ResetGpu` | paranoiascape-recomp/runner/src/gpu_interpreter.cpp:1048-1058 | GP1(00h) ends transfer and command; stale staging and pixel count are never read. |
| `GpuInterpreter.Gpu.AbortStreaming` | paranoiascape-recomp/runner/src/gpu_interpreter.cpp:90-103 | Gives up a transfer and nothing else. |
| `Gp0.FeedIsParse` | paranoiascape-recomp/runner/src/gpu_interpreter.cpp:168-266 | Feeding words one at a time passes on exactly the events of a one-pass parser that takes the words of each command, and of each transfer its 3 header words and ceil(w*h/2) data words after clamping; what is left over is the start of one command. |
| `Primitives.TakenExactly` | paranoiascape-recomp/runner/src/gpu_interpreter.cpp:189-383 | For every primitive (polygons, lines, rectangles, fills, copies, transfers, settings), encoded from its fields: feeding its words to the idle interpreter makes exactly the one event meant and leaves it idle, if and only if it is no line of many points and no square of 8. |
| `Primitives.ListTaken` | paranoiascape-recomp/runner/src/gpu_interpreter.cpp:168-266 | Any list of such primitives is carried out one by one. |
| `Primitives.SquareWaits` | paranoiascape-recomp/runner/src/gpu_interpreter.cpp:362-366 | A whole square of 8 by 8 leaves the interpreter waiting for a third word. |
| `Primitives.LineFallsApart` | paranoiascape-recomp/runner/src/gpu_interpreter.cpp:352-360 | A whole line of two points with its end mark: the header is executed alone and the rest taken for other commands. |
| `Primitives.PackedHolds` | paranoiascape-recomp/runner/src/gpu_interpreter.cpp:192-200 | Pixels packed two to a word, first in the low half, come out in order. |
| `Gp0.StreamFills` | paranoiascape-recomp/runner/src/gpu_interpreter.cpp:146-166 | A completed transfer makes exactly one upload, whose pixel i is halfword i of the stream. |
| `Gp0.HandlersReadAll` | paranoiascape-recomp/runner/src/gpu_interpreter.cpp:317-383 | Every handler uses exactly as many words as were collected for its command, except that a polyline, whose count is -1, is executed with its header alone. |
| `Gp0.RunsAreSound` | paranoiascape-recomp/runner/src/gpu_interpreter.cpp:796-830 | Under any sequence of words, resets and aborts, a CPU-to-VRAM command is executed only with a zero dimension, so that the copying body of its handler is never reached, and every upload has a pixel for each place. |
| `Gp0.PartWaits` | paranoiascape-recomp/runner/src/gpu_interpreter.cpp:189-266 | An incomplete command passes nothing on. |
| `Mdec.DecodeBlock` | paranoiascape-recomp/runner/src/fmv_player.cpp:216-289 | Decoding a legal encoded block gives its DC value and every dequantised coefficient at its place, with the values that the format asks for (Mdec.HoldsValues), leaves all other places alone, and ends just past the end-of-block code. |
| `Mdec.ValuesHeld` | paranoiascape-recomp/runner/src/fmv_player.cpp:233-282 | At the place of every coefficient: level times scale times matrix entry, over 8, rounded toward zero, with its sign; for an escape the largest odd number not above that, negated for a negative level; stored in 16 bits. |
| `Mdec.FitsExactly` | paranoiascape-recomp/runner/src/fmv_player.cpp:233-282 | While it fits 16 bits the stored value is that number: 8|v| <= n < 8(|v| + 1), and for an escape v odd with 8v <= n < 8(v + 2). |
| `Mdec.DecodedHolds` | paranoiascape-recomp/runner/src/fmv_player.cpp:508-522 | The same for every block of a macroblock. |
| `Mdec.DecodeMacroblock` | paranoiascape-recomp/runner/src/fmv_player.cpp:511-522 | The six blocks of a macroblock decode in step, each into its index. |
| `Mdec.DecodeBlocks` | paranoiascape-recomp/runner/src/fmv_player.cpp:520-522 | Any number of blocks decode in step: each starts where the one before ended. |
| `Mdec.DecodeStep` | paranoiascape-recomp/runner/src/fmv_player.cpp:222-288 | One round on any bits, with the branches for end of block, escape, table codes, a scan past the block and no code at all. |
| `Mdec.FilledHolds` | paranoiascape-recomp/runner/src/fmv_player.cpp:237-279 | Every coefficient is found at the zigzag place of its scan position. |
| `Mdec.FilledOnly` | paranoiascape-recomp/runner/src/fmv_player.cpp:237-279 | Every other place keeps what it had. |
| `Mdec.StandardDistinct` | paranoiascape-recomp/runner/src/fmv_player.cpp:120-129 | The zigzag order of the decoder sends different scan positions to different places. |
| `Mdec.Recognised` | paranoiascape-recomp/runner/src/fmv_player.cpp:223-262 | A window that begins with a code is recognised as that code by the end-of-block test, the escape test and the linear scan. |
| `MdecTables.PrefixCode` | paranoiascape-recomp/runner/src/fmv_player.cpp:38-69 | The 111 codes, the escape and the end of block are a prefix code. |
| `MdecTables.CodesInOrder` | paranoiascape-recomp/runner/src/fmv_player.cpp:72-104 | Runs and levels of the 111 codes: numbered by run, and within a run by level from 1 on, with as many levels per run as table B.5 of ISO/IEC 11172-2 has. |
| `MdecTables.EighthRow` | paranoiascape-recomp/runner/src/fmv_player.cpp:107-116 | The default intra matrix, row by row (with FirstRow to SeventhRow). |
| `MdecTables.ZigzagInverse` | paranoiascape-recomp/runner/src/fmv_player.cpp:120-129 | The scan visits no place twice. |
| `BitReader.Reader.Show` | paranoiascape-recomp/runner/src/fmv_player.cpp:183-186 | The next n bits, up to 25, of the plain bit sequence, zeros past the end. |
| `BitReader.Reader.Skip` | paranoiascape-recomp/runner/src/fmv_player.cpp:188-191 | Consumes n bits covered by a preceding show. |
| `BitReader.Reader.Get` | paranoiascape-recomp/runner/src/fmv_player.cpp:193-197 | Shows and skips. |
| `BitReader.Reader.GetSigned` | paranoiascape-recomp/runner/src/fmv_player.cpp:200-204 | The next n bits as a two's-complement value, through a left shift and an arithmetic right shift. |
| `BitReader.Reader.Refill` | paranoiascape-recomp/runner/src/fmv_player.cpp:176-181 | Fetches bytes until the cache has more than 24 bits or the buffer ends. |
| `BitReader.SwappedBits` | paranoiascape-recomp/runner/src/fmv_player.cpp:147-154 | After the byte swap the buffer holds the bits of the little-endian words, highest first (even lengths). |
| `BitReader.Swap` | paranoiascape-recomp/runner/src/fmv_player.cpp:147-154 | Exchanges neighbouring bytes; the last byte of an odd length stays. |
| `AudioRing.Linearizable` | paranoiascape-recomp/runner/src/xa_audio.cpp:155-188 | In every interleaving of producer and consumer steps, sample by sample, the pairs read are a prefix of the pairs written, in order and whole, with at most N - 1 stored. |
| `AudioRing.ReadTakes` | paranoiascape-recomp/runner/src/xa_audio.cpp:176-188 | A read that ends has returned exactly the pairs asked for or, if fewer were published when it began, those; the oldest ones, whatever the producer has done since. |
| `AudioRing.WriteTakes` | paranoiascape-recomp/runner/src/xa_audio.cpp:162-174 | A write that ends has stored exactly what was given or, if less was free when it began, as much as there was room for. |
| `AudioRing.AnswerIs` | paranoiascape-recomp/runner/src/xa_audio.cpp:155-160 | The answer to the producer is the capacity less one pair less what is in the ring. |
| `AudioRing.StepKeeps` | paranoiascape-recomp/runner/src/xa_audio.cpp:155-188 | Every step of either thread keeps the invariant, whatever the other is in the middle of. |
| `AudioRing.NothingLost` | paranoiascape-recomp/runner/src/xa_audio.cpp:242-271 | With a producer that asks for the free space before it writes, what is written is what was given, call by call. |
| `AudioRing.NothingDropped` | paranoiascape-recomp/runner/src/xa_audio.cpp:155-174 | Free space only grows between the question and the write, so that the ignored return value hides no dropped pair. |
| `AudioRing.NothingDroppedFixed` | paranoiascape-recomp/runner/src/cd_audio.cpp:127-148 | The same for the second ring, which writes 1024 pairs after an answer of at least 1024. |
| `AudioRing.PcmRing.RingWrite` | paranoiascape-recomp/runner/src/cd_audio.cpp:52-64 | Writes as many pairs as fit behind those stored. |
| `AudioRing.PcmRing.ReadPcm` | paranoiascape-recomp/runner/src/cd_audio.cpp:66-78 | Reads as many pairs as there are, oldest first. |
| `Resampler.Drain.Generate` | paranoiascape-recomp/runner/src/xa_audio.cpp:250-271 | However the sector is chopped up, the next outputs are the ideal ones; 44100 * consumed + phase = 37800 * produced. |
| `Resampler.Drain.RunSector` | paranoiascape-recomp/runner/src/xa_audio.cpp:242-271 | A sector yields the ideal output pairs in order, 2352 in all, and returns the phase to zero. |
| `Resampler.SectorEnds` | paranoiascape-recomp/runner/src/xa_audio.cpp:263-268 | The sector runs out with output pair 2352 and no other, at phase zero. |
| `Resampler.Drain.Channel` | paranoiascape-recomp/runner/src/xa_audio.cpp:254-261 | A sample between two neighbours; the lookahead stays inside the sector. |
| `Resampler.IdealIs` | paranoiascape-recomp/runner/src/xa_audio.cpp:250-261 | Output k of a channel: 37800 k / 44100 input pairs from the start, moved from the first neighbour toward the second by its phase in 44100ths of their distance, rounded toward the first. |
| `Spu.Voice.Mix` | paranoiascape-recomp/runner/src/spu.cpp:249-317 | One tick: the position in the sound is what the pitches since key-on add up to, the block held is the one that the blocks taken so far lead to in the sound memory, the sample is that block's at the position, scaled by the envelope and within 16 bits, and the life of the envelope goes on by the block ends and at most one update. |
| `Spu.AdvanceIsExact` | paranoiascape-recomp/runner/src/spu.cpp:258-265 | The total advance is floor((initial counter + sum of pitches) / 4096): no fraction is lost. |
| `Spu.Voice.AdvancePitch` | paranoiascape-recomp/runner/src/spu.cpp:258-265 | Adds the pitch to the counter and whole samples to the position. |
| `Spu.Voice.TakeBlock` | paranoiascape-recomp/runner/src/spu.cpp:267-304 | Takes the next block of the sound memory with its loop flags: address, loop start, decoder history and decoded samples are those of NextBlock; a one-shot end starts the release, the end of memory silences the voice. |
| `Spu.PlaysStraight` | paranoiascape-recomp/runner/src/spu.cpp:267-304 | As long as no block ends a loop, a voice plays the memory block after block, with the samples of one continuous decode. |
| `Spu.LoopRepeats` | paranoiascape-recomp/runner/src/spu.cpp:284-300 | A loop that comes back with the same start repeats exactly for ever: going back forgets all but the start of the loop. |
| `Spu.Voice.UpdateAdsr` | paranoiascape-recomp/runner/src/spu.cpp:163-237 | One update of the envelope. |
| `Spu.UpdateKeeps` | paranoiascape-recomp/runner/src/spu.cpp:163-237 | The volume stays in 0..0x7FFF and the phase does not go back. |
| `Spu.UpdateMoves` | paranoiascape-recomp/runner/src/spu.cpp:163-237 | One tick for every setting of the register fields: the attack adds (7 - step) * 2^(11 - shift), at least 1; decay and release take away volume / 2^(shift + 1), at least 1; the sustain holds 0x800 * (level + 1). |
| `Spu.PhaseClimbs` | paranoiascape-recomp/runner/src/spu.cpp:163-237 | Between key-ons the phase never goes back, under any ticks, key-offs, block ends and register writes. |
| `Spu.AttackEnds` | paranoiascape-recomp/runner/src/spu.cpp:190-199 | From any point of an attack, whatever registers are written and whatever key-offs, block ends and ends of memory fall between the ticks: after max(1, 0x7FFF - volume) ticks the attack is over or the voice has stopped. |
| `Spu.DecayEnds` | paranoiascape-recomp/runner/src/spu.cpp:201-213 | The same for a decay, after max(1, volume) ticks. |
| `Spu.ReleaseEnds` | paranoiascape-recomp/runner/src/spu.cpp:219-231 | The same for a release: after max(1, volume) ticks the voice has stopped, at volume 0 unless it ran out of memory. |
| `Spu.KeyedOffStops` | paranoiascape-recomp/runner/src/spu.cpp:514-523 | A voice keyed off at any point of its life stops within max(1, volume) ticks, whatever else happens short of a key-on. |
| `Spu.Voice.KeyOn` | paranoiascape-recomp/runner/src/spu.cpp:482-509 | Starts a voice. |
| `Spu.Voice.KeyOff` | paranoiascape-recomp/runner/src/spu.cpp:514-523 | Starts the release of a voice that is not released yet. |
| `Spu.DecodeBlock` | paranoiascape-recomp/runner/src/spu.cpp:132-158 | Decodes 28 samples with the filter history, each within 16 bits. |
| `Spu.BlockDecoded` | paranoiascape-recomp/runner/src/spu.cpp:132-158 | Every sample of a block: the signed half byte times 2^shift plus the weighted last two samples in 64ths, rounded, with the literal weights of the five filters, and clamped only outside 16 bits. |
| `Spu.LoadedIs` | paranoiascape-recomp/runner/src/spu.cpp:276-290 | What a voice takes up from the memory is that block, and the next one lies 16 bytes on. |
| `Triggers.FiresWhenHeld` | paranoiascape-recomp/runner/src/input_script.cpp:108-142 | A trigger without once fires at frame f if and only if its condition held at every frame from f - d to f and not at f - d - 1, or evaluation began at f - d. |
| `Triggers.FiresOnce` | paranoiascape-recomp/runner/src/input_script.cpp:108-167 | A once trigger fires at the first such frame and never again. |
| `Triggers.StateIs` | paranoiascape-recomp/runner/src/input_script.cpp:122-142 | The hidden countdown is the part of the delay that the unbroken streak of the condition has not used up. |
| `Triggers.NegativeNeverFires` | paranoiascape-recomp/runner/src/input_script.cpp:122-142 | With a negative delay a trigger never fires. |
| `Triggers.HoldsExactly` | paranoiascape-recomp/runner/src/input_script.cpp:112-119 | A condition holds if and only if the number in memory, low byte first, is the value cut to 16 or 8 bits. |
| `Triggers.InputScript.Evaluate` | paranoiascape-recomp/runner/src/input_script.cpp:108-176 | A frame: every trigger whose bytes lie in memory advances, the actions fire in order, and the pad mask gets the presses and loses those whose time is up. |
| `Triggers.InputScript.EvalOne` | paranoiascape-recomp/runner/src/input_script.cpp:110-167 | One trigger in one frame. |

## Left out

- Recompiler.PreservesMeaning: does not open single instructions; that the C statement for an ordinary word does what the R3000A does is a hypothesis about that word, and so are the registers a delay slot reads and writes.
- Recompiler.SameEnd: a callee is any function from the events so far to registers and memory; what `call_by_address` finds is part of that. A run that takes an indirect jump to an address of the function that is no case of its switch is followed up to that jump, where the two machines part. The override table may take a call of the function and then stands for the whole call; one that declines is taken to change nothing.
- CodeGenerator.Generator.GenerateAllFunctions: the bodies of the two stubs, for data and for functions without a graph, are not opened; each leaves its work to the runtime.
- CodeGenerator.Generator.TranslateBasicBlock: comments, annotations, indentation and the text of single statements are not modelled.
- FunctionAnalysis.FunctionAnalyzer.Analyze: its counters and messages are not modelled.
- Names.ParseHex: an unsigned long has 32 bits, as on the platform that paranoiascape-recomp/README.md:120-121 names (Windows, MinGW-w64); where it has 64, numbers of nine to sixteen digits would be cut instead.
- Pipeline.PassesFit: an executable whose load address, size or forced entries are not word-aligned is not covered by the tiling results.
- Pipeline.Recompile: the summaries it prints, the annotations and the writing of files are not modelled.
- Zlib.Compress: lengths and counts are unbounded; inputs near 2^31 bytes, where the source's `int` would overflow, are not modelled, and neither is running out of memory.
- Zlib.Store: the bytes pushed one by one in the source are appended together.
- Inflate.Decode: the reference decoder rejects blocks with dynamic codes, which the compressor never writes.
- PngFile.WriteFile: files of 2^32 bytes or more, whose chunk lengths would not fit, are not promised to read back, nor are images without rows, whose data is empty.
- Png.BestFilter: costs are unbounded; the source adds them up in an `int`.
- Gp0.HandlersReadAll: what handlers do with their words (vertices, draw state, VRAM copies, environment registers) is not modelled; the trace records each command with its words.
- GpuInterpreter.Gpu.ResetGpu: registers other than FIFO, command and transfer state are not modelled, nor are GPUREAD, GPUSTAT and the display registers.
- Mdec.DecodeBlock: is stated for legal blocks; that decoding ends on truncated or corrupt streams is not true in general and not modelled. One step is modelled on any bits (`Mdec.DecodeStep`).
- Mdec.DecodeMacroblock: the inverse transform, the placement into planes and the colour conversion are not modelled.
- Mdec.DecodeStep: products of level, scale and matrix entry are unbounded; the source's 32-bit product could overflow only for scales above 50000.
- AudioRing.Linearizable: covers the time between two seeks; the reset of both indices while the consumer runs is not modelled, and memory is sequentially consistent.
- Resampler.Drain.Generate: the volume is any function from sample to sample, and the interpolation product is unbounded (the source's is 32 bits and overflows for very large jumps between neighbours).
- Spu.Voice.Mix: voice volumes, the mixing of the 24 voices, the master volume and the register decoder are not modelled; registers and sound memory are parameters of each tick.
- Triggers.InputScript.Evaluate: parsing of the script, screenshots and the turbo flag are recorded as fired actions only.
- GTE commands, disc reading, save states, the debug server, the launcher, the OpenGL renderer, the other image writers and the vendored libraries are not part of this model.
