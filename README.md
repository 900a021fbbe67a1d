# A verified model of the MIPS pipeline simulator's core

This project models the core of a small MIPS pipeline simulator written in C++. The
simulator reads an assembly program, lays out its static data and decodes its
instructions. It then runs the program through a five-stage pipeline model, inserting
stalls and branch bubbles, and records the instruction trace that its timing diagram is
drawn from.

The model has five parts, one per core source file or section:

- **Hazard engine** (`hazards.dfy`, module `Hazards`). This models the execution loop of `main`.
  - Every cycle, each per-register busy and dirty counter is decremented.
  - The stall rule of the configured forwarding policy then decides between a soft NOP and issuing the instruction.
  - A branch is followed by bubbles, chosen by the prediction policy.
  - An issued instruction that writes a register sets that register's counters.
  - The engine is a class (`Engine`) with two counter arrays, updated in place, and a `Step` method.
  - `Step` is proved against a value-level cycle function (`Cycle`).
  - The driver loop (`Run`) is proved against a recursive definition of the whole run (`Simulate`).
- **Program loading** (`loader.dfy`, module `Loader`). This models the two loading loops of `main`.
  - The leading run of variable-definition directives fills the data segment.
  - The remaining lines are decoded into the code array, and the table of instruction labels is built.
  - Each loop is a method proved against a left fold. The meaning of the fold is proved separately: loading succeeds exactly when no later line is a directive, every line decodes, labels are unique and every label operand refers backwards.
- **Decoder** (`translator.dfy`, module `Translator`). It models `isVarDef`, `toVarDef` and the memory-instruction branch of `toInstruction`, as functions into a `Result`. The quirks of the code are kept as written:
  - `DEFW` is rejected.
  - `im` receives the base register.
  - A load keeps `op == NUL`.
- **Static data segment** (`simulator.dfy`, module `Simulator`). This models the `memory` class.
  - `add` aligns, then appends zero-filled arrays or little-endian scalars.
  - `shrink` is also modelled.
  - The two `get` overloads compute their end in 32-bit unsigned arithmetic, and `size` is modelled too.
- **Line tokenizer** (`parser.dfy`, module `Interpreter`). This models `parseLine`.
  - A loop over the white-space separated words of a line is proved against a closed description of the record it yields (`LineRecord`).

Smaller files hold shared definitions:
- `ints.dfy` holds the C++ integer conversions: the 32-bit wrap-around and two's-complement narrowing.
- `parser_aux.dfy` holds the raw record that the external grammar parser produces.
- `wrappers.dfy` holds `Option` and `Result`.

## Model

| member | source | states |
|---|---|---|
| Simulator.ElementSize | src/simulator.cpp:11-21 | The element size is 2 for HALF, 1 for BYTE and 4 for WORD; it is always 1, 2 or 4. |
| Simulator.Padding | src/simulator.cpp:23-26 | The padding is smaller than the element size and makes the size a multiple of it; an aligned buffer gets none. |
| Simulator.LittleEndianBytes | src/simulator.cpp:34-37 | Byte `i` of a stored scalar is `(value >> 8*i) mod 256`. |
| Simulator.LittleEndianRoundTrip | src/simulator.cpp:34-37 | Reading the stored bytes back, little-endian, gives the value modulo 256^n (n <= 4). |
| Simulator.PayloadShape | src/simulator.cpp:28-37 | An array appends exactly `elementSize * value` zero bytes (the product truncated to 32 bits); a scalar appends exactly `elementSize` bytes, byte `i` being `value >> 8*i`, which read back as the value modulo 256^elementSize. |
| Simulator.AddedLayout | src/simulator.cpp:5-39 | After an accepted `add`, the label is recorded at the old size minus one, the old bytes are a prefix of the new ones, zero padding reaches the next multiple of the element size (less than one element), and the payload follows it. |
| Simulator.FirstLabelWraps | src/simulator.cpp:9 | The first variable added to an empty segment gets the label index 0xFFFFFFFF, because the index is the old size minus one in `uint` arithmetic. |
| Simulator.Memory.constructor | include/simulator.h:81-84 | A new segment has no bytes and no labels. |
| Simulator.Memory.Add | src/simulator.cpp:5-39 | `add` returns false exactly when the label is already in use, and then changes nothing; otherwise the new contents are the old ones with the definition added. |
| Simulator.Memory.Shrink | src/simulator.cpp:42-45 | `shrink` leaves the bytes and the label table unchanged. |
| Simulator.Memory.Get | include/simulator.h:87-96 | `get(idx)` yields a pointer exactly when `idx + sizeof(T)`, computed modulo 2^32, does not exceed the size, and the pointer is to byte `idx`. |
| Simulator.GetWithinBounds | include/simulator.h:88-96 | When `idx + sizeof(T)` does not overflow, `get(idx)` succeeds exactly when the whole access lies inside the buffer. |
| Simulator.GetWrapsPastEnd | include/simulator.h:92-95 | For `idx = 2^32 - 2` and a 4-byte access the end wraps to 2, and `get` succeeds although the access lies past the end of the buffer. |
| Simulator.Memory.GetLabel | include/simulator.h:98-108 | `get(label, offset)` yields nothing for an unknown label; otherwise the start is the stored index plus the offset modulo 2^32, and a pointer to it is returned exactly when the start plus `sizeof(T)` modulo 2^32 does not exceed the size. The test `start < 0` never holds, because `start` is unsigned, so a negative offset wraps. |
| Simulator.GetLabelWithinBounds | include/simulator.h:98-108 | When neither the start nor the end wraps past 2^32, `get(label, offset)` returns a pointer exactly when the access from the label's index plus the offset fits in the buffer, as the comment at include/simulator.h:98-99 promises. |
| Simulator.GetLabelFirstVariableWraps | include/simulator.h:104-105 | For a segment holding only one WORD variable (4 bytes, label index 0xFFFFFFFF), `get<int>(label)` wraps the end to 3 and returns the index 0xFFFFFFFF, which lies past the end of the buffer. |
| Simulator.Memory.Size | include/simulator.h:116-119 | `size()` is the number of stored bytes whenever that fits in an `int`. |
| Translator.IsVarDef | src/translator.cpp:5-9 | `isVarDef` recognises every directive name `toVarDef` accepts, and only names of at least three characters starting with "DE". |
| Translator.DirectiveShape | src/translator.cpp:31-56 | The names `toVarDef` accepts are exactly DEF, DEV, DEFB, DEVB, DEFH and DEVH. |
| Translator.ToVarDef | src/translator.cpp:11-61 | The label, operand and register checks fail in that order with their own errors; success holds exactly when there is a label, an immediate operand, no register and an accepted name. On success the label and the value (as a `uint`) are copied, 'F' gives VAR and 'V' ARRAY, and the size is WORD unless a fourth character B or H selects BYTE or HALF. |
| Translator.AcceptedDefinitionIsDirective | src/translator.cpp:5-56 | Every definition `toVarDef` accepts passes `isVarDef` and has one of the six accepted names. |
| Translator.DefwRejected | src/translator.cpp:47-56 | DEFW passes `isVarDef`, but `toVarDef` rejects it; once the earlier checks pass the error is the unknown data type. |
| Translator.MemoryShape | src/translator.cpp:110-147 | The names the memory branch accepts are exactly SB, SH, SW, LB, LH and LW. |
| Translator.ToInstruction | src/translator.cpp:63-159 | A first character other than S or L is unsupported. A memory name of the wrong length, a missing indirect operand and a register count other than one fail in that order. On success the type is MEM, op is S for a store and stays NUL for a load, rS is the listed register, rT and im both receive the indirect operand's base register, the second character selects the size, and the fields the branch never assigns keep the out-parameter's value. |
| Translator.AcceptedMemoryMnemonic | src/translator.cpp:110-149 | The memory branch decodes exactly the six load and store mnemonics given an indirect operand and one register. |
| Translator.DirectiveIsNoInstruction | src/translator.cpp:110-158 | A directive never decodes as an instruction: no branch handles a name that starts with 'D'. |
| Interpreter.WordLength | src/interpreter/parser.cpp:19 | A word extracted from the stream is a maximal non-empty run of non-space characters. |
| Interpreter.WordsAreWords | src/interpreter/parser.cpp:19 | Every word read from a line is non-empty and holds no white space. |
| Interpreter.BlankLine | src/interpreter/parser.cpp:17-19 | A line of white space yields no words and the value-initialised record. |
| Interpreter.AtoiWithoutDigits | src/interpreter/parser.cpp:36 | A token starting with neither a sign nor a digit reads as 0. |
| Interpreter.LabelRun | src/interpreter/parser.cpp:20-25 | The label run ends at the first word that does not end in ':'. |
| Interpreter.LabelRunLabels | src/interpreter/parser.cpp:20-25 | Every word of the leading label run ends in ':'. |
| Interpreter.LastLabelIndex | src/interpreter/parser.cpp:33-34 | The label operand chosen lies among the words after the mnemonic and is one. |
| Interpreter.LastLabelIndexIsLast | src/interpreter/parser.cpp:33-34 | No later operand word is a label operand, so the last one wins. |
| Interpreter.LabelStep | src/interpreter/parser.cpp:20-25 | A leading label replaces the label read so far and takes no operand position. |
| Interpreter.MnemonicStep | src/interpreter/parser.cpp:27-32 | The first word after the labels becomes the upper-cased mnemonic, its comma removed. |
| Interpreter.OperandStep | src/interpreter/parser.cpp:33-51 | A later word sets either the label operand or the register of its position, and nothing else. |
| Interpreter.RegisterReadStep | src/interpreter/parser.cpp:35-50 | Reading word `j` sets only the register of position `j`. |
| Interpreter.LabelOperandStep | src/interpreter/parser.cpp:33-34 | Reading word `j` replaces the label operand exactly when that word is one. |
| Interpreter.ReadSoFarStep | src/interpreter/parser.cpp:19-51 | Reading one more word takes the record read so far to the record of one more word. |
| Interpreter.ReadSoFarComplete | src/interpreter/parser.cpp:19-54 | Once every word is read, the record is the line's record. |
| Interpreter.LeadingLabelSkipped | src/interpreter/parser.cpp:20-25 | A leading label does not shift the operand positions: the line reads as the rest of the line, with this label unless a later leading label replaces it. |
| Interpreter.ReadInto | src/interpreter/parser.cpp:20-51 | One iteration of the read loop applies the word to the record; the counter stays put on a leading label and advances otherwise. |
| Interpreter.ReadLine | src/interpreter/parser.cpp:19-54 | The read loop over the words yields the line's record. |
| Interpreter.ParseLine | src/interpreter/parser.cpp:12-55 | `parseLine` yields the record of the line's words: the last leading label, the upper-cased mnemonic, the registers at positions 1 to 3 (atoi, truncated to 16 bits), and the last label operand. |
| Hazards.Zeroes | src/main.cpp:189-191 | The counters start as 32 zeros. |
| Hazards.TicksValue | src/main.cpp:203-206 | After `n` decrements a counter has gone down by `n`, and it stops at zero. |
| Hazards.NeedsStall | src/main.cpp:213-234 | A stall needs an operand with a needed stage above zero and a register above zero whose counters are not both zero; register 0 never stalls. |
| Hazards.NopEntry | src/main.cpp:236-237 | The NOP entry is named "NOP", has no relevant operation, and is a regular NOP or a soft NOP as configured. |
| Hazards.Bubbles | src/main.cpp:253-281 | The bubbles are NOPs; there are none when the policy predicts correctly (PERFECT never pays), otherwise one when the branch is resolved in decode and two if not. |
| Hazards.Issued | src/main.cpp:246-302 | Issuing keeps the counter arrays at 32 entries. |
| Hazards.Cycle | src/main.cpp:203-302 | A cycle keeps the state well formed and appends one to three trace entries. |
| Hazards.CycleExtendsTrace | src/main.cpp:239-281 | A cycle only appends to the trace: one to three entries. |
| Hazards.StallRetries | src/main.cpp:239-244 | A stalled cycle appends exactly one NOP entry, sets the soft-NOP flag, sets no counter, leaves the machine state alone, and after the loop's increment retries the same program counter. |
| Hazards.IssueEffects | src/main.cpp:246-302 | An issued instruction is appended and clears the soft-NOP flag. A branch is followed by its bubbles, "taken" meaning `execute` changed the program counter. Any other instruction that writes register `w` sets busy[w] to its result stage and dirty[w] to WRITEBACK - 2, and no other counter changes. |
| Hazards.NoForwardingWaitsForWriteBack | src/main.cpp:230-233 | Without forwarding, a reader of the written register stalls `n` cycles after the writer exactly when `n < WRITEBACK - 2`. |
| Hazards.FullForwardingWaitsForResult | src/main.cpp:216-219 | With full forwarding, a reader that needs the register by stage `needed` stalls `n` cycles after the writer exactly when `n + needed <= resultDone`. |
| Hazards.AluForwardingStall | src/main.cpp:221-228 | With ALU forwarding, a reader stalls when the result is more than two stages away, or when the last cycle was a soft NOP and the register still awaits write-back. |
| Hazards.SimulateAdvance | src/main.cpp:196-303 | A run continues from the state, program counter and machine state one cycle leaves behind. |
| Hazards.CompletedWithinLimit | src/main.cpp:196-201 | A completed run extends the trace it started from, and ends at most three entries past the limit, because the limit is only tested at the start of a cycle. |
| Hazards.LimitZeroStopsAfterFirstCycle | src/main.cpp:196-201 | With limit 0 only the first cycle runs: the run then either leaves the code or aborts. |
| Hazards.Engine.constructor | src/main.cpp:185-193 | The engine starts with zeroed counter arrays, the soft-NOP flag clear and an empty trace. |
| Hazards.Engine.Tick | src/main.cpp:203-206 | Every positive counter goes down by exactly one, in place; a zero counter stays zero. |
| Hazards.Engine.CheckStall | src/main.cpp:210-234 | The stall test of the configured forwarding policy on the current counters. |
| Hazards.Engine.AddBubbles | src/main.cpp:253-278 | The bubbles for the prediction policy are appended to the trace. |
| Hazards.Engine.Step | src/main.cpp:203-302 | One loop iteration updates the arrays, the flag and the trace exactly as one cycle of the value model does, and returns the program counter the increment applies to. |
| Hazards.Run | src/main.cpp:196-303 | The execution loop on a fresh engine yields the outcome of the run: the trace once the program counter leaves the code, or the abort at the limit. |
| Loader.DirectiveRun | src/main.cpp:127-131 | The declaration loop covers exactly the leading run of lines that `isVarDef` recognises. |
| Loader.Declare | src/main.cpp:138 | `add` on the data image: a label already in use leaves it unchanged, otherwise the definition is added. |
| Loader.DeclaredError | src/main.cpp:133-136 | A failing declaration names a line of the run (1-based) and the decoder's reason for refusing that line. |
| Loader.DeclaredGrows | src/main.cpp:126-139 | Declaring only appends bytes and adds labels. |
| Loader.DeclaredFailureSticks | src/main.cpp:133-136 | The first refused definition ends the loop: every longer prefix fails with the same error. |
| Loader.DeclareVariables | src/main.cpp:126-141 | The declaration loop stops at the first non-directive and returns its index, and the segment holds the run's definitions added in order; otherwise it returns the first refused line and its reason. |
| Loader.TranslatedMeaning | src/main.cpp:148-181 | Loading the code succeeds exactly when no line is a directive, every line decodes, labels are unique and every label operand names the label of the same or an earlier instruction. The program is then the decoded lines, and the table maps exactly their labels to their indexes. |
| Loader.EnterMeaning | src/main.cpp:162-178 | On a well-indexed table the label checks pass exactly when uniqueness and backward references hold for the extended code, and the new table indexes it. |
| Loader.DuplicateBreaksUniqueness | src/main.cpp:162-168 | A label already in the table would be carried twice. |
| Loader.UnknownBreaksBackwardReferences | src/main.cpp:172-177 | A label operand that is not in the table (and is not the instruction's own label) names no earlier instruction. |
| Loader.AcceptedKeepsUniqueness | src/main.cpp:162-170 | A new label keeps the labels unique. |
| Loader.AcceptedKeepsBackwardReferences | src/main.cpp:172-178 | A label operand found in the table keeps every reference backward. |
| Loader.AcceptedIndexes | src/main.cpp:162-170 | Entering a new label at index `i` keeps the table exactly the index of the code's labels. |
| Loader.TranslatedFailureSticks | src/main.cpp:148-160 | The first refused line ends the loop: every longer prefix fails with the same error. |
| Loader.AdmitLine | src/main.cpp:149-180 | The loop body refuses a directive, then an undecodable line, then a duplicate label, enters the label, then refuses an unknown label operand. |
| Loader.TranslateCode | src/main.cpp:143-181 | The instruction loop fills the code array and the label table as the fold over the classified lines does. |
| Loader.Load | src/main.cpp:126-181 | Both loops in sequence. A refused definition is the result; otherwise the segment holds the run's definitions and the code after the run is translated. |
| Loader.LateDirectiveRefused | src/main.cpp:152-155 | A directive on any line after the leading run makes loading the code fail. |
| Loader.UnlabelledPrior | src/main.cpp:150-170 | With a default-initialised out-parameter no decoded instruction carries a label or label operand, so the label table stays empty and the code loads exactly when every line decodes. |

## Left out

- Command-line parsing, stream redirection, the diagnostics written to `cerr` (errors are returned as values instead) and the timing-diagram renderer after the loop are not part of this model.
- Instruction semantics and timing profiles (`execute`, `calcRSNeeded`, `calcRTNeeded`, `calcResultDone`, `getRegWritten`) are defined in no file of the core. They are parameters: a total function from an instruction, a machine state and a program counter to a new machine state and program counter, and a profile for each instruction.
- The register pre-load at src/main.cpp:138 assigns the result of `add` to `regs[varDef.reg]`, but `varDef` has no `reg` field. The model keeps the `add` call, drops the register store, and does not model the register file.
- The source never tests the value `add` returns (src/main.cpp:138 only stores it into the register the model drops), so a repeated variable label is skipped silently.
- The branch, jump, NOP and R-type decoding of `toInstruction` (src/translator.cpp:151-158) is unwritten and falls off the end of a `bool` function. It is modelled only as the error `Unsupported`.
- The grammar parser `parse` and `freeResources`, which produce the raw records, are not part of this model. Every raw record is assumed to hold as many registers as its count says.
- Loader.TranslateCode: every line is decoded into the same given `blank` out-parameter. The source default-initialises a fresh one per line, which leaves its scalar fields indeterminate and its strings empty.
- Hazards.Run: the registers an instruction indexes the counter arrays with are required to be below 32. The source indexes the arrays with them unchecked.
- Hazards.Run: the machine state and the data segment are opaque to the engine, which sees them only through `execute`.
- Simulator.Memory.Get: a pointer is modelled as the index it points to, and the element type only by its width.
- Simulator.Memory.Add: `shrink_to_fit` and the buffer's capacity are not modelled; the buffer is a sequence of bytes.
- Interpreter.ParseLine: the heap allocation of the record is not modelled. Strings are sequences of characters, and `toupper`, `isspace` and `isdigit` are the C-locale versions. Two undefined behaviours of the source are given fixed values: `buf[1]` of an empty token (a lone "," stripped of its comma) is read as '\0', and `atoi` of a number outside the `int` range gives its exact decimal value, which the store into a 16-bit register then reduces modulo 2^16.
