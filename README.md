# ARM11 toolchain: a verified model of the assembler and the emulator

This project models the core of a two-program toolchain for a subset of the
32-bit ARM instruction set, and proves what the two programs promise about
each other.

- **Bit utilities** (`Utils`, utils.dfy) cover `src/utils.c`.
  - `bit`, `subByte`, `setBits` and `subBinary` read and write instruction fields.
  - The four barrel shifts are modelled with `carryOut`.
  - `tokenize` splits a line into six operand slots.
  - `getRegister` reads a register operand.
  - Words are `bv32`. C's signed `int32_t` shifts are written out exactly, including the sign fill of `>>` on negative values.
- **C library** (`LibC`, libc.dfy) holds the two library conversions the assembler uses: `strtol(s, NULL, 0)` and `snprintf("%d")`.
- **Symbol table** (`SymbolTable`, symbol_table.dfy) covers `src/symbolTable.c`.
  - The table is a class over the sequence of key/value entries.
  - `push` appends an entry.
  - `exists` and `getValue` walk the entries, and the first match wins.
- **Assembler** (`Assemble`, assemble.dfy) covers `src/assemble.c`.
  - Every encoder is a function giving the word (or the fatal error).
  - A method of the class `State` does what the C function does to the global `state`: the output array, the `endOfProgram` counter and the symbol table. It is proved to agree with the function.
  - Pass 1 gives each label the byte address of the next instruction.
  - Pass 2 dispatches each line to the data-processing, multiply, single-data-transfer, branch or special encoder.
  - `ldr` of a large constant appends the constant to a literal pool after the program.
- **Emulator** (`Emulate`, emulate.dfy) covers `src/emulate.c`.
  - The machine has 65536 bytes of little-endian memory and 17 registers. Register 15 is the PC and register 16 the CPSR.
  - A pipeline slot holds the word to decode, another the word to execute, and a third the decoded class.
  - Every stage is a function on the value `Cpu` and a method of the class `Machine` that is proved to agree with it.
  - `main`'s loop runs for at most a given number of passes.
- **Encoding** (encoding.dfy) proves where each field lands in the words the assembler builds.
- **RoundTrip** (roundtrip.dfy) proves that the emulator decodes what the assembler encodes:
  - the transfer, multiply, immediate and shifted-register fields;
  - the pre-indexed shifted-register offset, which the emulator reads with its fields in other places;
  - a branch lands the PC on its label;
  - a literal-pool load addresses the pool word that holds its constant.
- **Mnemonics** (mnemonics.dfy) follows each data-processing mnemonic from the assembler's table to the emulator's `alu`. The opcode found makes the emulator compute what the ARM architecture defines for the mnemonic.

## Model

| member | source | states |
|---|---|---|
| Utils.Mask | src/utils.c:22 | `(1 << n) - 1` has only the low n bits set: it is below 2^n |
| Utils.SubByte | src/utils.c:21-23 | the field read is below 2^numBits |
| Utils.SetBitsThenSubByte | src/utils.c:100-103 | `SetBits` (`setBits`): on every field the source uses, a value that fits the field reads back unchanged with `subByte` |
| Utils.SetBitsFrame | src/utils.c:100-103 | on every field the source uses, `setBits` with a fitting value leaves every bit outside the field unchanged |
| Utils.SetBitsOverflowField | src/utils.c:101-102 | a value wider than the field: the field receives only its low numBits bits (the value is not masked) |
| Utils.SetBitsOverflowExample | src/utils.c:101-102 | an all-ones value written to bits 19-16 also sets every bit above the field |
| Utils.SetBitsOverflowBelow | src/utils.c:100-103 | `SetBits` never changes the bits below the field, whatever the value |
| Utils.SetBitsOverflowAbove | src/utils.c:101-102 | the bits of the value above its low numBits spill into the bits above the field: those become their old value ORed with the excess |
| Utils.DecimalCodedRoundTrip | src/utils.c:28-38 | the number `subBinary` builds has only the decimal digits 0 and 1, and read back in base 2 it is the field |
| Utils.DecimalCodedInjective | src/utils.c:28-38 | distinct fields give distinct decimal codes, so a `switch` on them is a switch on the field |
| Utils.DecimalCodedNibble | src/utils.c:28-38 | a 4-bit field's code is its entry in the table of 4-digit binary literals |
| Utils.DecimalCodedExamples | src/utils.c:25-27 | field 12 gives 1100, field 9 gives 1001 and field 0 gives 0 |
| Utils.SubBinary | src/utils.c:28-38 | the loop's sum is the decimal-coded field (loop invariants over the remaining field, the base and the sum) |
| Utils.LogicalRightFillsZeros | src/utils.c:45-47 | `LogicalRight` by 1..31 fills the vacated top bits with 0 and moves every other bit down by n |
| Utils.ArithmeticRightFillsOnes | src/utils.c:49-51 | `ArithmeticRight` of a word with bit 31 set fills the vacated top bits with 1 |
| Utils.ArithmeticRightOfNonNegative | src/utils.c:49-51 | on words below 2^31, asr is lsr |
| Utils.RotationsOnNonNegative | src/utils.c:53-59 | for 0 < r < 32 and a word below 2^31, `RotateLeft` and `RotateRight` are true 32-bit rotations |
| Utils.RotateByZero | src/utils.c:53-59 | rotating by 0 gives the word back |
| Utils.RotateRoundTrip | src/utils.c:53-59 | `rotateRight(rotateLeft(x, r), r) == x` whenever the rotated word is below 2^31 |
| Utils.RotateLeftOfNegative | src/utils.c:57-59 | a word with bit 31 set stays at or above 2^31 under `rotateLeft`, for every count |
| Utils.RotateRoundTripNeedsBound | src/utils.c:53-59 | a concrete word whose round trip fails because the signed shift fills in ones |
| Utils.CarryOutLogicalLeft | src/utils.c:61-68 | `CarryOut` for lsl by 1..31 is bit 31 - amount, which is the top bit of the shifted word |
| Utils.CarryOutRightShifts | src/utils.c:61-68 | `CarryOut` for every other shift type by 1..31 is bit amount - 1, the last bit shifted out on the right |
| Utils.Shift | src/utils.c:71-74 | type 0-3 selects lsl, lsr, asr, ror; an lsr by 1..31 always leaves bit 31 clear |
| Utils.ShiftByZero | src/utils.c:71-74 | a shift by 0 of every type gives the word back |
| Utils.RunLength | src/utils.c:87-91 | a token is never longer than the rest of the line |
| Utils.TokensAreRuns | src/utils.c:87-91 | every token `strtok(" ,")` yields is a non-empty run of characters that are neither space nor comma |
| Utils.TokensOfWord | src/utils.c:87-91 | a non-empty run of non-delimiters is exactly one token |
| Utils.TokensSplit | src/utils.c:87-91 | a delimiter splits the tokens: the tokens of `a + [d] + b` are those of `a` followed by those of `b` |
| Utils.Tokenize | src/utils.c:83-94 | the six slots end holding the line's tokens in order, then empty strings |
| Utils.GetRegister | src/utils.c:107-114 | succeeds exactly when the character at index 1 minus '0' is 0..16, and then gives that number |
| LibC.DigitValue | src/assemble.c:108 | a digit's value in bases up to 36 is at most 36 |
| LibC.DigitRun | src/assemble.c:108 | the digits `strtol` reads are a prefix of the string |
| LibC.SkipSpaces | src/assemble.c:108 | skipping leading white space never lengthens the string |
| LibC.FormatDecimal | src/assemble.c:248 | `%d` of a non-negative number writes at least one character |
| LibC.DigitChar | src/assemble.c:248 | the character written for a decimal digit reads back as that digit |
| LibC.StrToLFormatDecimal | src/assemble.c:244-250 | `StrToL` reads back exactly the number `%d` wrote, so the `ldr =c` to `mov #c` rewrite keeps the constant |
| LibC.StrToLFormatNegative | src/assemble.c:220-221 | `strtol` reads '-' followed by what `%d` wrote as the negated number |
| LibC.StrToLExamples | src/assemble.c:221 | base detection: "0x1F" is 31, "010" is octal 8, and "-12]" stops at the bracket with -12 |
| SymbolTable.LookupFirstMatch | src/symbolTable.c:33-43 | `Lookup` is the value of the first entry with the key, and 0 when no entry has it |
| SymbolTable.LookupAfterAppend | src/symbolTable.c:8-20 | appending never changes the lookup of a key already present: the first definition wins |
| SymbolTable.LookupOfNewKey | src/symbolTable.c:8-20 | appending a key not yet present makes it look up to the appended value |
| SymbolTable.HasAfterAppend | src/symbolTable.c:8-31 | after an append a key is present iff it was present before or is the appended key, so presence is monotone |
| SymbolTable.LookupPastPrefix | src/symbolTable.c:22-43 | entries in front that lack the key change neither whether it is found nor what it finds |
| SymbolTable.Table.constructor | src/assemble.c:485 | the table starts as the sentinel alone, with no entry |
| SymbolTable.Table.Push | src/symbolTable.c:8-20 | the entries become the old entries followed by the new pair; no entry is altered |
| SymbolTable.Table.Exists | src/symbolTable.c:22-31 | true exactly when some entry has the key |
| SymbolTable.Table.GetValue | src/symbolTable.c:33-43 | the value of the first entry with the key, else 0 |
| Assemble.ProgramEnd | src/assemble.c:64 | the loop's stop: the line reached is empty (past the lines, reads see an empty line), and no line from `from` up to it is empty |
| Assemble.InstructionCount | src/assemble.c:65-72 | a program has at most as many instructions as lines |
| Assemble.RunWithout | src/assemble.c:68-69 | the label `strtok(label, ":")` keeps: no `:` occurs before the end, and the character at the end is the first `:` unless the line ends there |
| Assemble.PrefixStep | src/assemble.c:65-72 | one more line in pass 1: a label gets 4 times the number of instructions before it, and a non-label line is counted |
| Assemble.Program | src/assemble.c:64 | the program is a prefix of the lines read |
| Assemble.State.constructor | src/assemble.c:481-485 | the state starts with the lines read, a zero output array, an empty table and `endOfProgram` 0 |
| Assemble.State.FirstPass | src/assemble.c:62-75 | after pass 1 the table has gained each label with 4 times the number of instruction lines before it, and `endOfProgram` is the number of instruction lines |
| Assemble.State.ScanLine | src/assemble.c:65-73 | one line of pass 1: a label is pushed with the address of the next instruction, and any other line is counted |
| Assemble.FitsBelow256 | src/assemble.c:116 | the test `x == (x & 255)` holds exactly when the rotated constant is below 256 |
| Assemble.RotationFromIsLeast | src/assemble.c:113-120 | the search from r finds the least even rotation at or after r that fits 8 bits, or shows that none does |
| Assemble.LeastRotationIsLeast | src/assemble.c:113-125 | `LeastRotation` is the least even r in 0..30 with `rotateLeft(x, r) < 256`; there is none exactly when no such r exists, and then assembly fails |
| Assemble.LeastRotationOfNegative | src/assemble.c:113-125 | constants of 2^31 and above are never representable, because `rotateLeft` fills them with ones |
| Assemble.LeastRotationRoundTrip | src/assemble.c:113-134 | `rotateRight` by the chosen rotation gives the constant back from its 8-bit form |
| Assemble.State.FindRotation | src/assemble.c:109-125 | the loop finds the constant representable exactly when some even rotation fits, and then returns the least one and the rotated constant |
| Assemble.BracketRange | src/assemble.c:264-266 | the index found is the first operand at or after `from` that holds `]`; when no operand from `from` on holds one, the result is the error `NoClosingBracket` |
| Assemble.GetNumber | src/assemble.c:200-223 | after the cut at `]`: the operand is a register exactly when an `r` occurs, and only that form can fail; the sign is positive exactly when no `-` occurs; a register is at most 16 and a constant's `abs` at most 2^31 |
| Assemble.ToWordOfWord | src/assemble.c:220-221 | a word's value read back as a number and stored in a `uint32_t` is the word again |
| Assemble.ToWordOfNegated | src/assemble.c:220-221 | the negated value of a nonzero word, stored in a `uint32_t`, is its two's complement |
| Assemble.GetNumberRegister | src/assemble.c:200-216 | `rD` and `-rD`, optionally closed by `]`, give register D - '0' with the register flag set and the sign negative exactly for `-rD` |
| Assemble.GetNumberNumeral | src/assemble.c:200-222 | with no `r` before the first `]`, the result is the `abs` of what `strtol` reads after the mark, with the constant flag and the sign set exactly when no `-` occurs |
| Assemble.GetNumberConstant | src/assemble.c:200-222 | `#n` and `=n` written by `%d`, optionally closed by `]`, give the constant n with a positive sign, for every n below 2^31 |
| Assemble.GetNumberNegativeConstant | src/assemble.c:200-222 | `#-n` and `=-n` give n with a negative sign, for 0 < n <= 2^31 (`abs` leaves INT_MIN at 2^31) |
| Assemble.NumeralValue | src/assemble.c:220-222 | `abs(strtol(s))` of the digits `%d` writes for n below 2^31, stored in a word, is n |
| Assemble.NegativeNumeralValue | src/assemble.c:220-222 | `abs(strtol("-" + s))` of those digits is n, for 0 < n <= 2^31 |
| Assemble.AbsOfNegative | src/assemble.c:222 | `abs` of the wrapped negation of n is n, up to n = 2^31 |
| Assemble.OffsetIndexing | src/assemble.c:257-296 | `CalculateOffset`: the `=` form is pre-indexed with Rn = -1; otherwise the transfer is post-indexed exactly when the `]` closes the base operand and an offset follows |
| Assemble.LiteralOffset | src/assemble.c:257-262 | the operand `=c`, for c below 2^31, decodes to offset c, pre-indexed, with U set and Rn left at -1 |
| Assemble.RegisterFields | src/assemble.c:84-104 | operand 2 starts at slot 2 or 3 |
| Assemble.State.RegisterFieldsOf | src/assemble.c:84-104 | the register fields and operand-2 index agree with `RegisterFields` |
| Assemble.State.ImmediateOperand | src/assemble.c:106-134 | the immediate written into the word agrees with `ImmediateBits` |
| Assemble.State.ShiftedRegister | src/assemble.c:136-157 | the shifted-register bits written agree with `ShiftedRegisterBits`, whose fields Encoding.ShiftedRegisterLayout places |
| Assemble.State.Operand2Of | src/assemble.c:106-157 | operand 2 agrees with `Operand2Bits`; Encoding.DataProcessingImmediateLayout and Encoding.DataProcessingRegisterLayout place its fields for either form |
| Assemble.State.DataProcessing | src/assemble.c:77-166 | the word or error agrees with `DataProcessingWord`; only `output[instNo]` changes, and only on success |
| Assemble.State.Multiply | src/assemble.c:168-196 | the word or error agrees with `MultiplyWord`; only `output[instNo]` changes, and only on success |
| Assemble.State.DecodeMultiplicand | src/assemble.c:226-241 | the shifted offset agrees with `Multiplicand`, whose fields Encoding.MultiplicandLayout places |
| Assemble.State.FirstOffsetOf | src/assemble.c:279-286 | the first offset operand agrees with `FirstOffset` |
| Assemble.State.SecondOffsetOf | src/assemble.c:287-293 | the second offset operand agrees with `SecondOffset` |
| Assemble.State.CalculateOffsetValue | src/assemble.c:257-296 | Rn, the offset and the I, P, U flags agree with `CalculateOffset` |
| Assemble.State.Translate | src/assemble.c:244-250 | the operands become "mov", Rd and `#` followed by the decimal constant; the other slots are kept |
| Assemble.PlaceAsMov | src/assemble.c:316-320 | `ldr rd, =c` with c < 0xff encodes exactly as `mov rd, #c` |
| Assemble.PlaceOtherwise | src/assemble.c:321-366 | every other transfer goes to the literal pool or is written as a transfer word |
| Assemble.PoolOrDirect | src/assemble.c:321-366 | the output keeps its size, and `endOfProgram` either stays or grows by exactly one within the array |
| Assemble.PoolTransfer | src/assemble.c:321-331 | the pool step succeeds exactly when `endOfProgram` indexes the output array, and then it grows by exactly one |
| Assemble.PoolPlacesConstant | src/assemble.c:326-331 | the constant lands at the old `endOfProgram`, the instruction becomes a PC-based load with U set, and no other word changes |
| Assemble.LoadLiteral | src/assemble.c:313-331 | `ldr rd, =c` encodes as the transfer placed with `LiteralOffset`'s addressing |
| Assemble.LoadLiteralIsMov | src/assemble.c:316-320 | `ldr rd, =c` with c below 0xff encodes exactly as `mov rd, #c` |
| Assemble.MovOperandsOfLoad | src/assemble.c:244-250 | the rewrite turns `ldr rd, x` into `mov rd, #offset`, the offset written by `%d`, and keeps the other slots |
| Assemble.LoadLiteralInPool | src/assemble.c:321-331 | `ldr rd, =c` with c from 0xffffff up to 2^31 puts c in the literal pool and loads it PC-relative |
| Assemble.TransferOfDecoded | src/assemble.c:298-331 | once the address operands decode, the transfer is placed with that addressing and L set exactly for `ldr` |
| Assemble.State.SingleDataTransfer | src/assemble.c:298-367 | the output and `endOfProgram` agree with `EncodeTransfer` on the operands as they were before the call |
| Assemble.State.Place | src/assemble.c:316-366 | the three ways a decoded transfer is written agree with `PlaceTransfer` |
| Assemble.State.Mov | src/assemble.c:316-320 | the rewritten operands are encoded by the data-processing encoder |
| Assemble.State.PoolOrTransfer | src/assemble.c:321-366 | the literal pool or the direct transfer word, as `PoolOrDirect` gives |
| Assemble.State.Pool | src/assemble.c:321-366 | the pool word and the PC-relative load agree with `PoolTransfer` |
| Assemble.State.Branch | src/assemble.c:369-387 | only `output[instNo]` changes, and it gets the condition, 1010 and the word offset written over its old bits |
| Assemble.State.BranchBits | src/assemble.c:371-386 | the three `setBits` calls give `BranchFields` |
| Assemble.State.Special | src/assemble.c:389-401 | the output agrees with `EncodeSpecial` on the operands as they were before the call |
| Assemble.AndeqIsZero | src/assemble.c:390-392 | `andeq` encodes the all-zero word, whatever its operands |
| Assemble.LslIsMov | src/assemble.c:393-400 | `lsl rX, amount` encodes exactly as `mov rX, rX, lsl amount` |
| Assemble.State.PushOpcodes | src/assemble.c:403-438 | the table gains the dispatch, opcode, shift and condition entries in the source's order |
| Assemble.State.PushDispatch | src/assemble.c:405-410 | lsl and andeq map to 0, mul and mla to 1, ldr and str to 2 |
| Assemble.State.PushOpcodeValues | src/assemble.c:413-422 | the data-processing mnemonics, prefixed by `$`, map to their opcodes |
| Assemble.State.PushShiftTypes | src/assemble.c:426-428 | lsr, asr and ror map to 1, 8 and 9 |
| Assemble.State.PushConditionCodes | src/assemble.c:431-437 | eq, ne, ge, lt, gt, le and al map to 0, 1, 10, 11, 12, 13 and 14 |
| Assemble.LslValue | src/assemble.c:405 | `lsl` looks up to 0 in the table of labels and fixed entries when no label takes the name |
| Assemble.ShiftTypeValue | src/assemble.c:426-428 | each of lsr, asr and ror looks up to its fixed value when no label takes the name |
| Assemble.ShiftNameValues | src/assemble.c:403-428 | the shift names read lsl 0, lsr 1, asr 8 and ror 9: the first two are ARM's shift types, the last two do not fit the 2-bit field |
| Assemble.FixedKeysDistinct | src/assemble.c:403-438 | no two fixed entries share a key |
| Assemble.FixedEntryValue | src/assemble.c:403-438 | every fixed entry is what its key finds, when no label takes the key |
| Assemble.DispatchValue | src/assemble.c:405-410 | lsl and andeq find 0, mul and mla 1, ldr and str 2, when no label takes the name |
| Assemble.OpcodeValue | src/assemble.c:413-422 | each `$` mnemonic finds its ARM opcode, when no label takes the name |
| Assemble.ConditionValue | src/assemble.c:431-437 | each condition name finds its ARM condition code, when no label takes the name |
| Assemble.NoFixedKeyIsBranch | src/assemble.c:403-438 | no fixed key starts with `b`, so none takes a branch away from `branch` |
| Assemble.NoFixedKeyIsMnemonic | src/assemble.c:403-438 | no fixed key is a data-processing mnemonic, so none takes it away from `dataProcessing` |
| Assemble.LineReachesSpecial | src/assemble.c:458-459 | `lsl` and `andeq` reach `special` when no label takes the name |
| Assemble.LineReachesMultiply | src/assemble.c:458-459 | `mul` and `mla` reach `multiply` when no label takes the name |
| Assemble.LineReachesTransfer | src/assemble.c:458-459 | `ldr` and `str` reach `singleDataTransfer` when no label takes the name |
| Assemble.LineReachesBranch | src/assemble.c:458-462 | a mnemonic starting with `b` that no label takes reaches `branch` |
| Assemble.LineReachesDataProcessing | src/assemble.c:78-81 | a data-processing mnemonic that no label takes reaches `dataProcessing`, which finds its opcode under its `$` name |
| Assemble.BareBranchAlways | src/assemble.c:371-373 | a bare `b` gets condition 14 (always) |
| Assemble.BranchOnCondition | src/assemble.c:374-378 | `b` followed by a condition name gets that condition's code |
| Assemble.EncodeLine | src/assemble.c:460-466 | the output keeps its size, and `endOfProgram` only grows and stays within the array |
| Assemble.AssembleFrom | src/assemble.c:446-470 | pass 2 from a line keeps the output at full size, and `endOfProgram` only grows and stays within the array |
| Assemble.AssembleLineAt | src/assemble.c:446-470 | the same bounds for one line of the program |
| Assemble.AssembleInstruction | src/assemble.c:454-469 | the same bounds for one instruction line |
| Assemble.AssembleFromLabel | src/assemble.c:448-451 | a label line only moves pass 2 on to the next line |
| Assemble.AssembleFromInstruction | src/assemble.c:454-469 | an instruction line is encoded at `instNo`, and pass 2 goes on from the next line and the next instruction number |
| Assemble.AssembleFromError | src/assemble.c:454-466 | an instruction line that fails to encode stops pass 2 with its error |
| Assemble.State.SecondPass | src/assemble.c:440-471 | the table first gains the fixed entries; the output and `endOfProgram` then agree with `AssembleFrom` over the whole program |
| Assemble.State.EncodeLines | src/assemble.c:446-470 | the loop agrees with `AssembleFrom` from the first line |
| Assemble.State.EncodeAt | src/assemble.c:453-469 | one turn at an instruction line: either pass 2 stops with the error, or it goes on from the next line with the new output |
| Assemble.State.AssembleLine | src/assemble.c:454-466 | tokenizing then dispatching agrees with `EncodeLine` on the line's slots |
| Assemble.State.Dispatch | src/assemble.c:458-466 | table value 0, 1 or 2 selects special, multiply or transfer; otherwise a leading `b` selects branch, and anything else selects data processing |
| Assemble.AssembleLines | src/assemble.c:474-499 | both passes give the words `writeFile` writes, up to `endOfProgram`, or the error that stops assembly |
| Encoding.TransferWordIsOr | src/assemble.c:333-366 | with every field in range, the successive `setBits` calls are one OR of the shifted fields |
| Encoding.TransferLayout | src/assemble.c:333-366 | `TransferWord` has condition 14 and 01 at bits 27-26, and I, P, U, L, Rn, Rd and the offset each read back from their own field |
| Encoding.DirectTransferWord | src/assemble.c:298-367 | a transfer with a base register and a 12-bit offset is a transfer word: L is set exactly for `ldr`, and I, P, U, Rn, Rd and the offset are those the operands gave |
| Encoding.BranchLayout | src/assemble.c:369-387 | a branch word has the condition at bits 31-28, 1010 at bits 27-24, and `((label - 4 instNo - 8) >> 2) mod 2^24` at bits 23-0 |
| Encoding.MultiplyFieldsIsOr | src/assemble.c:168-196 | with registers below 16, the successive `setBits` calls are one OR of the fields |
| Encoding.MultiplyLayout | src/assemble.c:168-196 | a multiply word has condition 14, 1001 at bits 7-4, Rd at 19-16, Rs at 11-8 and Rm at 3-0; bit 21 and Rn at 15-12 are set only for `mla` |
| Encoding.RegisterFieldsIsOr | src/assemble.c:84-104 | tst, teq and cmp set S and Rn only; mov sets Rd only; every other opcode sets both |
| Encoding.ImmediateFieldsIsOr | src/assemble.c:127-134 | bit 25, the 8-bit constant and the 4-bit rotation are ORed into a word where they are clear |
| Encoding.CondOpcodeIsOr | src/assemble.c:159-163 | the condition and the opcode land at bits 31-28 and 24-21 |
| Encoding.ImmediateWordLayout | src/assemble.c:106-163 | a data-processing word with a representable immediate has condition 14, the opcode, I = 1, S, Rn, Rd, half the chosen rotation at bits 11-8 and the rotated constant at bits 7-0 |
| Encoding.ImmediateSetLayout | src/assemble.c:127-163 | the same layout for any 8-bit constant and 4-bit rotation, written by the source's `setBits` calls |
| Encoding.RegisterBitsClear | src/assemble.c:84-104 | the register fields leave bit 25 and bits 11-0 clear for operand 2 |
| Encoding.CondImmediateLayout | src/assemble.c:127-163 | the condition and opcode written over the register and immediate fields read back field by field |
| Encoding.DataProcessingImmediateLayout | src/assemble.c:77-166 | the `DataProcessingWord` for an immediate operand has the layout above, with Rn and Rd being the opcode's registers |
| Encoding.SmallFieldsClearTop | src/assemble.c:159-163 | register and immediate fields leave bits 31-28 and 24-21 clear |
| Encoding.UpperImmediateLayout | src/assemble.c:159-163 | condition, opcode, I and S read back from the OR form |
| Encoding.LowerImmediateLayout | src/assemble.c:84-134 | Rn, Rd, the rotation and the constant read back from the OR form |
| Encoding.ShiftedRegisterIsOr | src/assemble.c:136-157 | into clear bits 11-0, the `setBits` calls for Rm and the shift are one OR of the fields |
| Encoding.ShiftedRegisterLayout | src/assemble.c:136-157 | Rm at bits 3-0; with no shift name bits 11-4 clear; a constant shift has the type at 6-5, bit 4 clear and the amount at 11-7; a register shift has the type at 6-5, bit 4 set, bit 7 clear and Rs at 11-8 |
| Encoding.ShiftedRegisterKeepsTop | src/assemble.c:136-157 | bits 31-12 are left as they were |
| Encoding.RegisterWordLayout | src/assemble.c:84-163 | condition, opcode, I clear, S, Rn, Rd and the shifted register read back from the OR form |
| Encoding.DataProcessingRegisterIsOr | src/assemble.c:77-166 | the `DataProcessingWord` for a register operand is the OR of the condition, opcode, register fields and shifted register |
| Encoding.DataProcessingRegisterLayout | src/assemble.c:77-166 | the word `dataProcessing` writes for a register operand 2 has condition 14, 00 at bits 27-26, the opcode, I clear, S, Rn, Rd and the shifted-register fields of the line |
| Encoding.MultiplicandLayout | src/assemble.c:226-241 | the shift type (0 when the name is not in the table) at bits 11-8, the amount at 7-4 and `num` at 3-0, below 4096 |
| Emulate.RegisterField | src/emulate.c:216-217 | a 4-bit register field indexes one of the 16 general registers |
| Emulate.ClassifyFields | src/emulate.c:80-93 | `Classify` (`decode`) picks the first match: 0 terminates, then bit 27 branch, then bit 26 transfer, then bits 27-22 = 0 with 1001 at bits 7-4 multiply, and otherwise data processing |
| Emulate.CondTable | src/emulate.c:96-121 | `CondHolds`: eq is Z, ne ¬Z, ge N = V, lt N ≠ V, gt ¬Z and N = V, le Z or N ≠ V, al true, and every other field false |
| Emulate.CondCodeDigits | src/emulate.c:103-117 | the binary literals of the switch match exactly the fields 0, 1, 10-14 |
| Emulate.DecimalCodeMatches | src/emulate.c:101-103 | two fields match in decimal code exactly when they are equal |
| Emulate.CondReadsOnlyNZV | src/emulate.c:96-121 | the C flag and the low 28 bits of the CPSR never affect a condition |
| Emulate.WithFlagsBits | src/emulate.c:124-132 | `WithFlags`: bit 31 is the result's sign, bit 30 is whether it is 0, bit 29 is the carry, and V and every lower bit are kept |
| Emulate.SignedAtLeastExamples | src/emulate.c:154-156 | `aluSub`'s carry is the signed order: INT32_MAX ≥ INT32_MIN and 0 ≥ -1 |
| Emulate.AddCarryExamples | src/emulate.c:143-146 | `aluAdd`'s carry flags a sign change: INT32_MAX + 1 sets it, and INT32_MIN + INT32_MIN (which wraps to 0) does not |
| Emulate.Flagged | src/emulate.c:135-161 | reporting to the CPSR keeps the register file's size |
| Emulate.AluEffect | src/emulate.c:164-207 | the ALU keeps the register file's size; what it writes is `AluWrites` |
| Emulate.AluEffectWriting | src/emulate.c:166-205 | an opcode that writes first reports to the CPSR and then writes Rd |
| Emulate.AluEffectTesting | src/emulate.c:187-198 | tst, teq and cmp only report to the CPSR |
| Emulate.AluWrites | src/emulate.c:164-207 | Rd gets the result exactly for the writing opcodes; tst, teq and cmp write no register; no other general register changes; mov never touches the CPSR |
| Emulate.AluFlagsFollowResult | src/emulate.c:135-207 | with S set, the CPSR ends as `setCPSR` of the value Rd ends with |
| Emulate.AluFlagsDescribeResult | src/emulate.c:135-207 | with S set, N and Z describe the value written |
| Emulate.RegisterShifter | src/emulate.c:226-236 | a register operand reads Rm with one of the four shift types |
| Emulate.Operand2Input | src/emulate.c:221-237 | the shifter input always has one of the four shift types |
| Emulate.DataProcessingStep | src/emulate.c:209-245 | data processing changes no memory; its effect on the registers is `DataProcessingByOperand2` |
| Emulate.DataProcessingByOperand2 | src/emulate.c:239-244 | the registers after data processing are the ALU's effect on the opcode, Rn, the shifted operand 2, Rd, S and the shifter's carry |
| Emulate.ImmediateOperand2 | src/emulate.c:221-224 | an immediate operand 2 is the 8-bit constant rotated right by twice the 4-bit count |
| Emulate.MultiplyValueReadsAfterWrite | src/emulate.c:255-258 | Rn is read after Rd holds the product |
| Emulate.MultiplyStep | src/emulate.c:247-261 | multiply changes no memory; its effect on the registers is `MultiplyResult` and `MultiplyFlags` |
| Emulate.MultiplyResult | src/emulate.c:247-259 | Rd ends as Rm·Rs (plus Rn for `mla`) mod 2^32, and no other general register changes |
| Emulate.MultiplyFlagsFollowResult | src/emulate.c:260 | the CPSR ends as `setCPSR` of the new Rd with the old carry, whatever the S bit |
| Emulate.MultiplyFlags | src/emulate.c:260 | N and Z describe the new Rd |
| Emulate.MultiplyKeepsCarry | src/emulate.c:260 | C, V and the low bits of the CPSR are kept |
| Emulate.WriteAndFlag | src/emulate.c:255-260 | writing Rd and flagging keeps the register file's size |
| Emulate.MultiplyThenFlag | src/emulate.c:255-260 | multiply is Rd written with its value, then `setCPSR` of the new Rd with the carry the CPSR holds |
| Emulate.CarryKept | src/emulate.c:124-132 | setting N and Z with the old carry keeps C, V and every lower bit |
| Emulate.Stored | src/emulate.c:269-271 | a store keeps the memory's size |
| Emulate.BytesOfWord | src/emulate.c:264-271 | a word is its four bytes, least significant first |
| Emulate.ReadAfterStore | src/emulate.c:269-271 | a store writes the word's four bytes from its address on and no other byte |
| Emulate.LoadAfterStore | src/emulate.c:264-271 | `Load` (`access`) after `store` at the same address gives back the stored word, aligned or not |
| Emulate.LoadElsewhere | src/emulate.c:264-271 | a store leaves a load that does not overlap it unchanged |
| Emulate.Unsigned | src/emulate.c:290 | a word read as a number is below 2^32 |
| Emulate.AddressSum | src/emulate.c:290 | the `uint32_t` address sum is below 2^32 |
| Emulate.AddressSumZero | src/emulate.c:351 | a zero offset addresses the base itself |
| Emulate.TransferDataStep | src/emulate.c:282-302 | a transfer leaves the pipeline slots as they were |
| Emulate.SingleDataTransferStep | src/emulate.c:323-354 | a transfer leaves the pipeline slots as they were |
| Emulate.IndexedTransfer | src/emulate.c:345-353 | a transfer leaves the pipeline slots as they were |
| Emulate.AddToRegister | src/emulate.c:352 | register rn gets the offset added mod 2^32, and every other register is kept |
| Emulate.TransferLoads | src/emulate.c:287-293 | a load whose address passes the check and fits in memory writes the word there to Rd, and nothing else changes |
| Emulate.TransferStores | src/emulate.c:294-300 | a store that passes the check puts Rd's word where `access` finds it again, and no register changes |
| Emulate.TransferIgnoresOutOfBounds | src/emulate.c:273-301 | a transfer whose check fails changes nothing |
| Emulate.PreIndexed | src/emulate.c:345-348 | with P set, the transfer is at Rn plus the offset and Rn is not updated |
| Emulate.PostIndexed | src/emulate.c:349-353 | with P clear, the transfer is at Rn itself, and then Rn gets the offset added mod 2^32 |
| Emulate.PostIndexedLoad | src/emulate.c:349-353 | a post-indexed load from Rn writes the word at Rn to Rd, then adds the offset to Rn |
| Emulate.PostIndexedStore | src/emulate.c:349-353 | a post-indexed store to Rn leaves Rd's word at Rn, then adds the offset to Rn |
| Emulate.BranchStep | src/emulate.c:356-360 | a branch changes no memory; where it sends the PC is `BranchRoundTrip` |
| Emulate.BranchOffsetRange | src/emulate.c:357-358 | the offset is a multiple of 4 in [-2^25, 2^25) |
| Emulate.ExecuteStep | src/emulate.c:362-369 | executing leaves the pipeline slots as they were |
| Emulate.CycleStep | src/emulate.c:380-405 | a pass of the loop keeps the state well formed; the passes themselves are `CycleTakesBranch` and `CycleAdvances` |
| Emulate.Advanced | src/emulate.c:395-404 | the end of a pass changes no memory |
| Emulate.Executed | src/emulate.c:389-391 | the execute stage leaves the pipeline slots as they were |
| Emulate.EmptyNeverExecutes | src/emulate.c:373-374 | an empty slot (0xffffffff) never passes its condition |
| Emulate.CycleTakesBranch | src/emulate.c:395-397 | a taken branch adds its offset to the PC, empties both slots and sets the class to data processing, with no PC increment |
| Emulate.CycleAdvances | src/emulate.c:382-404 | any other pass shifts the slots (`toExecute` gets `toDecode`, which gets the fetched word), records the decoded class and adds 4 to the PC |
| Emulate.Run | src/emulate.c:380-405 | a run that halts ends with the class Terminate |
| Emulate.RunFueled | src/emulate.c:380-405 | the same for a run with fuel left |
| Emulate.RunPass | src/emulate.c:381-404 | the same for one pass and the rest of the run |
| Emulate.Initial | src/emulate.c:372-377 | the start state holds the image, zero registers and empty slots |
| Emulate.RunStopsAtTerminate | src/emulate.c:380 | once the class is Terminate the loop stops |
| Emulate.RunTakesStep | src/emulate.c:380-405 | a run that does not stop at once is the run of the next state with one pass less |
| Emulate.RunUnfolds | src/emulate.c:380-405 | one pass of the run: halt, run out of fuel, fault, or go on |
| Emulate.RunExtraFuel | src/emulate.c:380-405 | more fuel never changes a run that ended within the fuel it had |
| Emulate.ZeroWordHalts | src/emulate.c:380-387 | a zero word in the decode slot halts the emulator on the next pass, before it is executed |
| Emulate.FetchWord | src/emulate.c:57-60 | the fetch fails exactly when PC is at or past the 65536 bytes of memory |
| Emulate.Machine.State | src/emulate.c:24-30 | the state, read as a value, is well formed |
| Emulate.Machine.constructor | src/emulate.c:372-377 | the machine starts in `Initial` of the image |
| Emulate.Machine.Access | src/emulate.c:264-266 | the word read is the little-endian load at the address |
| Emulate.Machine.Store | src/emulate.c:269-271 | the memory becomes `Stored` of the old memory |
| Emulate.Machine.Fetch | src/emulate.c:57-60 | the fetched word, or the fault, agrees with `FetchWord` |
| Emulate.Machine.Decode | src/emulate.c:80-93 | the class agrees with `Classify` |
| Emulate.Machine.Cond | src/emulate.c:96-121 | the answer agrees with `CondHolds` on the CPSR |
| Emulate.Machine.SetCPSR | src/emulate.c:124-132 | only the CPSR changes, to `WithFlags` |
| Emulate.Machine.AluLogic | src/emulate.c:135-140 | returns the result and reports to the CPSR only when S is set |
| Emulate.Machine.AluAdd | src/emulate.c:143-151 | returns the sum mod 2^32, reporting the signed-overflow carry when S is set |
| Emulate.Machine.AluSub | src/emulate.c:154-161 | returns the difference mod 2^32, reporting signed `op1 >= op2` as the carry when S is set |
| Emulate.Machine.Alu | src/emulate.c:164-207 | the registers become `AluEffect` of the old registers |
| Mnemonics.MnemonicLooksUpOpcode | src/assemble.c:413-422 | each data-processing mnemonic, under its `$` name, looks up to the ARM opcode of that mnemonic |
| Mnemonics.ArmOpcodeDigits | src/utils.c:28-38 | `subBinary` turns each ARM opcode into the `switch` label `alu` lists for that mnemonic |
| Mnemonics.AluComputesMnemonic | src/emulate.c:164-207 | at each mnemonic's label, `alu` computes what the ARM architecture defines for the mnemonic |
| Mnemonics.AluWritesUnlessTest | src/emulate.c:164-207 | at each mnemonic's label, `alu` writes Rd exactly when the mnemonic is not tst, teq or cmp |
| Mnemonics.MnemonicOpcodes | src/assemble.c:78-81 | the opcode the assembler finds for a mnemonic makes the emulator compute that mnemonic's value, and write Rd exactly when it is not a test |
| Emulate.Machine.DataProcessing | src/emulate.c:209-245 | the registers become those of `DataProcessingStep` |
| Emulate.Machine.ReadOperand2 | src/emulate.c:219-237 | the contents, amount and type agree with `Operand2Input` |
| Emulate.Machine.Multiply | src/emulate.c:247-261 | the registers become those of `MultiplyStep` |
| Emulate.Machine.CheckMemoryInBounds | src/emulate.c:273-280 | true exactly when the word index is at most 16384 |
| Emulate.Machine.TransferData | src/emulate.c:282-302 | the state or fault agrees with `TransferDataStep` |
| Emulate.Machine.GetShiftAmount | src/emulate.c:304-321 | the offset is Rm shifted as the instruction says |
| Emulate.Machine.SingleDataTransfer | src/emulate.c:323-354 | the state or fault agrees with `SingleDataTransferStep` |
| Emulate.Machine.TransferIndexed | src/emulate.c:345-353 | the state or fault agrees with `IndexedTransfer` |
| Emulate.Machine.ReadTransferOffset | src/emulate.c:336-341 | the offset is the 12-bit constant, or the shifted register when I is set |
| Emulate.Machine.Branch | src/emulate.c:356-360 | the registers become those of `BranchStep` |
| Emulate.Machine.Execute | src/emulate.c:362-369 | the state or fault agrees with `ExecuteStep` |
| Emulate.Machine.Cycle | src/emulate.c:380-405 | one pass agrees with `CycleStep` |
| Emulate.Machine.Advance | src/emulate.c:393-404 | the end of a pass agrees with `Advanced` |
| Emulate.Machine.MainLoop | src/emulate.c:380-405 | the outcome of the loop is `Run` of the starting state |
| Emulate.Machine.Pass | src/emulate.c:380-405 | one turn either ends the run with its outcome or leaves a state whose run with one pass less is the same run |
| RoundTrip.FieldsGiveBits | src/emulate.c:80-93 | the fields the assembler writes give the bits `decode` tests |
| RoundTrip.TransferRoundTrip | src/assemble.c:333-366 | a transfer word decodes as a transfer with the I, P, U, L, Rn and Rd written, and its offset when I is clear |
| RoundTrip.MultiplyRoundTrip | src/assemble.c:168-196 | a multiply word decodes as a multiply with the Rd, Rm, Rs, accumulate bit and Rn written |
| RoundTrip.ImmediateRoundTrip | src/assemble.c:106-134 | a word with a representable immediate decodes as data processing with its opcode, S, Rn and Rd, and the emulator's rotated operand 2 is the constant |
| RoundTrip.AssembledImmediateRoundTrip | src/assemble.c:77-166 | the word `dataProcessing` writes for `#x` gives the emulator operand 2 = x, with the opcode, S, Rn and Rd of the line |
| RoundTrip.AssembledMultiplyRoundTrip | src/assemble.c:168-196 | the `MultiplyWord` of a line decodes as a multiply with the line's Rd, Rm, Rs and (for `mla`) Rn, accumulating exactly for `mla` |
| RoundTrip.LineShifter | src/emulate.c:226-236 | what a register operand 2 means: Rm's value with the written type and amount (the constant, or the low byte of Rs); with no shift it is Rm itself |
| RoundTrip.RegisterOperandRoundTrip | src/emulate.c:221-237 | a word with bit 25 clear and the shifted-register fields in place gives the emulator the operand `LineShifter` describes |
| RoundTrip.NotMultiplyPattern | src/emulate.c:80-93 | bits 7-4 of a shifted register are never 1001, so `decode` never takes it for a multiply |
| RoundTrip.AssembledRegisterRoundTrip | src/assemble.c:77-166 | the word `dataProcessing` writes for a register operand 2 decodes as data processing with the line's opcode, S, Rn and Rd, and the emulator shifts the line's Rm by the line's type and amount |
| RoundTrip.MultiplicandAsShifter | src/assemble.c:226-241 | the emulator reads `decodeMultiplicand`'s word with the shift type from bits 2-1 of the amount, bit 0 of the amount as the by-register flag, and the written type in the amount or as Rs |
| RoundTrip.MultiplicandMisread | src/emulate.c:304-321 | `[rn, rm, lsl #2]` is read as lsr by 0, so the offset is Rm's value rather than Rm times 4 |
| RoundTrip.BranchRange | src/assemble.c:384-385 | a distance within ±2^25 has its top 7 bits all 0 or all 1 |
| RoundTrip.ForwardDistance | src/assemble.c:384-386 | a forward distance that is a multiple of 4 survives the 24-bit field and the sign extension |
| RoundTrip.BackwardDistance | src/assemble.c:384-386 | so does a backward distance |
| RoundTrip.BranchDistanceRoundTrip | src/assemble.c:384-386 | any multiple of 4 within ±2^25 survives the field and the sign extension |
| RoundTrip.ForwardOffset | src/emulate.c:357-358 | with bit 23 clear, the emulator's offset is the field times 4 |
| RoundTrip.BackwardOffset | src/emulate.c:357-358 | with bit 23 set, the emulator's offset is the sign-extended field times 4 |
| RoundTrip.BranchOffsetOfField | src/emulate.c:357-358 | the emulator's offset is the 24-bit field sign-extended and times 4 |
| RoundTrip.BranchFieldOffset | src/emulate.c:357-358 | a field written from a distance gives back exactly that distance as the offset |
| RoundTrip.BranchTargetSum | src/emulate.c:359 | the PC 8 bytes ahead plus the distance is the target |
| RoundTrip.BranchRoundTrip | src/assemble.c:369-387 | a branch word decodes as a branch with its condition, and executed with PC = its address + 8 it sets the PC to the label |
| RoundTrip.WordDistance | src/assemble.c:329 | the PC 8 bytes ahead of word a, plus `(b - a)·4 - 8`, is byte address 4b |
| RoundTrip.PoolOffsetReachesSlot | src/assemble.c:328-330 | the pool offset added to the PC of the loading instruction addresses the pool word |
| RoundTrip.PoolRoundTrip | src/assemble.c:321-366 | a pool load decodes as a pre-indexed load through the PC into Rd, and the address it computes is the byte address of the pool word |

## Left out

- File I/O is not modelled.
  - `readFile` and `writeFile` in both programs: the assembler takes the lines as a sequence, and the emulator takes the memory image as bytes.
  - `AssembleLines` returns the words `writeFile` would write.
- `termination`'s register and memory report (`printf`, `bswap_32`) only prints, so executing it changes nothing in the model.
- `checkMemoryInBounds` also prints a message; the model drops it.
- `perror` followed by `exit` becomes an `Err` result: `BadRegister`, `Unrepresentable`.
- Inputs on which the C code has undefined behaviour become an error or a fault instead of being modelled:
  - no `]` among the address operands (`NoClosingBracket`);
  - a table value of 3 or more used as a handler index (`BadDispatch`);
  - a literal pool past the output array (`PoolOverflow`);
  - `fetch` past the memory (`FetchOutOfRange`), which the source does not check at all;
  - `access`/`store` of a word that passes the source's own check but reaches past the memory (`AccessOutOfRange`).
- Four more places where the C code has undefined behaviour are modelled as the code evidently means them:
  - `dataProcessing` copies `$` and the mnemonic into `char dollarOpcode[4]` (src/assemble.c:79-80). A three-letter mnemonic needs five bytes, so `strcat` writes past the array. The model looks up `$` followed by the whole mnemonic.
  - The head node `malloc` returns (src/assemble.c:485) never gets its `next` set, so the first `push` and lookup follow an uninitialised pointer. The model starts with no entry after the head.
  - `strtok(label, ":")` (src/assemble.c:69) returns NULL for a line made only of colons, and `push` then copies from NULL. The model pushes the empty key.
  - `getNumber` returns `abs(num)` (src/assemble.c:222), which is undefined for INT_MIN. The model keeps the two's-complement result 2^31 (Assemble.AbsOfNegative).
- `malloc` and `freeTable` are not modelled. The table is a sequence of entries with no nodes, so there is nothing to release.
- Utils.Tokenize: requires the line to have at most six tokens of at most 19 characters. This is the 6×20 array the source assumes; longer input overflows the buffer in C.
- Shift counts of 32 or more (and negative `int` counts) are undefined in C. The model takes them mod 32, which settles:
  - the `BUS_WIDTH - 0` of a rotation by 0;
  - `carryOut`'s `bit(x, -1)` for amount 0, which reads bit 31.
- `rotateLeft`/`rotateRight` are modelled as written, including the sign fill of `>>` on `int32_t`.
  - Utils.RotateRoundTrip: is stated only for rotated words below 2^31. Utils.RotateRoundTripNeedsBound shows it fails otherwise.
  - As a consequence the assembler rejects every `#` constant with bit 31 set (Assemble.LeastRotationOfNegative).
- Assemble.LeastRotationRoundTrip: holds for representable constants only. Those are below 2^31, as above.
- Encoding.TransferLayout, Encoding.MultiplyLayout, Encoding.DirectTransferWord and the other layout lemmas: require every field value to fit its field. `setBits` does not mask, so a register 16 or a 12-bit offset of 4096 and more spills into the next field; Utils.SetBitsOverflowField states what happens then.
- Known encoding mismatches are modelled literally, with no round trip claimed for them:
  - `asr` and `ror` are entered as 8 and 9 (Assemble.ShiftNameValues) and written unmasked into the 2-bit shift field;
  - `decodeMultiplicand` puts the shift type at bits 11-8 and the amount at bits 7-4 (Encoding.MultiplicandLayout), unlike the emulator's register-operand decode (RoundTrip.MultiplicandAsShifter, RoundTrip.MultiplicandMisread);
  - an `=` constant in [0xff, 0xffffff) keeps Rn = -1, which spills over bits 31-16 of the transfer word;
  - `getRegister` reads one digit, so `r10` to `r12` read as register 1.
- Emulate.AddCarryExamples: the carry formulas of `aluAdd` (a sign change of the wrapped sum) and `aluSub` (signed `op1 >= op2`) are the source's own, not ARM's carry and borrow.
- Emulate.MultiplyValueReadsAfterWrite: for `mla` with Rn = Rd the source reads Rn after writing the product there, so the product is added to itself. The model keeps that order.
- Emulate.Run: the loop runs for at most `fuel` passes (`OutOfFuel` otherwise). A program that never halts is not modelled beyond any given number of passes.
- RoundTrip.AssembledRegisterRoundTrip: requires the shift type below 4, a constant amount below 32 and every register below 16. So it covers lsl and lsr but not asr and ror, whose 8 and 9 spill out of bits 6-5; Encoding.DataProcessingRegisterLayout and Encoding.ShiftedRegisterLayout have the same bound.
- RoundTrip.PoolRoundTrip: requires the pool offset to fit the 12-bit field. A program longer than about 1000 words makes `(endOfProgram - instNo)·4 - 8` spill into Rd, and the load then misses its constant.
- RoundTrip.BranchRoundTrip: requires the distance to be a multiple of 4 within ±2^25, which holds for labels of a program of at most 16384 words.
- LibC.StrToL: models `strtol` with base 0 (sign, `0x`, leading-0 octal, decimal) on unbounded integers, so its saturation at LONG_MIN/LONG_MAX does not occur.
