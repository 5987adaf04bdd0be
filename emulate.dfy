/**
  The emulator (src/emulate.c).

  The machine has 16384 words of memory, addressed in bytes little-endian
  first, and 17 registers: r0-r12, r13 and r14 unused, r15 the program
  counter and r16 the CPSR, whose top four bits are N, Z, C and V.  A
  three-slot pipeline holds the word to decode (`toDecode`), the word to
  execute (`toExecute`) and the class of the latter (`decodedType`); an empty
  slot holds 0xffffffff.

  Every stage is stated twice: a function on the value `Cpu` that gives the
  new state (or the fault), and a method of `Machine` that does what the C
  function does to the global `state` and is proved to agree with it.

  The source does no check at all in `fetch`, and `access`/`store` read and
  write past the memory array for some addresses its own bounds check lets
  through.  Those reads and writes are undefined behaviour in C; the model
  stops with a `Fault` there instead.
*/
module Emulate {
  import opened Utils

  /** MEMORY_CAPACITY: words of memory. */
  const MemoryWords := 16384
  /** The memory in bytes. */
  const MemoryBytes := 65536
  const RegisterCount := 17
  /** The program counter's register. */
  const PC := 15
  /** The status register's register. */
  const CPSR := 16
  /** An empty pipeline slot. */
  const Empty: Word := 0xFFFF_FFFF

  /** `enum decodeType`. */
  datatype InstrType = DataProcessingOp | MultiplyOp | TransferOp | BranchOp | TerminateOp

  /** Where the model stops on behaviour C leaves undefined. */
  datatype Fault =
    | FetchOutOfRange(pc: Word)       // fetch: registers[15] / 4 indexes past the memory array
    | AccessOutOfRange(address: nat)  // access/store: a word reaching past the memory array

  /** `struct State`; the memory array seen as the bytes `access` and `store` work on. */
  datatype Cpu = Cpu(memory: seq<Byte>, registers: seq<Word>, toDecode: Word, toExecute: Word, decodedType: InstrType)

  predicate WellFormed(c: Cpu)
  {
    |c.memory| == MemoryBytes && |c.registers| == RegisterCount
  }

  /** A four-bit register field of an instruction (its top bit `start`), as a register index. */
  function RegisterField(w: Word, start: Word): (r: nat)
    requires 3 <= start <= 31
    ensures r < 16
  {
    SubByte(w, start, 4) as nat
  }

  // ---------------------------------------------------------------------------
  // Decode and condition

  /** `decode`: the class of an instruction word. */
  function Classify(w: Word): InstrType
  {
    if w == 0 then TerminateOp
    else if Bit(w, 27) then BranchOp
    else if Bit(w, 26) then TransferOp
    else if DecimalCoded(SubByte(w, 27, 6) as nat) == 0 && DecimalCoded(SubByte(w, 7, 4) as nat) == 1001 then MultiplyOp
    else DataProcessingOp
  }

  /** The classes in terms of the raw fields: bits 27-22 zero and bits 7-4 equal to 9 make a multiply. */
  lemma ClassifyFields(w: Word)
    ensures Classify(w) == TerminateOp <==> w == 0
    ensures Classify(w) == BranchOp <==> w != 0 && Bit(w, 27)
    ensures Classify(w) == TransferOp <==> w != 0 && !Bit(w, 27) && Bit(w, 26)
    ensures Classify(w) == MultiplyOp <==> w != 0 && SubByte(w, 27, 6) == 0 && SubByte(w, 7, 4) == 9
    ensures Classify(w) == DataProcessingOp <==>
      w != 0 && !Bit(w, 27) && !Bit(w, 26) && !(SubByte(w, 27, 6) == 0 && SubByte(w, 7, 4) == 9)
  {
    DecimalCodedExamples();
    var hi := SubByte(w, 27, 6) as nat;
    var lo := SubByte(w, 7, 4) as nat;
    if DecimalCoded(hi) == 0 {
      DecimalCodedInjective(hi, 0);
    }
    if DecimalCoded(lo) == 1001 {
      DecimalCodedInjective(lo, 9);
    }
    if SubByte(w, 27, 6) == 0 {
      assert !Bit(w, 27) && !Bit(w, 26);
    }
  }

  /** `cond`: whether the CPSR passes the condition field (bits 31-28) of `w`. */
  predicate CondHolds(w: Word, cpsr: Word)
  {
    var v := Bit(cpsr, 28);
    var z := Bit(cpsr, 30);
    var n := Bit(cpsr, 31);
    var flag := DecimalCoded(SubByte(w, 31, 4) as nat);
    if flag == 0 then z
    else if flag == 1 then !z
    else if flag == 1010 then n == v
    else if flag == 1011 then n != v
    else if flag == 1100 then !z && n == v
    else if flag == 1101 then z || n != v
    else flag == 1110
  }

  /**
    The condition table on the raw field: eq (0), ne (1), ge (10), lt (11),
    gt (12), le (13), al (14); every other field fails.
  */
  lemma CondTable(w: Word, cpsr: Word)
    ensures var c := SubByte(w, 31, 4) as nat;
      var v := Bit(cpsr, 28);
      var z := Bit(cpsr, 30);
      var n := Bit(cpsr, 31);
      CondHolds(w, cpsr) ==
        if c == 0 then z
        else if c == 1 then !z
        else if c == 10 then n == v
        else if c == 11 then n != v
        else if c == 12 then !z && n == v
        else if c == 13 then z || n != v
        else c == 14
  {
    CondCodeDigits(SubByte(w, 31, 4) as nat);
  }

  /** Which condition fields have the binary digits the `cond` switch lists. */
  lemma CondCodeDigits(c: nat)
    ensures (DecimalCoded(c) == 0) == (c == 0) && (DecimalCoded(c) == 1) == (c == 1)
    ensures (DecimalCoded(c) == 1010) == (c == 10) && (DecimalCoded(c) == 1011) == (c == 11)
    ensures (DecimalCoded(c) == 1100) == (c == 12) && (DecimalCoded(c) == 1101) == (c == 13)
    ensures (DecimalCoded(c) == 1110) == (c == 14)
  {
    assert DecimalCoded(0) == 0 && DecimalCoded(1) == 1 && DecimalCoded(10) == 1010 && DecimalCoded(11) == 1011;
    assert DecimalCoded(12) == 1100 && DecimalCoded(13) == 1101 && DecimalCoded(14) == 1110;
    DecimalCodeMatches(c, 0);
    DecimalCodeMatches(c, 1);
    DecimalCodeMatches(c, 10);
    DecimalCodeMatches(c, 11);
    DecimalCodeMatches(c, 12);
    DecimalCodeMatches(c, 13);
    DecimalCodeMatches(c, 14);
  }

  lemma DecimalCodeMatches(c: nat, k: nat)
    ensures (DecimalCoded(c) == DecimalCoded(k)) == (c == k)
  {
    if DecimalCoded(c) == DecimalCoded(k) {
      DecimalCodedInjective(c, k);
    }
  }

  /** The C flag (bit 29) and the low 28 bits of the CPSR never affect a condition. */
  lemma CondReadsOnlyNZV(w: Word, cpsr: Word, other: Word)
    requires other & 0xD000_0000 == cpsr & 0xD000_0000
    ensures CondHolds(w, other) == CondHolds(w, cpsr)
  {
    assert Bit(other, 28) == Bit(cpsr, 28) && Bit(other, 30) == Bit(cpsr, 30) && Bit(other, 31) == Bit(cpsr, 31);
  }

  // ---------------------------------------------------------------------------
  // Flags and the ALU

  /** `setCPSR(result, cFlag)`: the CPSR after an operation with this result and carry. */
  function WithFlags(cpsr: Word, result: Word, carry: bool): Word
  {
    // N, then Z, then C, each cleared and then ORed in, as the source does
    (((((cpsr & 0x7FFF_FFFF) | (BitOf(Bit(result, 31)) << 31)) & 0xBFFF_FFFF) | (BitOf(result == 0) << 30)) & 0xDFFF_FFFF)
      | (BitOf(carry) << 29)
  }

  /** N is the result's sign bit, Z whether it is zero, C the carry; V and the low bits are kept. */
  lemma WithFlagsBits(cpsr: Word, result: Word, carry: bool)
    ensures var r := WithFlags(cpsr, result, carry);
      Bit(r, 31) == Bit(result, 31) && Bit(r, 30) == (result == 0) && Bit(r, 29) == carry
      && r & 0x1FFF_FFFF == cpsr & 0x1FFF_FFFF
  {
  }

  /** An `int32_t` held in a word is negative. */
  predicate Negative(x: Word)
  {
    Bit(x, 31)
  }

  /** An `int32_t` held in a word is positive. */
  predicate Positive(x: Word)
  {
    !Bit(x, 31) && x != 0
  }

  /** The `int32_t` a word holds. */
  function Signed(x: Word): int
  {
    if Bit(x, 31) then x as int - 0x1_0000_0000 else x as int
  }

  /**
    `aluAdd`'s carry: the wrapped sum of two positive operands is negative, or
    that of two negative operands is positive.
  */
  predicate AddCarry(op1: Word, op2: Word)
  {
    var result := op1 + op2;
    (Negative(result) && Positive(op1) && Positive(op2)) || (Positive(result) && Negative(op1) && Negative(op2))
  }

  /** `aluSub`'s carry, `op1 >= op2` on `int32_t`: flipping the sign bits turns it into the unsigned order. */
  predicate SignedAtLeast(op1: Word, op2: Word)
  {
    (op1 ^ 0x8000_0000) >= (op2 ^ 0x8000_0000)
  }

  /** The signed order at its extremes: INT32_MAX is above INT32_MIN, and 0 above -1. */
  lemma SignedAtLeastExamples()
    ensures SignedAtLeast(0x7FFF_FFFF, 0x8000_0000) && !SignedAtLeast(0x8000_0000, 0x7FFF_FFFF)
    ensures SignedAtLeast(0, 0xFFFF_FFFF) && !SignedAtLeast(0xFFFF_FFFF, 0)
    ensures Signed(0x8000_0000) == -0x8000_0000 && Signed(0xFFFF_FFFF) == -1
  {
  }

  /** `aluAdd`'s carry on the extremes: INT32_MAX + 1 overflows, and so does INT32_MIN + INT32_MIN, but to zero, so it gives no carry. */
  lemma AddCarryExamples()
    ensures AddCarry(0x7FFF_FFFF, 1) && !AddCarry(0x7FFF_FFFF, 0)
    ensures AddCarry(0x8000_0000, 0xFFFF_FFFF) && !AddCarry(0x8000_0000, 0x8000_0000)
    ensures !AddCarry(0xFFFF_FFFF, 1)
  {
  }

  /** `aluLogic`, `aluAdd` and `aluSub` on the CPSR: new flags only when `setFlags`. */
  function Flagged(regs: seq<Word>, result: Word, setFlags: bool, carry: bool): (r: seq<Word>)
    requires |regs| == RegisterCount
    ensures |r| == RegisterCount
  {
    if setFlags then regs[CPSR := WithFlags(regs[CPSR], result, carry)] else regs
  }

  /** The opcodes `alu` knows that report to the CPSR through `aluLogic`, `aluAdd` or `aluSub`: all but mov. */
  predicate SetsFlags(opCode: nat)
  {
    opCode in {0, 1, 10, 11, 100, 1000, 1001, 1010, 1100}
  }

  /** The opcodes whose result `alu` writes to the destination register: all but tst, teq and cmp. */
  predicate WritesResult(opCode: nat)
  {
    opCode in {0, 1, 10, 11, 100, 1100, 1101}
  }

  /** The value an opcode computes, by its ARM name; mov (and any unknown code) gives operand 2. */
  function AluValue(opCode: nat, op1: Word, op2: Word): Word
  {
    if opCode == 0 || opCode == 1000 then op1 & op2       // and, tst
    else if opCode == 1 || opCode == 1001 then op1 ^ op2  // eor, teq
    else if opCode == 10 || opCode == 1010 then op1 - op2 // sub, cmp
    else if opCode == 11 then op2 - op1                   // rsb
    else if opCode == 100 then op1 + op2                  // add
    else if opCode == 1100 then op1 | op2                 // orr
    else op2                                              // mov
  }

  /** What `alu` computes at each label of its switch, one label per lemma. */
  lemma AluAtAnd(op1: Word, op2: Word)
    ensures AluValue(0, op1, op2) == op1 & op2
  {}

  lemma AluAtEor(op1: Word, op2: Word)
    ensures AluValue(1, op1, op2) == op1 ^ op2
  {}

  lemma AluAtSub(op1: Word, op2: Word)
    ensures AluValue(10, op1, op2) == op1 - op2
  {}

  lemma AluAtRsb(op1: Word, op2: Word)
    ensures AluValue(11, op1, op2) == op2 - op1
  {}

  lemma AluAtAdd(op1: Word, op2: Word)
    ensures AluValue(100, op1, op2) == op1 + op2
  {
    var v := op1 + op2;
    assert AluValue(100, op1, op2) == v;
  }

  lemma AluAtOrr(op1: Word, op2: Word)
    ensures AluValue(1100, op1, op2) == op1 | op2
  {
    var v := op1 | op2;
    assert AluValue(1100, op1, op2) == v;
  }

  lemma AluAtMov(op1: Word, op2: Word)
    ensures AluValue(1101, op1, op2) == op2
  {}

  lemma AluAtTst(op1: Word, op2: Word)
    ensures AluValue(1000, op1, op2) == op1 & op2
  {}

  lemma AluAtTeq(op1: Word, op2: Word)
    ensures AluValue(1001, op1, op2) == op1 ^ op2
  {}

  lemma AluAtCmp(op1: Word, op2: Word)
    ensures AluValue(1010, op1, op2) == op1 - op2
  {}

  /** The carry an opcode reports: `aluSub`'s and `aluAdd`'s own, else the shifter's. */
  predicate AluCarry(opCode: nat, op1: Word, op2: Word, shifterCarry: bool)
  {
    if opCode == 10 || opCode == 1010 then SignedAtLeast(op1, op2)
    else if opCode == 11 then SignedAtLeast(op2, op1)
    else if opCode == 100 then AddCarry(op1, op2)
    else shifterCarry
  }

  /**
    `alu(opCode, op1, op2, destReg, set, carry)`, the opcode written in binary
    digits: each case of the switch first reports to the CPSR, then writes the
    destination register; an unknown opcode does nothing.
  */
  function AluEffect(regs: seq<Word>, opCode: nat, op1: Word, op2: Word, rd: nat, setFlags: bool, carry: bool): (r: seq<Word>)
    requires |regs| == RegisterCount && rd < 16
    ensures |r| == RegisterCount
  {
    var result := AluValue(opCode, op1, op2);
    var flagged := if SetsFlags(opCode) then Flagged(regs, result, setFlags, AluCarry(opCode, op1, op2, carry)) else regs;
    if WritesResult(opCode) then flagged[rd := result] else flagged
  }

  /** An arithmetic or logic opcode that writes: the CPSR is reported to, then Rd written. */
  lemma AluEffectWriting(regs: seq<Word>, opCode: nat, op1: Word, op2: Word, rd: nat, setFlags: bool, carry: bool)
    requires |regs| == RegisterCount && rd < 16 && opCode in {0, 1, 10, 11, 100, 1100}
    ensures var v := AluValue(opCode, op1, op2);
      AluEffect(regs, opCode, op1, op2, rd, setFlags, carry) == Flagged(regs, v, setFlags, AluCarry(opCode, op1, op2, carry))[rd := v]
  {
  }

  /** tst, teq and cmp only report to the CPSR. */
  lemma AluEffectTesting(regs: seq<Word>, opCode: nat, op1: Word, op2: Word, rd: nat, setFlags: bool, carry: bool)
    requires |regs| == RegisterCount && rd < 16 && opCode in {1000, 1001, 1010}
    ensures AluEffect(regs, opCode, op1, op2, rd, setFlags, carry) == Flagged(regs, AluValue(opCode, op1, op2), setFlags, AluCarry(opCode, op1, op2, carry))
  {
  }

  /**
    What `alu` changes: the destination register gets the operation's result
    exactly for the writing opcodes (tst, teq and cmp write none); no other
    general register changes; and the CPSR changes only when `setFlags`, never for
    mov, and then its N and Z describe the result.
  */
  lemma AluWrites(regs: seq<Word>, opCode: nat, op1: Word, op2: Word, rd: nat, setFlags: bool, carry: bool)
    requires |regs| == RegisterCount && rd < 16
    ensures var r := AluEffect(regs, opCode, op1, op2, rd, setFlags, carry);
      && (WritesResult(opCode) ==> r[rd] == AluValue(opCode, op1, op2))
      && (!WritesResult(opCode) ==> r[rd] == regs[rd])
      && (forall k :: 0 <= k < 16 && k != rd ==> r[k] == regs[k])
      && (!setFlags || opCode == 1101 ==> r[CPSR] == regs[CPSR])
  {
  }

  /** With S set, the CPSR ends as `setCPSR` of the value Rd ends with. */
  lemma AluFlagsFollowResult(regs: seq<Word>, opCode: nat, op1: Word, op2: Word, rd: nat, carry: bool)
    requires |regs| == RegisterCount && rd < 16
    requires opCode in {0, 1, 10, 11, 100, 1100}
    ensures var r := AluEffect(regs, opCode, op1, op2, rd, true, carry);
      r[CPSR] == WithFlags(regs[CPSR], r[rd], AluCarry(opCode, op1, op2, carry))
  {
  }

  /** With S set, the flags an arithmetic or logic operation leaves describe the value it writes. */
  lemma AluFlagsDescribeResult(regs: seq<Word>, opCode: nat, op1: Word, op2: Word, rd: nat, carry: bool)
    requires |regs| == RegisterCount && rd < 16
    requires opCode in {0, 1, 10, 11, 100, 1100}
    ensures var r := AluEffect(regs, opCode, op1, op2, rd, true, carry);
      Bit(r[CPSR], 31) == Bit(r[rd], 31) && Bit(r[CPSR], 30) == (r[rd] == 0)
  {
    AluFlagsFollowResult(regs, opCode, op1, op2, rd, carry);
    var r := AluEffect(regs, opCode, op1, op2, rd, true, carry);
    WithFlagsBits(regs[CPSR], r[rd], AluCarry(opCode, op1, op2, carry));
  }

  // ---------------------------------------------------------------------------
  // Data processing

  /** What the barrel shifter is given: the word to shift, the amount and the shift type. */
  datatype ShifterInput = ShifterInput(contents: Word, amount: Word, shiftType: Word)

  /**
    A register operand (operand 2 of `dataProcessing`, the offset of
    `getShiftAmount`): Rm shifted by the 5-bit constant at bits 11-7, or by the
    low byte of Rs when bit 4 is set, with the shift type at bits 6-5.
  */
  function RegisterShifter(regs: seq<Word>, w: Word): (s: ShifterInput)
    requires |regs| == RegisterCount
    ensures s.shiftType < 4 && s.contents == regs[RegisterField(w, 3)]
  {
    var amount := if Bit(w, 4) then SubByte(regs[RegisterField(w, 11)], 7, 8) else SubByte(w, 11, 5);
    ShifterInput(regs[RegisterField(w, 3)], amount, SubByte(w, 6, 2))
  }

  /**
    Operand 2 of `dataProcessing`: with bit 25 set, the 8-bit constant rotated
    right by twice the 4-bit count at bits 11-8; otherwise a register operand.
  */
  function Operand2Input(regs: seq<Word>, w: Word): (s: ShifterInput)
    requires |regs| == RegisterCount
    ensures s.shiftType < 4
  {
    if Bit(w, 25) then ShifterInput(SubByte(w, 7, 8), 2 * SubByte(w, 11, 4), 3)
    else RegisterShifter(regs, w)
  }

  /** `dataProcessing`: the registers after the data-processing instruction `toExecute`. */
  function DataProcessingStep(c: Cpu): (r: Cpu)
    requires WellFormed(c)
    ensures WellFormed(r) && r.memory == c.memory
  {
    var w := c.toExecute;
    var s := Operand2Input(c.registers, w);
    var op2 := Shift(s.contents, s.amount, s.shiftType);
    var carry := CarryOut(s.contents, s.amount, s.shiftType);
    var opCode := DecimalCoded(SubByte(w, 24, 4) as nat);
    c.(registers := AluEffect(c.registers, opCode, c.registers[RegisterField(w, 19)], op2, RegisterField(w, 15), Bit(w, 20), carry))
  }

  /** `DataProcessingStep` once operand 2 and the shifter's carry are known. */
  lemma DataProcessingByOperand2(c: Cpu, input: ShifterInput, op2: Word, carry: bool)
    requires WellFormed(c) && input == Operand2Input(c.registers, c.toExecute)
    requires op2 == Shift(input.contents, input.amount, input.shiftType)
    requires carry == CarryOut(input.contents, input.amount, input.shiftType)
    ensures var w := c.toExecute;
      DataProcessingStep(c).registers
        == AluEffect(c.registers, DecimalCoded(SubByte(w, 24, 4) as nat), c.registers[RegisterField(w, 19)], op2, RegisterField(w, 15), Bit(w, 20), carry)
  {
  }

  /** An immediate operand 2 is the constant rotated right by twice the rotate field, with no register read. */
  lemma ImmediateOperand2(regs: seq<Word>, w: Word)
    requires |regs| == RegisterCount && Bit(w, 25)
    ensures var s := Operand2Input(regs, w);
      Shift(s.contents, s.amount, s.shiftType) == RotateRight(SubByte(w, 7, 8), 2 * SubByte(w, 11, 4))
  {
  }

  // ---------------------------------------------------------------------------
  // Multiply

  /** `uint32_t` multiplication: the product modulo 2^32. */
  function Times(a: Word, b: Word): Word
  {
    a * b
  }

  /** `uint32_t` addition: the sum modulo 2^32. */
  function Plus(a: Word, b: Word): Word
  {
    a + b
  }

  /** `Rm * Rs` of the multiply `w`, modulo 2^32. */
  function Product(regs: seq<Word>, w: Word): Word
    requires |regs| == RegisterCount
  {
    Times(regs[RegisterField(w, 3)], regs[RegisterField(w, 11)])
  }

  /**
    The value `multiply` leaves in Rd: the product, plus Rn when bit 21 is set.
    The source writes the product to Rd before it reads Rn, so for Rn = Rd the
    product is added to itself.
  */
  function MultiplyValue(regs: seq<Word>, w: Word): Word
    requires |regs| == RegisterCount
  {
    var p := Product(regs, w);
    var rn := RegisterField(w, 15);
    var rnAfterWrite := if rn == RegisterField(w, 19) then p else regs[rn];
    if Bit(w, 21) then Plus(p, rnAfterWrite) else p
  }

  /** The value of `multiply` read the way the source computes it: Rn is read after Rd has the product. */
  lemma MultiplyValueReadsAfterWrite(regs: seq<Word>, w: Word)
    requires |regs| == RegisterCount
    ensures var p := Product(regs, w);
      MultiplyValue(regs, w) == if Bit(w, 21) then Plus(p, regs[RegisterField(w, 19) := p][RegisterField(w, 15)]) else p
  {
  }

  /**
    `multiply`: Rd gets its value; N and Z are then set from Rd and C is
    written back unchanged, whatever the S bit.
  */
  function MultiplyStep(c: Cpu): (r: Cpu)
    requires WellFormed(c)
    ensures WellFormed(r) && r.memory == c.memory
  {
    c.(registers := WriteAndFlag(c.registers, RegisterField(c.toExecute, 19), MultiplyValue(c.registers, c.toExecute)))
  }

  /** Rd ends as Rm * Rs (plus Rn for `mla`) modulo 2^32, and no other general register changes. */
  lemma MultiplyResult(c: Cpu)
    requires WellFormed(c)
    ensures var rd := RegisterField(c.toExecute, 19);
      var r := MultiplyStep(c).registers;
      && r[rd] == MultiplyValue(c.registers, c.toExecute)
      && forall k :: 0 <= k < 16 && k != rd ==> r[k] == c.registers[k]
  {
  }

  /** The CPSR ends as `setCPSR` of the new Rd with the old carry, whatever the S bit. */
  lemma MultiplyFlagsFollowResult(c: Cpu)
    requires WellFormed(c)
    ensures var r := MultiplyStep(c).registers;
      r[CPSR] == WithFlags(c.registers[CPSR], r[RegisterField(c.toExecute, 19)], Bit(c.registers[CPSR], 29))
  {
  }

  /** N and Z describe the new Rd. */
  lemma MultiplyFlags(c: Cpu)
    requires WellFormed(c)
    ensures var r := MultiplyStep(c).registers;
      var rd := RegisterField(c.toExecute, 19);
      Bit(r[CPSR], 31) == Bit(r[rd], 31) && Bit(r[CPSR], 30) == (r[rd] == 0)
  {
    MultiplyFlagsFollowResult(c);
    var r := MultiplyStep(c).registers;
    WithFlagsBits(c.registers[CPSR], r[RegisterField(c.toExecute, 19)], Bit(c.registers[CPSR], 29));
  }

  /** C, V and the low bits of the CPSR are kept. */
  lemma MultiplyKeepsCarry(c: Cpu)
    requires WellFormed(c)
    ensures MultiplyStep(c).registers[CPSR] & 0x3FFF_FFFF == c.registers[CPSR] & 0x3FFF_FFFF
  {
    MultiplyFlagsFollowResult(c);
    CarryKept(c.registers[CPSR], MultiplyStep(c).registers[RegisterField(c.toExecute, 19)]);
  }

  /** Rd written with `v` and then N and Z set from `v`, with the old C. */
  function WriteAndFlag(regs: seq<Word>, rd: nat, v: Word): (r: seq<Word>)
    requires |regs| == RegisterCount && rd < 16
    ensures |r| == RegisterCount
  {
    regs[rd := v][CPSR := WithFlags(regs[CPSR], v, Bit(regs[CPSR], 29))]
  }

  /** `multiply` in two steps: Rd written with its value, then `setCPSR` of the new Rd with the carry the CPSR holds. */
  lemma MultiplyThenFlag(c: Cpu, written: seq<Word>)
    requires WellFormed(c)
    requires written == c.registers[RegisterField(c.toExecute, 19) := MultiplyValue(c.registers, c.toExecute)]
    ensures var rd := RegisterField(c.toExecute, 19);
      MultiplyStep(c).registers == written[CPSR := WithFlags(written[CPSR], written[rd], Bit(written[CPSR], 29))]
  {
  }

  /** Setting N and Z with the old carry leaves C, V and every bit below them as they were. */
  lemma CarryKept(cpsr: Word, v: Word)
    ensures WithFlags(cpsr, v, Bit(cpsr, 29)) & 0x3FFF_FFFF == cpsr & 0x3FFF_FFFF
  {
  }

  // ---------------------------------------------------------------------------
  // Memory, byte-addressed and little-endian

  /** Byte k (0 is the least significant) of a word. */
  function ByteOf(w: Word, k: nat): Byte
    requires k < 4
  {
    if k == 0 then (w & 0xFF) as Byte
    else if k == 1 then ((w >> 8) & 0xFF) as Byte
    else if k == 2 then ((w >> 16) & 0xFF) as Byte
    else (w >> 24) as Byte
  }

  /** `access(address)`: the four bytes from `address` on, the first the least significant. */
  function Load(mem: seq<Byte>, a: nat): Word
    requires |mem| == MemoryBytes && a + 4 <= MemoryBytes
  {
    (mem[a] as Word) | ((mem[a + 1] as Word) << 8) | ((mem[a + 2] as Word) << 16) | ((mem[a + 3] as Word) << 24)
  }

  /** `store(address, data)`: the four bytes of `data`, least significant first, from `address` on. */
  function Stored(mem: seq<Byte>, a: nat, data: Word): (r: seq<Byte>)
    requires |mem| == MemoryBytes && a + 4 <= MemoryBytes
    ensures |r| == MemoryBytes
  {
    mem[a := ByteOf(data, 0)][a + 1 := ByteOf(data, 1)][a + 2 := ByteOf(data, 2)][a + 3 := ByteOf(data, 3)]
  }

  /** A word is the four bytes it is made of. */
  lemma BytesOfWord(w: Word)
    ensures (ByteOf(w, 0) as Word) | ((ByteOf(w, 1) as Word) << 8) | ((ByteOf(w, 2) as Word) << 16)
      | ((ByteOf(w, 3) as Word) << 24) == w
  {
  }

  /** A store writes the four bytes of the word from its address on and no other byte. */
  lemma ReadAfterStore(mem: seq<Byte>, a: nat, data: Word, b: nat)
    requires |mem| == MemoryBytes && a + 4 <= MemoryBytes && b < MemoryBytes
    ensures Stored(mem, a, data)[b] == if a <= b < a + 4 then ByteOf(data, b - a) else mem[b]
  {
  }

  /** `access` after `store` at the same address gives back the stored word, aligned or not. */
  lemma LoadAfterStore(mem: seq<Byte>, a: nat, data: Word)
    requires |mem| == MemoryBytes && a + 4 <= MemoryBytes
    ensures Load(Stored(mem, a, data), a) == data
  {
    var m := Stored(mem, a, data);
    assert m[a] == ByteOf(data, 0) && m[a + 1] == ByteOf(data, 1);
    assert m[a + 2] == ByteOf(data, 2) && m[a + 3] == ByteOf(data, 3);
    BytesOfWord(data);
  }

  /** A store leaves a load that does not overlap it unchanged. */
  lemma LoadElsewhere(mem: seq<Byte>, a: nat, data: Word, b: nat)
    requires |mem| == MemoryBytes && a + 4 <= MemoryBytes && b + 4 <= MemoryBytes
    requires b + 4 <= a || a + 4 <= b
    ensures Load(Stored(mem, a, data), b) == Load(mem, b)
  {
    ReadAfterStore(mem, a, data, b);
    ReadAfterStore(mem, a, data, b + 1);
    ReadAfterStore(mem, a, data, b + 2);
    ReadAfterStore(mem, a, data, b + 3);
  }

  // ---------------------------------------------------------------------------
  // Single data transfer

  /** The pipeline slots of two states agree. */
  predicate SamePipeline(a: Cpu, b: Cpu)
  {
    a.toDecode == b.toDecode && a.toExecute == b.toExecute && a.decodedType == b.decodedType
  }

  /** `checkMemoryInBounds`: the word index of `address` is at most MEMORY_CAPACITY, one past the last word. */
  predicate InBounds(address: nat)
  {
    address / 4 <= MemoryWords
  }

  /** A word read as an unsigned number. */
  function Unsigned(w: Word): (n: nat)
    ensures n < 0x1_0000_0000
  {
    w as int
  }

  /** `uint32_t` addition of two words, as a number. */
  function AddressSum(base: Word, offset: Word): (a: nat)
    ensures a < 0x1_0000_0000
  {
    (Unsigned(base) + Unsigned(offset)) % 0x1_0000_0000
  }

  /** Adding a zero offset gives the base itself. */
  lemma AddressSumZero(base: Word)
    ensures AddressSum(base, 0) == Unsigned(base)
  {
    SmallModulus(Unsigned(base));
  }

  /** A number below 2^32 is its own remainder. */
  lemma SmallModulus(u: int)
    requires 0 <= u < 0x1_0000_0000
    ensures u % 0x1_0000_0000 == u
  {
  }

  /**
    `transferData(mode, source, destination, offset)` at Rn plus `offset`,
    modulo 2^32.  A load checks that address and a store checks a quarter of
    it; when the check fails nothing changes (the source prints a message).  A
    four-byte access that passes the check but reaches past the memory is
    undefined in C and a `Fault` here.
  */
  function TransferDataStep(c: Cpu, load: bool, rn: nat, rd: nat, offset: Word): (r: Result<Cpu, Fault>)
    requires WellFormed(c) && rn < 16 && rd < 16
    ensures r.Ok? ==> WellFormed(r.value) && SamePipeline(r.value, c)
  {
    var address := AddressSum(c.registers[rn], offset);
    if load then
      if !InBounds(address) then Ok(c)
      else if address + 4 > MemoryBytes then Err(AccessOutOfRange(address))
      else Ok(c.(registers := c.registers[rd := Load(c.memory, address)]))
    else
      if !InBounds(address / 4) then Ok(c)
      else if address + 4 > MemoryBytes then Err(AccessOutOfRange(address))
      else Ok(c.(memory := Stored(c.memory, address, c.registers[rd])))
  }

  /** `(U ? 1 : -1) * offset` in 32-bit arithmetic. */
  function DirectedOffset(up: bool, offset: Word): Word
  {
    if up then offset else 0 - offset
  }

  /** The unsigned offset of a transfer: `getShiftAmount`'s shifted register when I is set, else the 12-bit constant. */
  function TransferOffset(regs: seq<Word>, w: Word): Word
    requires |regs| == RegisterCount
  {
    if Bit(w, 25) then
      var s := RegisterShifter(regs, w);
      Shift(s.contents, s.amount, s.shiftType)
    else SubByte(w, 11, 12)
  }

  /** `singleDataTransfer`: the transfer with the offset, negated when U is clear. */
  function SingleDataTransferStep(c: Cpu): (r: Result<Cpu, Fault>)
    requires WellFormed(c)
    ensures r.Ok? ==> WellFormed(r.value) && SamePipeline(r.value, c)
  {
    IndexedTransfer(c, DirectedOffset(Bit(c.toExecute, 23), TransferOffset(c.registers, c.toExecute)))
  }

  /**
    The rest of `singleDataTransfer` once the directed offset is known: with P
    set, the transfer is at Rn plus the offset; with P clear it is at Rn, and
    Rn then gets the offset added.
  */
  function IndexedTransfer(c: Cpu, offset: Word): (r: Result<Cpu, Fault>)
    requires WellFormed(c)
    ensures r.Ok? ==> WellFormed(r.value) && SamePipeline(r.value, c)
  {
    var w := c.toExecute;
    var rn := RegisterField(w, 19);
    var rd := RegisterField(w, 15);
    if Bit(w, 24) then TransferDataStep(c, Bit(w, 20), rn, rd, offset)
    else
      var t :- TransferDataStep(c, Bit(w, 20), rn, rd, 0);
      Ok(t.(registers := AddToRegister(t.registers, rn, offset)))
  }

  /** Register `rn` gets `offset` added, modulo 2^32. */
  function AddToRegister(regs: seq<Word>, rn: nat, offset: Word): (r: seq<Word>)
    requires rn < |regs|
    ensures |r| == |regs| && r[rn] == Plus(regs[rn], offset)
    ensures forall i :: 0 <= i < |regs| && i != rn ==> r[i] == regs[i]
  {
    regs[rn := Plus(regs[rn], offset)]
  }

  /** A load whose address passes the check and fits in memory writes the word found there to Rd, and nothing else. */
  lemma TransferLoads(c: Cpu, rn: nat, rd: nat, offset: Word)
    requires WellFormed(c) && rn < 16 && rd < 16
    requires InBounds(AddressSum(c.registers[rn], offset)) && AddressSum(c.registers[rn], offset) + 4 <= MemoryBytes
    ensures TransferDataStep(c, true, rn, rd, offset) == Ok(c.(registers := c.registers[rd := Load(c.memory, AddressSum(c.registers[rn], offset))]))
  {
  }

  /** A store whose address passes the check and fits in memory puts Rd's word there, where `access` finds it again. */
  lemma TransferStores(c: Cpu, rn: nat, rd: nat, offset: Word)
    requires WellFormed(c) && rn < 16 && rd < 16
    requires InBounds(AddressSum(c.registers[rn], offset) / 4) && AddressSum(c.registers[rn], offset) + 4 <= MemoryBytes
    ensures var r := TransferDataStep(c, false, rn, rd, offset);
      && r.Ok? && r.value.registers == c.registers
      && Load(r.value.memory, AddressSum(c.registers[rn], offset)) == c.registers[rd]
  {
    LoadAfterStore(c.memory, AddressSum(c.registers[rn], offset), c.registers[rd]);
  }

  /** A load whose check fails changes nothing; the source only prints a message. */
  lemma TransferIgnoresOutOfBounds(c: Cpu, load: bool, rn: nat, rd: nat, offset: Word)
    requires WellFormed(c) && rn < 16 && rd < 16
    requires !InBounds(if load then AddressSum(c.registers[rn], offset) else AddressSum(c.registers[rn], offset) / 4)
    ensures TransferDataStep(c, load, rn, rd, offset) == Ok(c)
  {
  }

  /** With P set, the transfer happens at Rn plus the offset and Rn keeps its value (when the transfer leaves it alone). */
  lemma PreIndexed(c: Cpu, offset: Word)
    requires WellFormed(c) && Bit(c.toExecute, 24)
    ensures IndexedTransfer(c, offset)
      == TransferDataStep(c, Bit(c.toExecute, 20), RegisterField(c.toExecute, 19), RegisterField(c.toExecute, 15), offset)
  {
  }

  /**
    With P clear, the transfer happens at Rn itself, and afterwards Rn (as the
    transfer left it) gets the offset added; no other register changes.
  */
  lemma PostIndexed(c: Cpu, offset: Word)
    requires WellFormed(c) && !Bit(c.toExecute, 24)
    ensures var rn := RegisterField(c.toExecute, 19);
      var t := TransferDataStep(c, Bit(c.toExecute, 20), rn, RegisterField(c.toExecute, 15), 0);
      && (t.Err? ==> IndexedTransfer(c, offset) == t)
      && (t.Ok? ==> IndexedTransfer(c, offset) == Ok(t.value.(registers := AddToRegister(t.value.registers, rn, offset))))
  {
  }

  /** A post-indexed load from Rn that passes the check writes the word at Rn to Rd, then adds the offset to Rn. */
  lemma PostIndexedLoad(c: Cpu, offset: Word)
    requires WellFormed(c) && !Bit(c.toExecute, 24) && Bit(c.toExecute, 20)
    requires var base := Unsigned(c.registers[RegisterField(c.toExecute, 19)]);
      InBounds(base) && base + 4 <= MemoryBytes
    ensures var rn := RegisterField(c.toExecute, 19);
      var loaded := c.registers[RegisterField(c.toExecute, 15) := Load(c.memory, Unsigned(c.registers[rn]))];
      IndexedTransfer(c, offset) == Ok(c.(registers := AddToRegister(loaded, rn, offset)))
  {
    var rn := RegisterField(c.toExecute, 19);
    AddressSumZero(c.registers[rn]);
    TransferLoads(c, rn, RegisterField(c.toExecute, 15), 0);
    PostIndexed(c, offset);
  }

  /** A post-indexed store to Rn that passes the check leaves Rd's word at Rn, then adds the offset to Rn. */
  lemma PostIndexedStore(c: Cpu, offset: Word)
    requires WellFormed(c) && !Bit(c.toExecute, 24) && !Bit(c.toExecute, 20)
    requires var base := Unsigned(c.registers[RegisterField(c.toExecute, 19)]);
      InBounds(base / 4) && base + 4 <= MemoryBytes
    ensures var rn := RegisterField(c.toExecute, 19);
      var r := IndexedTransfer(c, offset);
      && r.Ok? && r.value.registers == AddToRegister(c.registers, rn, offset)
      && Load(r.value.memory, Unsigned(c.registers[rn])) == c.registers[RegisterField(c.toExecute, 15)]
  {
    var rn := RegisterField(c.toExecute, 19);
    AddressSumZero(c.registers[rn]);
    TransferStores(c, rn, RegisterField(c.toExecute, 15), 0);
    PostIndexed(c, offset);
  }

  // ---------------------------------------------------------------------------
  // Branch

  /** `branch`'s offset: the 24-bit field shifted left by 2, bits 31-26 set when bit 23 is (bit 23 times 0xfc000000). */
  function BranchOffset(w: Word): Word
  {
    (SubByte(w, 23, 24) << 2) | (if Bit(w, 23) then 0xFC00_0000 else 0)
  }

  /** `branch`: the PC gets the offset added, modulo 2^32. */
  function BranchStep(c: Cpu): (r: Cpu)
    requires WellFormed(c)
    ensures WellFormed(r) && r.memory == c.memory
  {
    c.(registers := AddToRegister(c.registers, PC, BranchOffset(c.toExecute)))
  }

  /** The offset is four times the 24-bit field read as a signed number: a multiple of 4 in [-2^25, 2^25). */
  lemma BranchOffsetRange(w: Word)
    ensures BranchOffset(w) & 3 == 0
    ensures BranchOffset(w) + 0x0200_0000 < 0x0400_0000
  {
  }

  // ---------------------------------------------------------------------------
  // Execute and the cycle loop

  /**
    `execute`: when the condition holds, the executor of `decodedType` runs;
    `termination` only prints, so for it nothing changes.
  */
  function ExecuteStep(c: Cpu): (r: Result<Cpu, Fault>)
    requires WellFormed(c)
    ensures r.Ok? ==> WellFormed(r.value) && SamePipeline(r.value, c)
  {
    if !CondHolds(c.toExecute, c.registers[CPSR]) then Ok(c)
    else match c.decodedType
      case DataProcessingOp => Ok(DataProcessingStep(c))
      case MultiplyOp => Ok(MultiplyStep(c))
      case TransferOp => SingleDataTransferStep(c)
      case BranchOp => Ok(BranchStep(c))
      case TerminateOp => Ok(c)
  }

  /** `fetch`: the word at the PC's word index; an index past the memory is undefined in C and a `Fault` here. */
  function FetchWord(c: Cpu): (r: Result<Word, Fault>)
    requires WellFormed(c)
    ensures r.Err? <==> Unsigned(c.registers[PC]) >= MemoryBytes
  {
    var i := Unsigned(c.registers[PC]) / 4;
    if i >= MemoryWords then Err(FetchOutOfRange(c.registers[PC]))
    else Ok(Load(c.memory, 4 * i))
  }

  /**
    One pass of `main`'s loop: fetch, decode `toDecode` (an empty slot decodes
    as data processing), execute `toExecute` unless empty; then a branch whose
    condition holds empties both slots, and otherwise the slots move along and
    the PC steps by 4.
  */
  function CycleStep(c: Cpu): (r: Result<Cpu, Fault>)
    requires WellFormed(c)
    ensures r.Ok? ==> WellFormed(r.value)
  {
    var fetched :- FetchWord(c);
    var newType := DecodeSlot(c.toDecode);
    var e :- Executed(c);
    Ok(Advanced(e, fetched, newType))
  }

  /** The decode stage of a pass: an empty slot decodes as data processing. */
  function DecodeSlot(w: Word): InstrType
  {
    if w != Empty then Classify(w) else DataProcessingOp
  }

  /** The end of a pass, after execution: a taken branch empties the slots, otherwise they move along and the PC steps by 4. */
  function Advanced(e: Cpu, fetched: Word, newType: InstrType): (r: Cpu)
    requires WellFormed(e)
    ensures WellFormed(r) && r.memory == e.memory
  {
    if e.decodedType == BranchOp && CondHolds(e.toExecute, e.registers[CPSR]) then
      e.(toDecode := Empty, toExecute := Empty, decodedType := DataProcessingOp)
    else
      e.(toExecute := e.toDecode, toDecode := fetched, decodedType := newType,
         registers := AddToRegister(e.registers, PC, 4))
  }

  /** The slot `CycleStep` executes from: `toExecute` when it is not empty. */
  function Executed(c: Cpu): (r: Result<Cpu, Fault>)
    requires WellFormed(c)
    ensures r.Ok? ==> WellFormed(r.value) && SamePipeline(r.value, c)
  {
    if c.toExecute != Empty then ExecuteStep(c) else Ok(c)
  }

  /** An empty slot never passes its condition (its field is 15), so it would execute nothing anyway. */
  lemma EmptyNeverExecutes(cpsr: Word)
    ensures !CondHolds(Empty, cpsr)
  {
    assert SubByte(Empty, 31, 4) == 15;
    CondTable(Empty, cpsr);
  }

  /**
    A branch whose condition holds, once executed, empties both slots: the
    next two cycles fetch from the target before anything executes again.
  */
  lemma CycleTakesBranch(c: Cpu)
    requires WellFormed(c) && FetchWord(c).Ok?
    requires c.decodedType == BranchOp && CondHolds(c.toExecute, c.registers[CPSR])
    ensures CycleStep(c) == Ok(Cpu(c.memory, AddToRegister(c.registers, PC, BranchOffset(c.toExecute)), Empty, Empty, DataProcessingOp))
  {
    EmptyNeverExecutes(c.registers[CPSR]);
  }

  /**
    Any other cycle moves the pipeline along: the word to decode becomes the
    word to execute, with the class `decode` gave it, the fetched word (at
    the PC the cycle started with) becomes the word to decode, and the PC
    then steps by 4 from wherever execution left it.
  */
  lemma CycleAdvances(c: Cpu)
    requires WellFormed(c) && FetchWord(c).Ok? && Executed(c).Ok?
    requires !(c.decodedType == BranchOp && CondHolds(c.toExecute, Executed(c).value.registers[CPSR]))
    ensures var r := CycleStep(c);
      && r.Ok?
      && r.value.toExecute == c.toDecode
      && r.value.toDecode == Load(c.memory, 4 * (Unsigned(c.registers[PC]) / 4))
      && r.value.decodedType == (if c.toDecode == Empty then DataProcessingOp else Classify(c.toDecode))
      && r.value.registers == AddToRegister(Executed(c).value.registers, PC, 4)
      && r.value.memory == Executed(c).value.memory
  {
  }

  /** How a run ends: the loop saw `Terminate`, the model met undefined behaviour, or the fuel ran out. */
  datatype Outcome = Halted(final: Cpu) | Faulted(fault: Fault, last: Cpu) | OutOfFuel(current: Cpu)

  /** `main`'s loop, for at most `fuel` passes: it stops as soon as `decodedType` is `Terminate`. */
  function Run(c: Cpu, fuel: nat): (o: Outcome)
    requires WellFormed(c)
    ensures o.Halted? ==> WellFormed(o.final) && o.final.decodedType == TerminateOp
    decreases fuel, 2
  {
    if c.decodedType == TerminateOp then Halted(c) else RunFueled(c, fuel)
  }

  /** The loop body of `Run`, when the fuel allows another pass. */
  function RunFueled(c: Cpu, fuel: nat): (o: Outcome)
    requires WellFormed(c)
    ensures o.Halted? ==> WellFormed(o.final) && o.final.decodedType == TerminateOp
    decreases fuel, 1
  {
    if fuel == 0 then OutOfFuel(c) else RunPass(c, fuel)
  }

  /** One pass, then the rest of the run; a fault ends it with the state the pass started from. */
  function RunPass(c: Cpu, fuel: nat): (o: Outcome)
    requires WellFormed(c) && 0 < fuel
    ensures o.Halted? ==> WellFormed(o.final) && o.final.decodedType == TerminateOp
    decreases fuel, 0
  {
    match CycleStep(c)
    case Err(f) => Faulted(f, c)
    case Ok(n) => Run(n, fuel - 1)
  }

  /** The state `main` starts from: the image in memory, every register 0, both slots empty. */
  function Initial(image: seq<Byte>): (c: Cpu)
    requires |image| == MemoryBytes
    ensures WellFormed(c) && c.memory == image
  {
    Cpu(image, seq(RegisterCount, _ => 0), Empty, Empty, DataProcessingOp)
  }

  /** Once `decodedType` is `Terminate` the loop stops, whatever the fuel. */
  lemma RunStopsAtTerminate(c: Cpu, fuel: nat)
    requires WellFormed(c) && c.decodedType == TerminateOp
    ensures Run(c, fuel) == Halted(c)
  {
  }

  /** A run that does not stop at once is the run of the next state with one pass less. */
  lemma RunTakesStep(c: Cpu, fuel: nat)
    requires WellFormed(c) && c.decodedType != TerminateOp && 0 < fuel && CycleStep(c).Ok?
    ensures Run(c, fuel) == Run(CycleStep(c).value, fuel - 1)
  {
    RunUnfolds(c, fuel);
  }

  /** One pass of `Run`, written out: halt, run out of fuel, fault, or go on with one unit less. */
  lemma RunUnfolds(c: Cpu, fuel: nat)
    requires WellFormed(c)
    ensures Run(c, fuel) ==
      if c.decodedType == TerminateOp then Halted(c)
      else if fuel == 0 then OutOfFuel(c)
      else match CycleStep(c)
        case Err(f) => Faulted(f, c)
        case Ok(n) => Run(n, fuel - 1)
  {
    if c.decodedType != TerminateOp {
      assert Run(c, fuel) == RunFueled(c, fuel);
      if 0 < fuel {
        assert RunFueled(c, fuel) == RunPass(c, fuel);
      }
    }
  }

  /** More fuel changes nothing for a run that ended within the fuel it had. */
  lemma {:induction false} RunExtraFuel(c: Cpu, fuel: nat, extra: nat)
    requires WellFormed(c) && !Run(c, fuel).OutOfFuel?
    ensures Run(c, fuel + extra) == Run(c, fuel)
    decreases fuel
  {
    RunUnfolds(c, fuel);
    RunUnfolds(c, fuel + extra);
    if c.decodedType != TerminateOp && CycleStep(c).Ok? {
      RunExtraFuel(CycleStep(c).value, fuel - 1, extra);
    }
  }

  /**
    An all-zero word in the decode slot halts the emulator on the next pass,
    before it reaches execution: it then sits in `toExecute` unexecuted.
  */
  lemma ZeroWordHalts(c: Cpu, fuel: nat)
    requires WellFormed(c) && c.decodedType != TerminateOp && c.toDecode == 0 && 0 < fuel
    requires FetchWord(c).Ok? && Executed(c).Ok?
    requires !(c.decodedType == BranchOp && CondHolds(c.toExecute, Executed(c).value.registers[CPSR]))
    ensures Run(c, fuel).Halted? && Run(c, fuel).final.toExecute == 0
  {
    CycleAdvances(c);
    RunTakesStep(c, fuel);
    RunUnfolds(CycleStep(c).value, fuel - 1);
  }

  /** How a method of `Machine` reports a stage: no fault and the state the function gives, or the function's fault. */
  predicate Agrees(r: Result<Cpu, Fault>, fault: Option<Fault>, now: Cpu)
  {
    match r
    case Ok(c) => fault == None && now == c
    case Err(f) => fault == Some(f)
  }

  /**
    `struct State state`, the emulator's global, as an object: the memory
    (seen as bytes) and the registers are arrays updated in place.
  */
  class Machine {
    const memory: array<Byte>
    const registers: array<Word>
    var toDecode: Word
    var toExecute: Word
    var decodedType: InstrType

    ghost predicate Valid()
      reads this
    {
      memory.Length == MemoryBytes && registers.Length == RegisterCount
    }

    /** The state as a value. */
    function State(): (c: Cpu)
      reads this, memory, registers
      requires Valid()
      ensures WellFormed(c)
    {
      Cpu(memory[..], registers[..], toDecode, toExecute, decodedType)
    }

    /** `main`'s set-up with `readFile`'s image: the global starts zeroed, then both slots are emptied. */
    constructor (image: seq<Byte>)
      requires |image| == MemoryBytes
      ensures Valid() && State() == Initial(image)
    {
      memory := new Byte[MemoryBytes](i requires 0 <= i < MemoryBytes => image[i]);
      registers := new Word[RegisterCount](_ => 0);
      toDecode := Empty;
      toExecute := Empty;
      decodedType := DataProcessingOp;
      new;
      assert memory[..] == image;
      assert registers[..] == seq(RegisterCount, _ => 0);
    }

    /** `access(address)`. */
    method Access(address: nat) returns (w: Word)
      requires Valid() && address + 4 <= MemoryBytes
      ensures w == Load(memory[..], address)
    {
      w := (memory[address] as Word) | ((memory[address + 1] as Word) << 8)
        | ((memory[address + 2] as Word) << 16) | ((memory[address + 3] as Word) << 24);
    }

    /** `store(address, data)`. */
    method Store(address: nat, data: Word)
      requires Valid() && address + 4 <= MemoryBytes
      modifies memory
      ensures memory[..] == Stored(old(memory[..]), address, data)
    {
      memory[address] := ByteOf(data, 0);
      memory[address + 1] := ByteOf(data, 1);
      memory[address + 2] := ByteOf(data, 2);
      memory[address + 3] := ByteOf(data, 3);
    }

    /** `fetch`. */
    method Fetch() returns (r: Result<Word, Fault>)
      requires Valid()
      ensures r == FetchWord(State())
    {
      var pc := Unsigned(registers[PC]) / 4;
      if pc >= MemoryWords {
        return Err(FetchOutOfRange(registers[PC]));
      }
      var w := Access(4 * pc);
      return Ok(w);
    }

    /** `decode`, with `subBinary` reading the multiply fields. */
    method Decode() returns (t: InstrType)
      requires Valid()
      ensures t == Classify(toDecode)
    {
      if toDecode == 0 {
        return TerminateOp;
      } else if Bit(toDecode, 27) {
        return BranchOp;
      } else if Bit(toDecode, 26) {
        return TransferOp;
      }
      var high := SubBinary(toDecode, 27, 6);
      var low := SubBinary(toDecode, 7, 4);
      if high == 0 && low == 1001 {
        return MultiplyOp;
      }
      return DataProcessingOp;
    }

    /** `cond(instruction)`. */
    method Cond(instruction: Word) returns (b: bool)
      requires Valid()
      ensures b == CondHolds(instruction, registers[CPSR])
    {
      var cpsr := registers[CPSR];
      var v := Bit(cpsr, 28);
      var z := Bit(cpsr, 30);
      var n := Bit(cpsr, 31);
      var flag := SubBinary(instruction, 31, 4);
      if flag == 0 {
        b := z;
      } else if flag == 1 {
        b := !z;
      } else if flag == 1010 {
        b := n == v;
      } else if flag == 1011 {
        b := n != v;
      } else if flag == 1100 {
        b := !z && n == v;
      } else if flag == 1101 {
        b := z || n != v;
      } else {
        b := flag == 1110;
      }
    }

    /** `setCPSR(result, cFlag)`. */
    method SetCPSR(result: Word, cFlag: bool)
      requires Valid()
      modifies registers
      ensures registers[..] == old(registers[..])[CPSR := WithFlags(old(registers[CPSR]), result, cFlag)]
    {
      var cpsr := registers[CPSR];
      cpsr := (cpsr & 0x7FFF_FFFF) | (BitOf(Bit(result, 31)) << 31);
      cpsr := (cpsr & 0xBFFF_FFFF) | (BitOf(result == 0) << 30);
      cpsr := (cpsr & 0xDFFF_FFFF) | (BitOf(cFlag) << 29);
      registers[CPSR] := cpsr;
    }

    /** `aluLogic(result, setFlags, carry)`. */
    method AluLogic(result: Word, setFlags: bool, carry: bool) returns (r: Word)
      requires Valid()
      modifies registers
      ensures r == result && registers[..] == Flagged(old(registers[..]), result, setFlags, carry)
    {
      if setFlags {
        SetCPSR(result, carry);
      }
      return result;
    }

    /** `aluAdd(op1, op2, setFlags)`. */
    method AluAdd(op1: Word, op2: Word, setFlags: bool) returns (r: Word)
      requires Valid()
      modifies registers
      ensures r == op1 + op2 && registers[..] == Flagged(old(registers[..]), r, setFlags, AddCarry(op1, op2))
    {
      r := op1 + op2;
      var carry := (Negative(r) && Positive(op1) && Positive(op2)) || (Positive(r) && Negative(op1) && Negative(op2));
      if setFlags {
        SetCPSR(r, carry);
      }
    }

    /** `aluSub(op1, op2, setFlags)`. */
    method AluSub(op1: Word, op2: Word, setFlags: bool) returns (r: Word)
      requires Valid()
      modifies registers
      ensures r == op1 - op2 && registers[..] == Flagged(old(registers[..]), r, setFlags, SignedAtLeast(op1, op2))
    {
      r := op1 - op2;
      if setFlags {
        SetCPSR(r, SignedAtLeast(op1, op2));
      }
    }

    /** `alu(opCode, op1, op2, destReg, setFlags, carry)`. */
    method Alu(opCode: nat, op1: Word, op2: Word, destReg: nat, setFlags: bool, carry: bool)
      requires Valid() && destReg < 16
      modifies registers
      ensures registers[..] == AluEffect(old(registers[..]), opCode, op1, op2, destReg, setFlags, carry)
    {
      if opCode in {0, 1, 10, 11, 100, 1100} {
        AluEffectWriting(registers[..], opCode, op1, op2, destReg, setFlags, carry);
      } else if opCode in {1000, 1001, 1010} {
        AluEffectTesting(registers[..], opCode, op1, op2, destReg, setFlags, carry);
      }
      var r: Word;
      if opCode == 0 {
        r := AluLogic(op1 & op2, setFlags, carry);
        registers[destReg] := r;
      } else if opCode == 1 {
        r := AluLogic(op1 ^ op2, setFlags, carry);
        registers[destReg] := r;
      } else if opCode == 10 {
        r := AluSub(op1, op2, setFlags);
        registers[destReg] := r;
      } else if opCode == 11 {
        r := AluSub(op2, op1, setFlags);
        registers[destReg] := r;
      } else if opCode == 100 {
        r := AluAdd(op1, op2, setFlags);
        registers[destReg] := r;
      } else if opCode == 1000 {
        r := AluLogic(op1 & op2, setFlags, carry);
      } else if opCode == 1001 {
        r := AluLogic(op1 ^ op2, setFlags, carry);
      } else if opCode == 1010 {
        r := AluSub(op1, op2, setFlags);
      } else if opCode == 1100 {
        r := AluLogic(op1 | op2, setFlags, carry);
        registers[destReg] := r;
      } else if opCode == 1101 {
        registers[destReg] := op2;
      }
    }
  
    /** `dataProcessing`. */
    method DataProcessing()
      requires Valid()
      modifies registers
      ensures registers[..] == DataProcessingStep(old(State())).registers
    {
      var w := toExecute;
      var s := Bit(w, 20);
      var opCode := SubBinary(w, 24, 4);
      var op1 := registers[RegisterField(w, 19)];
      var regd := RegisterField(w, 15);
      var contents, shiftAmount, shiftType := ReadOperand2(w);
      var op2 := Shift(contents, shiftAmount, shiftType);
      var c := CarryOut(contents, shiftAmount, shiftType);
      DataProcessingByOperand2(old(State()), ShifterInput(contents, shiftAmount, shiftType), op2, c);
      Alu(opCode, op1, op2, regd, s, c);
    }

    /** The operand-2 part of `dataProcessing`: what it hands to `shift` and `carryOut`. */
    method ReadOperand2(w: Word) returns (contents: Word, shiftAmount: Word, shiftType: Word)
      requires Valid()
      ensures ShifterInput(contents, shiftAmount, shiftType) == Operand2Input(registers[..], w)
    {
      if Bit(w, 25) {
        contents := SubByte(w, 7, 8);
        shiftAmount := 2 * SubByte(w, 11, 4);
        shiftType := 3;
      } else {
        contents := registers[RegisterField(w, 3)];
        shiftType := SubByte(w, 6, 2);
        if Bit(w, 4) {
          var regsVal := registers[RegisterField(w, 11)];
          shiftAmount := SubByte(regsVal, 7, 8);
        } else {
          shiftAmount := SubByte(w, 11, 5);
        }
      }
    }

    /** `multiply`: Rd is written before Rn is read, as in the source. */
    method Multiply()
      requires Valid()
      modifies registers
      ensures registers[..] == MultiplyStep(old(State())).registers
    {
      ghost var before := registers[..];
      var w := toExecute;
      var regd := RegisterField(w, 19);
      var p := Product(registers[..], w);
      registers[regd] := p;
      if Bit(w, 21) {
        var regn := RegisterField(w, 15);
        registers[regd] := Plus(registers[regd], registers[regn]);
      }
      assert registers[..] == before[regd := if Bit(w, 21) then Plus(p, before[regd := p][RegisterField(w, 15)]) else p];
      MultiplyValueReadsAfterWrite(before, w);
      MultiplyThenFlag(old(State()), registers[..]);
      SetCPSR(registers[regd], Bit(registers[CPSR], 29));
    }

    /** `checkMemoryInBounds(address)`; the message it prints is left out. */
    method CheckMemoryInBounds(address: nat) returns (b: bool)
      ensures b == InBounds(address)
    {
      b := address / 4 <= MemoryWords;
    }

    /** `transferData(mode, source, destination, offset)`. */
    method TransferData(load: bool, source: nat, destination: nat, offset: Word) returns (fault: Option<Fault>)
      requires Valid() && source < 16 && destination < 16
      modifies memory, registers
      ensures Agrees(TransferDataStep(old(State()), load, source, destination, offset), fault, State())
    {
      var address := AddressSum(registers[source], offset);
      if load {
        var ok := CheckMemoryInBounds(address);
        if ok {
          if address + 4 > MemoryBytes {
            return Some(AccessOutOfRange(address));
          }
          var w := Access(address);
          registers[destination] := w;
        }
      } else {
        var ok := CheckMemoryInBounds(address / 4);
        if ok {
          if address + 4 > MemoryBytes {
            return Some(AccessOutOfRange(address));
          }
          Store(address, registers[destination]);
        }
      }
      return None;
    }

    /** `getShiftAmount(instruction)`: the shifted register offset of a transfer. */
    method GetShiftAmount(instruction: Word) returns (offset: Word)
      requires Valid()
      ensures var s := RegisterShifter(registers[..], instruction);
        offset == Shift(s.contents, s.amount, s.shiftType)
    {
      var shiftType := SubByte(instruction, 6, 2);
      var regm := RegisterField(instruction, 3);
      var shiftAmount;
      if Bit(instruction, 4) {
        var regs := RegisterField(instruction, 11);
        var regsValue := registers[regs];
        shiftAmount := SubByte(regsValue, 7, 8);
      } else {
        shiftAmount := SubByte(instruction, 11, 5);
      }
      var regmVal := registers[regm];
      assert ShifterInput(regmVal, shiftAmount, shiftType) == RegisterShifter(registers[..], instruction);
      offset := Shift(regmVal, shiftAmount, shiftType);
    }

    /** `singleDataTransfer`. */
    method SingleDataTransfer() returns (fault: Option<Fault>)
      requires Valid()
      modifies memory, registers
      ensures Agrees(SingleDataTransferStep(old(State())), fault, State())
    {
      var offset := ReadTransferOffset(toExecute);
      fault := TransferIndexed(DirectedOffset(Bit(toExecute, 23), offset));
    }

    /** The end of `singleDataTransfer`, once the directed offset is known: pre- or post-indexing by P. */
    method TransferIndexed(offset: Word) returns (fault: Option<Fault>)
      requires Valid()
      modifies memory, registers
      ensures Agrees(IndexedTransfer(old(State()), offset), fault, State())
    {
      var w := toExecute;
      var l := Bit(w, 20);
      var rn := RegisterField(w, 19);
      var rd := RegisterField(w, 15);
      if Bit(w, 24) {
        PreIndexed(State(), offset);
        fault := TransferData(l, rn, rd, offset);
      } else {
        PostIndexed(State(), offset);
        fault := TransferData(l, rn, rd, 0);
        if fault.None? {
          registers[rn] := Plus(registers[rn], offset);
        }
      }
    }

    /** The offset part of `singleDataTransfer`: the 12-bit constant, or `getShiftAmount` when I is set. */
    method ReadTransferOffset(w: Word) returns (offset: Word)
      requires Valid()
      ensures offset == TransferOffset(registers[..], w)
    {
      offset := SubByte(w, 11, 12);
      if Bit(w, 25) {
        offset := GetShiftAmount(w);
      }
    }

    /** `branch`. */
    method Branch()
      requires Valid()
      modifies registers
      ensures registers[..] == BranchStep(old(State())).registers
    {
      var offset := BranchOffset(toExecute);
      registers[PC] := Plus(registers[PC], offset);
    }

    /** `execute`: the stage of `decodedType` when the condition holds; `termination` only prints. */
    method Execute() returns (fault: Option<Fault>)
      requires Valid()
      modifies memory, registers
      ensures Agrees(ExecuteStep(old(State())), fault, State())
    {
      fault := None;
      var ok := Cond(toExecute);
      if ok {
        match decodedType
        case DataProcessingOp => DataProcessing();
        case MultiplyOp => Multiply();
        case TransferOp => fault := SingleDataTransfer();
        case BranchOp => Branch();
        case TerminateOp =>
      }
    }

    /** One pass of `main`'s loop. */
    method Cycle() returns (fault: Option<Fault>)
      requires Valid()
      modifies this, memory, registers
      ensures Valid()
      ensures Agrees(CycleStep(old(State())), fault, State())
    {
      var fetched := Fetch();
      if fetched.Err? {
        return Some(fetched.error);
      }
      var newType := DataProcessingOp;
      if toDecode != Empty {
        newType := Decode();
      }
      fault := None;
      if toExecute != Empty {
        fault := Execute();
        if fault.Some? {
          return;
        }
      }
      Advance(fetched.value, newType);
    }

    /** The end of `main`'s loop body: flush after a taken branch, else move the slots along and step the PC. */
    method Advance(fetched: Word, newType: InstrType)
      requires Valid()
      modifies this, registers
      ensures Valid() && State() == Advanced(old(State()), fetched, newType)
    {
      var taken := false;
      if decodedType == BranchOp {
        taken := Cond(toExecute);
      }
      if taken {
        toDecode := Empty;
        toExecute := Empty;
        decodedType := DataProcessingOp;
      } else {
        toExecute := toDecode;
        toDecode := fetched;
        decodedType := newType;
        registers[PC] := Plus(registers[PC], 4);
      }
    }

    /** `main`'s loop, for at most `fuel` passes; the final `termination` only prints. */
    method MainLoop(fuel: nat) returns (o: Outcome)
      requires Valid()
      modifies this, memory, registers
      ensures o == Run(old(State()), fuel)
    {
      var left := fuel;
      while decodedType != TerminateOp
        invariant Valid() && Run(State(), left) == Run(old(State()), fuel)
        decreases left
      {
        var stop := Pass(left);
        if stop.Some? {
          return stop.value;
        }
        left := left - 1;
      }
      return Halted(State());
    }

    /** One turn of `main`'s loop with `fuel` passes left: either how the run ends, or the run goes on with one pass less. */
    method Pass(fuel: nat) returns (stop: Option<Outcome>)
      requires Valid() && decodedType != TerminateOp
      modifies this, memory, registers
      ensures Valid()
      ensures stop.Some? ==> stop.value == Run(old(State()), fuel)
      ensures stop.None? ==> 0 < fuel && Run(State(), fuel - 1) == Run(old(State()), fuel)
    {
      RunUnfolds(State(), fuel);
      if fuel == 0 {
        return Some(OutOfFuel(State()));
      }
      var before := State();
      var fault := Cycle();
      if fault.Some? {
        assert CycleStep(before) == Err(fault.value);
        return Some(Faulted(fault.value, before));
      }
      assert CycleStep(before) == Ok(State());
      RunTakesStep(before, fuel);
      return None;
    }
}
}
