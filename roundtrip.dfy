/**
  The assembler and the emulator together: a word `assemble` writes is read
  back by `emulate` (src/emulate.c) as the instruction it was assembled from.
  `decode` puts it in the right class, the executor reads the same registers
  and flags, an immediate operand 2 is the constant of the source line, a
  branch lands on its label and a literal-pool load reads the pool slot.
*/
module RoundTrip {
  import opened Utils
  import opened SymbolTable
  import opened Assemble
  import opened Encoding
  import Emulate

  /** The single bits and the fields `decode` looks at, in terms of the fields the encoders write. */
  lemma FieldsGiveBits(w: Word)
    ensures SubByte(w, 27, 2) == 0 ==> !Bit(w, 27) && !Bit(w, 26)
    ensures SubByte(w, 27, 2) == 1 ==> !Bit(w, 27) && Bit(w, 26)
    ensures SubByte(w, 27, 4) == 10 ==> Bit(w, 27)
    ensures Bit(w, 25) ==> SubByte(w, 27, 6) != 0
    ensures SubByte(w, 31, 4) != 0 ==> w != 0
  {
  }

  /**
    A data transfer word is decoded as a transfer, and the emulator reads the
    I, P, U and L bits, Rn, Rd and (for I clear) the 12-bit offset the
    assembler wrote.
  */
  lemma TransferRoundTrip(i: bool, p: bool, u: bool, l: bool, rn: Word, rd: Word, offset: Word, regs: seq<Word>)
    requires rn < 16 && rd < 16 && offset < 4096 && |regs| == Emulate.RegisterCount
    ensures var w := TransferWord(i, p, u, l, rn, rd, offset);
            Emulate.Classify(w) == Emulate.TransferOp &&
            (Bit(w, 25) <==> i) && (Bit(w, 24) <==> p) && (Bit(w, 23) <==> u) && (Bit(w, 20) <==> l) &&
            Emulate.RegisterField(w, 19) == rn as nat && Emulate.RegisterField(w, 15) == rd as nat &&
            (!i ==> Emulate.TransferOffset(regs, w) == offset)
  {
    var w := TransferWord(i, p, u, l, rn, rd, offset);
    TransferLayout(i, p, u, l, rn, rd, offset);
    FieldsGiveBits(w);
    Emulate.ClassifyFields(w);
  }

  /**
    A multiply word is decoded as a multiply, with Rd, Rm, Rs, the A bit and
    (for `mla`) Rn where the emulator reads them, and S clear.
  */
  lemma MultiplyRoundTrip(rd: Word, rm: Word, rs: Word, acc: bool, rn: Word)
    requires rd < 16 && rm < 16 && rs < 16 && rn < 16
    ensures var w := MultiplyFields(rd, rm, rs, acc, rn);
            Emulate.Classify(w) == Emulate.MultiplyOp &&
            Emulate.RegisterField(w, 19) == rd as nat && Emulate.RegisterField(w, 3) == rm as nat &&
            Emulate.RegisterField(w, 11) == rs as nat && (Bit(w, 21) <==> acc) && !Bit(w, 20) &&
            (acc ==> Emulate.RegisterField(w, 15) == rn as nat)
  {
    var w := MultiplyFields(rd, rm, rs, acc, rn);
    MultiplyLayout(rd, rm, rs, acc, rn);
    FieldsGiveBits(w);
    Emulate.ClassifyFields(w);
  }

  /**
    End to end for a multiply line: the word `assemble` writes is decoded as
    a multiply whose Rd, Rm, Rs (and Rn for `mla`) are the registers of the
    line, with the accumulate bit set exactly for `mla`, provided every
    register the line names is below 16.
  */
  lemma AssembledMultiplyRoundTrip(ops: seq<string>, w: Word, rd: Word, rm: Word, rs: Word, rn: Word)
    requires |ops| == 6 && MultiplyWord(ops) == Ok(w)
    requires RegisterOf(ops[1]) == Ok(rd) && RegisterOf(ops[2]) == Ok(rm) && RegisterOf(ops[3]) == Ok(rs)
    requires ops[0] == "mla" ==> RegisterOf(ops[4]) == Ok(rn)
    requires rd < 16 && rm < 16 && rs < 16 && rn < 16
    ensures Emulate.Classify(w) == Emulate.MultiplyOp && (Bit(w, 21) <==> ops[0] == "mla") && !Bit(w, 20)
    ensures Emulate.RegisterField(w, 19) == rd as nat && Emulate.RegisterField(w, 3) == rm as nat &&
            Emulate.RegisterField(w, 11) == rs as nat
    ensures ops[0] == "mla" ==> Emulate.RegisterField(w, 15) == rn as nat
  {
    MultiplyRoundTrip(rd, rm, rs, ops[0] == "mla", if ops[0] == "mla" then rn else 0);
  }

  /**
    A data-processing word with an immediate operand 2, laid out by the
    least even rotation of `x`, is decoded as data processing; the emulator
    reads the opcode, S, Rn and Rd the fields hold, and its operand 2 (the
    8-bit constant rotated right by twice the rotate field) is `x` again.
  */
  lemma ImmediateRoundTrip(w: Word, opcode: Word, s: bool, rn: Word, rd: Word, x: Word, regs: seq<Word>)
    requires |regs| == Emulate.RegisterCount && LeastRotation(x).Some?
    requires ImmediateFields(w, opcode, s, rn, rd, LeastRotation(x).value / 2, RotateLeft(x, LeastRotation(x).value))
    ensures Emulate.Classify(w) == Emulate.DataProcessingOp
    ensures SubByte(w, 24, 4) == opcode && (Bit(w, 20) <==> s)
    ensures Emulate.RegisterField(w, 19) == rn as nat && Emulate.RegisterField(w, 15) == rd as nat
    ensures var input := Emulate.Operand2Input(regs, w);
            Shift(input.contents, input.amount, input.shiftType) == x
  {
    var r := LeastRotation(x).value;
    LeastRotationIsLeast(x);
    FitsBelow256(x, r);
    FieldsGiveBits(w);
    Emulate.ClassifyFields(w);
    Emulate.ImmediateOperand2(regs, w);
    assert 2 * (r / 2) == r;
    RotateRoundTrip(x, r);
  }

  /**
    End to end for a data-processing line whose operand 2 is `#x`: the word
    `assemble` writes is decoded as data processing with the line's opcode,
    registers and S bit (set exactly for tst, teq and cmp), and the
    emulator's operand 2 is the line's constant.
  */
  lemma AssembledImmediateRoundTrip(e: seq<Entry>, ops: seq<string>, w: Word, regs: seq<Word>)
    requires |ops| == 6 && DataProcessingWord(e, ops) == Ok(w) && SmallRegisters(ops)
    requires DollarOpcode(e, ops[0]) < 16 && CharAt(ops[Operand2Index(DollarOpcode(e, ops[0]))], 0) == '#'
    requires |regs| == Emulate.RegisterCount
    ensures var opcode := DollarOpcode(e, ops[0]);
            RnOperand(opcode, ops).Ok? && RdOperand(opcode, ops).Ok? &&
            Emulate.Classify(w) == Emulate.DataProcessingOp && SubByte(w, 24, 4) == opcode &&
            (Bit(w, 20) <==> 8 <= opcode <= 10) &&
            Emulate.RegisterField(w, 19) == RnOperand(opcode, ops).value as nat &&
            Emulate.RegisterField(w, 15) == RdOperand(opcode, ops).value as nat
    ensures var input := Emulate.Operand2Input(regs, w);
            Shift(input.contents, input.amount, input.shiftType) == ImmediateOf(ops[Operand2Index(DollarOpcode(e, ops[0]))])
  {
    var opcode := DollarOpcode(e, ops[0]);
    DataProcessingImmediateLayout(e, ops, w);
    ImmediateRoundTrip(w, opcode, 8 <= opcode <= 10, RnOperand(opcode, ops).value, RdOperand(opcode, ops).value,
                       ImmediateOf(ops[Operand2Index(opcode)]), regs);
  }

  /** A distance within 2^25 of zero has bits 31-25 all clear or all set. */
  lemma BranchRange(d: Word)
    requires d + 0x0200_0000 < 0x0400_0000
    ensures d >> 25 == 0 || d >> 25 == 0x7F
  {
  }

  /** The sign extension `branch` applies to a 24-bit field shifted left by 2. */
  function SignExtended(f: Word): Word
  {
    if Bit(f, 23) then (f << 2) | 0xFC00_0000 else f << 2
  }

  /** A forward distance: the shifted field has bit 23 clear and comes back as it was. */
  lemma ForwardDistance(d: Word)
    requires d & 3 == 0 && d >> 25 == 0
    ensures SignExtended(ArithmeticRight(d, 2) & Mask(24)) == d
  {
  }

  /** A backward distance: the shifted field has bit 23 set and comes back with bits 31-26 set. */
  lemma BackwardDistance(d: Word)
    requires d & 3 == 0 && d >> 25 == 0x7F
    ensures SignExtended(ArithmeticRight(d, 2) & Mask(24)) == d
  {
  }

  /**
    The branch distance survives the trip: a multiple of 4 within 2^25 of
    PC, shifted right by 2 into 24 bits, comes back from `branch`'s sign
    extension unchanged.
  */
  lemma BranchDistanceRoundTrip(d: Word)
    requires d & 3 == 0 && d + 0x0200_0000 < 0x0400_0000
    ensures SignExtended(ArithmeticRight(d, 2) & Mask(24)) == d
  {
    BranchRange(d);
    if d >> 25 == 0 {
      ForwardDistance(d);
    } else {
      BackwardDistance(d);
    }
  }

  /** With bit 23 clear, `branch` reads the 24-bit field shifted left by 2, which is its sign extension. */
  lemma ForwardOffset(w: Word)
    requires !Bit(w, 23)
    ensures Emulate.BranchOffset(w) == SignExtended(SubByte(w, 23, 24))
  {
  }

  /** With bit 23 set, `branch` also sets bits 31-26, which is the sign extension of the field. */
  lemma BackwardOffset(w: Word)
    requires Bit(w, 23)
    ensures Emulate.BranchOffset(w) == SignExtended(SubByte(w, 23, 24))
  {
  }

  /** `branch` reads the 24-bit field and sign-extends it. */
  lemma BranchOffsetOfField(w: Word)
    ensures Emulate.BranchOffset(w) == SignExtended(SubByte(w, 23, 24))
  {
    if Bit(w, 23) {
      BackwardOffset(w);
    } else {
      ForwardOffset(w);
    }
  }

  /** A word whose field 23-0 holds the distance `d` shifted right by 2 gives `branch` the offset `d`. */
  lemma BranchFieldOffset(w: Word, d: Word)
    requires d & 3 == 0 && d + 0x0200_0000 < 0x0400_0000
    requires SubByte(w, 23, 24) == ArithmeticRight(d, 2) & Mask(24)
    ensures Emulate.BranchOffset(w) == d
  {
    BranchOffsetOfField(w);
    BranchDistanceRoundTrip(d);
  }

  /** PC's lead of 8 bytes and the `- 8` of the distance cancel, modulo 2^32. */
  lemma BranchTargetSum(address: Word, target: Word)
    ensures Emulate.Plus(address + 8, target - address - 8) == target
  {
  }

  /**
    A branch word is decoded as a branch with the condition it was given,
    and when it runs with PC 8 bytes past its own address (the pipeline of
    `emulate`) PC becomes the target, provided the distance is a multiple of
    4 within 2^25.
  */
  lemma BranchRoundTrip(prev: Word, cond: Word, target: Word, instNo: nat, c: Emulate.Cpu)
    requires cond < 16
    requires var d := target - ByteAddress(instNo) - 8; d & 3 == 0 && d + 0x0200_0000 < 0x0400_0000
    requires Emulate.WellFormed(c) && c.toExecute == BranchFields(prev, cond, target, instNo)
    requires c.registers[Emulate.PC] == ByteAddress(instNo) + 8
    ensures var w := BranchFields(prev, cond, target, instNo);
            Emulate.Classify(w) == Emulate.BranchOp && SubByte(w, 31, 4) == cond &&
            Emulate.BranchStep(c).registers[Emulate.PC] == target
  {
    var w := BranchFields(prev, cond, target, instNo);
    BranchLayout(prev, cond, target, instNo);
    FieldsGiveBits(w);
    Emulate.ClassifyFields(w);
    BranchFieldOffset(w, target - ByteAddress(instNo) - 8);
    BranchTargetSum(ByteAddress(instNo), target);
  }

  /** `ByteAddress` as the word index times 4. */
  lemma ByteAddressOfIndex(n: int)
    ensures ByteAddress(n) == ToWord(n) * 4
  {
  }

  /** `PoolOffset` as the difference of the word indices times 4, less 8. */
  lemma PoolOffsetOfIndices(instNo: int, eop: int)
    ensures PoolOffset(instNo, eop) == (ToWord(eop) - ToWord(instNo)) * 4 - 8
  {
  }

  /** PC's lead of 8 bytes and the `- 8` of the offset cancel, modulo 2^32. */
  lemma WordDistance(a: Word, b: Word)
    ensures Emulate.Plus(a * 4 + 8, (b - a) * 4 - 8) == b * 4
  {
  }

  /** The literal's offset, added to PC (8 bytes past the `ldr`) modulo 2^32, is the pool slot's byte address. */
  lemma PoolOffsetReachesSlot(instNo: int, eop: int)
    ensures Emulate.Plus(ByteAddress(instNo) + 8, PoolOffset(instNo, eop)) == ByteAddress(eop)
  {
    ByteAddressOfIndex(instNo);
    ByteAddressOfIndex(eop);
    PoolOffsetOfIndices(instNo, eop);
    WordDistance(ToWord(instNo), ToWord(eop));
  }

  /**
    A literal-pool load finds its constant: the pool word is decoded as a
    pre-indexed load from PC with U set, and with PC 8 bytes past the `ldr`
    PC plus the offset the emulator reads is the byte address of the pool
    slot, provided the offset fits its 12 bits.
  */
  lemma PoolRoundTrip(rd: Word, instNo: int, eop: int, regs: seq<Word>)
    requires rd < 16 && PoolOffset(instNo, eop) < 4096
    requires |regs| == Emulate.RegisterCount && regs[Emulate.PC] == ByteAddress(instNo) + 8
    ensures var w := TransferWord(false, true, true, true, 15, rd, PoolOffset(instNo, eop));
            Emulate.Classify(w) == Emulate.TransferOp && Bit(w, 24) && Bit(w, 20) &&
            Emulate.RegisterField(w, 19) == Emulate.PC && Emulate.RegisterField(w, 15) == rd as nat &&
            Emulate.Plus(regs[Emulate.PC], Emulate.DirectedOffset(Bit(w, 23), Emulate.TransferOffset(regs, w))) == ByteAddress(eop)
  {
    TransferRoundTrip(false, true, true, true, 15, rd, PoolOffset(instNo, eop), regs);
    PoolOffsetReachesSlot(instNo, eop);
  }

  /**
    What a register operand 2 means: Rm's value with the written shift type
    and amount, the amount being the constant or the low byte of Rs, and no
    shift at all (logical left by 0) when no shift name follows Rm.
  */
  function LineShifter(regs: seq<Word>, rm: Word, s: RegisterShift): (r: Emulate.ShifterInput)
    requires |regs| == Emulate.RegisterCount && rm < 16 && ShiftFits(s)
    ensures r.contents == regs[rm] && r.shiftType < 4
    ensures s.Unshifted? ==> Shift(r.contents, r.amount, r.shiftType) == regs[rm]
  {
    match s
    case Unshifted => ShiftByZero(regs[rm], 0); Emulate.ShifterInput(regs[rm], 0, 0)
    case ByConstant(t, a) => Emulate.ShifterInput(regs[rm], a, t)
    case ByRegister(t, rs) => Emulate.ShifterInput(regs[rm], SubByte(regs[rs], 7, 8), t)
  }

  /** Bits 11-4 clear: the emulator shifts Rm left by 0. */
  lemma UnshiftedRoundTrip(w: Word, rm: Word, regs: seq<Word>)
    requires |regs| == Emulate.RegisterCount && !Bit(w, 25) && ShiftedRegisterFields(w, rm, Unshifted)
    ensures Emulate.Operand2Input(regs, w) == LineShifter(regs, rm, Unshifted)
  {
  }

  /** Bit 4 clear: the emulator shifts Rm by the constant at bits 11-7 with the type at bits 6-5. */
  lemma ByConstantRoundTrip(w: Word, rm: Word, t: Word, a: Word, regs: seq<Word>)
    requires |regs| == Emulate.RegisterCount && !Bit(w, 25) && ShiftedRegisterFields(w, rm, ByConstant(t, a))
    requires t < 4 && a < 32
    ensures Emulate.Operand2Input(regs, w) == LineShifter(regs, rm, ByConstant(t, a))
  {
  }

  /** Bit 4 set: the emulator shifts Rm by the low byte of the register at bits 11-8. */
  lemma ByRegisterRoundTrip(w: Word, rm: Word, t: Word, rs: Word, regs: seq<Word>)
    requires |regs| == Emulate.RegisterCount && !Bit(w, 25) && ShiftedRegisterFields(w, rm, ByRegister(t, rs))
    requires t < 4 && rs < 16
    ensures Emulate.Operand2Input(regs, w) == LineShifter(regs, rm, ByRegister(t, rs))
  {
  }

  /** A register operand 2 whose fields are in place is read by the emulator as the line wrote it. */
  lemma RegisterOperandRoundTrip(w: Word, rm: Word, s: RegisterShift, regs: seq<Word>)
    requires |regs| == Emulate.RegisterCount && !Bit(w, 25) && ShiftedRegisterFields(w, rm, s) && ShiftFits(s)
    ensures rm < 16 && Emulate.Operand2Input(regs, w) == LineShifter(regs, rm, s)
  {
    match s
    case Unshifted => UnshiftedRoundTrip(w, rm, regs);
    case ByConstant(t, a) => ByConstantRoundTrip(w, rm, t, a, regs);
    case ByRegister(t, rs) => ByRegisterRoundTrip(w, rm, t, rs, regs);
  }

  /** Bits 7-4 of a register operand 2 are never 1001, the multiply pattern. */
  lemma NotMultiplyPattern(w: Word, rm: Word, s: RegisterShift)
    requires ShiftedRegisterFields(w, rm, s)
    ensures SubByte(w, 7, 4) != 9
  {
  }

  /**
    End to end for a data-processing line whose operand 2 is a register:
    the word `assemble` writes is decoded as data processing with the line's
    opcode, registers and S bit, and the emulator's operand 2 is Rm with the
    line's shift (type, then constant or Rs).
  */
  lemma AssembledRegisterRoundTrip(e: seq<Entry>, ops: seq<string>, w: Word, regs: seq<Word>)
    requires |ops| == 6 && DataProcessingWord(e, ops) == Ok(w) && SmallRegisters(ops)
    requires DollarOpcode(e, ops[0]) < 16 && CharAt(ops[Operand2Index(DollarOpcode(e, ops[0]))], 0) != '#'
    requires SmallShift(e, ops, Operand2Index(DollarOpcode(e, ops[0])))
    requires |regs| == Emulate.RegisterCount
    ensures var opcode := DollarOpcode(e, ops[0]);
            RnOperand(opcode, ops).Ok? && RdOperand(opcode, ops).Ok? &&
            Emulate.Classify(w) == Emulate.DataProcessingOp && SubByte(w, 24, 4) == opcode &&
            (Bit(w, 20) <==> 8 <= opcode <= 10) &&
            Emulate.RegisterField(w, 19) == RnOperand(opcode, ops).value as nat &&
            Emulate.RegisterField(w, 15) == RdOperand(opcode, ops).value as nat
    ensures var k := Operand2Index(DollarOpcode(e, ops[0]));
            RegisterOf(ops[k]).Ok? && RegisterOf(ops[k]).value < 16 && ShiftOf(e, ops, k).Ok? && ShiftFits(ShiftOf(e, ops, k).value) &&
            Emulate.Operand2Input(regs, w) == LineShifter(regs, RegisterOf(ops[k]).value, ShiftOf(e, ops, k).value)
  {
    var opcode := DollarOpcode(e, ops[0]);
    var k := Operand2Index(opcode);
    DataProcessingRegisterLayout(e, ops, w);
    var rm, s := RegisterOf(ops[k]).value, ShiftOf(e, ops, k).value;
    NotMultiplyPattern(w, rm, s);
    FieldsGiveBits(w);
    Emulate.ClassifyFields(w);
    RegisterOperandRoundTrip(w, rm, s, regs);
  }

  /**
    The emulator reads `decodeMultiplicand`'s word as a register operand with
    the fields in other places: the shift type from bits 2-1 of the amount,
    bit 0 of the amount as the by-register flag, and as the amount either
    the written type and bit 3 of the amount, or the low byte of the register
    numbered by the written type.
  */
  lemma MultiplicandAsShifter(t: Word, a: Word, num: Word, regs: seq<Word>)
    requires t < 16 && a < 16 && num < 16 && |regs| == Emulate.RegisterCount
    ensures var s := Emulate.RegisterShifter(regs, MultiplicandOr(t, a, num));
            s.contents == regs[num] && s.shiftType == (a >> 1) & 3 &&
            s.amount == if a & 1 == 1 then SubByte(regs[t], 7, 8) else (t << 1) | (a >> 3)
  {
  }

  /**
    An offset `[rn, rm, lsl #2]`: `decodeMultiplicand` writes type 0 (lsl) and
    amount 2, and the emulator reads a logical right shift by 0, so the
    offset is Rm's value rather than Rm times 4.
  */
  lemma MultiplicandMisread(regs: seq<Word>, rm: Word)
    requires rm < 16 && |regs| == Emulate.RegisterCount
    ensures Emulate.RegisterShifter(regs, MultiplicandOr(0, 2, rm)) == Emulate.ShifterInput(regs[rm], 0, 1)
    ensures var s := Emulate.RegisterShifter(regs, MultiplicandOr(0, 2, rm));
            Shift(s.contents, s.amount, s.shiftType) == regs[rm]
    ensures regs[rm] == 1 ==> Shift(regs[rm], 2, 0) == 4
  {
    MultiplicandAsShifter(0, 2, rm, regs);
  }
}
