/**
  The layout of the words the assembler builds (src/assemble.c): which field
  of each word holds which part of the instruction.  Every encoder writes its
  fields with `setBits`, which does not mask the value, so the layouts hold
  when every value fits its field; a register number of 16 or an offset of
  4096 and more spills into the field above it.
*/
module Encoding {
  import opened Utils
  import opened SymbolTable
  import opened Assemble

  /** The single data transfer word as one OR of its shifted fields. */
  function TransferBits(i: bool, p: bool, u: bool, l: bool, rn: Word, rd: Word, offset: Word): Word
  {
    0xE400_0000 | (BitOf(i) << 25) | (BitOf(p) << 24) | (BitOf(u) << 23) | (BitOf(l) << 20) |
    (rn << 16) | (rd << 12) | offset
  }

  /** With every field in range, `setBits` one field after the other is the OR of the shifted fields. */
  lemma TransferWordIsOr(i: bool, p: bool, u: bool, l: bool, rn: Word, rd: Word, offset: Word)
    requires rn < 16 && rd < 16 && offset < 4096
    ensures TransferWord(i, p, u, l, rn, rd, offset) == TransferBits(i, p, u, l, rn, rd, offset)
  {
  }

  /** A single data transfer word: bits 27-26 are 01, and every field reads back as written. */
  lemma TransferLayout(i: bool, p: bool, u: bool, l: bool, rn: Word, rd: Word, offset: Word)
    requires rn < 16 && rd < 16 && offset < 4096
    ensures var w := TransferWord(i, p, u, l, rn, rd, offset);
            SubByte(w, 31, 4) == 14 && SubByte(w, 27, 2) == 1 &&
            (Bit(w, 25) <==> i) && (Bit(w, 24) <==> p) && (Bit(w, 23) <==> u) &&
            SubByte(w, 22, 2) == 0 && (Bit(w, 20) <==> l) &&
            SubByte(w, 19, 4) == rn && SubByte(w, 15, 4) == rd && SubByte(w, 11, 12) == offset
  {
    TransferWordIsOr(i, p, u, l, rn, rd, offset);
  }

  /**
    A transfer with a base register and a 12-bit offset is written as a plain
    transfer word: bits 27-26 are 01, L is set exactly for `ldr`, and I, P, U,
    Rn, Rd and the offset are those the operands gave.
  */
  lemma DirectTransferWord(e: seq<Entry>, ops: seq<string>, instNo: nat, a: Assembled, rd: Word, ad: Addressing)
    requires |ops| == 6 && instNo < |a.out|
    requires RegisterOf(ops[1]) == Ok(rd) && CalculateOffset(e, ops[2..6]) == Ok(ad)
    requires rd < 16 && ad.rn < 16 && ad.offset < 4096
    ensures EncodeTransfer(e, ops, instNo, a).Ok?
    ensures var w := EncodeTransfer(e, ops, instNo, a).value.out[instNo];
            SubByte(w, 27, 2) == 1 && (Bit(w, 20) <==> ops[0] == "ldr") &&
            (Bit(w, 25) <==> ad.i) && (Bit(w, 24) <==> ad.p) && (Bit(w, 23) <==> ad.u) &&
            SubByte(w, 19, 4) == ad.rn && SubByte(w, 15, 4) == rd && SubByte(w, 11, 12) == ad.offset
  {
    var l := ops[0] == "ldr";
    PlaceOtherwise(e, ops, instNo, a, rd, l, ad);
    TransferLayout(ad.i, ad.p, ad.u, l, ad.rn, rd, ad.offset);
  }

  /** A branch word: the condition at bits 31-28, 1010 at bits 27-24, the word distance from PC + 8 at bits 23-0. */
  lemma BranchLayout(prev: Word, cond: Word, target: Word, instNo: nat)
    requires cond < 16
    ensures var w := BranchFields(prev, cond, target, instNo);
            SubByte(w, 31, 4) == cond && SubByte(w, 27, 4) == 10 &&
            SubByte(w, 23, 24) == ArithmeticRight(target - ByteAddress(instNo) - 8, 2) & Mask(24)
  {
  }
  /** The multiply word as one OR of its fields; `acc` is the `mla` form. */
  function MultiplyBits(rd: Word, rm: Word, rs: Word, acc: bool, rn: Word): Word
  {
    0xE000_0090 | (rd << 16) | (rs << 8) | rm | (if acc then (1 << 21) | (rn << 12) else 0)
  }

  /** With registers below 16, `multiply`'s successive `setBits` give the OR of the fields. */
  lemma MultiplyFieldsIsOr(rd: Word, rm: Word, rs: Word, acc: bool, rn: Word)
    requires rd < 16 && rm < 16 && rs < 16 && rn < 16
    ensures MultiplyFields(rd, rm, rs, acc, rn) == MultiplyBits(rd, rm, rs, acc, rn)
  {
  }

  /**
    A multiply word: condition 14, bits 27-22 clear, 1001 at bits 7-4, Rd at
    19-16, Rs at 11-8 and Rm at 3-0; bit 21 and Rn at 15-12 only for `mla`.
  */
  lemma MultiplyLayout(rd: Word, rm: Word, rs: Word, acc: bool, rn: Word)
    requires rd < 16 && rm < 16 && rs < 16 && rn < 16
    ensures var w := MultiplyFields(rd, rm, rs, acc, rn);
            SubByte(w, 31, 4) == 14 && SubByte(w, 27, 6) == 0 && (Bit(w, 21) <==> acc) && !Bit(w, 20) &&
            SubByte(w, 19, 4) == rd && SubByte(w, 15, 4) == (if acc then rn else 0) &&
            SubByte(w, 11, 4) == rs && SubByte(w, 7, 4) == 9 && SubByte(w, 3, 4) == rm
  {
    MultiplyFieldsIsOr(rd, rm, rs, acc, rn);
  }
  /** Rn (bits 19-16) as `dataProcessing` sets it: the first register for `tst`/`teq`/`cmp`, none for `mov`, else the second. */
  function RnOperand(opcode: Word, ops: seq<string>): Res<Word>
    requires |ops| == 6
  {
    if 8 <= opcode <= 10 then RegisterOf(ops[1]) else if opcode == 13 then Ok(0) else RegisterOf(ops[2])
  }

  /** Rd (bits 15-12) as `dataProcessing` sets it: none for `tst`/`teq`/`cmp`, else the first register. */
  function RdOperand(opcode: Word, ops: seq<string>): Res<Word>
    requires |ops| == 6
  {
    if 8 <= opcode <= 10 then Ok(0) else RegisterOf(ops[1])
  }

  /** Every register operand `dataProcessing` parses is below 16, so it fits its 4-bit field. */
  predicate SmallRegisters(ops: seq<string>)
    requires |ops| == 6
  {
    forall j :: 1 <= j <= 2 && RegisterOf(ops[j]).Ok? ==> RegisterOf(ops[j]).value < 16
  }

  /** The register fields are the S bit (for the opcodes that only test) and Rn and Rd, each at its place. */
  lemma RegisterFieldsIsOr(opcode: Word, ops: seq<string>)
    requires |ops| == 6 && RegisterFields(opcode, ops).Ok? && SmallRegisters(ops)
    ensures RnOperand(opcode, ops).Ok? && RdOperand(opcode, ops).Ok?
    ensures RegisterFields(opcode, ops).value.0 ==
              RegisterBits(8 <= opcode <= 10, RnOperand(opcode, ops).value, RdOperand(opcode, ops).value)
  {
    assert RegisterOf(ops[1]).Ok?;
    if !(8 <= opcode <= 10) && opcode != 13 {
      assert RegisterOf(ops[2]).Ok?;
    }
  }

  /** Bit 25, then the 8-bit constant, then the 4-bit rotation, written into a word where they are clear. */
  lemma ImmediateFieldsIsOr(w: Word, imm: Word, half: Word)
    requires w & 0x0200_0FFF == 0 && imm < 256 && half < 16
    ensures SetBits(SetBits(SetBits(w, 1, 25, 1), imm, 7, 8), half, 11, 4) == w | 0x0200_0000 | (half << 8) | imm
  {
  }

  /** The condition and the opcode, set last, go to bits 31-28 and 24-21 of a word where those bits are clear. */
  lemma CondOpcodeIsOr(w: Word, opcode: Word)
    requires w & 0xF1E0_0000 == 0 && opcode < 16
    ensures CondAndOpcode(w, opcode) == 0xE000_0000 | (opcode << 21) | w
  {
  }

  /** Where `dataProcessing` finds operand 2: after Rn for the testing opcodes and `mov`, else after Rd and Rn. */
  function Operand2Index(opcode: Word): nat
  {
    if 8 <= opcode <= 10 || opcode == 13 then 2 else 3
  }

  /** The register fields `dataProcessing` writes before operand 2: the S bit, Rn and Rd. */
  function RegisterBits(s: bool, rn: Word, rd: Word): Word
  {
    (BitOf(s) << 20) | (rn << 16) | (rd << 12)
  }

  /** The fields of a data-processing word with an immediate operand 2, each at its place. */
  predicate ImmediateFields(w: Word, opcode: Word, s: bool, rn: Word, rd: Word, half: Word, imm: Word)
  {
    SubByte(w, 31, 4) == 14 && SubByte(w, 27, 2) == 0 && SubByte(w, 24, 4) == opcode && Bit(w, 25) && (Bit(w, 20) <==> s) &&
    SubByte(w, 19, 4) == rn && SubByte(w, 15, 4) == rd && SubByte(w, 11, 4) == half && SubByte(w, 7, 8) == imm
  }

  /**
    A data-processing word with an immediate operand 2: condition 14, the
    opcode at bits 24-21, bit 25 set, the S bit and the registers as written,
    and the constant as the least rotation that fits 8 bits, with half that
    rotation at bits 11-8.
  */
  lemma ImmediateWordLayout(s: bool, rn: Word, rd: Word, opcode: Word, x: Word)
    requires rn < 16 && rd < 16 && opcode < 16 && LeastRotation(x).Some?
    ensures ImmediateBits(x, RegisterBits(s, rn, rd)).Ok?
    ensures ImmediateFields(CondAndOpcode(ImmediateBits(x, RegisterBits(s, rn, rd)).value, opcode), opcode, s, rn, rd,
                            LeastRotation(x).value / 2, RotateLeft(x, LeastRotation(x).value))
  {
    var r := LeastRotation(x).value;
    LeastRotationIsLeast(x);
    FitsBelow256(x, r);
    ImmediateSetLayout(opcode, s, rn, rd, r / 2, RotateLeft(x, r));
  }

  /**
    The same layout for any 8-bit constant and 4-bit rotation, written by the
    three `setBits` calls of lines 128-134 over the register fields.
  */
  lemma ImmediateSetLayout(opcode: Word, s: bool, rn: Word, rd: Word, half: Word, imm: Word)
    requires opcode < 16 && rn < 16 && rd < 16 && half < 16 && imm < 256
    ensures ImmediateFields(CondAndOpcode(SetBits(SetBits(SetBits(RegisterBits(s, rn, rd), 1, 25, 1), imm, 7, 8), half, 11, 4), opcode),
                            opcode, s, rn, rd, half, imm)
  {
    RegisterBitsClear(s, rn, rd);
    ImmediateFieldsIsOr(RegisterBits(s, rn, rd), imm, half);
    CondImmediateLayout(opcode, s, rn, rd, half, imm);
  }

  /** The register fields leave bit 25 and operand 2's bits 11-0 clear. */
  lemma RegisterBitsClear(s: bool, rn: Word, rd: Word)
    requires rn < 16 && rd < 16
    ensures RegisterBits(s, rn, rd) & 0x0200_0FFF == 0
  {
  }

  /** The condition and opcode set over the register and immediate fields, read back field by field. */
  lemma CondImmediateLayout(opcode: Word, s: bool, rn: Word, rd: Word, half: Word, imm: Word)
    requires opcode < 16 && rn < 16 && rd < 16 && half < 16 && imm < 256
    ensures ImmediateFields(CondAndOpcode(RegisterBits(s, rn, rd) | 0x0200_0000 | (half << 8) | imm, opcode),
                            opcode, s, rn, rd, half, imm)
  {
    var op2 := RegisterBits(s, rn, rd) | 0x0200_0000 | (half << 8) | imm;
    SmallFieldsClearTop(s, rn, rd, half, imm);
    CondOpcodeIsOr(op2, opcode);
    UpperImmediateLayout(opcode, s, rn, rd, half, imm);
    LowerImmediateLayout(opcode, s, rn, rd, half, imm);
  }

  /**
    The same layout for the word `dataProcessing` writes: when operand 2 is
    an immediate and the registers are below 16, Rn and Rd are the registers
    the opcode takes.
  */
  lemma DataProcessingImmediateLayout(e: seq<Entry>, ops: seq<string>, w: Word)
    requires |ops| == 6 && DataProcessingWord(e, ops) == Ok(w) && SmallRegisters(ops)
    requires DollarOpcode(e, ops[0]) < 16 && CharAt(ops[Operand2Index(DollarOpcode(e, ops[0]))], 0) == '#'
    ensures var opcode := DollarOpcode(e, ops[0]);
            var x := ImmediateOf(ops[Operand2Index(opcode)]);
            RnOperand(opcode, ops).Ok? && RdOperand(opcode, ops).Ok? && LeastRotation(x).Some? &&
            ImmediateFields(w, opcode, 8 <= opcode <= 10, RnOperand(opcode, ops).value, RdOperand(opcode, ops).value,
                            LeastRotation(x).value / 2, RotateLeft(x, LeastRotation(x).value))
  {
    var opcode := DollarOpcode(e, ops[0]);
    var f := RegisterFields(opcode, ops).value;
    assert f.1 == Operand2Index(opcode) && RnOperand(opcode, ops).Ok? && RdOperand(opcode, ops).Ok? &&
           f.0 == RegisterBits(8 <= opcode <= 10, RnOperand(opcode, ops).value, RdOperand(opcode, ops).value) by {
      RegisterFieldsIsOr(opcode, ops);
    }
    var x := ImmediateOf(ops[f.1]);
    assert Operand2Bits(e, ops, f.1, f.0) == ImmediateBits(x, f.0);
    assert w == CondAndOpcode(ImmediateBits(x, f.0).value, opcode);
    ImmediateWordLayout(8 <= opcode <= 10, RnOperand(opcode, ops).value, RdOperand(opcode, ops).value, opcode, x);
  }

  /** Register and immediate fields below 16 and 256 leave bits 31-28 and 24-21 clear. */
  lemma SmallFieldsClearTop(s: bool, rn: Word, rd: Word, half: Word, imm: Word)
    requires rn < 16 && rd < 16 && half < 16 && imm < 256
    ensures (RegisterBits(s, rn, rd) | 0x0200_0000 | (half << 8) | imm) & 0xF1E0_0000 == 0
  {
  }

  /** The condition, opcode, bit 25 and S bit of a data-processing word with an immediate, read back from its OR. */
  lemma UpperImmediateLayout(opcode: Word, s: bool, rn: Word, rd: Word, half: Word, imm: Word)
    requires opcode < 16 && rn < 16 && rd < 16 && half < 16 && imm < 256
    ensures var w := 0xE000_0000 | (opcode << 21) | (RegisterBits(s, rn, rd) | 0x0200_0000 | (half << 8) | imm);
            SubByte(w, 31, 4) == 14 && SubByte(w, 27, 2) == 0 && SubByte(w, 24, 4) == opcode && Bit(w, 25) && (Bit(w, 20) <==> s)
  {
  }

  /** The registers, rotation and constant of a data-processing word with an immediate, read back from its OR. */
  lemma LowerImmediateLayout(opcode: Word, s: bool, rn: Word, rd: Word, half: Word, imm: Word)
    requires opcode < 16 && rn < 16 && rd < 16 && half < 16 && imm < 256
    ensures var w := 0xE000_0000 | (opcode << 21) | (RegisterBits(s, rn, rd) | 0x0200_0000 | (half << 8) | imm);
            SubByte(w, 19, 4) == rn && SubByte(w, 15, 4) == rd && SubByte(w, 11, 4) == half && SubByte(w, 7, 8) == imm
  {
  }

  // ---------------------------------------------------------------------------
  // A register operand 2

  /** How `dataProcessing` shifts a register operand 2 (lines 141-156). */
  datatype RegisterShift =
    | Unshifted                                  // no shift name follows Rm
    | ByConstant(shiftType: Word, amount: Word)  // a shift name, then `#amount`
    | ByRegister(shiftType: Word, rs: Word)      // a shift name, then Rs

  /** The shift written after the register `ops[k]`: its type from the table, then a constant or a register. */
  function ShiftOf(e: seq<Entry>, ops: seq<string>, k: nat): Res<RegisterShift>
    requires |ops| == 6 && 2 <= k <= 3
  {
    if !Has(e, ops[k + 1]) then Ok(Unshifted)
    else if CharAt(ops[k + 2], 0) == '#' then Ok(ByConstant(Lookup(e, ops[k + 1]), ImmediateOf(ops[k + 2])))
    else
      var rs :- RegisterOf(ops[k + 2]);
      Ok(ByRegister(Lookup(e, ops[k + 1]), rs))
  }

  /** Every part of the shift fits its field: a type below 4, an amount below 32, a register below 16. */
  predicate ShiftFits(s: RegisterShift)
  {
    match s
    case Unshifted => true
    case ByConstant(t, a) => t < 4 && a < 32
    case ByRegister(t, rs) => t < 4 && rs < 16
  }

  /** Rm and, when it parses, the shift after it fit their fields. */
  predicate SmallShift(e: seq<Entry>, ops: seq<string>, k: nat)
    requires |ops| == 6 && 2 <= k <= 3
  {
    (RegisterOf(ops[k]).Ok? ==> RegisterOf(ops[k]).value < 16) &&
    (ShiftOf(e, ops, k).Ok? ==> ShiftFits(ShiftOf(e, ops, k).value))
  }

  /** Bits 11-0 of a register operand 2 as one OR of its fields. */
  function ShiftedRegisterOr(rm: Word, s: RegisterShift): Word
  {
    match s
    case Unshifted => rm
    case ByConstant(t, a) => (a << 7) | (t << 5) | rm
    case ByRegister(t, rs) => (rs << 8) | (t << 5) | 0x10 | rm
  }

  /** Rm at bits 3-0 and the shift at bits 11-4: type at 6-5, then a 5-bit amount with bit 4 clear, or Rs with bit 4 set. */
  predicate ShiftedRegisterFields(w: Word, rm: Word, s: RegisterShift)
  {
    SubByte(w, 3, 4) == rm &&
    match s
    case Unshifted => SubByte(w, 11, 8) == 0
    case ByConstant(t, a) => SubByte(w, 6, 2) == t && !Bit(w, 4) && SubByte(w, 11, 5) == a
    case ByRegister(t, rs) => SubByte(w, 6, 2) == t && Bit(w, 4) && !Bit(w, 7) && SubByte(w, 11, 4) == rs
  }

  /** Line 139 alone, Rm into clear bits 11-0. */
  lemma UnshiftedIsOr(w: Word, rm: Word)
    requires w & 0xFFF == 0 && rm < 16
    ensures SetBits(w, rm, 3, 4) == w | ShiftedRegisterOr(rm, Unshifted)
  {
  }

  /** Lines 139-148: Rm, the type and a constant amount into clear bits 11-0. */
  lemma ByConstantIsOr(w: Word, rm: Word, t: Word, a: Word)
    requires w & 0xFFF == 0 && rm < 16 && t < 4 && a < 32
    ensures SetBits(SetBits(SetBits(w, rm, 3, 4), t, 6, 2), a, 11, 5) == w | ShiftedRegisterOr(rm, ByConstant(t, a))
  {
  }

  /** Lines 139-154: Rm, the type, bit 4 and Rs into clear bits 11-0. */
  lemma ByRegisterIsOr(w: Word, rm: Word, t: Word, rs: Word)
    requires w & 0xFFF == 0 && rm < 16 && t < 4 && rs < 16
    ensures SetBits(SetBits(SetBits(SetBits(w, rm, 3, 4), t, 6, 2), 1, 4, 1), rs, 11, 4) == w | ShiftedRegisterOr(rm, ByRegister(t, rs))
  {
  }

  /**
    A register operand 2 written into a word whose bits 11-0 are clear: the
    word gains Rm and the shift the operands name, ORed into those bits, and
    nothing else.
  */
  lemma ShiftedRegisterIsOr(e: seq<Entry>, ops: seq<string>, k: nat, w: Word)
    requires |ops| == 6 && 2 <= k <= 3 && w & 0xFFF == 0
    requires ShiftedRegisterBits(e, ops, k, w).Ok? && SmallShift(e, ops, k)
    ensures RegisterOf(ops[k]).Ok? && ShiftOf(e, ops, k).Ok?
    ensures ShiftedRegisterBits(e, ops, k, w).value == w | ShiftedRegisterOr(RegisterOf(ops[k]).value, ShiftOf(e, ops, k).value)
  {
    if !Has(e, ops[k + 1]) {
      UnshiftedIsOrAt(e, ops, k, w);
    } else if CharAt(ops[k + 2], 0) == '#' {
      ByConstantIsOrAt(e, ops, k, w);
    } else {
      ByRegisterIsOrAt(e, ops, k, w);
    }
  }

  lemma UnshiftedIsOrAt(e: seq<Entry>, ops: seq<string>, k: nat, w: Word)
    requires |ops| == 6 && 2 <= k <= 3 && w & 0xFFF == 0
    requires ShiftedRegisterBits(e, ops, k, w).Ok? && SmallShift(e, ops, k) && !Has(e, ops[k + 1])
    ensures RegisterOf(ops[k]).Ok? && ShiftOf(e, ops, k).Ok?
    ensures ShiftedRegisterBits(e, ops, k, w).value == w | ShiftedRegisterOr(RegisterOf(ops[k]).value, ShiftOf(e, ops, k).value)
  {
    UnshiftedBits(e, ops, k, w);
    UnshiftedIsOr(w, RegisterOf(ops[k]).value);
  }

  lemma ByConstantIsOrAt(e: seq<Entry>, ops: seq<string>, k: nat, w: Word)
    requires |ops| == 6 && 2 <= k <= 3 && w & 0xFFF == 0
    requires ShiftedRegisterBits(e, ops, k, w).Ok? && SmallShift(e, ops, k) && Has(e, ops[k + 1]) && CharAt(ops[k + 2], 0) == '#'
    ensures RegisterOf(ops[k]).Ok? && ShiftOf(e, ops, k).Ok?
    ensures ShiftedRegisterBits(e, ops, k, w).value == w | ShiftedRegisterOr(RegisterOf(ops[k]).value, ShiftOf(e, ops, k).value)
  {
    ByConstantBits(e, ops, k, w);
    ByConstantIsOr(w, RegisterOf(ops[k]).value, Lookup(e, ops[k + 1]), ImmediateOf(ops[k + 2]));
  }

  lemma ByRegisterIsOrAt(e: seq<Entry>, ops: seq<string>, k: nat, w: Word)
    requires |ops| == 6 && 2 <= k <= 3 && w & 0xFFF == 0
    requires ShiftedRegisterBits(e, ops, k, w).Ok? && SmallShift(e, ops, k) && Has(e, ops[k + 1]) && CharAt(ops[k + 2], 0) != '#'
    ensures RegisterOf(ops[k]).Ok? && ShiftOf(e, ops, k).Ok?
    ensures ShiftedRegisterBits(e, ops, k, w).value == w | ShiftedRegisterOr(RegisterOf(ops[k]).value, ShiftOf(e, ops, k).value)
  {
    assert RegisterOf(ops[k + 2]).Ok?;
    ByRegisterBits(e, ops, k, w);
    ByRegisterIsOr(w, RegisterOf(ops[k]).value, Lookup(e, ops[k + 1]), RegisterOf(ops[k + 2]).value);
  }

  /** Line 139 alone when no shift name follows. */
  lemma UnshiftedBits(e: seq<Entry>, ops: seq<string>, k: nat, w: Word)
    requires |ops| == 6 && 2 <= k <= 3 && RegisterOf(ops[k]).Ok? && !Has(e, ops[k + 1])
    ensures ShiftOf(e, ops, k) == Ok(Unshifted)
    ensures ShiftedRegisterBits(e, ops, k, w) == Ok(SetBits(w, RegisterOf(ops[k]).value, 3, 4))
  {
  }

  /** Lines 139-148 when a shift name and a constant follow. */
  lemma ByConstantBits(e: seq<Entry>, ops: seq<string>, k: nat, w: Word)
    requires |ops| == 6 && 2 <= k <= 3 && RegisterOf(ops[k]).Ok? && Has(e, ops[k + 1]) && CharAt(ops[k + 2], 0) == '#'
    ensures ShiftOf(e, ops, k) == Ok(ByConstant(Lookup(e, ops[k + 1]), ImmediateOf(ops[k + 2])))
    ensures ShiftedRegisterBits(e, ops, k, w) ==
              Ok(SetBits(SetBits(SetBits(w, RegisterOf(ops[k]).value, 3, 4), Lookup(e, ops[k + 1]), 6, 2), ImmediateOf(ops[k + 2]), 11, 5))
  {
  }

  /** Lines 139-154 when a shift name and a register follow. */
  lemma ByRegisterBits(e: seq<Entry>, ops: seq<string>, k: nat, w: Word)
    requires |ops| == 6 && 2 <= k <= 3 && RegisterOf(ops[k]).Ok? && Has(e, ops[k + 1]) && CharAt(ops[k + 2], 0) != '#'
    requires RegisterOf(ops[k + 2]).Ok?
    ensures ShiftOf(e, ops, k) == Ok(ByRegister(Lookup(e, ops[k + 1]), RegisterOf(ops[k + 2]).value))
    ensures ShiftedRegisterBits(e, ops, k, w) ==
              Ok(SetBits(SetBits(SetBits(SetBits(w, RegisterOf(ops[k]).value, 3, 4), Lookup(e, ops[k + 1]), 6, 2), 1, 4, 1),
                         RegisterOf(ops[k + 2]).value, 11, 4))
  {
  }

  /** Bits 11-0 of operand 2 stay below bit 12 when every field fits. */
  lemma ShiftedRegisterOrBelow(rm: Word, s: RegisterShift)
    requires rm < 16 && ShiftFits(s)
    ensures ShiftedRegisterOr(rm, s) < 4096
  {
  }

  /** An OR of a value below 4096 into a word whose bits 11-0 are clear leaves bits 31-12 as they were. */
  lemma OrKeepsTop(w: Word, low: Word)
    requires w & 0xFFF == 0 && low < 4096
    ensures (w | low) & 0xFFFF_F000 == w
  {
  }

  /** An unshifted Rm ORed into clear bits 11-0. */
  lemma UnshiftedLayout(w: Word, rm: Word)
    requires w & 0xFFF == 0 && rm < 16
    ensures ShiftedRegisterFields(w | ShiftedRegisterOr(rm, Unshifted), rm, Unshifted)
  {
  }

  /** Rm shifted by a constant, ORed into clear bits 11-0. */
  lemma ByConstantLayout(w: Word, rm: Word, t: Word, a: Word)
    requires w & 0xFFF == 0 && rm < 16 && t < 4 && a < 32
    ensures ShiftedRegisterFields(w | ShiftedRegisterOr(rm, ByConstant(t, a)), rm, ByConstant(t, a))
  {
    var v := w | ShiftedRegisterOr(rm, ByConstant(t, a));
    ByConstantRm(v, w, rm, t, a);
    ByConstantType(v, w, rm, t, a);
    ByConstantFlag(v, w, rm, t, a);
    ByConstantAmount(v, w, rm, t, a);
  }

  /** Rm at bits 3-0 under a constant shift. */
  lemma ByConstantRm(v: Word, w: Word, rm: Word, t: Word, a: Word)
    requires w & 0xFFF == 0 && rm < 16 && t < 4 && a < 32 && v == w | ShiftedRegisterOr(rm, ByConstant(t, a))
    ensures SubByte(v, 3, 4) == rm
  {
  }

  /** The constant shift's type at bits 6-5. */
  lemma ByConstantType(v: Word, w: Word, rm: Word, t: Word, a: Word)
    requires w & 0xFFF == 0 && rm < 16 && t < 4 && a < 32 && v == w | ShiftedRegisterOr(rm, ByConstant(t, a))
    ensures SubByte(v, 6, 2) == t
  {
  }

  /** Bit 4 clear for a constant shift. */
  lemma ByConstantFlag(v: Word, w: Word, rm: Word, t: Word, a: Word)
    requires w & 0xFFF == 0 && rm < 16 && t < 4 && a < 32 && v == w | ShiftedRegisterOr(rm, ByConstant(t, a))
    ensures !Bit(v, 4)
  {
  }

  /** The constant amount at bits 11-7. */
  lemma ByConstantAmount(v: Word, w: Word, rm: Word, t: Word, a: Word)
    requires w & 0xFFF == 0 && rm < 16 && t < 4 && a < 32 && v == w | ShiftedRegisterOr(rm, ByConstant(t, a))
    ensures SubByte(v, 11, 5) == a
  {
  }

  /** Rm shifted by a register, ORed into clear bits 11-0. */
  lemma ByRegisterLayout(w: Word, rm: Word, t: Word, rs: Word)
    requires w & 0xFFF == 0 && rm < 16 && t < 4 && rs < 16
    ensures ShiftedRegisterFields(w | ShiftedRegisterOr(rm, ByRegister(t, rs)), rm, ByRegister(t, rs))
  {
    var v := w | ShiftedRegisterOr(rm, ByRegister(t, rs));
    ByRegisterRm(v, w, rm, t, rs);
    ByRegisterType(v, w, rm, t, rs);
    ByRegisterFlags(v, w, rm, t, rs);
    ByRegisterRs(v, w, rm, t, rs);
  }

  /** Rm at bits 3-0 under a register shift. */
  lemma ByRegisterRm(v: Word, w: Word, rm: Word, t: Word, rs: Word)
    requires w & 0xFFF == 0 && rm < 16 && t < 4 && rs < 16 && v == w | ShiftedRegisterOr(rm, ByRegister(t, rs))
    ensures SubByte(v, 3, 4) == rm
  {
  }

  /** The register shift's type at bits 6-5. */
  lemma ByRegisterType(v: Word, w: Word, rm: Word, t: Word, rs: Word)
    requires w & 0xFFF == 0 && rm < 16 && t < 4 && rs < 16 && v == w | ShiftedRegisterOr(rm, ByRegister(t, rs))
    ensures SubByte(v, 6, 2) == t
  {
  }

  /** Bit 4 set and bit 7 clear for a register shift. */
  lemma ByRegisterFlags(v: Word, w: Word, rm: Word, t: Word, rs: Word)
    requires w & 0xFFF == 0 && rm < 16 && t < 4 && rs < 16 && v == w | ShiftedRegisterOr(rm, ByRegister(t, rs))
    ensures Bit(v, 4) && !Bit(v, 7)
  {
  }

  /** Rs at bits 11-8. */
  lemma ByRegisterRs(v: Word, w: Word, rm: Word, t: Word, rs: Word)
    requires w & 0xFFF == 0 && rm < 16 && t < 4 && rs < 16 && v == w | ShiftedRegisterOr(rm, ByRegister(t, rs))
    ensures SubByte(v, 11, 4) == rs
  {
  }

  /** The OR form read back: Rm and the shift at their places. */
  lemma ShiftedRegisterOrLayout(w: Word, rm: Word, s: RegisterShift)
    requires w & 0xFFF == 0 && rm < 16 && ShiftFits(s)
    ensures ShiftedRegisterFields(w | ShiftedRegisterOr(rm, s), rm, s)
  {
    match s
    case Unshifted => UnshiftedLayout(w, rm);
    case ByConstant(t, a) => ByConstantLayout(w, rm, t, a);
    case ByRegister(t, rs) => ByRegisterLayout(w, rm, t, rs);
  }

  /**
    Lines 136-157 on their own: over a word whose bits 11-0 are clear, Rm is
    at bits 3-0, the shift type at 6-5, then either the constant amount at
    11-7 with bit 4 clear or Rs at 11-8 with bit 4 set, and no other bit
    changes.
  */
  lemma ShiftedRegisterLayout(e: seq<Entry>, ops: seq<string>, k: nat, w: Word)
    requires |ops| == 6 && 2 <= k <= 3 && w & 0xFFF == 0
    requires ShiftedRegisterBits(e, ops, k, w).Ok? && SmallShift(e, ops, k)
    ensures RegisterOf(ops[k]).Ok? && ShiftOf(e, ops, k).Ok?
    ensures ShiftedRegisterFields(ShiftedRegisterBits(e, ops, k, w).value, RegisterOf(ops[k]).value, ShiftOf(e, ops, k).value)
  {
    ShiftedRegisterIsOr(e, ops, k, w);
    ShiftedRegisterOrLayout(w, RegisterOf(ops[k]).value, ShiftOf(e, ops, k).value);
  }

  /** Lines 136-157 change no bit above bit 11. */
  lemma ShiftedRegisterKeepsTop(e: seq<Entry>, ops: seq<string>, k: nat, w: Word)
    requires |ops| == 6 && 2 <= k <= 3 && w & 0xFFF == 0
    requires ShiftedRegisterBits(e, ops, k, w).Ok? && SmallShift(e, ops, k)
    ensures ShiftedRegisterBits(e, ops, k, w).value & 0xFFFF_F000 == w
  {
    ShiftedRegisterIsOr(e, ops, k, w);
    ShiftedRegisterOrBelow(RegisterOf(ops[k]).value, ShiftOf(e, ops, k).value);
    OrKeepsTop(w, ShiftedRegisterOr(RegisterOf(ops[k]).value, ShiftOf(e, ops, k).value));
  }

  /** The condition, opcode, bit 25 (clear), S bit and registers of a data-processing word. */
  predicate UpperFields(w: Word, opcode: Word, s: bool, rn: Word, rd: Word)
  {
    SubByte(w, 31, 4) == 14 && SubByte(w, 27, 2) == 0 && SubByte(w, 24, 4) == opcode && !Bit(w, 25) && (Bit(w, 20) <==> s) &&
    SubByte(w, 19, 4) == rn && SubByte(w, 15, 4) == rd
  }

  /** The fields of a data-processing word with a register operand 2, each at its place. */
  predicate RegisterOperandFields(w: Word, opcode: Word, s: bool, rn: Word, rd: Word, rm: Word, shift: RegisterShift)
  {
    UpperFields(w, opcode, s, rn, rd) && ShiftedRegisterFields(w, rm, shift)
  }

  /** Register fields and operand 2 below bit 12 leave the condition and opcode bits clear. */
  lemma RegisterOperandClearTop(s: bool, rn: Word, rd: Word, low: Word)
    requires rn < 16 && rd < 16 && low < 4096
    ensures (RegisterBits(s, rn, rd) | low) & 0xF1E0_0000 == 0
  {
  }

  /** The condition, opcode, bit 25, S bit and registers read back. */
  lemma UpperRegisterLayout(opcode: Word, s: bool, rn: Word, rd: Word, rm: Word, shift: RegisterShift)
    requires opcode < 16 && rn < 16 && rd < 16 && ShiftedRegisterOr(rm, shift) < 4096
    ensures UpperFields(RegisterWord(opcode, s, rn, rd, rm, shift), opcode, s, rn, rd)
  {
    UpperOrLayout(RegisterWord(opcode, s, rn, rd, rm, shift), opcode, s, rn, rd, ShiftedRegisterOr(rm, shift));
  }

  /** The same over any operand 2 below bit 12. */
  lemma UpperOrLayout(w: Word, opcode: Word, s: bool, rn: Word, rd: Word, low: Word)
    requires opcode < 16 && rn < 16 && rd < 16 && low < 4096
    requires w == 0xE000_0000 | (opcode << 21) | (RegisterBits(s, rn, rd) | low)
    ensures SubByte(w, 31, 4) == 14 && SubByte(w, 27, 2) == 0 && SubByte(w, 24, 4) == opcode && !Bit(w, 25) &&
            (Bit(w, 20) <==> s) && SubByte(w, 19, 4) == rn && SubByte(w, 15, 4) == rd
  {
  }

  /** The data-processing word over a register operand 2, as one OR. */
  function RegisterWord(opcode: Word, s: bool, rn: Word, rd: Word, rm: Word, shift: RegisterShift): Word
  {
    0xE000_0000 | (opcode << 21) | (RegisterBits(s, rn, rd) | ShiftedRegisterOr(rm, shift))
  }

  /** The register-operand word, read back field by field. */
  lemma RegisterWordLayout(opcode: Word, s: bool, rn: Word, rd: Word, rm: Word, shift: RegisterShift)
    requires opcode < 16 && rn < 16 && rd < 16 && rm < 16 && ShiftFits(shift)
    ensures RegisterOperandFields(RegisterWord(opcode, s, rn, rd, rm, shift), opcode, s, rn, rd, rm, shift)
  {
    ShiftedRegisterOrBelow(rm, shift);
    UpperRegisterLayout(opcode, s, rn, rd, rm, shift);
    LowerRegisterLayout(opcode, s, rn, rd, rm, shift);
  }

  /** Rm and the shift read back from the whole word. */
  lemma LowerRegisterLayout(opcode: Word, s: bool, rn: Word, rd: Word, rm: Word, shift: RegisterShift)
    requires opcode < 16 && rn < 16 && rd < 16 && rm < 16 && ShiftFits(shift)
    ensures ShiftedRegisterFields(RegisterWord(opcode, s, rn, rd, rm, shift), rm, shift)
  {
    match shift
    case Unshifted => UnshiftedWordLayout(opcode, s, rn, rd, rm);
    case ByConstant(t, a) => ByConstantWordLayout(opcode, s, rn, rd, rm, t, a);
    case ByRegister(t, rs) => ByRegisterWordLayout(opcode, s, rn, rd, rm, t, rs);
  }

  lemma UnshiftedWordLayout(opcode: Word, s: bool, rn: Word, rd: Word, rm: Word)
    requires opcode < 16 && rn < 16 && rd < 16 && rm < 16
    ensures ShiftedRegisterFields(RegisterWord(opcode, s, rn, rd, rm, Unshifted), rm, Unshifted)
  {
  }

  lemma ByConstantWordLayout(opcode: Word, s: bool, rn: Word, rd: Word, rm: Word, t: Word, a: Word)
    requires opcode < 16 && rn < 16 && rd < 16 && rm < 16 && t < 4 && a < 32
    ensures ShiftedRegisterFields(RegisterWord(opcode, s, rn, rd, rm, ByConstant(t, a)), rm, ByConstant(t, a))
  {
  }

  lemma ByRegisterWordLayout(opcode: Word, s: bool, rn: Word, rd: Word, rm: Word, t: Word, rs: Word)
    requires opcode < 16 && rn < 16 && rd < 16 && rm < 16 && t < 4 && rs < 16
    ensures ShiftedRegisterFields(RegisterWord(opcode, s, rn, rd, rm, ByRegister(t, rs)), rm, ByRegister(t, rs))
  {
  }

  /**
    The word `dataProcessing` writes for a register operand 2, as one OR of
    its fields, when every field fits.
  */
  lemma DataProcessingRegisterIsOr(e: seq<Entry>, ops: seq<string>)
    requires |ops| == 6 && DataProcessingWord(e, ops).Ok? && SmallRegisters(ops)
    requires DollarOpcode(e, ops[0]) < 16 && CharAt(ops[Operand2Index(DollarOpcode(e, ops[0]))], 0) != '#'
    requires SmallShift(e, ops, Operand2Index(DollarOpcode(e, ops[0])))
    ensures var opcode := DollarOpcode(e, ops[0]);
            var k := Operand2Index(opcode);
            RnOperand(opcode, ops).Ok? && RdOperand(opcode, ops).Ok? && RegisterOf(ops[k]).Ok? && ShiftOf(e, ops, k).Ok? &&
            DataProcessingWord(e, ops).value ==
              RegisterWord(opcode, 8 <= opcode <= 10, RnOperand(opcode, ops).value, RdOperand(opcode, ops).value,
                           RegisterOf(ops[k]).value, ShiftOf(e, ops, k).value)
  {
    var opcode := DollarOpcode(e, ops[0]);
    var f := RegisterFields(opcode, ops).value;
    var s := 8 <= opcode <= 10;
    assert f.1 == Operand2Index(opcode) && RnOperand(opcode, ops).Ok? && RdOperand(opcode, ops).Ok? &&
           f.0 == RegisterBits(s, RnOperand(opcode, ops).value, RdOperand(opcode, ops).value) by {
      RegisterFieldsIsOr(opcode, ops);
    }
    var rn := RnOperand(opcode, ops).value;
    var rd := RdOperand(opcode, ops).value;
    var k := f.1;
    assert Operand2Bits(e, ops, k, f.0) == ShiftedRegisterBits(e, ops, k, f.0);
    RegisterBitsClear(s, rn, rd);
    ShiftedRegisterIsOr(e, ops, k, f.0);
    var rm := RegisterOf(ops[k]).value;
    var shift := ShiftOf(e, ops, k).value;
    assert DataProcessingWord(e, ops).value == CondAndOpcode(RegisterBits(s, rn, rd) | ShiftedRegisterOr(rm, shift), opcode);
    CondRegisterWord(opcode, s, rn, rd, rm, shift);
  }

  /** Setting the condition and the opcode over the register fields and operand 2 is ORing them in. */
  lemma CondRegisterWord(opcode: Word, s: bool, rn: Word, rd: Word, rm: Word, shift: RegisterShift)
    requires opcode < 16 && rn < 16 && rd < 16 && rm < 16 && ShiftFits(shift)
    ensures CondAndOpcode(RegisterBits(s, rn, rd) | ShiftedRegisterOr(rm, shift), opcode) == RegisterWord(opcode, s, rn, rd, rm, shift)
  {
    RegisterOperandsClearTop(s, rn, rd, rm, shift);
    CondOpcodeOver(RegisterBits(s, rn, rd) | ShiftedRegisterOr(rm, shift), opcode, RegisterWord(opcode, s, rn, rd, rm, shift));
  }

  /** The register fields and a fitting register operand 2 leave bits 31-28 and 24-21 clear. */
  lemma RegisterOperandsClearTop(s: bool, rn: Word, rd: Word, rm: Word, shift: RegisterShift)
    requires rn < 16 && rd < 16 && rm < 16 && ShiftFits(shift)
    ensures (RegisterBits(s, rn, rd) | ShiftedRegisterOr(rm, shift)) & 0xF1E0_0000 == 0
  {
    ShiftedRegisterOrBelow(rm, shift);
    RegisterOperandClearTop(s, rn, rd, ShiftedRegisterOr(rm, shift));
  }

  /** `CondOpcodeIsOr` for a word named by its OR form. */
  lemma CondOpcodeOver(x: Word, opcode: Word, y: Word)
    requires x & 0xF1E0_0000 == 0 && opcode < 16 && y == 0xE000_0000 | (opcode << 21) | x
    ensures CondAndOpcode(x, opcode) == y
  {
    CondOpcodeIsOr(x, opcode);
  }

  /**
    The layout of the word `dataProcessing` writes when operand 2 is a
    register: condition 14, the opcode at bits 24-21, bit 25 clear, the S
    bit and Rn and Rd as the opcode takes them, Rm at bits 3-0 and the shift
    the operands name at bits 11-4.  Holds when every field fits, which
    excludes the table's `asr` (8) and `ror` (9).
  */
  lemma DataProcessingRegisterLayout(e: seq<Entry>, ops: seq<string>, w: Word)
    requires |ops| == 6 && DataProcessingWord(e, ops) == Ok(w) && SmallRegisters(ops)
    requires DollarOpcode(e, ops[0]) < 16 && CharAt(ops[Operand2Index(DollarOpcode(e, ops[0]))], 0) != '#'
    requires SmallShift(e, ops, Operand2Index(DollarOpcode(e, ops[0])))
    ensures var opcode := DollarOpcode(e, ops[0]);
            var k := Operand2Index(opcode);
            RnOperand(opcode, ops).Ok? && RdOperand(opcode, ops).Ok? && RegisterOf(ops[k]).Ok? && ShiftOf(e, ops, k).Ok? &&
            RegisterOperandFields(w, opcode, 8 <= opcode <= 10, RnOperand(opcode, ops).value, RdOperand(opcode, ops).value,
                                  RegisterOf(ops[k]).value, ShiftOf(e, ops, k).value)
  {
    var opcode := DollarOpcode(e, ops[0]);
    var k := Operand2Index(opcode);
    DataProcessingRegisterIsOr(e, ops);
    RegisterWordLayout(opcode, 8 <= opcode <= 10, RnOperand(opcode, ops).value, RdOperand(opcode, ops).value,
                       RegisterOf(ops[k]).value, ShiftOf(e, ops, k).value);
  }

  // ---------------------------------------------------------------------------
  // The shifted-register offset of a data transfer

  /** The multiplicand of `decodeMultiplicand` as one OR of its three 4-bit fields. */
  function MultiplicandOr(shiftType: Word, amount: Word, num: Word): Word
  {
    (shiftType << 8) | (amount << 4) | num
  }

  /** Lines 232-239 with fitting values: the three `setBits` calls give the OR of the fields. */
  lemma MultiplicandIsOr(shiftType: Word, amount: Word, num: Word)
    requires shiftType < 16 && amount < 16 && num < 16
    ensures SetBits(SetBits(SetBits(0, shiftType, 11, 4), amount, 7, 4), num, 3, 4) == MultiplicandOr(shiftType, amount, num)
    ensures SetBits(SetBits(0, amount, 7, 4), num, 3, 4) == MultiplicandOr(0, amount, num)
  {
  }

  /**
    `decodeMultiplicand`'s word: the shift type (0 when the name is not in
    the table) at bits 11-8, the amount at bits 7-4, the register number at
    bits 3-0, and nothing above bit 11.
  */
  lemma MultiplicandLayout(e: seq<Entry>, command: string, amount: string, num: Word)
    requires GetNumber(amount).Ok? && GetNumber(amount).value.value < 16 && num < 16
    requires Has(e, command) ==> Lookup(e, command) < 16
    ensures Multiplicand(e, command, amount, num).Ok?
    ensures var w := Multiplicand(e, command, amount, num).value;
            var t := if Has(e, command) then Lookup(e, command) else 0;
            w == MultiplicandOr(t, GetNumber(amount).value.value, num) &&
            SubByte(w, 11, 4) == t && SubByte(w, 7, 4) == GetNumber(amount).value.value && SubByte(w, 3, 4) == num &&
            w < 4096
  {
    var t := if Has(e, command) then Lookup(e, command) else 0;
    var n := GetNumber(amount).value.value;
    MultiplicandIsOr(t, n, num);
    MultiplicandOrLayout(t, n, num);
  }

  /** The OR of the multiplicand's fields, read back. */
  lemma MultiplicandOrLayout(t: Word, n: Word, num: Word)
    requires t < 16 && n < 16 && num < 16
    ensures var w := MultiplicandOr(t, n, num);
            SubByte(w, 11, 4) == t && SubByte(w, 7, 4) == n && SubByte(w, 3, 4) == num && w < 4096
  {
  }
}
