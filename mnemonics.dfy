/**
  The data-processing mnemonics from both sides: the opcode the assembler's
  table gives each one, and what the emulator's `alu` computes for that
  opcode, against what the ARM architecture says the mnemonic computes.
*/
module Mnemonics {
  import opened Utils
  import opened SymbolTable
  import opened Assemble
  import Emulate

  /** The data-processing mnemonics. */
  datatype Mnemonic = And | Eor | Sub | Rsb | Add | Orr | Mov | Tst | Teq | Cmp

  function MnemonicName(x: Mnemonic): string
  {
    match x
    case And => "and"
    case Eor => "eor"
    case Sub => "sub"
    case Rsb => "rsb"
    case Add => "add"
    case Orr => "orr"
    case Mov => "mov"
    case Tst => "tst"
    case Teq => "teq"
    case Cmp => "cmp"
  }

  /** What each data-processing mnemonic computes in the ARM architecture (mov: operand 2). */
  function MnemonicValue(x: Mnemonic, op1: Word, op2: Word): Word
  {
    match x
    case And | Tst => op1 & op2
    case Eor | Teq => op1 ^ op2
    case Sub | Cmp => op1 - op2
    case Rsb => op2 - op1
    case Add => op1 + op2
    case Orr => op1 | op2
    case Mov => op2
  }

  /** tst, teq and cmp only set the flags. */
  predicate IsTest(x: Mnemonic)
  {
    x == Tst || x == Teq || x == Cmp
  }

  /** The ARM opcode of each data-processing mnemonic (bits 24-21 of the instruction). */
  function ArmOpcode(x: Mnemonic): nat
  {
    match x
    case And => 0
    case Eor => 1
    case Sub => 2
    case Rsb => 3
    case Add => 4
    case Orr => 12
    case Mov => 13
    case Tst => 8
    case Teq => 9
    case Cmp => 10
  }

  /** The table gives each mnemonic, under its '$' name, its ARM opcode. */
  lemma MnemonicLooksUpOpcode(labels: seq<Entry>, x: Mnemonic)
    requires !Has(labels, "$" + MnemonicName(x))
    ensures DollarOpcode(labels + OpcodeEntries, MnemonicName(x)) as nat == ArmOpcode(x)
  {
    match x
    case And =>
      assert OpcodeValues[0].0 == "$" + MnemonicName(x);
      OpcodeValue(labels, 0);
    case Eor =>
      assert OpcodeValues[1].0 == "$" + MnemonicName(x);
      OpcodeValue(labels, 1);
    case Sub =>
      assert OpcodeValues[2].0 == "$" + MnemonicName(x);
      OpcodeValue(labels, 2);
    case Rsb =>
      assert OpcodeValues[3].0 == "$" + MnemonicName(x);
      OpcodeValue(labels, 3);
    case Add =>
      assert OpcodeValues[4].0 == "$" + MnemonicName(x);
      OpcodeValue(labels, 4);
    case Orr =>
      assert OpcodeValues[5].0 == "$" + MnemonicName(x);
      OpcodeValue(labels, 5);
    case Mov =>
      assert OpcodeValues[6].0 == "$" + MnemonicName(x);
      OpcodeValue(labels, 6);
    case Tst =>
      assert OpcodeValues[7].0 == "$" + MnemonicName(x);
      OpcodeValue(labels, 7);
    case Teq =>
      assert OpcodeValues[8].0 == "$" + MnemonicName(x);
      OpcodeValue(labels, 8);
    case Cmp =>
      assert OpcodeValues[9].0 == "$" + MnemonicName(x);
      OpcodeValue(labels, 9);
  }

  /** The `switch` label `alu` lists for each mnemonic: its ARM opcode in binary digits. */
  function SwitchLabel(x: Mnemonic): nat
  {
    match x
    case And => 0
    case Eor => 1
    case Sub => 10
    case Rsb => 11
    case Add => 100
    case Orr => 1100
    case Mov => 1101
    case Tst => 1000
    case Teq => 1001
    case Cmp => 1010
  }

  /** `subBinary` turns each ARM opcode into the label `alu` lists for that mnemonic. */
  lemma ArmOpcodeDigits(x: Mnemonic)
    ensures DecimalCoded(ArmOpcode(x)) == SwitchLabel(x)
  {
    match x
    case And => DecimalCodedNibble(0);
    case Eor => DecimalCodedNibble(1);
    case Sub => DecimalCodedNibble(2);
    case Rsb => DecimalCodedNibble(3);
    case Add => DecimalCodedNibble(4);
    case Orr => DecimalCodedNibble(12);
    case Mov => DecimalCodedNibble(13);
    case Tst => DecimalCodedNibble(8);
    case Teq => DecimalCodedNibble(9);
    case Cmp => DecimalCodedNibble(10);
  }

  /** At each mnemonic's label, `alu` computes what the ARM architecture says the mnemonic computes. */
  lemma AluComputesMnemonic(x: Mnemonic, op1: Word, op2: Word)
    ensures Emulate.AluValue(SwitchLabel(x), op1, op2) == MnemonicValue(x, op1, op2)
  {
    var v := MnemonicValue(x, op1, op2);
    match x
    case And => assert v == op1 & op2; Emulate.AluAtAnd(op1, op2);
    case Eor => assert v == op1 ^ op2; Emulate.AluAtEor(op1, op2);
    case Sub => assert v == op1 - op2; Emulate.AluAtSub(op1, op2);
    case Rsb => assert v == op2 - op1; Emulate.AluAtRsb(op1, op2);
    case Add => assert v == op1 + op2; Emulate.AluAtAdd(op1, op2);
    case Orr => assert v == op1 | op2; Emulate.AluAtOrr(op1, op2);
    case Mov => assert v == op2; Emulate.AluAtMov(op1, op2);
    case Tst => assert v == op1 & op2; Emulate.AluAtTst(op1, op2);
    case Teq => assert v == op1 ^ op2; Emulate.AluAtTeq(op1, op2);
    case Cmp => assert v == op1 - op2; Emulate.AluAtCmp(op1, op2);
  }

  /** At its label, `alu` writes Rd exactly when the mnemonic is not a test. */
  lemma AluWritesUnlessTest(x: Mnemonic)
    ensures Emulate.WritesResult(SwitchLabel(x)) <==> !IsTest(x)
  {
  }

  /**
    The opcode `dataProcessing` finds for each mnemonic is one for which the
    emulator's `alu` computes that mnemonic's value, and writes Rd exactly
    when the mnemonic is not a test.
  */
  lemma MnemonicOpcodes(labels: seq<Entry>, x: Mnemonic, op1: Word, op2: Word)
    requires !Has(labels, "$" + MnemonicName(x))
    ensures var code := DecimalCoded(DollarOpcode(labels + OpcodeEntries, MnemonicName(x)) as nat);
            Emulate.AluValue(code, op1, op2) == MnemonicValue(x, op1, op2) &&
            (Emulate.WritesResult(code) <==> !IsTest(x))
  {
    MnemonicLooksUpOpcode(labels, x);
    ArmOpcodeDigits(x);
    AluComputesMnemonic(x, op1, op2);
    AluWritesUnlessTest(x);
  }
}
