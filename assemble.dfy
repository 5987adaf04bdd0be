/**
  The two-pass assembler (src/assemble.c).

  Pass 1 (`firstPass`) walks the source lines up to the first empty line and
  gives every label line ("name:") the byte address of the next instruction.
  Pass 2 (`secondPass`) adds the mnemonic, shift and condition tables to the
  symbol table, then encodes every instruction line into the output word at
  its instruction number through one of five encoders: data processing,
  multiply, single data transfer, branch and special (`andeq`, `lsl`).
  An `ldr` of a large constant appends the constant after the program (the
  literal pool) and loads it PC-relative.

  Every encoder is stated twice: a function that gives the encoded word (or
  the fatal error), and a method of `State` that does what the C function
  does to the global state and is proved to agree with the function.
*/
module Assemble {
  import opened Utils
  import opened LibC
  import opened SymbolTable

  /** MEMORY_CAPACITY: the number of input lines and output words. */
  const Capacity: nat := 16384

  /**
    Why assembly stops.  The first two are the source's fatal errors
    (`perror` then `exit`); the last three are inputs on which the source has
    undefined behaviour, which the model reports instead.
  */
  datatype AsmError =
    | BadRegister      // getRegister: register number above 16
    | Unrepresentable  // dataProcessing: no rotation makes the constant fit 8 bits
    | NoClosingBracket // calculateOffsetValue: no ']' among the address operands
    | BadDispatch      // secondPass: table value 3 or more used as a function index
    | PoolOverflow     // singleDataTransfer: literal pool past the output array

  type Res<T> = Result<T, AsmError>

  /** The output array and the `endOfProgram` counter after a step of pass 2. */
  datatype Assembled = Assembled(out: seq<Word>, eop: int)

  /**
    An `int` or `long` stored in a `uint32_t`: its value modulo 2^32, a
    negative value written as the two's complement of its magnitude.
  */
  function ToWord(i: int): Word
  {
    if i < 0 then 0 - ((-i) % 0x1_0000_0000) as Word else (i % 0x1_0000_0000) as Word
  }

  lemma WordAsIntBounds(w: Word)
    ensures 0 <= w as int < 0x1_0000_0000
    ensures 0 < w ==> 0 < w as int
  {
  }

  lemma WordAsIntBack(w: Word)
    ensures (w as int) as Word == w
  {
  }

  lemma ModOfSmall(i: int)
    requires 0 <= i < 0x1_0000_0000
    ensures i % 0x1_0000_0000 == i
  {
  }

  /** A word read as a number and stored back is the same word. */
  lemma ToWordOfWord(w: Word)
    ensures ToWord(w as int) == w
  {
    WordAsIntBounds(w);
    ModOfSmall(w as int);
    WordAsIntBack(w);
  }

  /** A word read as a number, negated and stored back is its two's complement. */
  lemma ToWordOfNegated(w: Word)
    requires 0 < w
    ensures ToWord(-(w as int)) == 0 - w
  {
    WordAsIntBounds(w);
    assert -(-(w as int)) == w as int;
    ToWordOfWord(w);
  }

  /**
    The byte address `4 * n` of word `n`, as a `uint32_t`.  The source
    multiplies in `int` and then stores the result; the product is taken
    here modulo 2^32, which gives the same word.
  */
  function ByteAddress(n: int): Word
  {
    ToWord(n) * 4
  }

  /** Lines 329-330: the literal's distance from PC, `(endOfProgram - instNo) * 4 - 8`, modulo 2^32. */
  function PoolOffset(instNo: int, eop: int): Word
  {
    (ToWord(eop) - ToWord(instNo)) * 4 - 8
  }

  /** The line at index k of `state.input`; after the last line `readFile` leaves an empty one. */
  function Line(lines: seq<string>, k: nat): string
  {
    if k < |lines| then lines[k] else ""
  }

  /** `strchr(line, ':')`: the line is a label. */
  predicate IsLabel(line: string)
  {
    ':' in line
  }

  // ---------------------------------------------------------------------------
  // Pass 1

  /** The index of the first empty line at or after `from`: where both passes stop. */
  function ProgramEnd(lines: seq<string>, from: nat): (n: nat)
    ensures from <= n
    ensures n <= |lines| || n == from
    ensures CharAt(Line(lines, n), 0) == '\0'
    ensures forall k :: from <= k < n ==> CharAt(Line(lines, k), 0) != '\0'
    decreases |lines| - from
  {
    if CharAt(Line(lines, from), 0) == '\0' then from else ProgramEnd(lines, from + 1)
  }

  /** The number of instruction (non-label) lines in `lines`. */
  function InstructionCount(lines: seq<string>): (n: nat)
    ensures n <= |lines|
  {
    if lines == [] then 0
    else InstructionCount(lines[..|lines| - 1]) + (if IsLabel(lines[|lines| - 1]) then 0 else 1)
  }

  /** The length of the run of characters other than c that starts s. */
  function RunWithout(s: string, c: char): (n: nat)
    ensures n <= |s|
    ensures c !in s[..n]
    ensures n < |s| ==> s[n] == c
  {
    if s == [] || s[0] == c then 0 else 1 + RunWithout(s[1..], c)
  }

  /** `strtok(line, ":")`: skip leading colons, then take the run up to the next colon. */
  function LabelKey(line: string): string
  {
    if line != [] && line[0] == ':' then LabelKey(line[1..]) else line[..RunWithout(line, ':')]
  }

  /** The entries pass 1 pushes for `lines`: each label with 4 times the instructions before it. */
  function LabelEntries(lines: seq<string>): seq<Entry>
  {
    if lines == [] then []
    else
      var init := lines[..|lines| - 1];
      LabelEntries(init) +
      (if IsLabel(lines[|lines| - 1]) then [(LabelKey(lines[|lines| - 1]), ByteAddress(InstructionCount(init)))] else [])
  }

  /** Pass 1 over one more line: a label gets the address of the instructions before it, an instruction is counted. */
  lemma PrefixStep(lines: seq<string>, k: nat)
    requires k < |lines|
    ensures LabelEntries(lines[..k + 1]) == LabelEntries(lines[..k]) +
              (if IsLabel(lines[k]) then [(LabelKey(lines[k]), ByteAddress(InstructionCount(lines[..k])))] else [])
    ensures InstructionCount(lines[..k + 1]) == InstructionCount(lines[..k]) + (if IsLabel(lines[k]) then 0 else 1)
  {
    assert lines[..k + 1][..k] == lines[..k];
  }

  /** The lines before the first empty one. */
  function Program(lines: seq<string>): (p: seq<string>)
    ensures |p| <= |lines|
  {
    var n := ProgramEnd(lines, 0);
    if n <= |lines| then lines[..n] else lines
  }

  // ---------------------------------------------------------------------------
  // Operand parsing

  function RegisterOf(operand: string): Res<Word>
  {
    match GetRegister(operand)
    case None => Err(BadRegister)
    case Some(r) => Ok(r)
  }

  /** `strtol(&operand[1], NULL, 0)` stored in a `uint32_t`: the constant after '#' or '='. */
  function ImmediateOf(operand: string): Word
  {
    ToWord(StrToL(Drop1(operand)))
  }

  /** The test of line 115: `rotateLeft(x, r)` equals its own low 8 bits. */
  predicate Fits(x: Word, r: Word)
  {
    var rep := RotateLeft(x, r);
    rep == rep & 0xFF
  }

  lemma FitsBelow256(x: Word, r: Word)
    ensures Fits(x, r) <==> RotateLeft(x, r) < 256
  {
  }

  /** The first even rotation at or after r (up to 30) under which `x` fits 8 bits. */
  function RotationFrom(x: Word, r: Word): Option<Word>
    requires r <= 32
    decreases 32 - r as int
  {
    if r > 30 then None
    else if Fits(x, r) then Some(r)
    else RotationFrom(x, r + 2)
  }

  /** The rotation `dataProcessing` chooses for an immediate `x`. */
  function LeastRotation(x: Word): Option<Word>
  {
    RotationFrom(x, 0)
  }

  lemma {:induction false} RotationFromIsLeast(x: Word, r: Word)
    requires r <= 32 && r % 2 == 0
    ensures RotationFrom(x, r).Some? ==>
              var q := RotationFrom(x, r).value;
              r <= q <= 30 && q % 2 == 0 && Fits(x, q) &&
              forall p: Word :: r <= p < q && p % 2 == 0 ==> !Fits(x, p)
    ensures RotationFrom(x, r).None? ==>
              forall p: Word :: r <= p <= 30 && p % 2 == 0 ==> !Fits(x, p)
    decreases 32 - r as int
  {
    if r <= 30 && !Fits(x, r) {
      RotationFromIsLeast(x, r + 2);
    }
  }

  /**
    The chosen rotation is the least even r in 0..30 under which `x` fits 8 bits,
    and there is none exactly when no even r in 0..30 works.
  */
  lemma LeastRotationIsLeast(x: Word)
    ensures LeastRotation(x).Some? ==>
              var r := LeastRotation(x).value;
              r <= 30 && r % 2 == 0 && Fits(x, r) &&
              forall p: Word :: p < r && p % 2 == 0 ==> !Fits(x, p)
    ensures LeastRotation(x).None? ==>
              forall p: Word :: p <= 30 && p % 2 == 0 ==> !Fits(x, p)
  {
    RotationFromIsLeast(x, 0);
  }

  /** Constants of 2^31 and above are never representable: `rotateLeft` fills them with ones. */
  lemma LeastRotationOfNegative(x: Word)
    requires x >= 0x8000_0000
    ensures LeastRotation(x) == None
  {
    LeastRotationIsLeast(x);
    match LeastRotation(x)
    case None =>
    case Some(r) =>
      RotateLeftOfNegative(x, r);
      FitsBelow256(x, r);
      assert false;
  }

  /** Representable constants come back under `rotateRight` by the chosen rotation. */
  lemma LeastRotationRoundTrip(x: Word)
    requires LeastRotation(x).Some?
    ensures RotateRight(RotateLeft(x, LeastRotation(x).value), LeastRotation(x).value) == x
  {
    var r := LeastRotation(x).value;
    LeastRotationIsLeast(x);
    FitsBelow256(x, r);
    RotateRoundTrip(x, r);
  }

  /** What `getNumber` reports besides its value. */
  datatype Number = Number(value: Word, isRegister: bool, sign: bool)

  /** `s` up to its first `c`, which `getNumber` overwrites with NUL. */
  function TruncateAt(s: string, c: char): string
  {
    s[..RunWithout(s, c)]
  }

  /** `abs` of an `int32_t`, returned as `uint32_t`; abs(INT_MIN) stays INT_MIN. */
  function AbsInt32(w: Word): Word
  {
    if Bit(w, 31) then 0 - w else w
  }

  /**
    `getNumber(expression, &isRegister, &sign)`: after cutting the expression at
    ']', a '-' anywhere makes the sign negative; an 'r' anywhere makes it a
    register (read after a leading '-'); otherwise it is `abs` of the constant
    after the first character.
  */
  function GetNumber(expression: string): (r: Res<Number>)
    ensures var s := TruncateAt(expression, ']');
            (r.Err? ==> 'r' in s) &&
            (r.Ok? ==> (r.value.isRegister <==> 'r' in s) && (r.value.sign <==> '-' !in s))
    ensures r.Ok? && r.value.isRegister ==> r.value.value <= 16
    ensures r.Ok? && !r.value.isRegister ==> r.value.value <= 0x8000_0000
  {
    var s := TruncateAt(expression, ']');
    var sign := '-' !in s;
    if 'r' in s then
      var r :- RegisterOf(if sign then s else Drop1(s));
      Ok(Number(r, true, sign))
    else
      Ok(Number(AbsInt32(ToWord(StrToL(Drop1(s)))), false, sign))
  }

  /** Cutting `p + tail` at `c` leaves `p` when `p` holds no `c` and `tail` is empty or starts with `c`. */
  lemma TruncateAtPrefix(p: string, tail: string, c: char)
    requires c !in p && (tail == [] || tail[0] == c)
    ensures TruncateAt(p + tail, c) == p
  {
    var s := p + tail;
    var n := RunWithout(s, c);
    assert s[..|p|] == p;
  }

  /** The characters `%d` writes are none of those `getNumber` looks for. */
  lemma DecimalHasNoMarks(n: nat)
    ensures forall c <- FormatDecimal(n) :: c != ']' && c != 'r' && c != '-'
  {
    FormatDecimalDigits(n);
  }

  /**
    A register operand "rD", or "-rD" with the sign negative, optionally closed
    by ']', is register D - '0' (one character is read, as `getRegister` does).
  */
  lemma GetNumberRegister(d: char, tail: string, negative: bool)
    requires '0' <= d <= '@' && (tail == [] || tail[0] == ']')
    ensures GetNumber((if negative then "-r" else "r") + [d] + tail)
      == Ok(Number((d as int - '0' as int) as Word, true, !negative))
  {
    var p := (if negative then "-r" else "r") + [d];
    RegisterText(d, tail, negative);
    GetNumberRegisterForm(p + tail, p);
    assert CharAt("r" + [d], 1) == d;
  }

  /** The text of "rD" or "-rD": cut at ']' it holds 'r', '-' exactly when negative, and "rD" after the sign. */
  lemma RegisterText(d: char, tail: string, negative: bool)
    requires '0' <= d <= '@' && (tail == [] || tail[0] == ']')
    ensures var p := (if negative then "-r" else "r") + [d];
            TruncateAt(p + tail, ']') == p && 'r' in p && ('-' in p <==> negative) &&
            (if negative then Drop1(p) else p) == "r" + [d]
  {
    var p := (if negative then "-r" else "r") + [d];
    TruncateAtPrefix(p, tail, ']');
  }

  /** With an 'r' before the first ']', `getNumber` reads the register named after the sign. */
  lemma GetNumberRegisterForm(expression: string, p: string)
    requires TruncateAt(expression, ']') == p && 'r' in p
    ensures var named := RegisterOf(if '-' !in p then p else Drop1(p));
            named.Ok? ==> GetNumber(expression) == Ok(Number(named.value, true, '-' !in p))
  {
  }

  /** With no 'r' before the first ']', `getNumber` reads a constant: the `abs` of what `strtol` reads after the mark. */
  lemma GetNumberNumeral(expression: string, p: string)
    requires TruncateAt(expression, ']') == p && 'r' !in p
    ensures GetNumber(expression) == Ok(Number(AbsInt32(ToWord(StrToL(Drop1(p)))), false, '-' !in p))
  {
  }

  /** "#n" or "=n", optionally closed by ']', is the constant n for every n below 2^31. */
  lemma GetNumberConstant(mark: char, n: Word, tail: string)
    requires (mark == '#' || mark == '=') && n < 0x8000_0000 && (tail == [] || tail[0] == ']')
    ensures GetNumber([mark] + FormatDecimal(n as nat) + tail) == Ok(Number(n, false, true))
  {
    var p := [mark] + FormatDecimal(n as nat);
    NumeralText(mark, n as nat, tail);
    GetNumberNumeral(p + tail, p);
    NumeralValue(n);
  }

  /** The text of "#n": cut at ']' it is the mark and the digits, with no 'r' and no '-'. */
  lemma NumeralText(mark: char, n: nat, tail: string)
    requires (mark == '#' || mark == '=') && (tail == [] || tail[0] == ']')
    ensures var p := [mark] + FormatDecimal(n);
            TruncateAt(p + tail, ']') == p && 'r' !in p && '-' !in p && Drop1(p) == FormatDecimal(n)
  {
    var p := [mark] + FormatDecimal(n);
    DecimalHasNoMarks(n);
    TruncateAtPrefix(p, tail, ']');
  }

  /** `strtol` of what `%d` wrote, stored in a word and passed through `abs`, gives n back, for n < 2^31. */
  lemma NumeralValue(n: Word)
    requires n < 0x8000_0000
    ensures AbsInt32(ToWord(StrToL(FormatDecimal(n as nat)))) == n
  {
    StrToLFormatDecimal(n as nat);
    ToWordOfWord(n);
    assert !Bit(n, 31);
  }

  /** "#-n" or "=-n", optionally closed by ']', is n with the sign negative, for 0 < n <= 2^31. */
  lemma GetNumberNegativeConstant(mark: char, n: Word, tail: string)
    requires (mark == '#' || mark == '=') && 0 < n <= 0x8000_0000 && (tail == [] || tail[0] == ']')
    ensures GetNumber([mark, '-'] + FormatDecimal(n as nat) + tail) == Ok(Number(n, false, false))
  {
    var p := [mark, '-'] + FormatDecimal(n as nat);
    NegativeNumeralText(mark, n as nat, tail);
    GetNumberNumeral(p + tail, p);
    NegativeNumeralValue(n);
  }

  /** The text of "#-n": cut at ']' it is the mark, '-' and the digits, with no 'r'. */
  lemma NegativeNumeralText(mark: char, n: nat, tail: string)
    requires (mark == '#' || mark == '=') && (tail == [] || tail[0] == ']')
    ensures var p := [mark, '-'] + FormatDecimal(n);
            TruncateAt(p + tail, ']') == p && 'r' !in p && '-' in p && Drop1(p) == "-" + FormatDecimal(n)
  {
    var p := [mark, '-'] + FormatDecimal(n);
    DecimalHasNoMarks(n);
    TruncateAtPrefix(p, tail, ']');
    assert p[1] == '-';
  }

  /** `strtol` of "-n", stored in a word and passed through `abs`, gives n back, for 0 < n <= 2^31. */
  lemma NegativeNumeralValue(n: Word)
    requires 0 < n <= 0x8000_0000
    ensures AbsInt32(ToWord(StrToL("-" + FormatDecimal(n as nat)))) == n
  {
    StrToLFormatNegative(n as nat);
    ToWordOfNegated(n);
    AbsOfNegative(n);
  }

  /** `abs` of the wrapped negation of n is n again, up to n = 2^31 (INT_MIN stays 2^31). */
  lemma AbsOfNegative(n: Word)
    requires 0 < n <= 0x8000_0000
    ensures AbsInt32(0 - n) == n
  {
  }

  /**
    `decodeMultiplicand`: shift from `expression[0]` (when it is in the table) at
    bits 11-8, the amount at bits 7-4, `num` at bits 3-0.
  */
  function Multiplicand(e: seq<Entry>, command: string, amount: string, num: Word): Res<Word>
  {
    var n :- GetNumber(amount);
    var w := if Has(e, command) then SetBits(0, Lookup(e, command), 11, 4) else 0;
    Ok(SetBits(SetBits(w, n.value, 7, 4), num, 3, 4))
  }

  /** What `calculateOffsetValue` returns through its out-parameters; `rn` 0xFFFFFFFF is the caller's -1. */
  datatype Addressing = Addressing(rn: Word, offset: Word, i: bool, p: bool, u: bool)

  /** The partial offsets of `calculateOffsetValue` and its flags. */
  datatype Offsets = Offsets(pre: Word, post: Word, i: bool, p: bool, u: bool)

  /** The index of the first of `expr[from..]` holding ']'. */
  function BracketRange(expr: seq<string>, from: nat): (r: Res<nat>)
    ensures r.Ok? ==> from <= r.value < |expr| && ']' in expr[r.value]
    ensures r.Ok? ==> forall j :: from <= j < r.value ==> ']' !in expr[j]
    ensures r.Err? ==> r.error == NoClosingBracket && forall j :: from <= j < |expr| ==> ']' !in expr[j]
    decreases |expr| - from
  {
    if from >= |expr| then Err(NoClosingBracket)
    else if ']' in expr[from] then Ok(from)
    else BracketRange(expr, from + 1)
  }

  /** Lines 279-286: the second address operand is a pre- or a post-indexed offset. */
  function FirstOffset(range: nat, o: Offsets, operand: string): Res<Offsets>
  {
    if CharAt(operand, 0) == '\0' then Ok(o)
    else
      var n :- GetNumber(operand);
      if 1 <= range then Ok(o.(pre := n.value, i := n.isRegister, u := n.sign))
      else Ok(o.(post := n.value, i := n.isRegister, u := n.sign, p := false))
  }

  /** Lines 287-293: the third operand shifts the pre-indexed offset, or is a post-indexed offset. */
  function SecondOffset(e: seq<Entry>, range: nat, o: Offsets, operand: string, amount: string): Res<Offsets>
  {
    if CharAt(operand, 0) == '\0' then Ok(o)
    else if 2 <= range then
      var m :- Multiplicand(e, operand, amount, o.pre);
      Ok(o.(pre := m))
    else
      var n :- GetNumber(operand);
      Ok(o.(post := n.value, i := n.isRegister, u := n.sign))
  }

  /** `calculateOffsetValue(expression, …)` on the four operands after Rd. */
  function CalculateOffset(e: seq<Entry>, expr: seq<string>): Res<Addressing>
    requires |expr| == 4
  {
    if CharAt(expr[0], 0) == '=' then
      var n :- GetNumber(expr[0]);
      Ok(Addressing(0xFFFF_FFFF, n.value, n.isRegister, true, n.sign))
    else
      var range :- BracketRange(expr, 0);
      var base :- GetNumber(Drop1(expr[0]));
      var o1 :- FirstOffset(range, Offsets(0, 0, false, true, base.sign), expr[1]);
      var o2 :- SecondOffset(e, range, o1, expr[2], expr[3]);
      Ok(Address(base.value, o2))
  }

  /** Line 295: the offset is the sum of the pre- and the post-indexed parts. */
  function Address(rn: Word, o: Offsets): Addressing
  {
    Addressing(rn, o.pre + o.post, o.i, o.p, o.u)
  }

  // ---------------------------------------------------------------------------
  // Encoders

  /** Lines 84-104: the register fields, and the index of operand 2. */
  function RegisterFields(opcode: Word, ops: seq<string>): (r: Res<(Word, nat)>)
    requires |ops| == 6
    ensures r.Ok? ==> 2 <= r.value.1 <= 3
  {
    if 8 <= opcode <= 10 then
      var rn :- RegisterOf(ops[1]);
      Ok((SetBits(SetBits(0, 1, 20, 1), rn, 19, 4), 2))
    else if opcode == 13 then
      var rd :- RegisterOf(ops[1]);
      Ok((SetBits(0, rd, 15, 4), 2))
    else
      var rd :- RegisterOf(ops[1]);
      var rn :- RegisterOf(ops[2]);
      Ok((SetBits(SetBits(0, rd, 15, 4), rn, 19, 4), 3))
  }

  /** Lines 106-134: an immediate operand 2, as an 8-bit constant rotated right by twice a 4-bit count. */
  function ImmediateBits(x: Word, w: Word): Res<Word>
  {
    match LeastRotation(x)
    case None => Err(Unrepresentable)
    case Some(r) => Ok(SetBits(SetBits(SetBits(w, 1, 25, 1), RotateLeft(x, r), 7, 8), r / 2, 11, 4))
  }

  /** Lines 136-157: a register operand 2, shifted by a constant or by a register when a shift follows. */
  function ShiftedRegisterBits(e: seq<Entry>, ops: seq<string>, k: nat, w: Word): Res<Word>
    requires |ops| == 6 && 2 <= k <= 3
  {
    var rm :- RegisterOf(ops[k]);
    var w1 := SetBits(w, rm, 3, 4);
    if !Has(e, ops[k + 1]) then Ok(w1)
    else
      var w2 := SetBits(w1, Lookup(e, ops[k + 1]), 6, 2);
      if CharAt(ops[k + 2], 0) == '#' then Ok(SetBits(w2, ImmediateOf(ops[k + 2]), 11, 5))
      else
        var rs :- RegisterOf(ops[k + 2]);
        Ok(SetBits(SetBits(w2, 1, 4, 1), rs, 11, 4))
  }

  /** Lines 106-157: operand 2, an 8-bit rotated immediate or a shifted register. */
  function Operand2Bits(e: seq<Entry>, ops: seq<string>, k: nat, w: Word): Res<Word>
    requires |ops| == 6 && 2 <= k <= 3
  {
    if CharAt(ops[k], 0) == '#' then ImmediateBits(ImmediateOf(ops[k]), w)
    else ShiftedRegisterBits(e, ops, k, w)
  }

  /** The opcode `dataProcessing` looks up: the mnemonic behind a '$'. */
  function DollarOpcode(e: seq<Entry>, mnemonic: string): Word
  {
    Lookup(e, "$" + mnemonic)
  }

  /** The word `dataProcessing` writes. */
  function DataProcessingWord(e: seq<Entry>, ops: seq<string>): Res<Word>
    requires |ops| == 6
  {
    var opcode := DollarOpcode(e, ops[0]);
    var f :- RegisterFields(opcode, ops);
    var w :- Operand2Bits(e, ops, f.1, f.0);
    Ok(CondAndOpcode(w, opcode))
  }

  /** Lines 159-163: condition 14 (always) at bits 31-28, then the opcode at bits 24-21. */
  function CondAndOpcode(w: Word, opcode: Word): Word
  {
    SetBits(SetBits(w, 14, 31, 4), opcode, 24, 4)
  }

  /** The word `multiply` writes, or the first register operand that does not parse. */
  function MultiplyWord(ops: seq<string>): Res<Word>
    requires |ops| == 6
  {
    var rd :- RegisterOf(ops[1]);
    var rm :- RegisterOf(ops[2]);
    var rs :- RegisterOf(ops[3]);
    if ops[0] == "mla" then
      var rn :- RegisterOf(ops[4]);
      Ok(MultiplyFields(rd, rm, rs, true, rn))
    else Ok(MultiplyFields(rd, rm, rs, false, 0))
  }

  /** Lines 168-194: the multiply word from its registers; `acc` (the `mla` form) adds bit 21 and Rn. */
  function MultiplyFields(rd: Word, rm: Word, rs: Word, acc: bool, rn: Word): Word
  {
    var w0 := SetBits(SetBits(0, 14, 31, 4), 9, 7, 4);
    var w3 := SetBits(SetBits(SetBits(w0, rd, 19, 4), rm, 3, 4), rs, 11, 4);
    if acc then SetBits(SetBits(w3, 1, 21, 1), rn, 15, 4) else w3
  }

  /** Lines 333-366: the single data transfer word from its fields (none of them masked). */
  function TransferWord(i: bool, p: bool, u: bool, l: bool, rn: Word, rd: Word, offset: Word): Word
  {
    var w0 := SetBits(SetBits(0, 14, 31, 4), 1, 27, 2);
    var w1 := SetBits(SetBits(SetBits(w0, BitOf(i), 25, 1), BitOf(p), 24, 1), BitOf(u), 23, 1);
    var w2 := SetBits(SetBits(w1, 0, 22, 2), BitOf(l), 20, 1);
    SetBits(SetBits(SetBits(w2, rn, 19, 4), rd, 15, 4), offset, 11, 12)
  }

  /** `translateDataTransferToDataProcessing`: "ldr rd, =c" becomes "mov rd, #c". */
  function MovOperands(ops: seq<string>, offset: nat): seq<string>
    requires |ops| == 6
  {
    ops[0 := "mov"][2 := "#" + FormatDecimal(offset)]
  }

  /** `special`'s rewrite of "lsl rX, <amount>" into "mov rX, rX, lsl <amount>". */
  function LslOperands(ops: seq<string>): seq<string>
    requires |ops| == 6
  {
    ops[4 := ops[2]][3 := ops[0]][2 := ops[1]][0 := "mov"]
  }

  /** The branch condition key: "al" for a bare "b", else the two characters after 'b'. */
  function CondKey(mnemonic: string): string
  {
    if mnemonic == "b" then "al"
    else var rest := Drop1(mnemonic); if |rest| <= 2 then rest else rest[..2]
  }

  /** The word `branch` leaves in `output[instNo]`, which held `prev`. */
  function BranchWord(e: seq<Entry>, ops: seq<string>, instNo: nat, prev: Word): Word
    requires |ops| == 6
  {
    BranchFields(prev, Lookup(e, CondKey(ops[0])), Lookup(e, ops[1]), instNo)
  }

  /**
    Lines 372-386 once the condition code and the target address are looked up:
    bits 27-24 are 1010 and bits 23-0 the word distance from PC (8 bytes ahead).
  */
  function BranchFields(prev: Word, cond: Word, target: Word, instNo: nat): Word
  {
    var w1 := SetBits(prev, cond, 31, 4);
    var w2 := SetBits(w1, 10, 27, 4);
    var distance := target - ByteAddress(instNo) - 8;
    SetBits(w2, ArithmeticRight(distance, 2) & Mask(24), 23, 24)
  }

  function EncodeDataProcessing(e: seq<Entry>, ops: seq<string>, instNo: nat, a: Assembled): Res<Assembled>
    requires |ops| == 6 && instNo < |a.out|
  {
    var w :- DataProcessingWord(e, ops);
    Ok(a.(out := a.out[instNo := w]))
  }

  function EncodeMultiply(ops: seq<string>, instNo: nat, a: Assembled): Res<Assembled>
    requires |ops| == 6 && instNo < |a.out|
  {
    var w :- MultiplyWord(ops);
    Ok(a.(out := a.out[instNo := w]))
  }

  /** `singleDataTransfer`: the rewrite into `mov`, the literal pool, or a plain transfer word. */
  function EncodeTransfer(e: seq<Entry>, ops: seq<string>, instNo: nat, a: Assembled): Res<Assembled>
    requires |ops| == 6 && instNo < |a.out|
  {
    var rd :- RegisterOf(ops[1]);
    var ad :- CalculateOffset(e, ops[2..6]);
    PlaceTransfer(e, ops, instNo, a, rd, ops[0] == "ldr", ad)
  }

  /** Lines 316-366: the three ways a transfer with decoded operands is written. */
  function PlaceTransfer(e: seq<Entry>, ops: seq<string>, instNo: nat, a: Assembled, rd: Word, l: bool, ad: Addressing): Res<Assembled>
    requires |ops| == 6 && instNo < |a.out|
  {
    if ad.offset < 0xFF && l && ad.rn == 0xFFFF_FFFF then
      EncodeDataProcessing(e, MovOperands(ops, ad.offset as nat), instNo, a)
    else
      PoolOrDirect(instNo, a, rd, l, ad)
  }

  /** Lines 321-366 past the `mov` rewrite: a large loaded constant goes to the pool, anything else is a transfer word. */
  function PoolOrDirect(instNo: nat, a: Assembled, rd: Word, l: bool, ad: Addressing): (r: Res<Assembled>)
    requires instNo < |a.out|
    ensures r.Ok? ==> |r.value.out| == |a.out| && (r.value.eop == a.eop || (0 <= a.eop < |a.out| && r.value.eop == a.eop + 1))
  {
    if l && ad.offset >= 0xFF_FFFF then
      PoolTransfer(instNo, a, rd, ad)
    else
      Ok(a.(out := a.out[instNo := TransferWord(ad.i, ad.p, ad.u, l, ad.rn, rd, ad.offset)]))
  }

  lemma PlaceAsMov(e: seq<Entry>, ops: seq<string>, instNo: nat, a: Assembled, rd: Word, l: bool, ad: Addressing)
    requires |ops| == 6 && instNo < |a.out|
    requires ad.offset < 0xFF && l && ad.rn == 0xFFFF_FFFF
    ensures PlaceTransfer(e, ops, instNo, a, rd, l, ad) == EncodeDataProcessing(e, MovOperands(ops, ad.offset as nat), instNo, a)
  {
  }

  lemma PlaceOtherwise(e: seq<Entry>, ops: seq<string>, instNo: nat, a: Assembled, rd: Word, l: bool, ad: Addressing)
    requires |ops| == 6 && instNo < |a.out|
    requires !(ad.offset < 0xFF && l && ad.rn == 0xFFFF_FFFF)
    ensures PlaceTransfer(e, ops, instNo, a, rd, l, ad) == PoolOrDirect(instNo, a, rd, l, ad)
  {
  }

  /** Lines 321-330: the constant goes to the next pool word, loaded relative to the PC. */
  function PoolTransfer(instNo: nat, a: Assembled, rd: Word, ad: Addressing): (r: Res<Assembled>)
    requires instNo < |a.out|
    ensures r.Ok? <==> 0 <= a.eop < |a.out|
    ensures r.Ok? ==> |r.value.out| == |a.out| && r.value.eop == a.eop + 1
  {
    if !(0 <= a.eop < |a.out|) then Err(PoolOverflow)
    else
      var w := TransferWord(ad.i, ad.p, true, true, 15, rd, PoolOffset(instNo, a.eop));
      Ok(Assembled(a.out[a.eop := ad.offset][instNo := w], a.eop + 1))
  }

  function EncodeBranch(e: seq<Entry>, ops: seq<string>, instNo: nat, a: Assembled): Res<Assembled>
    requires |ops| == 6 && instNo < |a.out|
  {
    Ok(a.(out := a.out[instNo := BranchWord(e, ops, instNo, a.out[instNo])]))
  }

  function EncodeSpecial(e: seq<Entry>, ops: seq<string>, instNo: nat, a: Assembled): Res<Assembled>
    requires |ops| == 6 && instNo < |a.out|
  {
    if ops[0] == "andeq" then Ok(a.(out := a.out[instNo := 0]))
    else EncodeDataProcessing(e, LslOperands(ops), instNo, a)
  }

  /** `andeq` (the halt instruction) is the all-zero word, whatever its operands. */
  lemma AndeqIsZero(e: seq<Entry>, ops: seq<string>, instNo: nat, a: Assembled)
    requires |ops| == 6 && instNo < |a.out| && ops[0] == "andeq"
    ensures EncodeSpecial(e, ops, instNo, a).Ok?
    ensures EncodeSpecial(e, ops, instNo, a).value.out[instNo] == 0
    ensures EncodeSpecial(e, ops, instNo, a).value.eop == a.eop
  {
  }

  /** "lsl rX, amount" is encoded exactly as "mov rX, rX, lsl amount". */
  lemma LslIsMov(e: seq<Entry>, rx: string, amount: string, instNo: nat, a: Assembled)
    requires instNo < |a.out|
    ensures EncodeSpecial(e, ["lsl", rx, amount, "", "", ""], instNo, a)
      == EncodeDataProcessing(e, ["mov", rx, rx, "lsl", amount, ""], instNo, a)
  {
    var ops := ["lsl", rx, amount, "", "", ""];
    assert ops[0] != "andeq";
    assert LslOperands(ops) == ["mov", rx, rx, "lsl", amount, ""];
  }

  /**
    The indexing `calculateOffsetValue` reports: the '=' form is pre-indexed with
    no base register (Rn is -1); otherwise the transfer is post-indexed exactly
    when the closing bracket is on the base operand and an offset follows it.
  */
  lemma OffsetIndexing(e: seq<Entry>, expr: seq<string>)
    requires |expr| == 4 && CalculateOffset(e, expr).Ok?
    ensures CharAt(expr[0], 0) == '=' ==>
      CalculateOffset(e, expr).value.p && CalculateOffset(e, expr).value.rn == 0xFFFF_FFFF
    ensures CharAt(expr[0], 0) != '=' ==>
      (!CalculateOffset(e, expr).value.p <==> BracketRange(expr, 0) == Ok(0) && CharAt(expr[1], 0) != '\0')
  {
    if CharAt(expr[0], 0) != '=' {
      var range := BracketRange(expr, 0).value;
      var base := GetNumber(Drop1(expr[0])).value;
      var o1 := FirstOffset(range, Offsets(0, 0, false, true, base.sign), expr[1]).value;
      assert !o1.p <==> range == 0 && CharAt(expr[1], 0) != '\0';
      assert SecondOffset(e, range, o1, expr[2], expr[3]).value.p == o1.p;
    }
  }

  /** `ldr rd, =c`: the constant c (below 2^31), pre-indexed and up, with no base register (Rn -1). */
  lemma LiteralOffset(e: seq<Entry>, c: Word, rest: seq<string>)
    requires c < 0x8000_0000 && |rest| == 3
    ensures CalculateOffset(e, ["=" + FormatDecimal(c as nat)] + rest) == Ok(Addressing(0xFFFF_FFFF, c, false, true, true))
  {
    GetNumberConstant('=', c, "");
    assert ['='] + FormatDecimal(c as nat) + "" == "=" + FormatDecimal(c as nat);
  }

  /** `ldr rd, =c` with c below 0xFF is assembled exactly as `mov rd, #c`. */
  lemma LoadLiteralIsMov(e: seq<Entry>, rd: string, c: Word, rest: seq<string>, instNo: nat, a: Assembled)
    requires c < 0xFF && |rest| == 3 && instNo < |a.out| && RegisterOf(rd).Ok?
    ensures EncodeTransfer(e, ["ldr", rd, "=" + FormatDecimal(c as nat)] + rest, instNo, a)
      == EncodeDataProcessing(e, ["mov", rd, "#" + FormatDecimal(c as nat)] + rest, instNo, a)
  {
    var ops := ["ldr", rd, "=" + FormatDecimal(c as nat)] + rest;
    LoadLiteral(e, ops, c, instNo, a);
    PlaceAsMov(e, ops, instNo, a, RegisterOf(rd).value, true, Addressing(0xFFFF_FFFF, c, false, true, true));
    MovOperandsOfLoad(rd, "=" + FormatDecimal(c as nat), rest, c as nat);
  }

  lemma MovOperandsOfLoad(rd: string, operand: string, rest: seq<string>, offset: nat)
    requires |rest| == 3
    ensures MovOperands(["ldr", rd, operand] + rest, offset) == ["mov", rd, "#" + FormatDecimal(offset)] + rest
  {
  }

  /** `ldr rd, =c` with c from 0xFFFFFF up to 2^31 puts c in the literal pool. */
  lemma LoadLiteralInPool(e: seq<Entry>, rd: string, c: Word, rest: seq<string>, instNo: nat, a: Assembled)
    requires 0xFF_FFFF <= c < 0x8000_0000 && |rest| == 3 && instNo < |a.out| && RegisterOf(rd).Ok?
    ensures EncodeTransfer(e, ["ldr", rd, "=" + FormatDecimal(c as nat)] + rest, instNo, a)
      == PoolTransfer(instNo, a, RegisterOf(rd).value, Addressing(0xFFFF_FFFF, c, false, true, true))
  {
    LoadLiteral(e, ["ldr", rd, "=" + FormatDecimal(c as nat)] + rest, c, instNo, a);
  }

  /** `ldr rd, =c` is placed as a load of the constant c with no base register. */
  lemma LoadLiteral(e: seq<Entry>, ops: seq<string>, c: Word, instNo: nat, a: Assembled)
    requires |ops| == 6 && ops[0] == "ldr" && ops[2] == "=" + FormatDecimal(c as nat) && c < 0x8000_0000
    requires instNo < |a.out| && RegisterOf(ops[1]).Ok?
    ensures EncodeTransfer(e, ops, instNo, a)
      == PlaceTransfer(e, ops, instNo, a, RegisterOf(ops[1]).value, true, Addressing(0xFFFF_FFFF, c, false, true, true))
  {
    assert ops[2..6] == [ops[2]] + ops[3..6];
    LiteralOffset(e, c, ops[3..6]);
    TransferOfDecoded(e, ops, instNo, a, Addressing(0xFFFF_FFFF, c, false, true, true));
  }

  /** `singleDataTransfer` once Rd and the address operands are decoded. */
  lemma TransferOfDecoded(e: seq<Entry>, ops: seq<string>, instNo: nat, a: Assembled, ad: Addressing)
    requires |ops| == 6 && instNo < |a.out| && RegisterOf(ops[1]).Ok? && CalculateOffset(e, ops[2..6]) == Ok(ad)
    ensures EncodeTransfer(e, ops, instNo, a) == PlaceTransfer(e, ops, instNo, a, RegisterOf(ops[1]).value, ops[0] == "ldr", ad)
  {
  }

  /** The literal pool: the constant is written at the old end of the program, unless that is the instruction's own slot. */
  lemma PoolPlacesConstant(instNo: nat, a: Assembled, rd: Word, ad: Addressing)
    requires instNo < |a.out| && 0 <= a.eop < |a.out| && a.eop != instNo
    ensures PoolTransfer(instNo, a, rd, ad).Ok?
    ensures var r := PoolTransfer(instNo, a, rd, ad).value;
      r.out[a.eop] == ad.offset && r.out[instNo] == TransferWord(ad.i, ad.p, true, true, 15, rd, PoolOffset(instNo, a.eop))
      && forall k :: 0 <= k < |a.out| && k != a.eop && k != instNo ==> r.out[k] == a.out[k]
  {
  }

  /** Lines 460-466: table value 0, 1, 2 selects special, multiply, transfer; else 'b' or data processing. */
  function EncodeLine(e: seq<Entry>, ops: seq<string>, instNo: nat, a: Assembled): (r: Res<Assembled>)
    requires |ops| == 6 && instNo < |a.out|
    ensures r.Ok? ==> |r.value.out| == |a.out| && (0 <= a.eop ==> a.eop <= r.value.eop)
    ensures r.Ok? && 0 <= a.eop <= |a.out| ==> r.value.eop <= |a.out|
  {
    if Has(e, ops[0]) then
      var t := Lookup(e, ops[0]);
      if t == 0 then EncodeSpecial(e, ops, instNo, a)
      else if t == 1 then EncodeMultiply(ops, instNo, a)
      else if t == 2 then EncodeTransfer(e, ops, instNo, a)
      else Err(BadDispatch)
    else if CharAt(ops[0], 0) == 'b' then EncodeBranch(e, ops, instNo, a)
    else EncodeDataProcessing(e, ops, instNo, a)
  }

  /** No fixed key starts with 'b', so a mnemonic starting with 'b' is in the table only as a label. */
  lemma NoFixedKeyIsBranch()
    ensures forall k :: 0 <= k < |OpcodeEntries| ==> CharAt(OpcodeEntries[k].0, 0) != 'b'
  {
  }

  /** No fixed key is a data-processing mnemonic without its '$'. */
  lemma NoFixedKeyIsMnemonic()
    ensures forall i, k :: 0 <= i < |OpcodeValues| && 0 <= k < |OpcodeEntries| ==> OpcodeEntries[k].0 != OpcodeValues[i].0[1..]
  {
  }

  /** "lsl" and "andeq" reach `special` when no label takes their name. */
  lemma LineReachesSpecial(labels: seq<Entry>, ops: seq<string>, instNo: nat, a: Assembled)
    requires |ops| == 6 && instNo < |a.out| && (ops[0] == "lsl" || ops[0] == "andeq") && !Has(labels, ops[0])
    ensures EncodeLine(labels + OpcodeEntries, ops, instNo, a) == EncodeSpecial(labels + OpcodeEntries, ops, instNo, a)
  {
    DispatchValue(labels, if ops[0] == "lsl" then 0 else 1);
  }

  /** "mul" and "mla" reach `multiply` when no label takes their name. */
  lemma LineReachesMultiply(labels: seq<Entry>, ops: seq<string>, instNo: nat, a: Assembled)
    requires |ops| == 6 && instNo < |a.out| && (ops[0] == "mul" || ops[0] == "mla") && !Has(labels, ops[0])
    ensures EncodeLine(labels + OpcodeEntries, ops, instNo, a) == EncodeMultiply(ops, instNo, a)
  {
    DispatchValue(labels, if ops[0] == "mul" then 2 else 3);
  }

  /** "ldr" and "str" reach `singleDataTransfer` when no label takes their name. */
  lemma LineReachesTransfer(labels: seq<Entry>, ops: seq<string>, instNo: nat, a: Assembled)
    requires |ops| == 6 && instNo < |a.out| && (ops[0] == "ldr" || ops[0] == "str") && !Has(labels, ops[0])
    ensures EncodeLine(labels + OpcodeEntries, ops, instNo, a) == EncodeTransfer(labels + OpcodeEntries, ops, instNo, a)
  {
    DispatchValue(labels, if ops[0] == "ldr" then 4 else 5);
  }

  /** A mnemonic starting with 'b' that no label takes reaches `branch`. */
  lemma LineReachesBranch(labels: seq<Entry>, ops: seq<string>, instNo: nat, a: Assembled)
    requires |ops| == 6 && instNo < |a.out| && CharAt(ops[0], 0) == 'b' && !Has(labels, ops[0])
    ensures EncodeLine(labels + OpcodeEntries, ops, instNo, a) == EncodeBranch(labels + OpcodeEntries, ops, instNo, a)
  {
    LookupPastPrefix(labels, OpcodeEntries, ops[0]);
    NoFixedKeyIsBranch();
  }

  /**
    A data-processing mnemonic that no label takes reaches `dataProcessing`,
    which finds the opcode of its '$' entry.
  */
  lemma LineReachesDataProcessing(labels: seq<Entry>, ops: seq<string>, instNo: nat, a: Assembled, i: nat)
    requires |ops| == 6 && instNo < |a.out| && i < |OpcodeValues| && ops[0] == OpcodeValues[i].0[1..]
    requires !Has(labels, ops[0]) && !Has(labels, OpcodeValues[i].0)
    ensures EncodeLine(labels + OpcodeEntries, ops, instNo, a) == EncodeDataProcessing(labels + OpcodeEntries, ops, instNo, a)
    ensures DollarOpcode(labels + OpcodeEntries, ops[0]) == OpcodeValues[i].1
  {
    LookupPastPrefix(labels, OpcodeEntries, ops[0]);
    NoFixedKeyIsMnemonic();
    assert CharAt(ops[0], 0) != 'b';
    OpcodeValue(labels, i);
    assert "$" + ops[0] == OpcodeValues[i].0;
  }

  /** A bare "b" always branches: condition 14 ("al"). */
  lemma BareBranchAlways(labels: seq<Entry>, ops: seq<string>, instNo: nat, prev: Word)
    requires |ops| == 6 && ops[0] == "b" && !Has(labels, "al")
    ensures BranchWord(labels + OpcodeEntries, ops, instNo, prev) == BranchFields(prev, 14, Lookup(labels + OpcodeEntries, ops[1]), instNo)
  {
    ConditionValue(labels, 6);
  }

  /** "b" followed by a condition name branches on that condition's ARM code. */
  lemma BranchOnCondition(labels: seq<Entry>, ops: seq<string>, instNo: nat, prev: Word, i: nat)
    requires |ops| == 6 && i < |ConditionCodes| && ops[0] == "b" + ConditionCodes[i].0 && !Has(labels, ConditionCodes[i].0)
    ensures BranchWord(labels + OpcodeEntries, ops, instNo, prev)
      == BranchFields(prev, ConditionCodes[i].1, Lookup(labels + OpcodeEntries, ops[1]), instNo)
  {
    ConditionValue(labels, i);
    assert CondKey(ops[0]) == ConditionCodes[i].0;
  }

  /** What `tokenize` is relied on for: every instruction line of the program fits the 6x20 slots. */
  predicate InstructionsFit(lines: seq<string>)
  {
    forall k :: 0 <= k < |lines| && k < ProgramEnd(lines, 0) && !IsLabel(lines[k]) ==> FitsOperandSlots(lines[k])
  }

  lemma {:induction false} ProgramEndStep(lines: seq<string>, from: nat, k: nat)
    requires from <= k <= ProgramEnd(lines, from)
    ensures ProgramEnd(lines, k) == ProgramEnd(lines, from)
    decreases k - from
  {
    if from < k {
      ProgramEndStep(lines, from + 1, k);
    }
  }

  /** Pass 2 from line `lineNo`, instruction `instNo`, to the first empty line. */
  function AssembleFrom(e: seq<Entry>, lines: seq<string>, lineNo: nat, instNo: nat, a: Assembled): (r: Res<Assembled>)
    requires |lines| < Capacity && instNo <= lineNo <= ProgramEnd(lines, 0)
    requires |a.out| == Capacity && 0 <= a.eop <= Capacity
    requires InstructionsFit(lines)
    ensures r.Ok? ==> |r.value.out| == Capacity && a.eop <= r.value.eop <= Capacity
    decreases |lines| - lineNo, 2
  {
    if CharAt(Line(lines, lineNo), 0) == '\0' then Ok(a)
    else
      ProgramEndStep(lines, 0, lineNo);
      AssembleLineAt(e, lines, lineNo, instNo, a)
  }

  /** Pass 2 at a line of the program: a label is skipped, an instruction is encoded. */
  function AssembleLineAt(e: seq<Entry>, lines: seq<string>, lineNo: nat, instNo: nat, a: Assembled): (r: Res<Assembled>)
    requires |lines| < Capacity && instNo <= lineNo < ProgramEnd(lines, 0) && lineNo < |lines|
    requires |a.out| == Capacity && 0 <= a.eop <= Capacity
    requires InstructionsFit(lines)
    ensures r.Ok? ==> |r.value.out| == Capacity && a.eop <= r.value.eop <= Capacity
    decreases |lines| - lineNo, 1
  {
    if IsLabel(lines[lineNo]) then AssembleFrom(e, lines, lineNo + 1, instNo, a)
    else AssembleInstruction(e, lines, lineNo, instNo, a)
  }

  /** Pass 2 at an instruction line: encode it at `instNo`, then go on with the next line. */
  function AssembleInstruction(e: seq<Entry>, lines: seq<string>, lineNo: nat, instNo: nat, a: Assembled): (r: Res<Assembled>)
    requires |lines| < Capacity && instNo <= lineNo < ProgramEnd(lines, 0) && lineNo < |lines|
    requires |a.out| == Capacity && 0 <= a.eop <= Capacity
    requires InstructionsFit(lines) && !IsLabel(lines[lineNo])
    ensures r.Ok? ==> |r.value.out| == Capacity && a.eop <= r.value.eop <= Capacity
    decreases |lines| - lineNo, 0
  {
    var a' :- EncodeLine(e, OperandSlots(lines[lineNo]), instNo, a);
    AssembleFrom(e, lines, lineNo + 1, instNo + 1, a')
  }

  /** A label line of the program only moves pass 2 on to the next line. */
  lemma AssembleFromLabel(e: seq<Entry>, lines: seq<string>, lineNo: nat, instNo: nat, a: Assembled)
    requires |lines| < Capacity && instNo <= lineNo <= ProgramEnd(lines, 0)
    requires |a.out| == Capacity && 0 <= a.eop <= Capacity
    requires InstructionsFit(lines)
    requires CharAt(Line(lines, lineNo), 0) != '\0' && lineNo < |lines| && IsLabel(lines[lineNo])
    ensures lineNo + 1 <= ProgramEnd(lines, 0)
    ensures AssembleFrom(e, lines, lineNo, instNo, a) == AssembleFrom(e, lines, lineNo + 1, instNo, a)
  {
    ProgramEndStep(lines, 0, lineNo);
    assert AssembleFrom(e, lines, lineNo, instNo, a) == AssembleLineAt(e, lines, lineNo, instNo, a);
  }

  /** An instruction line of the program is encoded at `instNo`, and pass 2 goes on from the result. */
  lemma AssembleFromInstruction(e: seq<Entry>, lines: seq<string>, lineNo: nat, instNo: nat, a: Assembled, a': Assembled)
    requires |lines| < Capacity && instNo <= lineNo <= ProgramEnd(lines, 0)
    requires |a.out| == Capacity && 0 <= a.eop <= Capacity
    requires InstructionsFit(lines)
    requires CharAt(Line(lines, lineNo), 0) != '\0' && lineNo < |lines| && !IsLabel(lines[lineNo])
    requires FitsOperandSlots(lines[lineNo])
    requires EncodeLine(e, OperandSlots(lines[lineNo]), instNo, a) == Ok(a')
    ensures lineNo + 1 <= ProgramEnd(lines, 0)
    ensures |a'.out| == Capacity && 0 <= a'.eop <= Capacity
    ensures AssembleFrom(e, lines, lineNo, instNo, a) == AssembleFrom(e, lines, lineNo + 1, instNo + 1, a')
  {
    ProgramEndStep(lines, 0, lineNo);
    assert AssembleFrom(e, lines, lineNo, instNo, a) == AssembleLineAt(e, lines, lineNo, instNo, a);
    assert AssembleLineAt(e, lines, lineNo, instNo, a) == AssembleInstruction(e, lines, lineNo, instNo, a);
  }

  /** An instruction line that fails to encode stops pass 2 with its error. */
  lemma AssembleFromError(e: seq<Entry>, lines: seq<string>, lineNo: nat, instNo: nat, a: Assembled, f: AsmError)
    requires |lines| < Capacity && instNo <= lineNo <= ProgramEnd(lines, 0)
    requires |a.out| == Capacity && 0 <= a.eop <= Capacity
    requires InstructionsFit(lines)
    requires CharAt(Line(lines, lineNo), 0) != '\0' && lineNo < |lines| && !IsLabel(lines[lineNo])
    requires FitsOperandSlots(lines[lineNo])
    requires EncodeLine(e, OperandSlots(lines[lineNo]), instNo, a) == Err(f)
    ensures AssembleFrom(e, lines, lineNo, instNo, a) == Err(f)
  {
    ProgramEndStep(lines, 0, lineNo);
    assert AssembleFrom(e, lines, lineNo, instNo, a) == AssembleLineAt(e, lines, lineNo, instNo, a);
    assert AssembleLineAt(e, lines, lineNo, instNo, a) == AssembleInstruction(e, lines, lineNo, instNo, a);
  }

  /** The table entries `pushOpcodes` appends, in order. */
  const OpcodeEntries: seq<Entry> := DispatchEntries + OpcodeValues + ShiftTypes + ConditionCodes

  /** Lines 405-410: the mnemonics dispatched through the table of three handlers. */
  const DispatchEntries: seq<Entry> := [("lsl", 0), ("andeq", 0), ("mul", 1), ("mla", 1), ("ldr", 2), ("str", 2)]

  /** Lines 413-422: the data-processing opcodes, under '$' and the mnemonic. */
  const OpcodeValues: seq<Entry> := [
    ("$and", 0), ("$eor", 1), ("$sub", 2), ("$rsb", 3), ("$add", 4), ("$orr", 12),
    ("$mov", 13), ("$tst", 8), ("$teq", 9), ("$cmp", 10)]

  /** Lines 426-428: shift types; "lsl" is already present with 0. */
  const ShiftTypes: seq<Entry> := [("lsr", 1), ("asr", 8), ("ror", 9)]

  /** Lines 431-437: condition codes. */
  const ConditionCodes: seq<Entry> := [("eq", 0), ("ne", 1), ("ge", 10), ("lt", 11), ("gt", 12), ("le", 13), ("al", 14)]

  /** `lsl` comes first among the fixed entries, with value 0, when no label takes the name. */
  lemma LslValue(labels: seq<Entry>)
    requires !Has(labels, "lsl")
    ensures Has(labels + OpcodeEntries, "lsl") && Lookup(labels + OpcodeEntries, "lsl") == 0
  {
    LookupPastPrefix(labels, OpcodeEntries, "lsl");
    assert OpcodeEntries[0] == ("lsl", 0);
  }

  /** A name of `ShiftTypes` looks up to its value there when no label takes the name. */
  lemma ShiftTypeValue(labels: seq<Entry>, i: nat)
    requires i < |ShiftTypes| && !Has(labels, ShiftTypes[i].0)
    ensures Has(labels + OpcodeEntries, ShiftTypes[i].0) && Lookup(labels + OpcodeEntries, ShiftTypes[i].0) == ShiftTypes[i].1
  {
    FixedEntryValue(labels, 16 + i);
    assert OpcodeEntries[16 + i] == ShiftTypes[i];
  }

  /**
    The shift names read from a table of labels followed by the fixed
    entries, when no label takes the name: lsl 0 and lsr 1 (the ARM shift
    types), asr 8 and ror 9 (the values `pushOpcodes` gives them, not the
    ARM types 2 and 3).
  */
  lemma ShiftNameValues(labels: seq<Entry>)
    requires !Has(labels, "lsl") && !Has(labels, "lsr") && !Has(labels, "asr") && !Has(labels, "ror")
    ensures Has(labels + OpcodeEntries, "lsl") && Lookup(labels + OpcodeEntries, "lsl") == 0
    ensures Has(labels + OpcodeEntries, "lsr") && Lookup(labels + OpcodeEntries, "lsr") == 1
    ensures Has(labels + OpcodeEntries, "asr") && Lookup(labels + OpcodeEntries, "asr") == 8
    ensures Has(labels + OpcodeEntries, "ror") && Lookup(labels + OpcodeEntries, "ror") == 9
  {
    LslValue(labels);
    ShiftTypeValue(labels, 0);
    ShiftTypeValue(labels, 1);
    ShiftTypeValue(labels, 2);
  }

  /** No two fixed entries share a key. */
  lemma FixedKeysDistinct()
    ensures forall j, k :: 0 <= j < k < |OpcodeEntries| ==> OpcodeEntries[j].0 != OpcodeEntries[k].0
  {
  }

  /** The `i`-th fixed entry is what its key finds, when no label takes the key. */
  lemma FixedEntryValue(labels: seq<Entry>, i: nat)
    requires i < |OpcodeEntries| && !Has(labels, OpcodeEntries[i].0)
    ensures Has(labels + OpcodeEntries, OpcodeEntries[i].0) && Lookup(labels + OpcodeEntries, OpcodeEntries[i].0) == OpcodeEntries[i].1
  {
    var key := OpcodeEntries[i].0;
    LookupPastPrefix(labels, OpcodeEntries, key);
    FixedKeysDistinct();
    assert !Has(OpcodeEntries[..i], key);
    assert OpcodeEntries == OpcodeEntries[..i] + OpcodeEntries[i..];
    LookupPastPrefix(OpcodeEntries[..i], OpcodeEntries[i..], key);
    assert OpcodeEntries[i..][0] == OpcodeEntries[i];
  }

  /** A name of `DispatchEntries` selects its handler (0, 1 or 2) when no label takes the name. */
  lemma DispatchValue(labels: seq<Entry>, i: nat)
    requires i < |DispatchEntries| && !Has(labels, DispatchEntries[i].0)
    ensures Has(labels + OpcodeEntries, DispatchEntries[i].0) && Lookup(labels + OpcodeEntries, DispatchEntries[i].0) == DispatchEntries[i].1
  {
    FixedEntryValue(labels, i);
    assert OpcodeEntries[i] == DispatchEntries[i];
  }

  /** A '$' name of `OpcodeValues` looks up to its ARM opcode when no label takes the name. */
  lemma OpcodeValue(labels: seq<Entry>, i: nat)
    requires i < |OpcodeValues| && !Has(labels, OpcodeValues[i].0)
    ensures Has(labels + OpcodeEntries, OpcodeValues[i].0) && Lookup(labels + OpcodeEntries, OpcodeValues[i].0) == OpcodeValues[i].1
  {
    FixedEntryValue(labels, 6 + i);
    assert OpcodeEntries[6 + i] == OpcodeValues[i];
  }

  /** A condition name looks up to its ARM condition code when no label takes the name. */
  lemma ConditionValue(labels: seq<Entry>, i: nat)
    requires i < |ConditionCodes| && !Has(labels, ConditionCodes[i].0)
    ensures Has(labels + OpcodeEntries, ConditionCodes[i].0) && Lookup(labels + OpcodeEntries, ConditionCodes[i].0) == ConditionCodes[i].1
  {
    FixedEntryValue(labels, 19 + i);
    assert OpcodeEntries[19 + i] == ConditionCodes[i];
  }

  /** The output array as the program starts: a zero-filled global. */
  function Zeros(): seq<Word>
  {
    seq(Capacity, _ => 0)
  }

  /** The symbol table pass 2 works with: the labels of pass 1, then the fixed tables. */
  function SymbolsOf(lines: seq<string>): seq<Entry>
  {
    LabelEntries(Program(lines)) + OpcodeEntries
  }

  /** `main` without the file I/O: the words `writeFile` would write, or why assembly stops. */
  function AssembleProgram(lines: seq<string>): Res<seq<Word>>
    requires |lines| < Capacity && InstructionsFit(lines)
  {
    var a :- AssembleFrom(SymbolsOf(lines), lines, 0, 0, Assembled(Zeros(), InstructionCount(Program(lines))));
    Ok(a.out[..a.eop])
  }

  // ---------------------------------------------------------------------------
  // The global state and the C functions that change it

  class State {
    /** `state.input`, as read by `readFile`. */
    const input: seq<string>
    /** `state.output`. */
    const output: array<Word>
    /** `state.symbolTable`. */
    const table: Table
    /** `state.endOfProgram`. */
    var endOfProgram: int

    ghost predicate Valid()
      reads this
    {
      output.Length == Capacity
    }

    /** The state `main` starts from: the lines read, a zero output array and an empty table. */
    constructor (lines: seq<string>)
      ensures Valid() && input == lines && output[..] == Zeros() && table.entries == [] && endOfProgram == 0
      ensures fresh(output) && fresh(table)
    {
      input := lines;
      output := new Word[Capacity](_ => 0);
      table := new Table();
      endOfProgram := 0;
      new;
      assert output[..] == Zeros();
    }

    /** `firstPass`. */
    method FirstPass()
      requires |input| < Capacity
      modifies this, table
      ensures table.entries == old(table.entries) + LabelEntries(Program(input))
      ensures endOfProgram == InstructionCount(Program(input))
    {
      var lineNo := 0;
      endOfProgram := 0;
      ghost var start := table.entries;
      while CharAt(Line(input, lineNo), 0) != '\0'
        invariant lineNo <= ProgramEnd(input, 0) && lineNo <= |input|
        invariant table.entries == start + LabelEntries(input[..lineNo])
        invariant endOfProgram == InstructionCount(input[..lineNo])
        decreases |input| - lineNo
      {
        ProgramEndStep(input, 0, lineNo);
        PrefixStep(input, lineNo);
        ScanLine(input[lineNo]);
        lineNo := lineNo + 1;
      }
      ProgramEndStep(input, 0, lineNo);
      assert input[..lineNo] == Program(input);
    }

    /** Lines 66-73 of `firstPass` for one line: a label is pushed with the byte address of the next instruction. */
    method ScanLine(line: string)
      modifies this, table
      ensures table.entries == old(table.entries) +
                (if IsLabel(line) then [(LabelKey(line), ByteAddress(old(endOfProgram)))] else [])
      ensures endOfProgram == old(endOfProgram) + (if IsLabel(line) then 0 else 1)
    {
      if IsLabel(line) {
        table.Push(LabelKey(line), ByteAddress(endOfProgram));
        endOfProgram := endOfProgram - 1;
      }
      endOfProgram := endOfProgram + 1;
    }

    /** The `for` loop of lines 113-120: the least even rotation that makes `x` fit 8 bits. */
    static method FindRotation(x: Word) returns (representable: bool, rotate: Word, rep: Word)
      ensures representable <==> LeastRotation(x).Some?
      ensures representable ==> rotate == LeastRotation(x).value && rep == RotateLeft(x, rotate)
    {
      representable := false;
      rep := 0;
      rotate := 0;
      while rotate <= 30
        invariant rotate % 2 == 0 && rotate <= 32
        invariant LeastRotation(x) == RotationFrom(x, rotate)
        decreases 32 - rotate as int
      {
        rep := RotateLeft(x, rotate);
        if rep == rep & 0xFF {
          representable := true;
          return;
        }
        rotate := rotate + 2;
      }
    }

    /** Lines 84-104: the S bit and the register fields, and where operand 2 starts. */
    method RegisterFieldsOf(opcode: Word, ops: array<string>) returns (r: Res<(Word, nat)>)
      requires ops.Length == 6
      ensures r == RegisterFields(opcode, ops[..])
    {
      var w: Word := 0;
      if 8 <= opcode <= 10 {
        w := SetBits(w, 1, 20, 1);
        var rn := GetRegister(ops[1]);
        if rn.None? { return Err(BadRegister); }
        w := SetBits(w, rn.value, 19, 4);
        return Ok((w, 2));
      } else if opcode == 13 {
        var rd := GetRegister(ops[1]);
        if rd.None? { return Err(BadRegister); }
        w := SetBits(w, rd.value, 15, 4);
        return Ok((w, 2));
      } else {
        var rd := GetRegister(ops[1]);
        if rd.None? { return Err(BadRegister); }
        w := SetBits(w, rd.value, 15, 4);
        var rn := GetRegister(ops[2]);
        if rn.None? { return Err(BadRegister); }
        w := SetBits(w, rn.value, 19, 4);
        return Ok((w, 3));
      }
    }

    /** Lines 106-134: the rotated immediate `x` written into `w`. */
    static method ImmediateOperand(x: Word, w0: Word) returns (r: Res<Word>)
      ensures r == ImmediateBits(x, w0)
    {
      var representable, rotate, rep := FindRotation(x);
      if !representable { return Err(Unrepresentable); }
      var w := w0;
      w := SetBits(w, 1, 25, 1);
      w := SetBits(w, rep, 7, 8);
      w := SetBits(w, rotate / 2, 11, 4);
      return Ok(w);
    }

    /** Lines 136-157: the register `ops[k]` and its optional shift written into `w`. */
    method ShiftedRegister(ops: array<string>, k: nat, w0: Word) returns (r: Res<Word>)
      requires ops.Length == 6 && 2 <= k <= 3
      ensures r == ShiftedRegisterBits(table.entries, ops[..], k, w0)
    {
      var rm := GetRegister(ops[k]);
      if rm.None? { return Err(BadRegister); }
      var w := SetBits(w0, rm.value, 3, 4);
      var shifted := table.Exists(ops[k + 1]);
      if shifted {
        var shiftType := table.GetValue(ops[k + 1]);
        w := SetBits(w, shiftType, 6, 2);
        if CharAt(ops[k + 2], 0) == '#' {
          w := SetBits(w, ImmediateOf(ops[k + 2]), 11, 5);
        } else {
          w := SetBits(w, 1, 4, 1);
          var rs := GetRegister(ops[k + 2]);
          if rs.None? { return Err(BadRegister); }
          w := SetBits(w, rs.value, 11, 4);
        }
      }
      return Ok(w);
    }

    /** Lines 106-157: operand 2 at `ops[k]`, written into `w`. */
    method Operand2Of(ops: array<string>, k: nat, w: Word) returns (r: Res<Word>)
      requires ops.Length == 6 && 2 <= k <= 3
      ensures r == Operand2Bits(table.entries, ops[..], k, w)
    {
      if CharAt(ops[k], 0) == '#' {
        r := ImmediateOperand(ImmediateOf(ops[k]), w);
      } else {
        r := ShiftedRegister(ops, k, w);
      }
    }

    /** `dataProcessing(instNo, operands)`. */
    method DataProcessing(instNo: nat, ops: array<string>) returns (r: Res<Word>)
      requires Valid() && instNo < Capacity && ops.Length == 6
      modifies output
      ensures r == DataProcessingWord(table.entries, ops[..])
      ensures output[..] == if r.Ok? then old(output[..])[instNo := r.value] else old(output[..])
    {
      var opcode := table.GetValue("$" + ops[0]);
      var fields := RegisterFieldsOf(opcode, ops);
      if fields.Err? { return Err(fields.error); }
      var op2 := Operand2Of(ops, fields.value.1, fields.value.0);
      if op2.Err? { return Err(op2.error); }
      var w := op2.value;
      w := SetBits(w, 14, 31, 4);
      w := SetBits(w, opcode, 24, 4);
      output[instNo] := w;
      return Ok(w);
    }

    /** `multiply(instNo, operands)`. */
    method Multiply(instNo: nat, ops: array<string>) returns (r: Res<Word>)
      requires Valid() && instNo < Capacity && ops.Length == 6
      modifies output
      ensures r == MultiplyWord(ops[..])
      ensures output[..] == if r.Ok? then old(output[..])[instNo := r.value] else old(output[..])
    {
      var w: Word := 0;
      w := SetBits(w, 14, 31, 4);
      w := SetBits(w, 9, 7, 4);
      var rd := GetRegister(ops[1]);
      if rd.None? { return Err(BadRegister); }
      w := SetBits(w, rd.value, 19, 4);
      var rm := GetRegister(ops[2]);
      if rm.None? { return Err(BadRegister); }
      w := SetBits(w, rm.value, 3, 4);
      var rs := GetRegister(ops[3]);
      if rs.None? { return Err(BadRegister); }
      w := SetBits(w, rs.value, 11, 4);
      if ops[0] == "mla" {
        w := SetBits(w, 1, 21, 1);
        var rn := GetRegister(ops[4]);
        if rn.None? { return Err(BadRegister); }
        w := SetBits(w, rn.value, 15, 4);
      }
      output[instNo] := w;
      return Ok(w);
    }

    /** `decodeMultiplicand(expression, num)`. */
    method DecodeMultiplicand(command: string, amount: string, num: Word) returns (r: Res<Word>)
      ensures r == Multiplicand(table.entries, command, amount, num)
    {
      var n := GetNumber(amount);
      if n.Err? { return Err(n.error); }
      var offset: Word := 0;
      var known := table.Exists(command);
      if known {
        var shiftType := table.GetValue(command);
        offset := SetBits(offset, shiftType, 11, 4);
      }
      offset := SetBits(offset, n.value.value, 7, 4);
      offset := SetBits(offset, num, 3, 4);
      return Ok(offset);
    }

    /** Lines 279-286: the first offset operand, inside or outside the brackets. */
    static method FirstOffsetOf(range: nat, o: Offsets, operand: string) returns (r: Res<Offsets>)
      ensures r == FirstOffset(range, o, operand)
    {
      if CharAt(operand, 0) == '\0' {
        return Ok(o);
      }
      var n := GetNumber(operand);
      if n.Err? { return Err(n.error); }
      if 1 <= range {
        return Ok(o.(pre := n.value.value, i := n.value.isRegister, u := n.value.sign));
      } else {
        return Ok(o.(post := n.value.value, i := n.value.isRegister, u := n.value.sign, p := false));
      }
    }

    /** Lines 287-293: the second offset operand, a shift inside the brackets or an offset after them. */
    method SecondOffsetOf(range: nat, o: Offsets, operand: string, amount: string) returns (r: Res<Offsets>)
      ensures r == SecondOffset(table.entries, range, o, operand, amount)
    {
      if CharAt(operand, 0) == '\0' {
        return Ok(o);
      }
      if 2 <= range {
        var m := DecodeMultiplicand(operand, amount, o.pre);
        if m.Err? { return Err(m.error); }
        return Ok(o.(pre := m.value));
      }
      var n := GetNumber(operand);
      if n.Err? { return Err(n.error); }
      return Ok(o.(post := n.value.value, i := n.value.isRegister, u := n.value.sign));
    }

    /**
      `calculateOffsetValue(expression, &Rn, &offset, &I, &P, &U)`.  The NULs
      `getNumber` writes into the operands are never read again, so the
      operands are taken by value.
    */
    method CalculateOffsetValue(expr: seq<string>) returns (r: Res<Addressing>)
      requires |expr| == 4
      ensures r == CalculateOffset(table.entries, expr)
    {
      if CharAt(expr[0], 0) == '=' {
        var n := GetNumber(expr[0]);
        if n.Err? { return Err(n.error); }
        return Ok(Addressing(0xFFFF_FFFF, n.value.value, n.value.isRegister, true, n.value.sign));
      }
      var range := 0;
      while range < 4 && ']' !in expr[range]
        invariant 0 <= range <= 4
        invariant BracketRange(expr, 0) == BracketRange(expr, range)
      {
        range := range + 1;
      }
      if range == 4 { return Err(NoClosingBracket); }
      assert BracketRange(expr, 0) == Ok(range);
      var base := GetNumber(Drop1(expr[0]));
      if base.Err? { return Err(base.error); }
      var o1 := FirstOffsetOf(range, Offsets(0, 0, false, true, base.value.sign), expr[1]);
      if o1.Err? { return Err(o1.error); }
      var o2 := SecondOffsetOf(range, o1.value, expr[2], expr[3]);
      if o2.Err? { return Err(o2.error); }
      return Ok(Address(base.value.value, o2.value));
    }

    /** `translateDataTransferToDataProcessing(operands, offset)`. */
    static method Translate(ops: array<string>, offset: nat)
      requires ops.Length == 6
      modifies ops
      ensures ops[..] == MovOperands(old(ops[..]), offset)
    {
      ops[0] := "mov";
      ops[2] := "#" + FormatDecimal(offset);
    }

    /** `singleDataTransfer(instNo, operands)`. */
    method SingleDataTransfer(instNo: nat, ops: array<string>) returns (r: Res<Assembled>)
      requires Valid() && instNo < Capacity && ops.Length == 6
      modifies output, ops, this
      ensures r == EncodeTransfer(table.entries, old(ops[..]), instNo, Assembled(old(output[..]), old(endOfProgram)))
      ensures r.Ok? ==> output[..] == r.value.out && endOfProgram == r.value.eop
    {
      var rd := GetRegister(ops[1]);
      if rd.None? { return Err(BadRegister); }
      var l := ops[0] == "ldr";
      var ad := CalculateOffsetValue(ops[2..6]);
      if ad.Err? { return Err(ad.error); }
      r := Place(instNo, ops, rd.value, l, ad.value);
    }

    /** Lines 316-366 once the operands are decoded. */
    method Place(instNo: nat, ops: array<string>, rd: Word, l: bool, ad: Addressing) returns (r: Res<Assembled>)
      requires Valid() && instNo < Capacity && ops.Length == 6
      modifies output, ops, this
      ensures r == PlaceTransfer(table.entries, old(ops[..]), instNo, Assembled(old(output[..]), old(endOfProgram)), rd, l, ad)
      ensures r.Ok? ==> output[..] == r.value.out && endOfProgram == r.value.eop
    {
      ghost var a := Assembled(output[..], endOfProgram);
      ghost var ops0 := ops[..];
      if ad.offset < 0xFF && l && ad.rn == 0xFFFF_FFFF {
        PlaceAsMov(table.entries, ops0, instNo, a, rd, l, ad);
        r := Mov(instNo, ops, ad.offset as nat);
      } else {
        PlaceOtherwise(table.entries, ops0, instNo, a, rd, l, ad);
        r := PoolOrTransfer(instNo, rd, l, ad);
      }
    }

    /** Lines 321-366 past the `mov` rewrite: the literal pool for a large loaded constant, else the transfer word. */
    method PoolOrTransfer(instNo: nat, rd: Word, l: bool, ad: Addressing) returns (r: Res<Assembled>)
      requires Valid() && instNo < Capacity
      modifies output, this
      ensures r == PoolOrDirect(instNo, Assembled(old(output[..]), old(endOfProgram)), rd, l, ad)
      ensures r.Ok? ==> output[..] == r.value.out && endOfProgram == r.value.eop
    {
      if l && ad.offset >= 0xFF_FFFF {
        r := Pool(instNo, rd, ad);
      } else {
        output[instNo] := TransferWord(ad.i, ad.p, ad.u, l, ad.rn, rd, ad.offset);
        r := Ok(Assembled(output[..], endOfProgram));
      }
    }

    /** Lines 316-319: a loaded constant below 0xFF is assembled as `mov rd, #constant` instead. */
    method Mov(instNo: nat, ops: array<string>, constant: nat) returns (r: Res<Assembled>)
      requires Valid() && instNo < Capacity && ops.Length == 6
      modifies output, ops
      ensures r == EncodeDataProcessing(table.entries, MovOperands(old(ops[..]), constant), instNo, Assembled(old(output[..]), endOfProgram))
      ensures r.Ok? ==> output[..] == r.value.out
    {
      Translate(ops, constant);
      var w := DataProcessing(instNo, ops);
      if w.Err? { return Err(w.error); }
      return Ok(Assembled(output[..], endOfProgram));
    }

    /** Lines 321-366 for a constant placed in the literal pool. */
    method Pool(instNo: nat, rd: Word, ad: Addressing) returns (r: Res<Assembled>)
      requires Valid() && instNo < Capacity
      modifies output, this
      ensures r == PoolTransfer(instNo, Assembled(old(output[..]), old(endOfProgram)), rd, ad)
      ensures r.Ok? ==> output[..] == r.value.out && endOfProgram == r.value.eop
    {
      if !(0 <= endOfProgram < Capacity) { return Err(PoolOverflow); }
      output[endOfProgram] := ad.offset;
      var offset := PoolOffset(instNo, endOfProgram);
      endOfProgram := endOfProgram + 1;
      output[instNo] := TransferWord(ad.i, ad.p, true, true, 15, rd, offset);
      return Ok(Assembled(output[..], endOfProgram));
    }

    /** `branch(instNo, operands)`: updates the fields of `output[instNo]` in place. */
    method Branch(instNo: nat, ops: array<string>)
      requires Valid() && instNo < Capacity && ops.Length == 6
      modifies output
      ensures output[..] == old(output[..])[instNo := BranchWord(table.entries, ops[..], instNo, old(output[instNo]))]
    {
      var cond := table.GetValue(CondKey(ops[0]));
      var target := table.GetValue(ops[1]);
      var w := BranchBits(output[instNo], cond, target, instNo);
      output[instNo] := w;
    }

    /** Lines 372-386: the fields of the branch word set one after the other. */
    static method BranchBits(prev: Word, cond: Word, target: Word, instNo: nat) returns (w: Word)
      ensures w == BranchFields(prev, cond, target, instNo)
    {
      w := SetBits(prev, cond, 31, 4);
      w := SetBits(w, 10, 27, 4);
      var offset := target - ByteAddress(instNo) - 8;
      offset := ArithmeticRight(offset, 2) & Mask(24);
      w := SetBits(w, offset, 23, 24);
    }

    /** `special(instNo, operands)`. */
    method Special(instNo: nat, ops: array<string>) returns (r: Res<Assembled>)
      requires Valid() && instNo < Capacity && ops.Length == 6
      modifies output, ops
      ensures r == EncodeSpecial(table.entries, old(ops[..]), instNo, Assembled(old(output[..]), endOfProgram))
      ensures r.Ok? ==> output[..] == r.value.out
    {
      if ops[0] == "andeq" {
        output[instNo] := 0;
      } else {
        ops[4] := ops[2];
        ops[3] := ops[0];
        ops[2] := ops[1];
        ops[0] := "mov";
        var w := DataProcessing(instNo, ops);
        if w.Err? { return Err(w.error); }
      }
      return Ok(Assembled(output[..], endOfProgram));
    }

    /** `pushOpcodes()`: the fixed entries pass 2 relies on, after the labels. */
    method PushOpcodes()
      modifies table
      ensures table.entries == old(table.entries) + OpcodeEntries
    {
      PushDispatch();
      PushOpcodeValues();
      PushShiftTypes();
      PushConditionCodes();
    }

    /** Lines 405-410 of `pushOpcodes`. */
    method PushDispatch()
      modifies table
      ensures table.entries == old(table.entries) + DispatchEntries
    {
      table.Push("lsl", 0);
      table.Push("andeq", 0);
      table.Push("mul", 1);
      table.Push("mla", 1);
      table.Push("ldr", 2);
      table.Push("str", 2);
    }

    /** Lines 413-422 of `pushOpcodes`. */
    method PushOpcodeValues()
      modifies table
      ensures table.entries == old(table.entries) + OpcodeValues
    {
      table.Push("$and", 0);
      table.Push("$eor", 1);
      table.Push("$sub", 2);
      table.Push("$rsb", 3);
      table.Push("$add", 4);
      table.Push("$orr", 12);
      table.Push("$mov", 13);
      table.Push("$tst", 8);
      table.Push("$teq", 9);
      table.Push("$cmp", 10);
    }

    /** Lines 426-428 of `pushOpcodes`. */
    method PushShiftTypes()
      modifies table
      ensures table.entries == old(table.entries) + ShiftTypes
    {
      table.Push("lsr", 1);
      table.Push("asr", 8);
      table.Push("ror", 9);
    }

    /** Lines 431-437 of `pushOpcodes`. */
    method PushConditionCodes()
      modifies table
      ensures table.entries == old(table.entries) + ConditionCodes
    {
      table.Push("eq", 0);
      table.Push("ne", 1);
      table.Push("ge", 10);
      table.Push("lt", 11);
      table.Push("gt", 12);
      table.Push("le", 13);
      table.Push("al", 14);
    }

    /** `secondPass`. */
    method SecondPass() returns (r: Res<Assembled>)
      requires Valid() && |input| < Capacity && InstructionsFit(input)
      requires 0 <= endOfProgram <= Capacity
      modifies this, output, table
      ensures table.entries == old(table.entries) + OpcodeEntries
      ensures r == AssembleFrom(table.entries, input, 0, 0, Assembled(old(output[..]), old(endOfProgram)))
      ensures r.Ok? ==> output[..] == r.value.out && endOfProgram == r.value.eop
    {
      PushOpcodes();
      r := EncodeLines();
    }

    /** The loop of `secondPass`: every instruction line of the program, encoded in turn. */
    method EncodeLines() returns (r: Res<Assembled>)
      requires Valid() && |input| < Capacity && InstructionsFit(input)
      requires 0 <= endOfProgram <= Capacity
      modifies this, output
      ensures r == AssembleFrom(table.entries, input, 0, 0, Assembled(old(output[..]), old(endOfProgram)))
      ensures r.Ok? ==> output[..] == r.value.out && endOfProgram == r.value.eop
    {
      var lineNo := 0;
      var instNo := 0;
      ghost var whole := AssembleFrom(table.entries, input, 0, 0, Assembled(output[..], endOfProgram));
      while CharAt(Line(input, lineNo), 0) != '\0'
        invariant instNo <= lineNo <= ProgramEnd(input, 0) && lineNo <= |input|
        invariant 0 <= endOfProgram <= Capacity
        invariant whole == AssembleFrom(table.entries, input, lineNo, instNo, Assembled(output[..], endOfProgram))
        decreases |input| - lineNo
      {
        ProgramEndStep(input, 0, lineNo);
        var line := input[lineNo];
        if IsLabel(line) {
          AssembleFromLabel(table.entries, input, lineNo, instNo, Assembled(output[..], endOfProgram));
          lineNo := lineNo + 1;
          continue;
        }
        var step := EncodeAt(lineNo, instNo);
        if step.Err? {
          return Err(step.error);
        }
        instNo := instNo + 1;
        lineNo := lineNo + 1;
      }
      return Ok(Assembled(output[..], endOfProgram));
    }

    /** One pass of the loop of `secondPass` at an instruction line, and what it leaves of the rest of pass 2. */
    method EncodeAt(lineNo: nat, instNo: nat) returns (r: Res<Assembled>)
      requires Valid() && |input| < Capacity && InstructionsFit(input)
      requires instNo <= lineNo < ProgramEnd(input, 0) && lineNo < |input| && !IsLabel(input[lineNo])
      requires 0 <= endOfProgram <= Capacity
      modifies this, output
      ensures r.Err? ==> AssembleFrom(table.entries, input, lineNo, instNo, Assembled(old(output[..]), old(endOfProgram))) == Err(r.error)
      ensures r.Ok? ==> output[..] == r.value.out && endOfProgram == r.value.eop && 0 <= endOfProgram <= Capacity
      ensures r.Ok? ==> AssembleFrom(table.entries, input, lineNo, instNo, Assembled(old(output[..]), old(endOfProgram)))
                        == AssembleFrom(table.entries, input, lineNo + 1, instNo + 1, r.value)
    {
      ghost var before := Assembled(output[..], endOfProgram);
      var line := input[lineNo];
      assert CharAt(Line(input, lineNo), 0) != '\0' by {
        ProgramEndStep(input, 0, lineNo);
      }
      r := AssembleLine(instNo, line);
      if r.Err? {
        AssembleFromError(table.entries, input, lineNo, instNo, before, r.error);
      } else {
        AssembleFromInstruction(table.entries, input, lineNo, instNo, before, r.value);
      }
    }

    /** Lines 455-466 for one instruction line: tokenize it and call its handler. */
    method AssembleLine(instNo: nat, line: string) returns (r: Res<Assembled>)
      requires Valid() && instNo < Capacity && FitsOperandSlots(line)
      requires 0 <= endOfProgram <= Capacity
      modifies this, output
      ensures r == EncodeLine(table.entries, OperandSlots(line), instNo, Assembled(old(output[..]), old(endOfProgram)))
      ensures r.Ok? ==> output[..] == r.value.out && endOfProgram == r.value.eop
    {
      var ops := new string[6];
      Tokenize(line, ops);
      r := Dispatch(instNo, ops);
    }

    /** Lines 458-466: the encoder a line goes to. */
    method Dispatch(instNo: nat, ops: array<string>) returns (r: Res<Assembled>)
      requires Valid() && instNo < Capacity && ops.Length == 6
      requires 0 <= endOfProgram <= Capacity
      modifies this, output, ops
      ensures r == EncodeLine(table.entries, old(ops[..]), instNo, Assembled(old(output[..]), old(endOfProgram)))
      ensures r.Ok? ==> output[..] == r.value.out && endOfProgram == r.value.eop
    {
      var known := table.Exists(ops[0]);
      if known {
        var t := table.GetValue(ops[0]);
        if t == 0 {
          r := Special(instNo, ops);
        } else if t == 1 {
          var w := Multiply(instNo, ops);
          if w.Err? { return Err(w.error); }
          r := Ok(Assembled(output[..], endOfProgram));
        } else if t == 2 {
          r := SingleDataTransfer(instNo, ops);
        } else {
          r := Err(BadDispatch);
        }
      } else if CharAt(ops[0], 0) == 'b' {
        Branch(instNo, ops);
        r := Ok(Assembled(output[..], endOfProgram));
      } else {
        var w := DataProcessing(instNo, ops);
        if w.Err? { return Err(w.error); }
        r := Ok(Assembled(output[..], endOfProgram));
      }
    }
  }

  /** `main` without the file I/O: both passes, then the words `writeFile` writes. */
  method AssembleLines(lines: seq<string>) returns (r: Res<seq<Word>>)
    requires |lines| < Capacity && InstructionsFit(lines)
    ensures r == AssembleProgram(lines)
  {
    var s := new State(lines);
    s.FirstPass();
    assert s.table.entries == LabelEntries(Program(lines));
    assert s.output[..] == Zeros();
    var a := s.SecondPass();
    assert s.table.entries == SymbolsOf(lines);
    if a.Err? { return Err(a.error); }
    assert s.output[..s.endOfProgram] == a.value.out[..a.value.eop];
    return Ok(s.output[..s.endOfProgram]);
  }
}
