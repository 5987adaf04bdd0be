/**
  Bit-field, barrel-shift and operand-token utilities shared by the assembler
  and the emulator (src/utils.c).

  A machine word is a `bv32` (C `uint32_t`).  Bit positions, field widths and
  shift amounts are words as well, as the C shift amounts are `uint32_t`.

  C leaves a shift by a negative count or by 32 or more undefined.  This model
  pins such a count down as "count mod 32", which is what the x86 shift
  instructions the program is compiled to do.  The right shift of a signed
  `int32_t` is arithmetic (sign-filling), as with gcc; `RotateRight` and
  `RotateLeft` keep that arithmetic shift exactly as the source writes them.
*/
module Utils {

  type Word = bv32

  /** A `char`-sized cell of memory. */
  type Byte = bv8

  datatype Option<T> = None | Some(value: T)

  /** The failure-compatible result of an operation that may stop the program. */
  datatype Result<T, E> = Ok(value: T) | Err(error: E) {
    predicate IsFailure() { Err? }
    function PropagateFailure<U>(): Result<U, E>
      requires Err?
    {
      Err(error)
    }
    function Extract(): T
      requires Ok?
    {
      value
    }
  }

  /** `(1 << n) - 1`: the low n bits set. */
  function Mask(n: Word): (m: Word)
    requires n <= 31
    ensures m < (1 as Word) << n
  {
    ((1 as Word) << n) - 1
  }

  /** Bit positions and widths under which `subByte`/`setBits` are defined. */
  predicate Field(start: Word, numBits: Word)
  {
    1 <= numBits <= 30 && numBits <= start + 1 && start <= 31
  }

  /** `bit(x, pos)`: whether bit `pos` of `x` is 1. */
  predicate Bit(x: Word, pos: Word)
    requires pos < 32
  {
    (x >> pos) & 1 == 1
  }

  /** A `bool` passed as a `uint32_t`. */
  function BitOf(b: bool): Word
  {
    if b then 1 else 0
  }

  /** `subByte(x, start, numBits)`: bits start..start-numBits+1 of `x`, as a number. */
  function SubByte(x: Word, start: Word, numBits: Word): (r: Word)
    requires Field(start, numBits)
    ensures r < (1 as Word) << numBits
  {
    (x >> (start - numBits + 1)) & Mask(numBits)
  }

  /**
    `setBits(&w, value, start, numBits)`: clears the field and ORs in `value`
    shifted to the field.  The value is NOT masked to the field width.
    The source updates `*instruction` in place; here the new word is returned
    and every caller assigns it back.
  */
  function SetBits(w: Word, value: Word, start: Word, numBits: Word): (r: Word)
    requires Field(start, numBits)
  {
    (w & !(Mask(numBits) << (start + 1 - numBits))) | (value << (start + 1 - numBits))
  }

  /**
    The (start, numBits) pairs the assembler and the emulator pass to
    `setBits` and `subByte`.
  */
  predicate SourceField(start: Word, numBits: Word)
  {
    (start == 3 && numBits == 4)
    || (start == 4 && numBits == 1)
    || (start == 6 && numBits == 2)
    || (start == 7 && numBits == 4)
    || (start == 7 && numBits == 8)
    || (start == 11 && numBits == 4)
    || (start == 11 && numBits == 5)
    || (start == 11 && numBits == 12)
    || (start == 15 && numBits == 4)
    || (start == 19 && numBits == 4)
    || (start == 20 && numBits == 1)
    || (start == 21 && numBits == 1)
    || (start == 22 && numBits == 2)
    || (start == 23 && numBits == 1)
    || (start == 23 && numBits == 24)
    || (start == 24 && numBits == 1)
    || (start == 24 && numBits == 4)
    || (start == 25 && numBits == 1)
    || (start == 27 && numBits == 2)
    || (start == 27 && numBits == 4)
    || (start == 31 && numBits == 4)
  }

  lemma SourceFieldsAreFields(start: Word, numBits: Word)
    requires SourceField(start, numBits)
    ensures Field(start, numBits)
  {
  }

  /**
    On every field the source uses, a value that fits the field reads back
    unchanged.  Each field is a separate case, so that every shift count is a
    constant.
  */
  lemma SetBitsThenSubByte(w: Word, value: Word, start: Word, numBits: Word)
    requires SourceField(start, numBits) && value < (1 as Word) << numBits
    ensures SubByte(SetBits(w, value, start, numBits), start, numBits) == value
  {
    if start == 3 && numBits == 4 { }
    else if start == 4 && numBits == 1 { }
    else if start == 6 && numBits == 2 { }
    else if start == 7 && numBits == 4 { }
    else if start == 7 && numBits == 8 { }
    else if start == 11 && numBits == 4 { }
    else if start == 11 && numBits == 5 { }
    else if start == 11 && numBits == 12 { }
    else if start == 15 && numBits == 4 { }
    else if start == 19 && numBits == 4 { }
    else if start == 20 && numBits == 1 { }
    else if start == 21 && numBits == 1 { }
    else if start == 22 && numBits == 2 { }
    else if start == 23 && numBits == 1 { }
    else if start == 23 && numBits == 24 { }
    else if start == 24 && numBits == 1 { }
    else if start == 24 && numBits == 4 { }
    else if start == 25 && numBits == 1 { }
    else if start == 27 && numBits == 2 { }
    else if start == 27 && numBits == 4 { }
    else if start == 31 && numBits == 4 { }
  }

  /** On every field the source uses, a value that fits the field leaves every bit outside the field unchanged. */
  lemma SetBitsFrame(w: Word, value: Word, start: Word, numBits: Word)
    requires SourceField(start, numBits) && value < (1 as Word) << numBits
    ensures var outside := !(Mask(numBits) << (start + 1 - numBits));
            SetBits(w, value, start, numBits) & outside == w & outside
  {
    if start == 3 && numBits == 4 {
      assert SetBits(w, value, start, numBits) & !(Mask(numBits) << (start + 1 - numBits))
        == w & !(Mask(numBits) << (start + 1 - numBits));
    }
    else if start == 4 && numBits == 1 {
      assert SetBits(w, value, start, numBits) & !(Mask(numBits) << (start + 1 - numBits))
        == w & !(Mask(numBits) << (start + 1 - numBits));
    }
    else if start == 6 && numBits == 2 {
      assert SetBits(w, value, start, numBits) & !(Mask(numBits) << (start + 1 - numBits))
        == w & !(Mask(numBits) << (start + 1 - numBits));
    }
    else if start == 7 && numBits == 4 {
      assert SetBits(w, value, start, numBits) & !(Mask(numBits) << (start + 1 - numBits))
        == w & !(Mask(numBits) << (start + 1 - numBits));
    }
    else if start == 7 && numBits == 8 {
      assert SetBits(w, value, start, numBits) & !(Mask(numBits) << (start + 1 - numBits))
        == w & !(Mask(numBits) << (start + 1 - numBits));
    }
    else if start == 11 && numBits == 4 {
      assert SetBits(w, value, start, numBits) & !(Mask(numBits) << (start + 1 - numBits))
        == w & !(Mask(numBits) << (start + 1 - numBits));
    }
    else if start == 11 && numBits == 5 {
      assert SetBits(w, value, start, numBits) & !(Mask(numBits) << (start + 1 - numBits))
        == w & !(Mask(numBits) << (start + 1 - numBits));
    }
    else if start == 11 && numBits == 12 {
      assert SetBits(w, value, start, numBits) & !(Mask(numBits) << (start + 1 - numBits))
        == w & !(Mask(numBits) << (start + 1 - numBits));
    }
    else if start == 15 && numBits == 4 {
      assert SetBits(w, value, start, numBits) & !(Mask(numBits) << (start + 1 - numBits))
        == w & !(Mask(numBits) << (start + 1 - numBits));
    }
    else if start == 19 && numBits == 4 {
      assert SetBits(w, value, start, numBits) & !(Mask(numBits) << (start + 1 - numBits))
        == w & !(Mask(numBits) << (start + 1 - numBits));
    }
    else if start == 20 && numBits == 1 {
      assert SetBits(w, value, start, numBits) & !(Mask(numBits) << (start + 1 - numBits))
        == w & !(Mask(numBits) << (start + 1 - numBits));
    }
    else if start == 21 && numBits == 1 {
      assert SetBits(w, value, start, numBits) & !(Mask(numBits) << (start + 1 - numBits))
        == w & !(Mask(numBits) << (start + 1 - numBits));
    }
    else if start == 22 && numBits == 2 {
      assert SetBits(w, value, start, numBits) & !(Mask(numBits) << (start + 1 - numBits))
        == w & !(Mask(numBits) << (start + 1 - numBits));
    }
    else if start == 23 && numBits == 1 {
      assert SetBits(w, value, start, numBits) & !(Mask(numBits) << (start + 1 - numBits))
        == w & !(Mask(numBits) << (start + 1 - numBits));
    }
    else if start == 23 && numBits == 24 {
      assert SetBits(w, value, start, numBits) & !(Mask(numBits) << (start + 1 - numBits))
        == w & !(Mask(numBits) << (start + 1 - numBits));
    }
    else if start == 24 && numBits == 1 {
      assert SetBits(w, value, start, numBits) & !(Mask(numBits) << (start + 1 - numBits))
        == w & !(Mask(numBits) << (start + 1 - numBits));
    }
    else if start == 24 && numBits == 4 {
      assert SetBits(w, value, start, numBits) & !(Mask(numBits) << (start + 1 - numBits))
        == w & !(Mask(numBits) << (start + 1 - numBits));
    }
    else if start == 25 && numBits == 1 {
      assert SetBits(w, value, start, numBits) & !(Mask(numBits) << (start + 1 - numBits))
        == w & !(Mask(numBits) << (start + 1 - numBits));
    }
    else if start == 27 && numBits == 2 {
      assert SetBits(w, value, start, numBits) & !(Mask(numBits) << (start + 1 - numBits))
        == w & !(Mask(numBits) << (start + 1 - numBits));
    }
    else if start == 27 && numBits == 4 {
      assert SetBits(w, value, start, numBits) & !(Mask(numBits) << (start + 1 - numBits))
        == w & !(Mask(numBits) << (start + 1 - numBits));
    }
    else if start == 31 && numBits == 4 {
      assert SetBits(w, value, start, numBits) & !(Mask(numBits) << (start + 1 - numBits))
        == w & !(Mask(numBits) << (start + 1 - numBits));
    }
  }

  /**
    A value wider than the field: the field gets the value's low numBits bits
    and the bits below the field are kept, while the value's higher bits are
    ORed into the bits above the field.
  */
  lemma SetBitsOverflowField(w: Word, value: Word, start: Word, numBits: Word)
    requires SourceField(start, numBits)
    ensures SubByte(SetBits(w, value, start, numBits), start, numBits) == value & Mask(numBits)
  {
    if start == 3 && numBits == 4 { }
    else if start == 4 && numBits == 1 { }
    else if start == 6 && numBits == 2 { }
    else if start == 7 && numBits == 4 { }
    else if start == 7 && numBits == 8 { }
    else if start == 11 && numBits == 4 { }
    else if start == 11 && numBits == 5 { }
    else if start == 11 && numBits == 12 { }
    else if start == 15 && numBits == 4 { }
    else if start == 19 && numBits == 4 { }
    else if start == 20 && numBits == 1 { }
    else if start == 21 && numBits == 1 { }
    else if start == 22 && numBits == 2 { }
    else if start == 23 && numBits == 1 { }
    else if start == 23 && numBits == 24 { }
    else if start == 24 && numBits == 1 { }
    else if start == 24 && numBits == 4 { }
    else if start == 25 && numBits == 1 { }
    else if start == 27 && numBits == 2 { }
    else if start == 27 && numBits == 4 { }
    else if start == 31 && numBits == 4 { }
  }

  /**
    The spill itself: above the field, the word keeps its own bits and
    receives, ORed in, the value's bits above its low numBits, as many as
    there is room for below bit 32.
  */
  lemma SetBitsOverflowAbove(w: Word, value: Word, start: Word, numBits: Word)
    requires SourceField(start, numBits) && start < 31
    ensures SetBits(w, value, start, numBits) >> (start + 1) == (w >> (start + 1)) | ((value >> numBits) & Mask(31 - start))
  {
    if start == 3 && numBits == 4 { }
    else if start == 4 && numBits == 1 { }
    else if start == 6 && numBits == 2 { }
    else if start == 7 && numBits == 4 { }
    else if start == 7 && numBits == 8 { }
    else if start == 11 && numBits == 4 { }
    else if start == 11 && numBits == 5 { }
    else if start == 11 && numBits == 12 { }
    else if start == 15 && numBits == 4 { }
    else if start == 19 && numBits == 4 { }
    else if start == 20 && numBits == 1 { }
    else if start == 21 && numBits == 1 { }
    else if start == 22 && numBits == 2 { }
    else if start == 23 && numBits == 1 { }
    else if start == 23 && numBits == 24 { }
    else if start == 24 && numBits == 1 { }
    else if start == 24 && numBits == 4 { }
    else if start == 25 && numBits == 1 { }
    else if start == 27 && numBits == 2 { }
    else if start == 27 && numBits == 4 { }
  }

  /** Bits above the field receive the value's bits above numBits (here a value of all ones). */
  lemma SetBitsOverflowExample()
    ensures SetBits(0, 0xFFFF_FFFF, 19, 4) == 0xFFFF_0000
  {
  }

  lemma SetBitsOverflowBelow(w: Word, value: Word, start: Word, numBits: Word)
    requires SourceField(start, numBits)
    ensures var below := Mask(start + 1 - numBits);
            SetBits(w, value, start, numBits) & below == w & below
  {
    if start == 3 && numBits == 4 { }
    else if start == 4 && numBits == 1 { }
    else if start == 6 && numBits == 2 { }
    else if start == 7 && numBits == 4 { }
    else if start == 7 && numBits == 8 { }
    else if start == 11 && numBits == 4 { }
    else if start == 11 && numBits == 5 { }
    else if start == 11 && numBits == 12 { }
    else if start == 15 && numBits == 4 { }
    else if start == 19 && numBits == 4 { }
    else if start == 20 && numBits == 1 { }
    else if start == 21 && numBits == 1 { }
    else if start == 22 && numBits == 2 { }
    else if start == 23 && numBits == 1 { }
    else if start == 23 && numBits == 24 { }
    else if start == 24 && numBits == 1 { }
    else if start == 24 && numBits == 4 { }
    else if start == 25 && numBits == 1 { }
    else if start == 27 && numBits == 2 { }
    else if start == 27 && numBits == 4 { }
    else if start == 31 && numBits == 4 { }
  }

  // ---------------------------------------------------------------------------
  // subBinary

  /**
    The number whose decimal digits are the binary digits of `v`
    (12 gives 1100), which `subBinary` produces so that `switch` statements can
    use literals such as `1010`.
  */
  function DecimalCoded(v: nat): nat
  {
    if v == 0 then 0 else DecimalCoded(v / 2) * 10 + v % 2
  }

  /** Reads a number's decimal digits as binary digits: the inverse of `DecimalCoded`. */
  function BinaryOfDecimal(d: nat): nat
  {
    if d == 0 then 0 else 2 * BinaryOfDecimal(d / 10) + d % 10
  }

  /** Every decimal digit of a number. */
  predicate DigitsAreBinary(d: nat)
  {
    d % 10 <= 1 && (d >= 10 ==> DigitsAreBinary(d / 10))
  }

  /** `DecimalCoded` writes only the digits 0 and 1, and reading them back in base 2 gives `v`. */
  lemma {:induction false} DecimalCodedRoundTrip(v: nat)
    ensures DigitsAreBinary(DecimalCoded(v))
    ensures BinaryOfDecimal(DecimalCoded(v)) == v
  {
    if v != 0 {
      DecimalCodedRoundTrip(v / 2);
      var d := DecimalCoded(v / 2) * 10 + v % 2;
      assert d / 10 == DecimalCoded(v / 2) && d % 10 == v % 2;
    }
  }

  /** Distinct fields give distinct decimal codes, so a `switch` on them is a switch on the field. */
  lemma DecimalCodedInjective(a: nat, b: nat)
    requires DecimalCoded(a) == DecimalCoded(b)
    ensures a == b
  {
    DecimalCodedRoundTrip(a);
    DecimalCodedRoundTrip(b);
  }

  /** The decimal codes of the sixteen 4-bit fields, as the source's `switch` labels write them. */
  const NibbleCodes: seq<nat> := [0, 1, 10, 11, 100, 101, 110, 111, 1000, 1001, 1010, 1011, 1100, 1101, 1110, 1111]

  /** The decimal code of a 4-bit field is its entry in `NibbleCodes`. */
  lemma DecimalCodedNibble(v: nat)
    requires v < 16
    ensures DecimalCoded(v) == NibbleCodes[v]
  {
    if v < 4 {
      assert DecimalCoded(0) == 0 && DecimalCoded(1) == 1 && DecimalCoded(2) == 10 && DecimalCoded(3) == 11;
    } else if v < 8 {
      assert DecimalCoded(4) == 100 && DecimalCoded(5) == 101 && DecimalCoded(6) == 110 && DecimalCoded(7) == 111;
    } else if v < 12 {
      assert DecimalCoded(8) == 1000 && DecimalCoded(9) == 1001 && DecimalCoded(10) == 1010 && DecimalCoded(11) == 1011;
    } else {
      assert DecimalCoded(12) == 1100 && DecimalCoded(13) == 1101 && DecimalCoded(14) == 1110 && DecimalCoded(15) == 1111;
    }
  }

  /** Examples: field 12 is written 1100, field 0 is written 0. */
  lemma DecimalCodedExamples()
    ensures DecimalCoded(12) == 1100 && DecimalCoded(0) == 0 && DecimalCoded(9) == 1001
  {
    DecimalCodedNibble(12);
    DecimalCodedNibble(9);
  }

  lemma DecimalCodedStep(base: nat, v: nat)
    requires v > 0
    ensures base * DecimalCoded(v) == v % 2 * base + (base * 10) * DecimalCoded(v / 2)
  {
    ScaledDigits(base, v, DecimalCoded(v / 2), v % 2);
  }

  lemma ScaledDigits(base: nat, v: nat, d: nat, m: nat)
    requires DecimalCoded(v) == d * 10 + m
    ensures base * DecimalCoded(v) == m * base + (base * 10) * d
  {
    DigitStep(base, d, m);
  }

  lemma DigitStep(base: nat, d: nat, m: nat)
    ensures base * (d * 10 + m) == m * base + (base * 10) * d
  {
  }

  /**
    `subBinary(x, start, numBits)`.  The running sum and the power of ten stay
    within `uint32_t`/`int` because the source only reads fields of at most 9 bits
    (it reads 4- and 6-bit fields).
  */
  method SubBinary(x: Word, start: Word, numBits: Word) returns (sum: nat)
    requires Field(start, numBits) && numBits <= 9
    ensures sum == DecimalCoded(SubByte(x, start, numBits) as nat)
  {
    var v: nat := SubByte(x, start, numBits) as nat;
    ghost var v0 := v;
    sum := 0;
    var base: nat := 1;
    while v > 0
      invariant sum + base * DecimalCoded(v) == DecimalCoded(v0)
      decreases v
    {
      var rem := v % 2;
      DecimalCodedStep(base, v);
      sum := sum + rem * base;
      base := base * 10;
      v := v / 2;
    }
  }

  // ---------------------------------------------------------------------------
  // Barrel shifts

  /** `logicalLeft`. */
  function LogicalLeft(x: Word, amount: Word): Word
  {
    x << (amount & 31)
  }

  /** `logicalRight`: the right shift of the word viewed as unsigned. */
  function LogicalRight(x: Word, amount: Word): Word
  {
    x >> (amount & 31)
  }

  /** `arithmeticRight`: the right shift of the word viewed as `int32_t`. */
  function ArithmeticRight(x: Word, amount: Word): Word
  {
    if Bit(x, 31) then !((!x) >> (amount & 31)) else x >> (amount & 31)
  }

  /** `rotateRight`: `(contents >> n) | (contents << (32 - n))` on `int32_t`. */
  function RotateRight(x: Word, amount: Word): Word
  {
    ArithmeticRight(x, amount) | LogicalLeft(x, 32 - amount)
  }

  /** `rotateLeft`: `(contents << n) | (contents >> (32 - n))` on `int32_t`. */
  function RotateLeft(x: Word, amount: Word): Word
  {
    LogicalLeft(x, amount) | ArithmeticRight(x, 32 - amount)
  }

  /** `shift`: shift type 0, 1, 2, 3 selects lsl, lsr, asr, ror; lsr by 1..31 leaves bit 31 clear. */
  function Shift(x: Word, amount: Word, shiftType: Word): (r: Word)
    requires shiftType < 4
    ensures shiftType == 1 && amount & 31 != 0 ==> !Bit(r, 31)
  {
    if shiftType == 0 then LogicalLeft(x, amount)
    else if shiftType == 1 then LogicalRight(x, amount)
    else if shiftType == 2 then ArithmeticRight(x, amount)
    else RotateRight(x, amount)
  }

  /** A shift by 0 of any type gives the word back, so an unshifted register operand is the register. */
  lemma ShiftByZero(x: Word, shiftType: Word)
    requires shiftType < 4
    ensures Shift(x, 0, shiftType) == x
  {
  }

  /**
    `carryOut`: bit `amount - 1` for every shift type but 0, bit `31 - amount`
    for type 0.  The bit position is taken mod 32, which settles amount 0
    (`bit(x, -1)` reads bit 31).
  */
  predicate CarryOut(x: Word, amount: Word, shiftType: Word)
  {
    if shiftType > 0 then Bit(x, (amount - 1) & 31) else Bit(x, (31 - amount) & 31)
  }

  /** A true 32-bit rotation to the left, for reference. */
  function Rotl(x: Word, r: Word): Word
    requires 0 < r < 32
  {
    (x << r) | (x >> (32 - r))
  }

  /** A true 32-bit rotation to the right, for reference. */
  function Rotr(x: Word, r: Word): Word
    requires 0 < r < 32
  {
    (x >> r) | (x << (32 - r))
  }

  /** The logical right shift fills the vacated top bits with zeros, keeping the rest. */
  lemma LogicalRightFillsZeros(x: Word, n: Word, i: Word)
    requires 0 < n < 32 && i < 32
    ensures Bit(LogicalRight(x, n), i) == (i < 32 - n && Bit(x, i + n))
  {
  }

  /** On a word with bit 31 set, the arithmetic right shift fills the vacated top bits with ones. */
  lemma ArithmeticRightFillsOnes(x: Word, n: Word, i: Word)
    requires 0 < n < 32 && i < 32 && Bit(x, 31)
    ensures Bit(ArithmeticRight(x, n), i) == (i >= 32 - n || Bit(x, i + n))
  {
  }

  /** On a word below 2^31 the arithmetic right shift is the logical one. */
  lemma ArithmeticRightOfNonNegative(x: Word, n: Word)
    requires !Bit(x, 31)
    ensures ArithmeticRight(x, n) == LogicalRight(x, n)
  {
  }

  /** On words below 2^31 both rotations are true rotations. */
  lemma RotationsOnNonNegative(x: Word, r: Word)
    requires x < 0x8000_0000 && 0 < r < 32
    ensures RotateLeft(x, r) == Rotl(x, r)
    ensures RotateRight(x, r) == Rotr(x, r)
  {
  }

  /** A rotation by 0 gives the word back (the count 32 of the second shift is taken mod 32). */
  lemma RotateByZero(x: Word)
    ensures RotateLeft(x, 0) == x && RotateRight(x, 0) == x
  {
  }

  /**
    `rotateRight` undoes `rotateLeft` whenever the rotated word is below 2^31
    (which forces the input below 2^31 too).
  */
  lemma RotateRoundTrip(x: Word, r: Word)
    requires r < 32 && RotateLeft(x, r) < 0x8000_0000
    ensures RotateRight(RotateLeft(x, r), r) == x
  {
    if x >= 0x8000_0000 {
      RotateLeftOfNegative(x, r);
      assert false;
    }
    if r == 0 {
      RotateByZero(x);
    } else {
      var y := RotateLeft(x, r);
      RotationsOnNonNegative(x, r);
      assert y == Rotl(x, r);
      RotationsOnNonNegative(y, r);
      assert RotateRight(y, r) == Rotr(y, r);
      RotrUndoesRotl(x, r);
    }
  }

  lemma RotrUndoesRotl(x: Word, r: Word)
    requires 0 < r < 32
    ensures Rotr(Rotl(x, r), r) == x
  {
    if r % 2 == 0 {
      RotrUndoesRotlEven(x, r);
    } else {
      RotrUndoesRotlOdd(x, r);
    }
  }

  lemma RotrUndoesRotlEven(x: Word, r: Word)
    requires 0 < r < 32 && r % 2 == 0
    ensures Rotr(Rotl(x, r), r) == x
  {
  }

  lemma RotrUndoesRotlOdd(x: Word, r: Word)
    requires 0 < r < 32 && r % 2 == 1
    ensures Rotr(Rotl(x, r), r) == x
  {
  }

  /** A word with bit 31 set stays at or above 2^31 under `rotateLeft`, whatever the count. */
  lemma RotateLeftOfNegative(x: Word, r: Word)
    requires x >= 0x8000_0000
    ensures RotateLeft(x, r) >= 0x8000_0000
  {
  }

  /** Without that bound the round trip fails: the arithmetic shift fills in ones. */
  lemma RotateRoundTripNeedsBound()
    ensures RotateLeft(0x4000_0000, 1) == 0x8000_0000
    ensures RotateRight(RotateLeft(0x4000_0000, 1), 1) == 0xC000_0000
  {
  }

  /**
    For an lsl by 1..31 the carry is the top bit of the shifted word (the ARM
    manual would take the last bit shifted out, bit 32 - amount).
  */
  lemma CarryOutLogicalLeft(x: Word, amount: Word)
    requires 1 <= amount <= 31
    ensures CarryOut(x, amount, 0) == Bit(x, 31 - amount)
    ensures CarryOut(x, amount, 0) == Bit(LogicalLeft(x, amount), 31)
  {
  }

  /** For the other shift types by 1..31 the carry is the last bit shifted out on the right. */
  lemma CarryOutRightShifts(x: Word, amount: Word, shiftType: Word)
    requires 1 <= amount <= 31 && 0 < shiftType
    ensures CarryOut(x, amount, shiftType) == Bit(x, amount - 1)
    ensures CarryOut(x, amount, shiftType) == Bit(LogicalLeft(x, 32 - amount), 31)
  {
  }

  // ---------------------------------------------------------------------------
  // Assembler utilities: tokenize and getRegister

  /** The delimiters passed to `strtok`. */
  predicate IsDelimiter(c: char)
  {
    c == ' ' || c == ','
  }

  /** The length of the run of non-delimiters that starts `s`. */
  function RunLength(s: string): (n: nat)
    ensures n <= |s|
  {
    if s == [] || IsDelimiter(s[0]) then 0 else 1 + RunLength(s[1..])
  }

  /** The tokens `strtok(s, " ,")` yields, in order. */
  function Tokens(s: string): seq<string>
    decreases |s|
  {
    if s == [] then []
    else if IsDelimiter(s[0]) then Tokens(s[1..])
    else [s[..RunLength(s)]] + Tokens(s[RunLength(s)..])
  }

  /** The 6 operand slots `tokenize` fills: the tokens, then empty strings. */
  function OperandSlots(line: string): seq<string>
    requires |Tokens(line)| <= 6
  {
    Tokens(line) + seq(6 - |Tokens(line)|, _ => "")
  }

  /** What `tokenize` assumes of its input: at most 6 tokens, each shorter than 20 characters. */
  predicate FitsOperandSlots(line: string)
  {
    |Tokens(line)| <= 6 && forall t <- Tokens(line) :: |t| < 20
  }

  lemma {:induction false} RunLengthIs(s: string, k: nat)
    requires k <= |s| && (k == |s| || IsDelimiter(s[k]))
    requires forall m :: 0 <= m < k ==> !IsDelimiter(s[m])
    ensures RunLength(s) == k
  {
    if k > 0 {
      RunLengthIs(s[1..], k - 1);
    }
  }

  /** Every token is a non-empty run of non-delimiters. */
  lemma {:induction false} TokensAreRuns(s: string)
    ensures forall t <- Tokens(s) :: t != [] && forall c <- t :: !IsDelimiter(c)
    decreases |s|
  {
    if s == [] {
    } else if IsDelimiter(s[0]) {
      TokensAreRuns(s[1..]);
    } else {
      var k := RunLength(s);
      RunLengthPrefix(s);
      TokensAreRuns(s[k..]);
    }
  }

  lemma {:induction false} RunLengthPrefix(s: string)
    ensures forall m :: 0 <= m < RunLength(s) ==> !IsDelimiter(s[m])
    ensures RunLength(s) < |s| ==> IsDelimiter(s[RunLength(s)])
    ensures s != [] && !IsDelimiter(s[0]) ==> RunLength(s) > 0
  {
    if s != [] && !IsDelimiter(s[0]) {
      RunLengthPrefix(s[1..]);
    }
  }

  /** A non-empty run of non-delimiters is one token. */
  lemma TokensOfWord(w: string)
    requires w != [] && forall c <- w :: !IsDelimiter(c)
    ensures Tokens(w) == [w]
  {
    forall m | 0 <= m < |w| ensures !IsDelimiter(w[m]) {
      assert w[m] in w;
    }
    RunLengthIs(w, |w|);
    assert w[..|w|] == w;
    assert w[|w|..] == [];
  }

  /** A delimiter splits the tokens: tokenising `a + [d] + b` tokenises `a` and `b` apart. */
  lemma {:induction false} TokensSplit(a: string, d: char, b: string)
    requires IsDelimiter(d)
    ensures Tokens(a + [d] + b) == Tokens(a) + Tokens(b)
    decreases |a|
  {
    var s := a + [d] + b;
    if a == [] {
      assert s[1..] == b;
    } else if IsDelimiter(a[0]) {
      assert s[1..] == a[1..] + [d] + b;
      TokensSplit(a[1..], d, b);
    } else {
      var ka := RunLength(a);
      RunLengthPrefix(a);
      if ka < |a| {
        RunLengthIs(s, ka);
        assert s[..ka] == a[..ka];
        assert s[ka..] == a[ka..] + [d] + b;
        TokensSplit(a[ka..], d, b);
      } else {
        RunLengthIs(s, |a|);
        assert s[..|a|] == a;
        assert s[|a|..] == [d] + b;
        assert ([d] + b)[1..] == b;
        assert Tokens([d] + b) == Tokens(b);
        assert a[..ka] == a && a[ka..] == [];
        assert Tokens(a) == [a];
      }
    }
  }

  /**
    `tokenize(instruction, result)`: clears all 6 slots, then copies the
    tokens of `strtok(…, " ,")` into successive slots.
  */
  method Tokenize(line: string, result: array<string>)
    requires result.Length == 6 && FitsOperandSlots(line)
    modifies result
    ensures result[..] == OperandSlots(line)
  {
    result[0], result[1], result[2], result[3], result[4], result[5] := "", "", "", "", "", "";
    var i := 0;
    var tokenNo := 0;
    while i < |line|
      invariant 0 <= i <= |line| && 0 <= tokenNo <= 6
      invariant Tokens(line) == result[..tokenNo] + Tokens(line[i..])
      invariant forall k :: tokenNo <= k < 6 ==> result[k] == ""
    {
      if IsDelimiter(line[i]) {
        TokensSkipDelimiter(line, i);
        i := i + 1;
      } else {
        var j := i;
        while j < |line| && !IsDelimiter(line[j])
          invariant i <= j <= |line|
          invariant forall m :: i <= m < j ==> !IsDelimiter(line[m])
        {
          j := j + 1;
        }
        TokensTakeRun(line, i, j);
        var prefix := result[..tokenNo];
        result[tokenNo] := line[i..j];
        assert result[..tokenNo + 1] == prefix + [line[i..j]];
        tokenNo := tokenNo + 1;
        i := j;
      }
    }
    assert line[i..] == [];
    assert result[..] == result[..tokenNo] + result[tokenNo..];
  }

  lemma TokensSkipDelimiter(line: string, i: nat)
    requires i < |line| && IsDelimiter(line[i])
    ensures Tokens(line[i..]) == Tokens(line[i + 1..])
  {
    assert line[i..][1..] == line[i + 1..];
  }

  lemma TokensTakeRun(line: string, i: nat, j: nat)
    requires i < j <= |line| && (j == |line| || IsDelimiter(line[j]))
    requires forall m :: i <= m < j ==> !IsDelimiter(line[m])
    ensures Tokens(line[i..]) == [line[i..j]] + Tokens(line[j..])
  {
    var s := line[i..];
    RunLengthIs(s, j - i);
    assert s[..j - i] == line[i..j];
    assert s[j - i..] == line[j..];
  }

  /** `operand[k]` of a C string held in a zero-filled buffer: NUL past the end. */
  function CharAt(s: string, k: nat): char
  {
    if k < |s| then s[k] else '\0'
  }

  /** `&s[1]` of a C string held in a zero-filled buffer. */
  function Drop1(s: string): string
  {
    if s == [] then [] else s[1..]
  }

  /**
    `getRegister(operand)`: the character at index 1 minus '0', as an unsigned
    number; a value above 16 is a fatal error (`None`).  Only one digit is read,
    so "r12" gives 1.
  */
  function GetRegister(operand: string): (r: Option<Word>)
    ensures r.Some? <==> '0' <= CharAt(operand, 1) <= '@'
    ensures r.Some? ==> r.value <= 16 && r.value as int == CharAt(operand, 1) as int - '0' as int
  {
    var d := CharAt(operand, 1) as int - '0' as int;
    // a negative difference wraps to an unsigned value far above 16
    if d < 0 || d > 16 then None else Some(d as Word)
  }
}
