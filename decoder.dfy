/**
  `Dis68k::disasm` (dis68k.cpp:179-1049) on cursor values. Each group of
  case labels of `switch (opnum)` is one function from the catalogue index,
  the opcode word and the cursor just after it to an `Outcome`: either the
  case breaks without setting `decoded` (`Reject`, which never reads an
  extension word), or it produces the mnemonic, the operand text and the
  cursor after the extension words it read. `Scan` is the loop over the
  catalogue and `Disassemble` the whole call. The class
  `Disassembler.Dis68k` is proved against these functions.
*/
module Decoder {
  import opened ByteCursor
  import opened Format
  import opened Catalogue
  import opened Operand
  import RegisterList

  datatype Outcome =
    | Reject
    | Accept(opcode: string, operand: string, next: Cursor)

  // ---------------------------------------------------------------------
  // Bit fields of the opcode word, written as the shifts and masks of the
  // source: `(word & 0x0E00) >> 9` is bits 11..9, and so on.

  /** `word & 0x0007` */
  function Low3(word: u16): nat { word % 8 }
  /** `(word & 0x0E00) >> 9` */
  function High3(word: u16): nat { (word / 0x200) % 8 }
  /** `(word & 0x00C0) >> 6`: 0 = byte, 1 = word, 2 = long, 3 = invalid */
  function SizeField(word: u16): nat { (word / 0x40) % 4 }
  /** `(word & 0x0F00) >> 8` */
  function Cond(word: u16): nat { (word / 0x100) % 16 }
  function Bit3(word: u16): nat { (word / 0x8) % 2 }
  function Bit5(word: u16): nat { (word / 0x20) % 2 }
  function Bit6(word: u16): nat { (word / 0x40) % 2 }
  function Bit7(word: u16): nat { (word / 0x80) % 2 }
  function Bit8(word: u16): nat { (word / 0x100) % 2 }
  function Bit10(word: u16): nat { (word / 0x400) % 2 }

  /** `"<name>.%c"` with `size_arr[size]`. */
  function Sized(name: string, size: nat): string
    requires size < 3
  {
    name + "." + [SizeArr[size]]
  }

  function DReg(n: nat): string { "D" + Dec(n) }
  function AReg(n: nat): string { "A" + Dec(n) }

  // ---------------------------------------------------------------------
  // Effective-address categories of the 68000 (section 2.2 of the M68000
  // Family Programmer's Reference Manual), over the mode numbers of
  // `getmode`: 0 Dn, 1 An, 2 (An), 3 (An)+, 4 -(An), 5 d16(An),
  // 6 d8(An,Xn), 7 abs.W, 8 abs.L, 9 d16(PC), 10 d8(PC,Xn), 11 #imm.

  /** Any valid mode except An. */
  predicate IsData(m: nat) { m <= 11 && m != 1 }
  /** Any valid mode except the immediate and PC-relative ones. */
  predicate IsAlterable(m: nat) { m <= 8 }
  /** The modes that name a memory address without side effects. */
  predicate IsControl(m: nat) { m == 2 || (5 <= m <= 10) }
  predicate IsDataAlterable(m: nat) { IsData(m) && IsAlterable(m) }
  predicate IsMemoryAlterable(m: nat) { 2 <= m <= 8 }

  // ---------------------------------------------------------------------
  // The right-shift and rotate mnemonics.

  /**
    The mnemonics as the source writes them for the shift and rotate
    entries (dis68k.cpp:394-411, 433-450).
  */
  function ShiftMnemonicAsWritten(opnum: nat): string
  {
    if opnum == 9 || opnum == 10 then "ASL"
    else if opnum == 11 || opnum == 12 then "ASR"
    else if opnum == 39 || opnum == 40 then "LSL"
    else if opnum == 41 || opnum == 42 then "LSR"
    else if opnum == 63 || opnum == 64 then "ROR"
    else if opnum == 65 || opnum == 66 then "ROL"
    else if opnum == 67 || opnum == 68 then "ROXL"
    else "ROXR"
  }

  /**
    The mnemonics the entries' encodings call for: entries 63/64 have the
    direction bit (bit 8) set, which is a left rotate, and 65/66 have it
    clear. The decoder uses these names.
  */
  function ShiftMnemonic(opnum: nat): string
  {
    if opnum == 63 || opnum == 64 then "ROL"
    else if opnum == 65 || opnum == 66 then "ROR"
    else ShiftMnemonicAsWritten(opnum)
  }

  /** The direction bit 8 of a shift or rotate encoding: set is left. */
  predicate IsLeft(v: bv16)
  {
    v & 0x100 != 0
  }

  /** The type bits of a shift or rotate: 4..3 in the register forms, 10..9 in the memory forms. */
  function ShiftType(v: bv16, register: bool): bv16
  {
    if register then (v >> 3) & 3 else (v >> 9) & 3
  }

  /**
    The mnemonic the 68000 gives a shift or rotate encoding, from its type
    bits (00 arithmetic, 01 logical, 10 rotate with extend, 11 rotate) and
    its direction bit.
  */
  function ShiftName(t: bv16, left: bool): string
  {
    if t == 0 then (if left then "ASL" else "ASR")
    else if t == 1 then (if left then "LSL" else "LSR")
    else if t == 2 then (if left then "ROXL" else "ROXR")
    else (if left then "ROL" else "ROR")
  }

  // Every word a shift or rotate entry matches is disassembled with the
  // mnemonic the 68000 gives that word's own type and direction bits. One
  // lemma per kind, each over its register-form and memory-form entries.

  /** ASL and ASR (entries 9, 10, 11, 12). */
  lemma ArithmeticShiftNames(word: u16)
    ensures Matches(word, 9) ==> ShiftMnemonic(9) == ShiftName(ShiftType(word as bv16, true), IsLeft(word as bv16))
    ensures Matches(word, 11) ==> ShiftMnemonic(11) == ShiftName(ShiftType(word as bv16, true), IsLeft(word as bv16))
    ensures Matches(word, 10) ==> ShiftMnemonic(10) == ShiftName(ShiftType(word as bv16, false), IsLeft(word as bv16))
    ensures Matches(word, 12) ==> ShiftMnemonic(12) == ShiftName(ShiftType(word as bv16, false), IsLeft(word as bv16))
  {
  }

  /** LSL and LSR (entries 39, 40, 41, 42). */
  lemma LogicalShiftNames(word: u16)
    ensures Matches(word, 39) ==> ShiftMnemonic(39) == ShiftName(ShiftType(word as bv16, true), IsLeft(word as bv16))
    ensures Matches(word, 41) ==> ShiftMnemonic(41) == ShiftName(ShiftType(word as bv16, true), IsLeft(word as bv16))
    ensures Matches(word, 40) ==> ShiftMnemonic(40) == ShiftName(ShiftType(word as bv16, false), IsLeft(word as bv16))
    ensures Matches(word, 42) ==> ShiftMnemonic(42) == ShiftName(ShiftType(word as bv16, false), IsLeft(word as bv16))
  {
  }

  /** ROXL and ROXR (entries 67, 68, 69, 70). */
  lemma RotateExtendNames(word: u16)
    ensures Matches(word, 67) ==> ShiftMnemonic(67) == ShiftName(ShiftType(word as bv16, true), IsLeft(word as bv16))
    ensures Matches(word, 69) ==> ShiftMnemonic(69) == ShiftName(ShiftType(word as bv16, true), IsLeft(word as bv16))
    ensures Matches(word, 68) ==> ShiftMnemonic(68) == ShiftName(ShiftType(word as bv16, false), IsLeft(word as bv16))
    ensures Matches(word, 70) ==> ShiftMnemonic(70) == ShiftName(ShiftType(word as bv16, false), IsLeft(word as bv16))
  {
  }

  /** ROL and ROR (entries 63, 64, 65, 66). */
  lemma RotateNames(word: u16)
    ensures Matches(word, 63) ==> ShiftMnemonic(63) == ShiftName(ShiftType(word as bv16, true), IsLeft(word as bv16))
    ensures Matches(word, 65) ==> ShiftMnemonic(65) == ShiftName(ShiftType(word as bv16, true), IsLeft(word as bv16))
    ensures Matches(word, 64) ==> ShiftMnemonic(64) == ShiftName(ShiftType(word as bv16, false), IsLeft(word as bv16))
    ensures Matches(word, 66) ==> ShiftMnemonic(66) == ShiftName(ShiftType(word as bv16, false), IsLeft(word as bv16))
  {
  }

  /**
    The names as written disagree with the encoding: entries 63 and 64 are
    printed ROR although their direction bit says left, and 65 and 66 ROL
    although it says right.
  */
  lemma ShiftMnemonicAsWrittenSwapped()
    ensures IsLeft(Optab[63].value) && ShiftMnemonicAsWritten(63) == "ROR"
    ensures IsLeft(Optab[64].value) && ShiftMnemonicAsWritten(64) == "ROR"
    ensures !IsLeft(Optab[65].value) && ShiftMnemonicAsWritten(65) == "ROL"
    ensures !IsLeft(Optab[66].value) && ShiftMnemonicAsWritten(66) == "ROL"
  {
  }

  // ---------------------------------------------------------------------
  // The case groups.

  /** ABCD and SBCD (dis68k.cpp:194-211); never rejects, reads nothing. */
  function DecodeAbcdSbcd(opnum: nat, word: u16, c: Cursor): (r: Outcome)
    ensures r.Accept? && r.next == c
  {
    var sreg, dreg := Low3(word), High3(word);
    var name := if opnum == 1 then "ABCD" else "SBCD";
    if Bit3(word) == 0 then Accept(name, DReg(sreg) + "," + DReg(dreg), c)
    else Accept(name, "-(A" + Dec(sreg) + "),-A(" + Dec(dreg) + ")", c)
  }

  function ArithName(opnum: nat): string
  {
    if opnum == 2 then "ADD" else if opnum == 7 then "AND" else if opnum == 31 then "EOR"
    else if opnum == 59 then "OR" else "SUB"
  }

  /**
    ADD, AND, EOR, OR and SUB between a data register and an effective
    address (dis68k.cpp:212-262); bit 8 chooses the direction.
  */
  function DecodeAddAndEorOrSub(opnum: nat, word: u16, c: Cursor): (r: Outcome)
    requires c.Valid()
    ensures r.Accept? ==> Consumed(c, r.next, ExtWords(GetMode(word), SizeField(word)))
    ensures r.Accept? ==> SizeField(word) < 3 && (Bit8(word) == 1 ==> IsAlterable(GetMode(word)))
    ensures r.Accept? <==>
      && SizeField(word) < 3
      && !((opnum == 2 || opnum == 77) && GetMode(word) == 1 && SizeField(word) == 0)
      && !(opnum == 31 && Bit8(word) == 0)
      && !(Bit8(word) == 1 && GetMode(word) >= 9)
  {
    var dmode, dreg, size := GetMode(word), Low3(word), SizeField(word);
    var dir := Bit8(word);
    if size == 3 then Reject
    else if opnum == 2 && dmode == 1 && size == 0 then Reject
    else if opnum == 77 && dmode == 1 && size == 0 then Reject
    else if opnum == 31 && dir == 0 then Reject
    else if dir == 1 && dmode >= 9 then Reject
    else
      var (dest, d) := Render(dmode, dreg, size, c);
      var source := DReg(High3(word));
      Accept(Sized(ArithName(opnum), size), if dir != 0 then source + "," + dest else dest + "," + source, d)
  }

  /**
    ADDA and SUBA (dis68k.cpp:263-279). Bit 8 chooses word or long. The
    destination printed is `A` with the source register number.
  */
  function DecodeAddaSuba(opnum: nat, word: u16, c: Cursor): (r: Outcome)
    requires c.Valid()
    ensures r.Accept? && Consumed(c, r.next, ExtWords(GetMode(word), Bit8(word) + 1))
  {
    var smode, sreg, size := GetMode(word), Low3(word), Bit8(word) + 1;
    var (source, d) := Render(smode, sreg, size, c);
    Accept(Sized(if opnum == 3 then "ADDA" else "SUBA", size), source + "," + AReg(sreg), d)
  }

  function ImmediateName(opnum: nat): string
  {
    if opnum == 4 then "ADDI" else if opnum == 8 then "ANDI" else if opnum == 26 then "CMPI"
    else if opnum == 32 then "EORI" else if opnum == 60 then "ORI" else "SUBI"
  }

  /** Words of the immediate operand: one for byte and word, two for long. */
  function ImmediateWords(size: nat): nat { if size == 2 then 2 else 1 }

  /** The immediate of ADDI and its kin: the low byte, a word or two words, in upper-case hex. */
  function ImmediateSource(size: nat, c: Cursor): (r: (string, Cursor))
    requires c.Valid() && size < 3
    ensures Consumed(c, r.1, ImmediateWords(size))
  {
    var (data, c1) := ReadWord(c);
    if size == 0 then ("#$" + Hex(data % 0x100, 2, true), c1)
    else if size == 1 then ("#$" + Hex(data, 4, true), c1)
    else
      var (data2, c2) := ReadWord(c1);
      ConsumedCompose(c, c1, c2, 1, 1);
      ("#$" + Hex(data, 4, true) + Hex(data2, 4, true), c2)
  }

  /**
    ADDI, ANDI, CMPI, EORI, ORI and SUBI (dis68k.cpp:280-332): the immediate
    in upper-case hexadecimal, then the destination, which is SR for
    mode 11 (ANDI, EORI and ORI only).
  */
  function DecodeImmediateOps(opnum: nat, word: u16, c: Cursor): (r: Outcome)
    requires c.Valid()
    ensures var m := GetMode(word);
      r.Accept? ==> Consumed(c, r.next, ImmediateWords(SizeField(word)) + (if m == 11 then 0 else ExtWords(m, SizeField(word))))
    ensures var m := GetMode(word);
      r.Accept? <==> SizeField(word) < 3 && (IsDataAlterable(m) || (m == 11 && opnum != 4 && opnum != 26 && opnum != 79))
  {
    var dmode, dreg, size := GetMode(word), Low3(word), SizeField(word);
    if size == 3 then Reject
    else if dmode == 1 then Reject
    else if dmode == 9 || dmode == 10 then Reject
    else if dmode == 12 then Reject
    else if dmode == 11 && (opnum == 4 || opnum == 26 || opnum == 79) then Reject
    else
      var (source, c2) := ImmediateSource(size, c);
      if dmode == 11 then
        Accept(Sized(ImmediateName(opnum), size), source + ",SR", c2)
      else
        var (dest, c3) := Render(dmode, dreg, size, c2);
        ConsumedCompose(c, c2, c3, ImmediateWords(size), ExtWords(dmode, size));
        Accept(Sized(ImmediateName(opnum), size), source + "," + dest, c3)
  }

  /** `count ? count : 8`: a quick count field of zero stands for eight. */
  function QuickCount(count: nat): nat { if count == 0 then 8 else count }

  /** ADDQ and SUBQ (dis68k.cpp:333-353). */
  function DecodeAddqSubq(opnum: nat, word: u16, c: Cursor): (r: Outcome)
    requires c.Valid()
    ensures r.Accept? ==> Consumed(c, r.next, ExtWords(GetMode(word), SizeField(word)))
    ensures var m := GetMode(word);
      r.Accept? <==> SizeField(word) < 3 && IsAlterable(m) && !(SizeField(word) == 0 && m == 1)
  {
    var dmode, dreg, size := GetMode(word), Low3(word), SizeField(word);
    if size == 3 then Reject
    else if dmode >= 9 then Reject
    else if size == 0 && dmode == 1 then Reject
    else
      var (dest, d) := Render(dmode, dreg, size, c);
      Accept(Sized(if opnum == 5 then "ADDQ" else "SUBQ", size), "#" + Dec(QuickCount(High3(word))) + "," + dest, d)
  }

  /** ADDX, SUBX (register or predecrement pairs) and CMPM (postincrement pairs) (dis68k.cpp:354-381). */
  function DecodeAddxSubxCmpm(opnum: nat, word: u16, c: Cursor): (r: Outcome)
    ensures r.Accept? ==> r.next == c
    ensures r.Accept? <==> SizeField(word) < 3
  {
    var size := SizeField(word);
    if size == 3 then Reject
    else
      var sreg, dreg := Low3(word), High3(word);
      var name := if opnum == 6 then "ADDX" else if opnum == 81 then "SUBX" else "CMPM";
      var operand :=
        if opnum == 27 then "(A" + Dec(sreg) + ")+,(A" + Dec(dreg) + ")+"
        else if Bit3(word) == 0 then DReg(sreg) + "," + DReg(dreg)
        else "-(A" + Dec(sreg) + "),-(A" + Dec(dreg) + ")";
      Accept(Sized(name, size), operand, c)
  }

  /**
    Register shifts and rotates (dis68k.cpp:382-420): an immediate count
    (zero for eight) or a count register, and the data register shifted.
  */
  function DecodeShiftRegister(opnum: nat, word: u16, c: Cursor): (r: Outcome)
    ensures r.Accept? ==> r.next == c
    ensures r.Accept? <==> SizeField(word) < 3
  {
    var dreg, size := Low3(word), SizeField(word);
    if size == 3 then Reject
    else
      var count := High3(word);
      var operand := if Bit5(word) == 0 then "#" + Dec(QuickCount(count)) + "," + DReg(dreg)
        else DReg(count) + "," + DReg(dreg);
      Accept(Sized(ShiftMnemonic(opnum), size), operand, c)
  }

  /** Memory shifts and rotates by one (dis68k.cpp:421-453); no size suffix. */
  function DecodeShiftMemory(opnum: nat, word: u16, c: Cursor): (r: Outcome)
    requires c.Valid()
    ensures r.Accept? ==> Consumed(c, r.next, ExtWords(GetMode(word), 0))
    ensures r.Accept? <==> IsMemoryAlterable(GetMode(word))
  {
    var dmode, dreg := GetMode(word), Low3(word);
    if dmode <= 1 || dmode >= 9 then Reject
    else
      var (operand, d) := Render(dmode, dreg, 0, c);
      Accept(ShiftMnemonic(opnum), operand, d)
  }

  /** Words a branch carries: one displacement word when the 8-bit one is zero. */
  function BranchWords(word: u16): nat { if word % 0x100 == 0 then 1 else 0 }

  /**
    The branch target of Bcc and DBcc: the 8-bit displacement added to the
    address after the opcode word, or (when it is zero) the following word
    added to the address of that word's own start, which is again the
    address after the opcode word. Arithmetic is modulo 2^32.
  */
  function BranchTarget(word: u16, c: Cursor): (r: (u32, Cursor))
    requires c.Valid()
    ensures Consumed(c, r.1, BranchWords(word))
  {
    var offset := word % 0x100;
    if offset != 0 then (Wrap32(c.address + Sext8(offset)), c)
    else
      var (ext, d) := ReadWord(c);
      (Wrap32(d.address - 2 + Sext16(ext)), d)
  }

  /** `$%08x`: a 32-bit address in eight lower-case hex digits. */
  function AddressText(a: u32): string
  {
    "$" + Hex(a, 8, false)
  }

  /** Bcc, BRA and BSR (dis68k.cpp:454-468). */
  function DecodeBcc(word: u16, c: Cursor): (r: Outcome)
    requires c.Valid()
    ensures r.Accept? && Consumed(c, r.next, BranchWords(word))
  {
    var (target, d) := BranchTarget(word, c);
    Accept(BraTab[Cond(word)], AddressText(target), d)
  }

  /**
    Both branch forms go to the address after the opcode word plus the
    signed displacement, whichever of the two encodings carries it.
  */
  lemma BranchTargetIsRelative(word: u16, c: Cursor)
    requires c.Valid() && (word % 0x100 == 0 ==> c.WordsLeft() >= 1)
    ensures var disp := if word % 0x100 != 0 then Sext8(word % 0x100)
      else Sext16((c.mem[c.cur] as int) * 0x100 + c.mem[c.cur + 1]);
      BranchTarget(word, c).0 == Wrap32(c.address + disp)
  {
    if word % 0x100 == 0 {
      var (ext, d) := ReadWord(c);
      WrapAdd(c.address, 2, Sext16(ext) - 2);
    }
  }

  function BitOpName(opnum: nat): string
  {
    if opnum <= 15 then "BCHG" else if opnum <= 17 then "BCLR" else if opnum <= 19 then "BSET" else "BTST"
  }

  /** Words of a bit operation: the bit number word of the immediate forms, then the operand's. */
  function BitOpWords(opnum: nat, word: u16): nat
  {
    (if opnum % 2 == 1 then 1 else 0) + ExtWords(GetMode(word), 0)
  }

  /**
    The bit number operand: the data register in bits 11..9 for the even
    entries, or `#` and the following word masked with 0x2F for the odd ones.
  */
  function BitNumber(opnum: nat, word: u16, c: Cursor): (r: (string, Cursor))
    requires c.Valid()
    ensures Consumed(c, r.1, if opnum % 2 == 1 then 1 else 0)
  {
    if opnum % 2 == 0 then (DReg(High3(word)), c)
    else
      var (data, c1) := ReadWord(c);
      ("#" + Dec(And16(data, 0x002F)), c1)
  }

  /**
    BCHG, BCLR, BSET, BTST with the bit number in a data register (even
    entries) or in an immediate word, masked with 0x2F (odd entries)
    (dis68k.cpp:469-528).
  */
  function DecodeBitOps(opnum: nat, word: u16, c: Cursor): (r: Outcome)
    requires c.Valid()
    ensures r.Accept? ==> Consumed(c, r.next, BitOpWords(opnum, word))
    ensures var m := GetMode(word);
      r.Accept? <==> if opnum < 20 then IsDataAlterable(m) else IsData(m) && m != 11
  {
    var dmode, dreg := GetMode(word), Low3(word);
    if dmode == 1 then Reject
    else if dmode >= 11 then Reject
    else if opnum < 20 && dmode >= 9 then Reject
    else
      var (source, c1) := BitNumber(opnum, word, c);
      var (dest, c2) := Render(dmode, dreg, 0, c1);
      ConsumedCompose(c, c1, c2, if opnum % 2 == 1 then 1 else 0, ExtWords(dmode, 0));
      Accept(BitOpName(opnum), source + "," + dest, c2)
  }

  function ToDataName(opnum: nat, size: nat): string
    requires size < 3
  {
    if opnum == 22 then "CHK" else if opnum == 24 then Sized("CMP", size)
    else if opnum == 29 then "DIVS" else if opnum == 30 then "DIVU"
    else if opnum == 52 then "MULS" else "MULU"
  }

  /** CMP's size field; CHK, DIVS, DIVU, MULS and MULU are word-sized. */
  function ToDataSize(opnum: nat, word: u16): nat
  {
    if opnum == 24 then SizeField(word) else 1
  }

  /** CHK, CMP, DIVS, DIVU, MULS, MULU into a data register (dis68k.cpp:529-574). */
  function DecodeToDataRegister(opnum: nat, word: u16, c: Cursor): (r: Outcome)
    requires c.Valid()
    ensures r.Accept? ==> Consumed(c, r.next, ExtWords(GetMode(word), ToDataSize(opnum, word)))
    ensures var m := GetMode(word);
      r.Accept? <==> ToDataSize(opnum, word) < 3 && (if opnum == 24 then m <= 11 else IsData(m))
  {
    var smode := GetMode(word);
    if smode == 1 && opnum != 24 then Reject
    else if smode >= 12 then Reject
    else
      var size := ToDataSize(opnum, word);
      if size == 3 then Reject
      else
        var (source, d) := Render(smode, Low3(word), size, c);
        Accept(ToDataName(opnum, size), source + "," + DReg(High3(word)), d)
  }

  /** CLR (dis68k.cpp:575-586). */
  function DecodeClr(word: u16, c: Cursor): (r: Outcome)
    requires c.Valid()
    ensures r.Accept? ==> Consumed(c, r.next, ExtWords(GetMode(word), SizeField(word)))
    ensures r.Accept? <==> IsDataAlterable(GetMode(word)) && SizeField(word) < 3
  {
    var dmode, dreg := GetMode(word), Low3(word);
    if dmode == 1 || dmode >= 9 then Reject
    else
      var size := SizeField(word);
      if size == 3 then Reject
      else
        var (operand, d) := Render(dmode, dreg, size, c);
        Accept(Sized("CLR", size), operand, d)
  }

  /** CMPA (dis68k.cpp:587-598); never rejects. */
  function DecodeCmpa(word: u16, c: Cursor): (r: Outcome)
    requires c.Valid()
    ensures r.Accept? && Consumed(c, r.next, ExtWords(GetMode(word), Bit8(word) + 1))
  {
    var size := Bit8(word) + 1;
    var (source, d) := Render(GetMode(word), Low3(word), size, c);
    Accept(Sized("CMPA", size), source + "," + AReg(High3(word)), d)
  }

  /** `D` + `bra_tab[cc]`, replaced by DBT and DBF for conditions 0 and 1. */
  function DbccName(cc: nat): string
    requires cc < 16
  {
    if cc == 0 then "DBT" else if cc == 1 then "DBF" else "D" + BraTab[cc]
  }

  /**
    The replacements make every DBcc mnemonic "DB" and the condition's own
    name, where `bra_tab` has BRA and BSR in place of BT and BF.
  */
  lemma DbccNameIsCondition(cc: nat)
    requires cc < 16
    ensures DbccName(cc) == "DB" + Conditions[cc]
    ensures SccTab[cc] == "S" + Conditions[cc]
  {
    ConditionTables(cc);
  }

  /** The displacement word of DBcc, added to the address of that word. */
  function WordTarget(c: Cursor): (r: (u32, Cursor))
    requires c.Valid()
    ensures Consumed(c, r.1, 1)
  {
    var (ext, d) := ReadWord(c);
    (Wrap32(d.address - 2 + Sext16(ext)), d)
  }

  /** DBcc (dis68k.cpp:599-610): a data register and a 16-bit displacement word. */
  function DecodeDbcc(word: u16, c: Cursor): (r: Outcome)
    requires c.Valid()
    ensures r.Accept? && Consumed(c, r.next, 1)
  {
    var (target, d) := WordTarget(c);
    Accept(DbccName(Cond(word)), DReg(Low3(word)) + "," + AddressText(target), d)
  }

  /** DBcc branches like the word form of Bcc. */
  lemma DbccTargetIsBranchTarget(word: u16, c: Cursor)
    requires c.Valid() && word % 0x100 == 0
    ensures WordTarget(c) == BranchTarget(word, c)
  {
  }

  /** `(word & 0x00F8) >> 3`: the operation mode of EXG, with its register-kind bit. */
  function ExgMode(word: u16): nat { (word / 8) % 32 }

  /** EXG (dis68k.cpp:611-631): operation modes 8 (two Dn), 9 (two An) and 17 (Dn and An). */
  function DecodeExg(word: u16, c: Cursor): (r: Outcome)
    ensures r.Accept? ==> r.next == c
    ensures r.Accept? <==> ExgMode(word) in {8, 9, 17}
  {
    var dmode := ExgMode(word);
    var dreg, areg := Low3(word), High3(word);
    if dmode == 8 then Accept("EXG", DReg(dreg) + "," + DReg(areg), c)
    else if dmode == 9 then Accept("EXG", AReg(dreg) + "," + AReg(areg), c)
    else if dmode == 17 then Accept("EXG", DReg(dreg) + "," + AReg(areg), c)
    else Reject
  }

  /** EXT (dis68k.cpp:632-638); bit 6 chooses word or long. */
  function DecodeExt(word: u16, c: Cursor): (r: Outcome)
    ensures r.Accept? && r.next == c
  {
    Accept(Sized("EXT", Bit6(word) + 1), DReg(Low3(word)), c)
  }

  /** JMP and JSR (dis68k.cpp:639-657). */
  function DecodeJmpJsr(opnum: nat, word: u16, c: Cursor): (r: Outcome)
    requires c.Valid()
    ensures r.Accept? ==> Consumed(c, r.next, ExtWords(GetMode(word), 0))
    ensures r.Accept? <==> IsControl(GetMode(word))
  {
    var dmode := GetMode(word);
    if dmode <= 1 then Reject
    else if dmode == 3 || dmode == 4 then Reject
    else if dmode >= 11 then Reject
    else
      var (operand, d) := Render(dmode, Low3(word), 0, c);
      Accept(if opnum == 35 then "JMP" else "JSR", operand, d)
  }

  /** LEA (dis68k.cpp:658-672). */
  function DecodeLea(word: u16, c: Cursor): (r: Outcome)
    requires c.Valid()
    ensures r.Accept? ==> Consumed(c, r.next, ExtWords(GetMode(word), 0))
    ensures r.Accept? <==> IsControl(GetMode(word))
  {
    var smode := GetMode(word);
    if smode == 0 || smode == 1 then Reject
    else if smode == 3 || smode == 4 then Reject
    else if smode >= 11 then Reject
    else
      var (source, d) := Render(smode, Low3(word), 0, c);
      Accept("LEA", source + "," + AReg(High3(word)), d)
  }

  /** LINK (dis68k.cpp:673-680): the displacement word as a signed decimal. */
  function DecodeLink(word: u16, c: Cursor): (r: Outcome)
    requires c.Valid()
    ensures r.Accept? && Consumed(c, r.next, 1)
  {
    var (ext, d) := ReadWord(c);
    Accept("LINK", AReg(Low3(word)) + ",#" + SignedDec(Sext16(ext)), d)
  }

  /**
    The destination field of MOVE, `((word & 0x0E00) >> 9) | ((word & 0x01C0) >> 3)`:
    the register and mode subfields of bits 11..6 swapped into the order
    `getmode` expects.
  */
  function MoveDestField(word: u16): (f: nat)
    ensures f < 64 && f % 8 == High3(word) && f / 8 == (word / 0x40) % 8
  {
    High3(word) + ((word / 0x40) % 8) * 8
  }

  /** MOVE's size field: 1 = byte, 2 = long, 3 = word, 0 invalid. */
  function MoveSize(word: u16): nat
  {
    var s := (word / 0x1000) % 4;
    if s == 1 then 0 else if s == 2 then 2 else 1
  }

  /** MOVE (dis68k.cpp:681-723); the operand text ends with a blank. */
  function DecodeMove(word: u16, c: Cursor): (r: Outcome)
    requires c.Valid()
    ensures var size := MoveSize(word);
      r.Accept? ==> Consumed(c, r.next, ExtWords(GetMode(word), size) + ExtWords(GetMode(MoveDestField(word)), size))
    ensures r.Accept? <==>
      (word / 0x1000) % 4 != 0 && GetMode(word) <= 11 && IsDataAlterable(GetMode(MoveDestField(word)))
  {
    var smode := GetMode(word);
    var data := MoveDestField(word);
    var dmode := GetMode(data);
    if (word / 0x1000) % 4 == 0 then Reject
    else
      var size := MoveSize(word);
      if smode > 11 then Reject
      else if dmode == 1 then Reject
      else if dmode >= 9 then Reject
      else
        var (source, c1) := Render(smode, Low3(word), size, c);
        var (dest, c2) := Render(dmode, data % 8, size, c1);
        ConsumedCompose(c, c1, c2, ExtWords(smode, size), ExtWords(dmode, size));
        Accept(Sized("MOVE", size), source + "," + dest + " ", c2)
  }

  /** MOVE to CCR and MOVE to SR (dis68k.cpp:724-742). */
  function DecodeMoveToCcrSr(opnum: nat, word: u16, c: Cursor): (r: Outcome)
    requires c.Valid()
    ensures r.Accept? ==> Consumed(c, r.next, ExtWords(GetMode(word), 1))
    ensures r.Accept? <==> IsData(GetMode(word))
  {
    var smode := GetMode(word);
    if smode == 1 then Reject
    else if smode >= 12 then Reject
    else
      var (source, d) := Render(smode, Low3(word), 1, c);
      Accept("MOVE.W", source + (if opnum == 44 then ",CCR" else ",SR"), d)
  }

  /** MOVE from SR (dis68k.cpp:743-756). */
  function DecodeMoveFromSr(word: u16, c: Cursor): (r: Outcome)
    requires c.Valid()
    ensures r.Accept? ==> Consumed(c, r.next, ExtWords(GetMode(word), 1))
    ensures r.Accept? <==> IsDataAlterable(GetMode(word))
  {
    var dmode := GetMode(word);
    if dmode == 1 then Reject
    else if dmode >= 9 then Reject
    else
      var (dest, d) := Render(dmode, Low3(word), 1, c);
      Accept("MOVE.W", "SR," + dest, d)
  }

  /** MOVE to or from USP (dis68k.cpp:757-768); bit 3 gives the direction. */
  function DecodeMoveUsp(word: u16, c: Cursor): (r: Outcome)
    ensures r.Accept? && r.next == c
  {
    if Bit3(word) == 0 then Accept("MOVE", AReg(Low3(word)) + ",USP", c)
    else Accept("MOVE", "USP," + AReg(Low3(word)), c)
  }

  /** MOVEA (dis68k.cpp:769-787): size field 2 is long and 3 word. */
  function DecodeMovea(word: u16, c: Cursor): (r: Outcome)
    requires c.Valid()
    ensures var s := (word / 0x1000) % 4;
      r.Accept? ==> Consumed(c, r.next, ExtWords(GetMode(word), if s == 3 then 1 else s))
    ensures r.Accept? <==> (word / 0x1000) % 4 >= 2
  {
    var smode := GetMode(word);
    var s := (word / 0x1000) % 4;
    if s <= 1 then Reject
    else
      var size := if s == 3 then 1 else s;
      var (source, d) := Render(smode, Low3(word), size, c);
      Accept(Sized("MOVEA", size), source + "," + AReg(High3(word)), d)
  }

  /**
    MOVEM's operand for the direction in bit 10: register to memory puts
    the list, with its trailing comma, before the destination; memory to
    registers puts the source first and turns the list's last comma into a
    blank. An empty list there leaves just the source and a comma.
  */
  function MovemOperand(dir: nat, list: string, ea: string): string
  {
    if dir == 0 then list + ea
    else if list == [] then ea + ","
    else ea + "," + list[..|list| - 1] + " "
  }

  /**
    MOVEM (dis68k.cpp:788-886): the register mask word, then the effective
    address. The list is rendered from the mask as read; the bit reversal
    for mode 4 (dis68k.cpp:801-809) writes into a shadowing local and is
    left out.
  */
  function DecodeMovem(word: u16, c: Cursor): (r: Outcome)
    requires c.Valid()
    ensures r.Accept? ==> Consumed(c, r.next, 1 + ExtWords(GetMode(word), Bit6(word) + 1))
    ensures var m := GetMode(word);
      r.Accept? <==> if Bit10(word) == 0 then IsControl(m) || m == 4 else IsControl(m) || m == 3
  {
    var dmode, dreg, size := GetMode(word), Low3(word), Bit6(word) + 1;
    if dmode == 0 || dmode == 1 then Reject
    else if dmode >= 11 then Reject
    else
      var dir := Bit10(word);
      if dir == 0 && dmode == 3 then Reject
      else if dir == 1 && dmode == 4 then Reject
      else
        var (data, ea, d) := MovemWords(dmode, dreg, size, c);
        Accept(Sized("MOVEM", size), MovemOperand(dir, RegisterList.RegisterListText(data), ea), d)
  }

  /** The register mask word and the effective address after it. */
  function MovemWords(mode: nat, reg: nat, size: nat, c: Cursor): (r: (u16, string, Cursor))
    requires c.Valid()
    ensures Consumed(c, r.2, 1 + ExtWords(mode, size))
  {
    var (data, c1) := ReadWord(c);
    var (ea, c2) := Render(mode, reg, size, c1);
    ConsumedCompose(c, c1, c2, 1, ExtWords(mode, size));
    (data, ea, c2)
  }

  /** MOVEP (dis68k.cpp:887-904): the displacement in upper-case hex; bit 7 gives the direction. */
  function DecodeMovep(word: u16, c: Cursor): (r: Outcome)
    requires c.Valid()
    ensures r.Accept? && Consumed(c, r.next, 1)
  {
    var dreg, areg, size := High3(word), Low3(word), Bit6(word) + 1;
    var (data, d) := ReadWord(c);
    var mem := "$" + Hex(data, 4, true) + "(A" + Dec(areg) + ")";
    if Bit7(word) == 0 then Accept(Sized("MOVEP", size), mem + "," + DReg(dreg), d)
    else Accept(Sized("MOVEP", size), DReg(dreg) + "," + mem, d)
  }

  /** MOVEQ (dis68k.cpp:905-910): the low byte in upper-case hex. */
  function DecodeMoveq(word: u16, c: Cursor): (r: Outcome)
    ensures r.Accept? && r.next == c
  {
    Accept("MOVEQ", "#$" + Hex(word % 0x100, 2, true) + "," + DReg(High3(word)), c)
  }

  function NegName(opnum: nat): string
  {
    if opnum == 54 then "NBCD" else if opnum == 55 then "NEG" else if opnum == 56 then "NEGX" else "NOT"
  }

  /** NBCD, NEG, NEGX, NOT (dis68k.cpp:911-935); all four take a size suffix. */
  function DecodeNbcdNegNegxNot(opnum: nat, word: u16, c: Cursor): (r: Outcome)
    requires c.Valid()
    ensures r.Accept? ==> Consumed(c, r.next, ExtWords(GetMode(word), SizeField(word)))
    ensures r.Accept? <==> IsDataAlterable(GetMode(word)) && SizeField(word) < 3
  {
    var dmode, dreg, size := GetMode(word), Low3(word), SizeField(word);
    if dmode == 1 then Reject
    else if dmode >= 9 then Reject
    else if size == 3 then Reject
    else
      var (operand, d) := Render(dmode, dreg, size, c);
      Accept(Sized(NegName(opnum), size), operand, d)
  }

  /** NOP, RESET, RTE, RTR, RTS, STOP, TRAPV (dis68k.cpp:936-967): a blank operand; STOP's immediate is not read. */
  function DecodeNoOperand(opnum: nat, c: Cursor): (r: Outcome)
    ensures r.Accept? && r.next == c && r.operand == " "
  {
    var name :=
      if opnum == 57 then "NOP" else if opnum == 62 then "RESET" else if opnum == 71 then "RTE"
      else if opnum == 72 then "RTR" else if opnum == 73 then "RTS" else if opnum == 76 then "STOP"
      else "TRAPV";
    Accept(name, " ", c)
  }

  /** PEA (dis68k.cpp:968-978). */
  function DecodePea(word: u16, c: Cursor): (r: Outcome)
    requires c.Valid()
    ensures r.Accept? ==> Consumed(c, r.next, ExtWords(GetMode(word), 0))
    ensures r.Accept? <==> IsControl(GetMode(word))
  {
    var smode := GetMode(word);
    if smode <= 1 then Reject
    else if smode == 3 || smode == 4 then Reject
    else if smode >= 11 then Reject
    else
      var (operand, d) := Render(smode, Low3(word), 0, c);
      Accept("PEA", operand, d)
  }

  /** Scc (dis68k.cpp:979-992): the mnemonic is `scc_tab[cc]`. */
  function DecodeScc(word: u16, c: Cursor): (r: Outcome)
    requires c.Valid()
    ensures r.Accept? ==> Consumed(c, r.next, ExtWords(GetMode(word), 0))
    ensures r.Accept? <==> IsDataAlterable(GetMode(word))
  {
    var dmode := GetMode(word);
    if dmode == 1 then Reject
    else if dmode >= 9 then Reject
    else
      var (dest, d) := Render(dmode, Low3(word), 0, c);
      Accept(SccTab[Cond(word)], dest, d)
  }

  /** SWAP (dis68k.cpp:993-998). */
  function DecodeSwap(word: u16, c: Cursor): (r: Outcome)
    ensures r.Accept? && r.next == c
  {
    Accept("SWAP", DReg(Low3(word)), c)
  }

  /** TAS (dis68k.cpp:999-1008); the mnemonic is "TAS " with a blank. */
  function DecodeTas(word: u16, c: Cursor): (r: Outcome)
    requires c.Valid()
    ensures r.Accept? ==> Consumed(c, r.next, ExtWords(GetMode(word), 0))
    ensures r.Accept? <==> IsDataAlterable(GetMode(word))
  {
    var dmode := GetMode(word);
    if dmode == 1 then Reject
    else if dmode >= 9 then Reject
    else
      var (operand, d) := Render(dmode, Low3(word), 0, c);
      Accept("TAS ", operand, d)
  }

  /** TRAP (dis68k.cpp:1009-1014): the vector `word & 0x000F` in decimal. */
  function DecodeTrap(word: u16, c: Cursor): (r: Outcome)
    ensures r.Accept? && r.next == c
  {
    Accept("TRAP", Dec(word % 16), c)
  }

  /** TST (dis68k.cpp:1015-1027): "TST " without a size suffix, the size only shapes an immediate. */
  function DecodeTst(word: u16, c: Cursor): (r: Outcome)
    requires c.Valid()
    ensures r.Accept? ==> Consumed(c, r.next, ExtWords(GetMode(word), SizeField(word)))
    ensures r.Accept? <==> IsDataAlterable(GetMode(word)) && SizeField(word) < 3
  {
    var dmode, dreg, size := GetMode(word), Low3(word), SizeField(word);
    if dmode == 1 then Reject
    else if dmode >= 9 then Reject
    else if size == 3 then Reject
    else
      var (operand, d) := Render(dmode, dreg, size, c);
      Accept("TST ", operand, d)
  }

  /** UNLK (dis68k.cpp:1028-1033). */
  function DecodeUnlk(word: u16, c: Cursor): (r: Outcome)
    ensures r.Accept? && r.next == c
  {
    Accept("UNLK", AReg(Low3(word)), c)
  }

  // ---------------------------------------------------------------------
  // The switch, the loop and the call.

  /**
    Extension words an accepted instruction of form `f` carries on the
    68000: none for the register-only forms, the immediate and
    displacement words its encoding defines, and the words of each
    effective address.
  */
  function FormWords(f: Form, opnum: nat, word: u16): nat
  {
    var m := GetMode(word);
    match f
    case AddAndEorOrSub => ExtWords(m, SizeField(word))
    case AddaSuba => ExtWords(m, Bit8(word) + 1)
    case Cmpa => ExtWords(m, Bit8(word) + 1)
    case ImmediateOps => ImmediateWords(SizeField(word)) + (if m == 11 then 0 else ExtWords(m, SizeField(word)))
    case AddqSubq => ExtWords(m, SizeField(word))
    case Clr => ExtWords(m, SizeField(word))
    case NbcdNegNegxNot => ExtWords(m, SizeField(word))
    case Tst => ExtWords(m, SizeField(word))
    case ShiftMemory => ExtWords(m, 0)
    case JmpJsr => ExtWords(m, 0)
    case Lea => ExtWords(m, 0)
    case Pea => ExtWords(m, 0)
    case Scc => ExtWords(m, 0)
    case Tas => ExtWords(m, 0)
    case Bcc => BranchWords(word)
    case BitOps => BitOpWords(opnum, word)
    case ToDataRegister => ExtWords(m, ToDataSize(opnum, word))
    case Dbcc => 1
    case Link => 1
    case Movep => 1
    case Move => ExtWords(m, MoveSize(word)) + ExtWords(GetMode(MoveDestField(word)), MoveSize(word))
    case MoveToCcrSr => ExtWords(m, 1)
    case MoveFromSr => ExtWords(m, 1)
    case Movea => ExtWords(m, if (word / 0x1000) % 4 == 3 then 1 else (word / 0x1000) % 4)
    case Movem => 1 + ExtWords(m, Bit6(word) + 1)
    case _ => 0
  }

  /** The case group `f` of `switch (opnum)`. */
  function DecodeForm(f: Form, opnum: nat, word: u16, c: Cursor): Outcome
    requires c.Valid()
  {
    match f
    case AbcdSbcd => DecodeAbcdSbcd(opnum, word, c)
    case AddAndEorOrSub => DecodeAddAndEorOrSub(opnum, word, c)
    case AddaSuba => DecodeAddaSuba(opnum, word, c)
    case ImmediateOps => DecodeImmediateOps(opnum, word, c)
    case AddqSubq => DecodeAddqSubq(opnum, word, c)
    case AddxSubxCmpm => DecodeAddxSubxCmpm(opnum, word, c)
    case ShiftRegister => DecodeShiftRegister(opnum, word, c)
    case ShiftMemory => DecodeShiftMemory(opnum, word, c)
    case Bcc => DecodeBcc(word, c)
    case BitOps => DecodeBitOps(opnum, word, c)
    case ToDataRegister => DecodeToDataRegister(opnum, word, c)
    case Clr => DecodeClr(word, c)
    case Cmpa => DecodeCmpa(word, c)
    case Dbcc => DecodeDbcc(word, c)
    case Exg => DecodeExg(word, c)
    case Ext => DecodeExt(word, c)
    case JmpJsr => DecodeJmpJsr(opnum, word, c)
    case Lea => DecodeLea(word, c)
    case Link => DecodeLink(word, c)
    case Move => DecodeMove(word, c)
    case MoveToCcrSr => DecodeMoveToCcrSr(opnum, word, c)
    case MoveFromSr => DecodeMoveFromSr(word, c)
    case MoveUsp => DecodeMoveUsp(word, c)
    case Movea => DecodeMovea(word, c)
    case Movem => DecodeMovem(word, c)
    case Movep => DecodeMovep(word, c)
    case Moveq => DecodeMoveq(word, c)
    case NbcdNegNegxNot => DecodeNbcdNegNegxNot(opnum, word, c)
    case NoOperand => DecodeNoOperand(opnum, c)
    case Pea => DecodePea(word, c)
    case Scc => DecodeScc(word, c)
    case Swap => DecodeSwap(word, c)
    case Tas => DecodeTas(word, c)
    case Trap => DecodeTrap(word, c)
    case Tst => DecodeTst(word, c)
    case Unlk => DecodeUnlk(word, c)
  }

  /**
    Every case group that decodes reads exactly the extension words its
    encoding defines (or sets `overflow` when the window ends first).
  */
  lemma DecodeFormLength(f: Form, opnum: nat, word: u16, c: Cursor)
    requires c.Valid()
    ensures DecodeForm(f, opnum, word, c).Accept? ==> Consumed(c, DecodeForm(f, opnum, word, c).next, FormWords(f, opnum, word))
  {
    match f {
      case AddxSubxCmpm => ConsumedNothing(c);
      case ShiftRegister => ConsumedNothing(c);
      case Exg => ConsumedNothing(c);
      case AbcdSbcd => ConsumedNothing(c);
      case Ext => ConsumedNothing(c);
      case MoveUsp => ConsumedNothing(c);
      case Moveq => ConsumedNothing(c);
      case NoOperand => ConsumedNothing(c);
      case Swap => ConsumedNothing(c);
      case Trap => ConsumedNothing(c);
      case Unlk => ConsumedNothing(c);
      case AddAndEorOrSub =>
      case AddaSuba =>
      case ImmediateOps =>
      case AddqSubq =>
      case ShiftMemory =>
      case Bcc =>
      case BitOps =>
      case ToDataRegister =>
      case Clr =>
      case Cmpa =>
      case Dbcc =>
      case JmpJsr =>
      case Lea =>
      case Link =>
      case Move =>
      case MoveToCcrSr =>
      case MoveFromSr =>
      case Movea =>
      case Movem =>
      case Movep =>
      case NbcdNegNegxNot =>
      case Pea =>
      case Scc =>
      case Tas =>
      case Tst =>
    }
  }

  /** The case of `switch (opnum)` for entry `opnum`; the `default` branch cannot be reached. */
  function DecodeAt(opnum: nat, word: u16, c: Cursor): Outcome
    requires 1 <= opnum <= 87 && c.Valid()
  {
    HandlerTotal(opnum);
    DecodeForm(Handler(opnum).value, opnum, word, c)
  }

  /** Extension words of an accepted instruction of catalogue entry `opnum`. */
  function ExtensionWords(opnum: nat, word: u16): nat
    requires 1 <= opnum <= 87
  {
    HandlerTotal(opnum);
    FormWords(Handler(opnum).value, opnum, word)
  }

  /**
    What each catalogue entry gives for the word: the outcome of its case
    when the word matches it, and `Reject` when it does not (and for the
    reserved entry 0, which the loop never visits).
  */
  function Candidates(word: u16, c: Cursor): (cs: seq<Outcome>)
    requires c.Valid()
    ensures |cs| == 88
  {
    seq(88, k requires 0 <= k < 88 => if 1 <= k && Matches(word, k) then DecodeAt(k, word, c) else Reject)
  }

  /** The first accepting outcome from index `from` on. */
  function First(cs: seq<Outcome>, from: nat): Outcome
    decreases |cs| - from
  {
    if from >= |cs| then Reject
    else if cs[from].Accept? then cs[from]
    else First(cs, from + 1)
  }

  /**
    `First` finds an outcome exactly when one from `from` on accepts, and
    then it is the lowest one.
  */
  lemma {:induction false} FirstIsLowest(cs: seq<Outcome>, from: nat)
    ensures First(cs, from).Reject? ==> forall k :: from <= k < |cs| ==> cs[k].Reject?
    ensures First(cs, from).Accept? ==>
      exists k :: from <= k < |cs| && First(cs, from) == cs[k] && forall j :: from <= j < k ==> cs[j].Reject?
    decreases |cs| - from
  {
    if from < |cs| && !cs[from].Accept? {
      FirstIsLowest(cs, from + 1);
      if First(cs, from).Accept? {
        var k :| from + 1 <= k < |cs| && First(cs, from + 1) == cs[k] && forall j :: from + 1 <= j < k ==> cs[j].Reject?;
        assert forall j :: from <= j < k ==> cs[j].Reject?;
      }
    }
  }

  /**
    `for (opnum = from; opnum <= 87; ++opnum)` with the exit `opnum = 88`
    once a case has decoded (dis68k.cpp:188-189, 1039). Every case that
    breaks leaves the cursor as it was, so each entry sees the same cursor.
  */
  function Scan(word: u16, c: Cursor, from: nat): Outcome
    requires 1 <= from <= 88 && c.Valid()
  {
    First(Candidates(word, c), from)
  }

  /** One turn of the loop: entry `k` ends the scan if it matches and decodes, else the scan goes on. */
  lemma ScanStep(word: u16, c: Cursor, k: nat)
    requires 1 <= k <= 87 && c.Valid()
    ensures Scan(word, c, k) ==
      if Matches(word, k) && DecodeAt(k, word, c).Accept? then DecodeAt(k, word, c) else Scan(word, c, k + 1)
  {
    assert Candidates(word, c)[k] == if Matches(word, k) then DecodeAt(k, word, c) else Reject;
  }

  /** Entry `k` matches the word and its case sets `decoded`. */
  predicate Accepts(word: u16, c: Cursor, k: nat)
    requires c.Valid()
  {
    1 <= k <= 87 && Matches(word, k) && DecodeAt(k, word, c).Accept?
  }

  /**
    First match wins: when the scan finds an instruction, its result is
    that of the lowest entry from `from` on that matches and decodes.
  */
  lemma ScanFirstAccept(word: u16, c: Cursor, from: nat)
    requires 1 <= from <= 88 && c.Valid()
    requires Scan(word, c, from).Accept?
    ensures exists k ::
      && from <= k <= 87 && Accepts(word, c, k)
      && Scan(word, c, from) == DecodeAt(k, word, c)
      && (forall j :: from <= j < k ==> !Accepts(word, c, j))
  {
    var cs := Candidates(word, c);
    FirstIsLowest(cs, from);
    CandidatesAccept(word, c);
    var k :| from <= k < |cs| && First(cs, from) == cs[k] && forall j :: from <= j < k ==> cs[j].Reject?;
  }

  /** An entry's outcome accepts exactly when the entry matches and its case decodes. */
  lemma CandidatesAccept(word: u16, c: Cursor)
    requires c.Valid()
    ensures forall k :: 0 <= k < 88 ==>
      && (Candidates(word, c)[k].Accept? <==> Accepts(word, c, k))
      && (Accepts(word, c, k) ==> Candidates(word, c)[k] == DecodeAt(k, word, c))
  {
  }

  /** The entry that decodes reads exactly its extension words. */
  lemma DecodeAtLength(k: nat, word: u16, c: Cursor)
    requires c.Valid() && 1 <= k <= 87
    ensures DecodeAt(k, word, c).Accept? ==> Consumed(c, DecodeAt(k, word, c).next, ExtensionWords(k, word))
  {
    HandlerTotal(k);
    DecodeFormLength(Handler(k).value, k, word, c);
  }

  /** ... and it finds none exactly when no entry from `from` on matches and decodes. */
  lemma ScanNoAccept(word: u16, c: Cursor, from: nat)
    requires 1 <= from <= 88 && c.Valid()
    ensures Scan(word, c, from).Reject? <==> forall k :: from <= k <= 87 ==> !Accepts(word, c, k)
  {
    var cs := Candidates(word, c);
    FirstIsLowest(cs, from);
    CandidatesAccept(word, c);
  }

  /** No entry of `table` in `from..stop-1` matches the word. */
  predicate NoneMatch(table: seq<OpcodeDetails>, w: bv16, from: nat, stop: nat)
    requires stop <= |table|
    decreases stop - from
  {
    from >= stop || (!EntryMatches(w, table[from]) && NoneMatch(table, w, from + 1, stop))
  }

  lemma {:induction false} NoneMatchMeans(table: seq<OpcodeDetails>, w: bv16, from: nat, stop: nat)
    requires stop <= |table|
    ensures NoneMatch(table, w, from, stop) <==> forall k :: from <= k < stop ==> !EntryMatches(w, table[k])
    decreases stop - from
  {
    if from < stop {
      NoneMatchMeans(table, w, from + 1, stop);
    }
  }

  lemma {:induction false} NoneMatchJoin(table: seq<OpcodeDetails>, w: bv16, a: nat, b: nat, stop: nat)
    requires a <= b <= stop <= |table| && NoneMatch(table, w, a, b) && NoneMatch(table, w, b, stop)
    ensures NoneMatch(table, w, a, stop)
    decreases b - a
  {
    if a < b {
      NoneMatchJoin(table, w, a + 1, b, stop);
    }
  }

  /** `First` passes over a stretch of rejecting outcomes. */
  lemma {:induction false} FirstSkips(cs: seq<Outcome>, from: nat, stop: nat)
    requires from <= stop <= |cs|
    requires forall k :: from <= k < stop ==> cs[k].Reject?
    ensures First(cs, from) == First(cs, stop)
    decreases stop - from
  {
    if from < stop {
      FirstSkips(cs, from + 1, stop);
    }
  }

  /** Entries the word does not match are skipped by the scan. */
  lemma ScanSkips(word: u16, c: Cursor, from: nat, stop: nat)
    requires 1 <= from <= stop <= 88 && c.Valid() && NoneMatch(Optab, word as bv16, from, stop)
    ensures Scan(word, c, from) == Scan(word, c, stop)
  {
    NoneMatchMeans(Optab, word as bv16, from, stop);
    CandidatesReject(word, c, from, stop);
    FirstSkips(Candidates(word, c), from, stop);
  }

  /** An entry the word does not match contributes `Reject`. */
  lemma CandidatesReject(word: u16, c: Cursor, from: nat, stop: nat)
    requires from <= stop <= 88 && c.Valid()
    requires forall k :: from <= k < stop ==> !EntryMatches(word as bv16, Optab[k])
    ensures forall k :: from <= k < stop ==> Candidates(word, c)[k].Reject?
  {
    forall k | from <= k < stop ensures Candidates(word, c)[k].Reject? {
      assert !Matches(word, k);
    }
  }

  /** What `disasm` returns through its result and its two out-parameters. */
  datatype Disassembly = Disassembly(ok: bool, instAddress: u32, text: string)

  /** `"%-8s %s\n"` (dis68k.cpp:1043). */
  function Line(opcode: string, operand: string): string
  {
    PadRight(opcode, 8) + " " + operand + "\n"
  }

  /**
    `disasm`: read the opcode word, scan the catalogue, and print the line
    or leave "???\n"; the instruction address is the address before the
    opcode word in both cases.
  */
  function Disassemble(c: Cursor): (r: (Disassembly, Cursor))
    requires c.Valid()
  {
    var (word, c1) := ReadWord(c);
    var out := Scan(word, c1, 1);
    if out.Accept? then (Disassembly(true, c.address, Line(out.opcode, out.operand)), out.next)
    else (Disassembly(false, c.address, "???\n"), c1)
  }

  /**
    The scan stops at the first entry the word matches, when that entry's
    case decodes.
  */
  lemma ScanFirstMatch(word: u16, w: bv16, c: Cursor, k: nat)
    requires 1 <= k <= 87 && c.Valid() && w as int == word
    requires NoneMatch(Optab, w, 1, k) && EntryMatches(w, Optab[k])
    requires DecodeAt(k, word, c).Accept?
    ensures Scan(word, c, 1) == DecodeAt(k, word, c)
  {
    assert word as bv16 == w;
    ScanSkips(word, c, 1, k);
    assert Candidates(word, c)[k] == DecodeAt(k, word, c);
  }

  /**
    A line names the mnemonic left-justified in eight columns, never
    truncated, then one blank, the operands and a newline.
  */
  lemma LineLayout(opcode: string, operand: string)
    ensures var l := Line(opcode, operand); var w := if |opcode| < 8 then 8 else |opcode|;
      && |l| == w + |operand| + 2
      && l[..|opcode|] == opcode
      && (forall i :: |opcode| <= i <= w ==> l[i] == ' ')
      && l[w + 1..w + 1 + |operand|] == operand
      && l[|l| - 1] == '\n'
  {
    var p := PadRight(opcode, 8);
    var l := Line(opcode, operand);
    assert l == p + (" " + operand + "\n");
    assert l[..|opcode|] == p[..|opcode|];
  }

  /** The scan's result is that of the lowest entry that matches and decodes. */
  lemma ScanLowestAccept(word: u16, c: Cursor, k: nat)
    requires c.Valid() && Accepts(word, c, k)
    requires forall j :: 1 <= j < k ==> !Accepts(word, c, j)
    ensures Scan(word, c, 1) == DecodeAt(k, word, c)
  {
    ScanNoAccept(word, c, 1);
    ScanFirstAccept(word, c, 1);
    var i :| && 1 <= i <= 87 && Accepts(word, c, i)
      && Scan(word, c, 1) == DecodeAt(i, word, c)
      && (forall j :: 1 <= j < i ==> !Accepts(word, c, j));
    assert i == k;
  }

  /**
    When entry `k` is the first to decode the word, `disasm` succeeds with
    its line, consumes the opcode word and that instruction's extension
    words, and reports the address of the opcode word.
  */
  lemma DisassembleFound(c: Cursor, k: nat)
    requires c.Valid()
    requires var (word, c1) := ReadWord(c);
      Accepts(word, c1, k) && forall j :: 1 <= j < k ==> !Accepts(word, c1, j)
    ensures var (word, c1) := ReadWord(c); var (d, next) := Disassemble(c);
      && d.ok && d.instAddress == c.address
      && d.text == Line(DecodeAt(k, word, c1).opcode, DecodeAt(k, word, c1).operand)
      && Consumed(c, next, 1 + ExtensionWords(k, word))
  {
    var (word, c1) := ReadWord(c);
    AdvancesValid(c, c1);
    ScanLowestAccept(word, c1, k);
    DecodeAtLength(k, word, c1);
    ConsumedCompose(c, c1, DecodeAt(k, word, c1).next, 1, ExtensionWords(k, word));
  }

  /**
    When no entry decodes the word, `disasm` fails with "???", consumes
    only the opcode word, and still reports the address of that word.
  */
  lemma DisassembleNotFound(c: Cursor)
    requires c.Valid()
    requires var (word, c1) := ReadWord(c); forall k :: !Accepts(word, c1, k)
    ensures var (d, next) := Disassemble(c);
      && !d.ok && d.instAddress == c.address && d.text == "???\n"
      && Consumed(c, next, 1)
  {
    var (word, c1) := ReadWord(c);
    AdvancesValid(c, c1);
    ScanNoAccept(word, c1, 1);
  }
}
