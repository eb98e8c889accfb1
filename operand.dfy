/**
  Effective addresses: `getmode` (dis68k.cpp:165-177), which decodes the
  6-bit mode/register field, and `Dis68k::sprintmode` (dis68k.cpp:88-157),
  which renders one operand and reads its extension words from the cursor.
  `Render` states sprintmode on cursor values; the method
  `Disassembler.Dis68k.SprintMode` is proved against it.
*/
module Operand {
  import opened ByteCursor
  import opened Format

  /**
    `getmode`: bits 5..3 select the mode and bits 2..0 the register; mode 7
    is extended by the register field to the absolute, PC-relative and
    immediate modes 7..11, and its register values 5..7 give 12 (invalid).
  */
  function GetMode(instruction: u16): (m: nat)
    ensures m <= 12
    ensures m == 12 <==> (instruction / 8) % 8 == 7 && instruction % 8 >= 5
  {
    var mode := (instruction / 0x8) % 8;
    var reg := instruction % 8;
    if mode == 7 then
      (if reg >= 5 then 12 else 7 + reg)
    else mode
  }

  /**
    The 6-bit field the 68000 uses for decoded mode `m` (0..11) with register
    `r`; the modes 7..11 have no register of their own.
  */
  function EAField(m: nat, r: nat): (f: nat)
    requires m <= 11 && r < 8
    ensures f < 64
  {
    if m <= 6 then m * 8 + r else 56 + (m - 7)
  }

  /** `getmode` inverts `EAField` ... */
  lemma GetModeOfField(m: nat, r: nat)
    requires m <= 11 && r < 8
    ensures GetMode(EAField(m, r)) == m
  {
  }

  /**
    ... and every field it accepts is one `EAField` produces: the valid
    6-bit fields and the pairs (mode, register) correspond one to one, and
    only the low six bits of the word matter.
  */
  lemma FieldOfGetMode(w: u16)
    requires GetMode(w) != 12
    ensures EAField(GetMode(w), w % 8) == w % 64
    ensures GetMode(w) == GetMode(w % 64)
  {
    var f := w % 64;
    assert w == (w / 64) * 64 + f;
    assert f == ((w / 8) % 8) * 8 + w % 8;
    assert (f / 8) % 8 == (w / 8) % 8 && f % 8 == w % 8;
  }

  /**
    `if (d >= 32768) d -= 65536` (dis68k.cpp:100): the 16-bit two's
    complement value of `w`, the one number in -32768..32767 congruent to
    `w` modulo 2^16.
  */
  function Sext16(w: u16): (d: int)
    ensures -0x8000 <= d < 0x8000 && (d - w) % 0x1_0000 == 0
  {
    if w >= 0x8000 then w - 0x1_0000 else w
  }

  /** `if (d >= 128) d -= 256` (dis68k.cpp:113, 460), likewise for 8 bits. */
  function Sext8(b: u8): (d: int)
    ensures -0x80 <= d < 0x80 && (d - b) % 0x100 == 0
  {
    if b >= 0x80 then b - 0x100 else b
  }

  /** `ir[2] = {'W','L'}` (dis68k.cpp:89): the size letter of an index register. */
  function IndexSize(isize: nat): char
  {
    if isize == 0 then 'W' else 'L'
  }

  /**
    `sprintmode(mode, reg, size, ...)`: the operand text and the cursor after
    the extension words it read. Modes other than 0..11 write nothing (the
    source only reports them on stderr), and so does mode 11 with a size
    outside 0..2 after reading its first word.
  */
  function Render(mode: nat, reg: nat, size: nat, c: Cursor): (r: (string, Cursor))
    requires c.Valid()
    ensures Consumed(c, r.1, ExtWords(mode, size))
  {
    if mode == 0 then ("D" + Dec(reg), c)
    else if mode == 1 then ("A" + Dec(reg), c)
    else if mode == 2 then ("(A" + Dec(reg) + ")", c)
    else if mode == 3 then ("(A" + Dec(reg) + ")+", c)
    else if mode == 4 then ("-(A" + Dec(reg) + ")", c)
    else if mode == 5 || mode == 9 then Displaced(mode == 9, reg, c)
    else if mode == 6 || mode == 10 then Indexed(mode == 10, reg, c)
    else if mode == 7 then
      var (w, d) := ReadWord(c);
      ("$0000" + Hex(w, 4, false), d)
    else if mode == 8 then
      var (data1, d1) := ReadWord(c);
      var (data2, d2) := ReadWord(d1);
      ConsumedCompose(c, d1, d2, 1, 1);
      ("$" + Hex(data1, 4, false) + Hex(data2, 4, false), d2)
    else if mode == 11 then Immediate(size, c)
    else ("", c)
  }

  /**
    Modes 5 and 9: a 16-bit signed displacement from An, or from the PC
    with the target address annotated in braces.
  */
  function Displaced(pc: bool, reg: nat, c: Cursor): (r: (string, Cursor))
    requires c.Valid()
    ensures Consumed(c, r.1, 1)
  {
    var (w, d) := ReadWord(c);
    var displacement := Sext16(w);
    if !pc then
      (SignedDec(displacement) + "(A" + Dec(reg) + ")", d)
    else
      (SignedDec(displacement) + "(PC) {$" + Hex(PcTarget(d, displacement), 8, false) + "}", d)
  }

  /** `address - 2 + displacement` after the read, modulo 2^32. */
  function PcTarget(d: Cursor, displacement: int): u32
  {
    Wrap32(d.address - 2 + displacement)
  }

  /**
    Modes 6 and 10: an 8-bit signed displacement from An or the PC plus an
    index register, both taken from one extension word.
  */
  function Indexed(pc: bool, reg: nat, c: Cursor): (r: (string, Cursor))
    requires c.Valid()
    ensures Consumed(c, r.1, 1)
  {
    var (data, d) := ReadWord(c);
    var displacement := Sext8(data % 0x100);
    var ireg := (data / 0x1000) % 8;
    var itype := data / 0x8000;
    var isize := (data / 0x800) % 2;
    (SignedDec(displacement) + IndexBase(pc, reg) + "," + IndexName(itype, ireg, isize) + ")", d)
  }

  function IndexBase(pc: bool, reg: nat): string
  {
    if pc then "(PC" else "(A" + Dec(reg)
  }

  /** The index register: `D` or `A`, its number and its size letter. */
  function IndexName(itype: nat, ireg: nat, isize: nat): string
  {
    (if itype == 0 then "D" else "A") + Dec(ireg) + "." + [IndexSize(isize)]
  }

  /**
    Mode 11: `#$` and the immediate, one word for byte (low byte only) and
    word sizes, two for long size; nothing is written for other sizes.
  */
  function Immediate(size: nat, c: Cursor): (r: (string, Cursor))
    requires c.Valid()
    ensures Consumed(c, r.1, if size == 2 then 2 else 1)
  {
    var (data1, d1) := ReadWord(c);
    if size == 0 then ("#$" + Hex(data1 % 0x100, 2, false), d1)
    else if size == 1 then ("#$" + Hex(data1, 4, false), d1)
    else if size == 2 then
      var (data2, d2) := ReadWord(d1);
      ConsumedCompose(c, d1, d2, 1, 1);
      ("#$" + Hex(data1, 4, false) + Hex(data2, 4, false), d2)
    else ("", d1)
  }

  /**
    Extension words each addressing mode carries on the 68000: none for the
    register modes 0..4, one displacement or short address for 5, 6, 7, 9
    and 10, a long address for 8, one immediate word for byte and word
    sizes and two for long size in mode 11, none for the invalid mode.
  */
  function ExtWords(mode: nat, size: nat): nat
  {
    if mode <= 4 then 0
    else if mode == 8 then 2
    else if mode == 11 then (if size == 2 then 2 else 1)
    else if mode <= 10 then 1
    else 0
  }

  /**
    The annotation of a PC-relative operand (mode 9) is the address of its
    extension word plus the displacement, modulo 2^32: "address - 2" taken
    after the read undoes the read's advance.
  */
  lemma PcRelativeTarget(c: Cursor, displacement: int)
    requires c.Valid() && c.cur + 1 < c.end
    ensures PcTarget(ReadWord(c).1, displacement) == Wrap32(c.address + displacement)
  {
    assert ReadWord(c).1.address == Wrap32(c.address + 2);
    WrapAdd(c.address, 2, displacement - 2);
  }

  /**
    The index part of a mode 6 or 10 operand comes from the high byte of the
    extension word: bit 7 chooses A or D, bits 6..4 the register number and
    bit 3 the size.
  */
  function IndexText(hi: u8): string
  {
    (if hi >= 0x80 then "A" else "D") + Dec((hi / 0x10) % 8) + "." + [if (hi / 8) % 2 == 0 then 'W' else 'L']
  }

  /**
    Modes 6 and 10 take an 8-bit signed displacement from the low byte of
    the extension word and the index register from its high byte.
  */
  lemma {:induction false} IndexedOperand(pc: bool, reg: nat, c: Cursor)
    requires c.Valid() && c.WordsLeft() >= 1
    ensures Indexed(pc, reg, c).0
      == SignedDec(Sext8(c.mem[c.cur + 1])) + IndexBase(pc, reg) + "," + IndexText(c.mem[c.cur]) + ")"
  {
    var hi: int, lo: int := c.mem[c.cur], c.mem[c.cur + 1];
    var data := ReadWord(c).0;
    assert data == hi * 0x100 + lo;
    HighByteFields(hi, lo);
    assert IndexName(data / 0x8000, (data / 0x1000) % 8, (data / 0x800) % 2) == IndexText(hi);
  }

  /** Bit fields of a big-endian word that lie inside its high byte. */
  lemma HighByteFields(hi: int, lo: int)
    requires 0 <= hi < 0x100 && 0 <= lo < 0x100
    ensures (hi * 0x100 + lo) % 0x100 == lo
    ensures (hi * 0x100 + lo) / 0x1000 == hi / 0x10
    ensures (hi * 0x100 + lo) / 0x800 == hi / 8
    ensures (hi * 0x100 + lo) / 0x8000 == hi / 0x80
  {
    var w := hi * 0x100 + lo;
    assert w == 0x1000 * (hi / 0x10) + ((hi % 0x10) * 0x100 + lo);
    assert w == 0x800 * (hi / 8) + ((hi % 8) * 0x100 + lo);
    assert w == 0x8000 * (hi / 0x80) + ((hi % 0x80) * 0x100 + lo);
  }
}
