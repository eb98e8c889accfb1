/**
  The `Dis68k` object (dis68k.h): a read cursor over a caller's byte
  window with the address of the next byte and a sticky overflow flag,
  and the methods `getbyte`, `getword`, `sprintmode` and `disasm` that
  move it. Every method is proved against the cursor functions of
  `ByteCursor`, `Operand` and `Decoder`: its results and the object's new
  state are what those functions give for the old state.
*/
module Disassembler {
  import opened ByteCursor
  import opened Format
  import opened Catalogue
  import opened Operand
  import opened Decoder
  import RegisterList

  /** The cursor after a case: moved past its words when it decodes, untouched when it breaks. */
  function After(out: Outcome, c: Cursor): Cursor
  {
    if out.Accept? then out.next else c
  }

  class Dis68k {
    const mem: seq<u8>
    const begin: nat
    const end: nat
    var cur: nat
    var address: u32
    var overflow: bool

    /** The object's fields as a cursor value. */
    function State(): Cursor
      reads this
    {
      Cursor(mem, begin, end, cur, address, overflow)
    }

    ghost predicate Valid()
      reads this
    {
      State().Valid()
    }

    /** `Dis68k(_begin, _end, _address)`: the cursor at the start of the window. */
    constructor (bytes: seq<u8>, first: nat, last: nat, start: u32)
      requires first <= last <= |bytes|
      ensures Valid() && State() == Start(bytes, first, last, start)
    {
      mem, begin, end := bytes, first, last;
      cur := first;
      overflow := false;
      address := start;
    }

    /** `getbyte`: the next byte, or 0 and the overflow flag at the end of the window. */
    method GetByte() returns (b: u8)
      requires Valid()
      modifies this
      ensures Valid() && (b, State()) == ReadByte(old(State()))
    {
      if cur < end {
        b := mem[cur];
        cur := cur + 1;
        address := Wrap32(address + 1);
      } else {
        overflow := true;
        b := 0;
      }
    }

    /** `getword`: the next big-endian word, or 0 and the overflow flag when fewer than two bytes are left. */
    method GetWord() returns (w: u16)
      requires Valid()
      modifies this
      ensures Valid() && (w, State()) == ReadWord(old(State()))
    {
      if cur < end - 1 {
        w := (mem[cur] as int) * 0x100 + mem[cur + 1];
        cur := cur + 2;
        address := Wrap32(address + 2);
      } else {
        overflow := true;
        w := 0;
      }
    }

    /** `sprintmode`: one operand, reading its extension words. */
    method SprintMode(mode: nat, reg: nat, size: nat) returns (s: string)
      requires Valid()
      modifies this
      ensures Valid() && (s, State()) == Render(mode, reg, size, old(State()))
    {
      if mode == 0 {
        s := "D" + Dec(reg);
      } else if mode == 1 {
        s := "A" + Dec(reg);
      } else if mode == 2 {
        s := "(A" + Dec(reg) + ")";
      } else if mode == 3 {
        s := "(A" + Dec(reg) + ")+";
      } else if mode == 4 {
        s := "-(A" + Dec(reg) + ")";
      } else if mode == 5 || mode == 9 {
        s := DisplacedText(mode == 9, reg);
      } else if mode == 6 || mode == 10 {
        s := IndexedText(mode == 10, reg);
      } else if mode == 7 {
        var data := GetWord();
        s := "$0000" + Hex(data, 4, false);
      } else if mode == 8 {
        var data1 := GetWord();
        var data2 := GetWord();
        s := "$" + Hex(data1, 4, false) + Hex(data2, 4, false);
      } else if mode == 11 {
        s := ImmediateOperand(size);
      } else {
        s := "";
      }
    }

    /** Modes 5 and 9: a 16-bit displacement from An, or from the PC with the target annotated. */
    method DisplacedText(pc: bool, reg: nat) returns (s: string)
      requires Valid()
      modifies this
      ensures Valid() && (s, State()) == Displaced(pc, reg, old(State()))
    {
      var data := GetWord();
      var displacement := Sext16(data);
      if !pc {
        s := SignedDec(displacement) + "(A" + Dec(reg) + ")";
      } else {
        var ldata := PcTarget(State(), displacement);
        s := SignedDec(displacement) + "(PC) {$" + Hex(ldata, 8, false) + "}";
      }
    }

    /** Modes 6 and 10: an 8-bit displacement and an index register from one extension word. */
    method IndexedText(pc: bool, reg: nat) returns (s: string)
      requires Valid()
      modifies this
      ensures Valid() && (s, State()) == Indexed(pc, reg, old(State()))
    {
      var data := GetWord();
      var displacement := Sext8(data % 0x100);
      var ireg, itype, isize := (data / 0x1000) % 8, data / 0x8000, (data / 0x800) % 2;
      s := SignedDec(displacement) + IndexBase(pc, reg) + "," + IndexName(itype, ireg, isize) + ")";
    }

    /** Mode 11: the immediate in lower-case hex; nothing is written for a size outside 0..2. */
    method ImmediateOperand(size: nat) returns (s: string)
      requires Valid()
      modifies this
      ensures Valid() && (s, State()) == Immediate(size, old(State()))
    {
      var data1 := GetWord();
      if size == 0 {
        s := "#$" + Hex(data1 % 0x100, 2, false);
      } else if size == 1 {
        s := "#$" + Hex(data1, 4, false);
      } else if size == 2 {
        var data2 := GetWord();
        s := "#$" + Hex(data1, 4, false) + Hex(data2, 4, false);
      } else {
        s := "";
      }
    }

    // -------------------------------------------------------------------
    // The cases of `switch (opnum)` that read from the window. Each breaks
    // before reading anything when the encoding is not valid for it.

    /** ADD, AND, EOR, OR, SUB with a data register (dis68k.cpp:212-262). */
    method AddAndEorOrSub(opnum: nat, word: u16) returns (out: Outcome)
      requires Valid()
      modifies this
      ensures Valid() && out == DecodeAddAndEorOrSub(opnum, word, old(State())) && State() == After(out, old(State()))
    {
      var dmode, dreg, size := GetMode(word), Low3(word), SizeField(word);
      var dir := Bit8(word);
      if size == 3 || (opnum == 2 && dmode == 1 && size == 0) || (opnum == 77 && dmode == 1 && size == 0)
        || (opnum == 31 && dir == 0) || (dir == 1 && dmode >= 9)
      {
        return Reject;
      }
      var dest := SprintMode(dmode, dreg, size);
      var source := DReg(High3(word));
      out := Accept(Sized(ArithName(opnum), size), if dir != 0 then source + "," + dest else dest + "," + source, State());
    }

    /** ADDA, SUBA (dis68k.cpp:263-279). */
    method AddaSuba(opnum: nat, word: u16) returns (out: Outcome)
      requires Valid()
      modifies this
      ensures Valid() && out == DecodeAddaSuba(opnum, word, old(State())) && State() == After(out, old(State()))
    {
      var sreg, size := Low3(word), Bit8(word) + 1;
      var source := SprintMode(GetMode(word), sreg, size);
      out := Accept(Sized(if opnum == 3 then "ADDA" else "SUBA", size), source + "," + AReg(sreg), State());
    }

    /** The immediate of ADDI and its kin, in upper-case hex. */
    method ImmediateText(size: nat) returns (s: string)
      requires Valid() && size < 3
      modifies this
      ensures Valid() && (s, State()) == ImmediateSource(size, old(State()))
    {
      var data := GetWord();
      if size == 0 {
        s := "#$" + Hex(data % 0x100, 2, true);
      } else if size == 1 {
        s := "#$" + Hex(data, 4, true);
      } else {
        var data2 := GetWord();
        s := "#$" + Hex(data, 4, true) + Hex(data2, 4, true);
      }
    }

    /** ADDI, ANDI, CMPI, EORI, ORI, SUBI (dis68k.cpp:280-332). */
    method ImmediateOps(opnum: nat, word: u16) returns (out: Outcome)
      requires Valid()
      modifies this
      ensures Valid() && out == DecodeImmediateOps(opnum, word, old(State())) && State() == After(out, old(State()))
    {
      var dmode, dreg, size := GetMode(word), Low3(word), SizeField(word);
      if size == 3 || dmode == 1 || dmode == 9 || dmode == 10 || dmode == 12
        || (dmode == 11 && (opnum == 4 || opnum == 26 || opnum == 79))
      {
        return Reject;
      }
      var source := ImmediateText(size);
      if dmode == 11 {
        out := Accept(Sized(ImmediateName(opnum), size), source + ",SR", State());
      } else {
        var dest := SprintMode(dmode, dreg, size);
        out := Accept(Sized(ImmediateName(opnum), size), source + "," + dest, State());
      }
    }

    /** ADDQ, SUBQ (dis68k.cpp:333-353). */
    method AddqSubq(opnum: nat, word: u16) returns (out: Outcome)
      requires Valid()
      modifies this
      ensures Valid() && out == DecodeAddqSubq(opnum, word, old(State())) && State() == After(out, old(State()))
    {
      var dmode, dreg, size := GetMode(word), Low3(word), SizeField(word);
      if size == 3 || dmode >= 9 || (size == 0 && dmode == 1) {
        return Reject;
      }
      var dest := SprintMode(dmode, dreg, size);
      out := Accept(Sized(if opnum == 5 then "ADDQ" else "SUBQ", size), "#" + Dec(QuickCount(High3(word))) + "," + dest, State());
    }

    /** Memory shifts and rotates (dis68k.cpp:421-453). */
    method ShiftMemory(opnum: nat, word: u16) returns (out: Outcome)
      requires Valid()
      modifies this
      ensures Valid() && out == DecodeShiftMemory(opnum, word, old(State())) && State() == After(out, old(State()))
    {
      var dmode := GetMode(word);
      if dmode <= 1 || dmode >= 9 {
        return Reject;
      }
      var operand := SprintMode(dmode, Low3(word), 0);
      out := Accept(ShiftMnemonic(opnum), operand, State());
    }

    /** The branch target: the 8-bit displacement, or the following word when it is zero. */
    method Target(word: u16) returns (target: u32)
      requires Valid()
      modifies this
      ensures Valid() && (target, State()) == BranchTarget(word, old(State()))
    {
      var offset := word % 0x100;
      if offset != 0 {
        target := Wrap32(address + Sext8(offset));
      } else {
        var ext := GetWord();
        target := Wrap32(address - 2 + Sext16(ext));
      }
    }

    /** Bcc, BRA, BSR (dis68k.cpp:454-468). */
    method Bcc(word: u16) returns (out: Outcome)
      requires Valid()
      modifies this
      ensures Valid() && out == DecodeBcc(word, old(State())) && State() == After(out, old(State()))
    {
      var target := Target(word);
      out := Accept(BraTab[Cond(word)], AddressText(target), State());
    }

    /** The bit number: a data register, or an immediate word masked with 0x2F. */
    method BitNumberText(opnum: nat, word: u16) returns (s: string)
      requires Valid()
      modifies this
      ensures Valid() && (s, State()) == BitNumber(opnum, word, old(State()))
    {
      if opnum % 2 == 0 {
        s := DReg(High3(word));
      } else {
        var data := GetWord();
        s := "#" + Dec(And16(data, 0x002F));
      }
    }

    /** BCHG, BCLR, BSET, BTST (dis68k.cpp:469-528). */
    method BitOps(opnum: nat, word: u16) returns (out: Outcome)
      requires Valid()
      modifies this
      ensures Valid() && out == DecodeBitOps(opnum, word, old(State())) && State() == After(out, old(State()))
    {
      var dmode, dreg := GetMode(word), Low3(word);
      if dmode == 1 || dmode >= 11 || (opnum < 20 && dmode >= 9) {
        return Reject;
      }
      var source := BitNumberText(opnum, word);
      var dest := SprintMode(dmode, dreg, 0);
      out := Accept(BitOpName(opnum), source + "," + dest, State());
    }

    /** CHK, CMP, DIVS, DIVU, MULS, MULU (dis68k.cpp:529-574). */
    method ToDataRegister(opnum: nat, word: u16) returns (out: Outcome)
      requires Valid()
      modifies this
      ensures Valid() && out == DecodeToDataRegister(opnum, word, old(State())) && State() == After(out, old(State()))
    {
      var smode := GetMode(word);
      var size := ToDataSize(opnum, word);
      if (smode == 1 && opnum != 24) || smode >= 12 || size == 3 {
        return Reject;
      }
      var source := SprintMode(smode, Low3(word), size);
      out := Accept(ToDataName(opnum, size), source + "," + DReg(High3(word)), State());
    }

    /** CLR (dis68k.cpp:575-586). */
    method Clr(word: u16) returns (out: Outcome)
      requires Valid()
      modifies this
      ensures Valid() && out == DecodeClr(word, old(State())) && State() == After(out, old(State()))
    {
      var dmode, dreg, size := GetMode(word), Low3(word), SizeField(word);
      if dmode == 1 || dmode >= 9 || size == 3 {
        return Reject;
      }
      var operand := SprintMode(dmode, dreg, size);
      out := Accept(Sized("CLR", size), operand, State());
    }

    /** CMPA (dis68k.cpp:587-598). */
    method Cmpa(word: u16) returns (out: Outcome)
      requires Valid()
      modifies this
      ensures Valid() && out == DecodeCmpa(word, old(State())) && State() == After(out, old(State()))
    {
      var size := Bit8(word) + 1;
      var source := SprintMode(GetMode(word), Low3(word), size);
      out := Accept(Sized("CMPA", size), source + "," + AReg(High3(word)), State());
    }

    /** The displacement word of DBcc added to its own address. */
    method WordTargetOf() returns (target: u32)
      requires Valid()
      modifies this
      ensures Valid() && (target, State()) == WordTarget(old(State()))
    {
      var ext := GetWord();
      target := Wrap32(address - 2 + Sext16(ext));
    }

    /** DBcc (dis68k.cpp:599-610). */
    method Dbcc(word: u16) returns (out: Outcome)
      requires Valid()
      modifies this
      ensures Valid() && out == DecodeDbcc(word, old(State())) && State() == After(out, old(State()))
    {
      var target := WordTargetOf();
      out := Accept(DbccName(Cond(word)), DReg(Low3(word)) + "," + AddressText(target), State());
    }

    /** JMP, JSR (dis68k.cpp:639-657). */
    method JmpJsr(opnum: nat, word: u16) returns (out: Outcome)
      requires Valid()
      modifies this
      ensures Valid() && out == DecodeJmpJsr(opnum, word, old(State())) && State() == After(out, old(State()))
    {
      var dmode := GetMode(word);
      if dmode <= 1 || dmode == 3 || dmode == 4 || dmode >= 11 {
        return Reject;
      }
      var operand := SprintMode(dmode, Low3(word), 0);
      out := Accept(if opnum == 35 then "JMP" else "JSR", operand, State());
    }

    /** LEA (dis68k.cpp:658-672). */
    method Lea(word: u16) returns (out: Outcome)
      requires Valid()
      modifies this
      ensures Valid() && out == DecodeLea(word, old(State())) && State() == After(out, old(State()))
    {
      var smode := GetMode(word);
      if smode <= 1 || smode == 3 || smode == 4 || smode >= 11 {
        return Reject;
      }
      var source := SprintMode(smode, Low3(word), 0);
      out := Accept("LEA", source + "," + AReg(High3(word)), State());
    }

    /** LINK (dis68k.cpp:673-680). */
    method Link(word: u16) returns (out: Outcome)
      requires Valid()
      modifies this
      ensures Valid() && out == DecodeLink(word, old(State())) && State() == After(out, old(State()))
    {
      var ext := GetWord();
      out := Accept("LINK", AReg(Low3(word)) + ",#" + SignedDec(Sext16(ext)), State());
    }

    /** MOVE (dis68k.cpp:681-723). */
    method Move(word: u16) returns (out: Outcome)
      requires Valid()
      modifies this
      ensures Valid() && out == DecodeMove(word, old(State())) && State() == After(out, old(State()))
    {
      var smode := GetMode(word);
      var data := MoveDestField(word);
      var dmode := GetMode(data);
      var size := MoveSize(word);
      if (word / 0x1000) % 4 == 0 || smode > 11 || dmode == 1 || dmode >= 9 {
        return Reject;
      }
      var source := SprintMode(smode, Low3(word), size);
      var dest := SprintMode(dmode, data % 8, size);
      out := Accept(Sized("MOVE", size), source + "," + dest + " ", State());
    }

    /** MOVE to CCR, MOVE to SR (dis68k.cpp:724-742). */
    method MoveToCcrSr(opnum: nat, word: u16) returns (out: Outcome)
      requires Valid()
      modifies this
      ensures Valid() && out == DecodeMoveToCcrSr(opnum, word, old(State())) && State() == After(out, old(State()))
    {
      var smode := GetMode(word);
      if smode == 1 || smode >= 12 {
        return Reject;
      }
      var source := SprintMode(smode, Low3(word), 1);
      out := Accept("MOVE.W", source + (if opnum == 44 then ",CCR" else ",SR"), State());
    }

    /** MOVE from SR (dis68k.cpp:743-756). */
    method MoveFromSr(word: u16) returns (out: Outcome)
      requires Valid()
      modifies this
      ensures Valid() && out == DecodeMoveFromSr(word, old(State())) && State() == After(out, old(State()))
    {
      var dmode := GetMode(word);
      if dmode == 1 || dmode >= 9 {
        return Reject;
      }
      var dest := SprintMode(dmode, Low3(word), 1);
      out := Accept("MOVE.W", "SR," + dest, State());
    }

    /** MOVEA (dis68k.cpp:769-787). */
    method Movea(word: u16) returns (out: Outcome)
      requires Valid()
      modifies this
      ensures Valid() && out == DecodeMovea(word, old(State())) && State() == After(out, old(State()))
    {
      var s := (word / 0x1000) % 4;
      if s <= 1 {
        return Reject;
      }
      var size := if s == 3 then 1 else s;
      var source := SprintMode(GetMode(word), Low3(word), size);
      out := Accept(Sized("MOVEA", size), source + "," + AReg(High3(word)), State());
    }

    /** MOVEM (dis68k.cpp:788-886): the mask word, the register list built on an array, then the address. */
    method Movem(word: u16) returns (out: Outcome)
      requires Valid()
      modifies this
      ensures Valid() && out == DecodeMovem(word, old(State())) && State() == After(out, old(State()))
    {
      var dmode, dreg, size := GetMode(word), Low3(word), Bit6(word) + 1;
      var dir := Bit10(word);
      if dmode == 0 || dmode == 1 || dmode >= 11 || (dir == 0 && dmode == 3) || (dir == 1 && dmode == 4) {
        return Reject;
      }
      var data := GetWord();
      var list := RegisterList.BuildRegisterList(data);
      var dest := SprintMode(dmode, dreg, size);
      out := Accept(Sized("MOVEM", size), MovemOperand(dir, list, dest), State());
    }

    /** MOVEP (dis68k.cpp:887-904). */
    method Movep(word: u16) returns (out: Outcome)
      requires Valid()
      modifies this
      ensures Valid() && out == DecodeMovep(word, old(State())) && State() == After(out, old(State()))
    {
      var dreg, areg, size := High3(word), Low3(word), Bit6(word) + 1;
      var data := GetWord();
      var memory := "$" + Hex(data, 4, true) + "(A" + Dec(areg) + ")";
      if Bit7(word) == 0 {
        out := Accept(Sized("MOVEP", size), memory + "," + DReg(dreg), State());
      } else {
        out := Accept(Sized("MOVEP", size), DReg(dreg) + "," + memory, State());
      }
    }

    /** NBCD, NEG, NEGX, NOT (dis68k.cpp:911-935). */
    method NbcdNegNegxNot(opnum: nat, word: u16) returns (out: Outcome)
      requires Valid()
      modifies this
      ensures Valid() && out == DecodeNbcdNegNegxNot(opnum, word, old(State())) && State() == After(out, old(State()))
    {
      var dmode, dreg, size := GetMode(word), Low3(word), SizeField(word);
      if dmode == 1 || dmode >= 9 || size == 3 {
        return Reject;
      }
      var operand := SprintMode(dmode, dreg, size);
      out := Accept(Sized(NegName(opnum), size), operand, State());
    }

    /** PEA (dis68k.cpp:968-978). */
    method Pea(word: u16) returns (out: Outcome)
      requires Valid()
      modifies this
      ensures Valid() && out == DecodePea(word, old(State())) && State() == After(out, old(State()))
    {
      var smode := GetMode(word);
      if smode <= 1 || smode == 3 || smode == 4 || smode >= 11 {
        return Reject;
      }
      var operand := SprintMode(smode, Low3(word), 0);
      out := Accept("PEA", operand, State());
    }

    /** Scc (dis68k.cpp:979-992). */
    method Scc(word: u16) returns (out: Outcome)
      requires Valid()
      modifies this
      ensures Valid() && out == DecodeScc(word, old(State())) && State() == After(out, old(State()))
    {
      var dmode := GetMode(word);
      if dmode == 1 || dmode >= 9 {
        return Reject;
      }
      var dest := SprintMode(dmode, Low3(word), 0);
      out := Accept(SccTab[Cond(word)], dest, State());
    }

    /** TAS (dis68k.cpp:999-1008). */
    method Tas(word: u16) returns (out: Outcome)
      requires Valid()
      modifies this
      ensures Valid() && out == DecodeTas(word, old(State())) && State() == After(out, old(State()))
    {
      var dmode := GetMode(word);
      if dmode == 1 || dmode >= 9 {
        return Reject;
      }
      var operand := SprintMode(dmode, Low3(word), 0);
      out := Accept("TAS ", operand, State());
    }

    /** TST (dis68k.cpp:1015-1027). */
    method Tst(word: u16) returns (out: Outcome)
      requires Valid()
      modifies this
      ensures Valid() && out == DecodeTst(word, old(State())) && State() == After(out, old(State()))
    {
      var dmode, dreg, size := GetMode(word), Low3(word), SizeField(word);
      if dmode == 1 || dmode >= 9 || size == 3 {
        return Reject;
      }
      var operand := SprintMode(dmode, dreg, size);
      out := Accept("TST ", operand, State());
    }

    /**
      `switch (opnum)`: the case group of the entry. The groups that only
      look at the opcode word read nothing and are the `Decoder` functions
      themselves.
    */
    method DecodeCase(opnum: nat, word: u16) returns (out: Outcome)
      requires Valid() && 1 <= opnum <= 87
      modifies this
      ensures Valid() && out == DecodeAt(opnum, word, old(State())) && State() == After(out, old(State()))
    {
      HandlerTotal(opnum);
      match Handler(opnum).value {
        case AbcdSbcd => out := DecodeAbcdSbcd(opnum, word, State());
        case AddAndEorOrSub => out := AddAndEorOrSub(opnum, word);
        case AddaSuba => out := AddaSuba(opnum, word);
        case ImmediateOps => out := ImmediateOps(opnum, word);
        case AddqSubq => out := AddqSubq(opnum, word);
        case AddxSubxCmpm => out := DecodeAddxSubxCmpm(opnum, word, State());
        case ShiftRegister => out := DecodeShiftRegister(opnum, word, State());
        case ShiftMemory => out := ShiftMemory(opnum, word);
        case Bcc => out := Bcc(word);
        case BitOps => out := BitOps(opnum, word);
        case ToDataRegister => out := ToDataRegister(opnum, word);
        case Clr => out := Clr(word);
        case Cmpa => out := Cmpa(word);
        case Dbcc => out := Dbcc(word);
        case Exg => out := DecodeExg(word, State());
        case Ext => out := DecodeExt(word, State());
        case JmpJsr => out := JmpJsr(opnum, word);
        case Lea => out := Lea(word);
        case Link => out := Link(word);
        case Move => out := Move(word);
        case MoveToCcrSr => out := MoveToCcrSr(opnum, word);
        case MoveFromSr => out := MoveFromSr(word);
        case MoveUsp => out := DecodeMoveUsp(word, State());
        case Movea => out := Movea(word);
        case Movem => out := Movem(word);
        case Movep => out := Movep(word);
        case Moveq => out := DecodeMoveq(word, State());
        case NbcdNegNegxNot => out := NbcdNegNegxNot(opnum, word);
        case NoOperand => out := DecodeNoOperand(opnum, State());
        case Pea => out := Pea(word);
        case Scc => out := Scc(word);
        case Swap => out := DecodeSwap(word, State());
        case Tas => out := Tas(word);
        case Trap => out := DecodeTrap(word, State());
        case Tst => out := Tst(word);
        case Unlk => out := DecodeUnlk(word, State());
      }
    }

    /**
      `disasm`: read the opcode word, try the entries 1..87 in order until a
      case decodes, and return the line "%-8s %s\n" of its mnemonic and
      operands, or "???\n". The instruction address is the address of the
      opcode word either way.
    */
    method Disasm() returns (ok: bool, instAddress: u32, text: string)
      requires Valid()
      modifies this
      ensures Valid() && (Disassembly(ok, instAddress, text), State()) == Disassemble(old(State()))
    {
      var startAddress := address;
      var word := GetWord();
      var decoded := false;
      text := "???\n";
      instAddress := startAddress;
      var opcode, operand := "", "";
      ghost var afterWord := State();
      var opnum := 1;
      while opnum <= 87
        invariant 1 <= opnum <= 89 && Valid()
        invariant !decoded ==> opnum <= 88 && State() == afterWord && Scan(word, afterWord, 1) == Scan(word, afterWord, opnum)
        invariant decoded ==> opnum == 89 && Scan(word, afterWord, 1) == Accept(opcode, operand, State())
        decreases 89 - opnum
      {
        ScanStep(word, afterWord, opnum);
        if Matches(word, opnum) {
          var out := DecodeCase(opnum, word);
          if out.Accept? {
            decoded := true;
            opcode, operand := out.opcode, out.operand;
          }
        }
        if decoded {
          opnum := 88;
        }
        opnum := opnum + 1;
      }
      if decoded {
        text := Line(opcode, operand);
        instAddress := startAddress;
        ok := true;
      } else {
        ok := false;
      }
    }
  }
}
