/**
  The rotate mnemonics of dis68k.cpp:394-411 and 433-450: entries 63/64
  (direction bit set, a left rotate) are printed as ROR and entries 65/66
  (direction bit clear) as ROL. This module keeps the register-form and
  memory-form cases as written and exhibits, for each, a word the scan
  hands to entry 63 or 64, whose corrected decoding differs from the
  written one.
*/
module RotateFinding {
  import opened ByteCursor
  import opened Format
  import opened Catalogue
  import opened Operand
  import opened Decoder

  /**
    The register-form case of dis68k.cpp:382-420 as written, with the
    mnemonics of `ShiftMnemonicAsWritten`.
  */
  function DecodeShiftRegisterAsWritten(opnum: nat, word: u16, c: Cursor): (r: Outcome)
    ensures r.Accept? <==> SizeField(word) < 3
  {
    var dreg, size := Low3(word), SizeField(word);
    if size == 3 then Reject
    else
      var count := High3(word);
      var operand := if Bit5(word) == 0 then "#" + Dec(QuickCount(count)) + "," + DReg(dreg)
        else DReg(count) + "," + DReg(dreg);
      Accept(Sized(ShiftMnemonicAsWritten(opnum), size), operand, c)
  }

  /** The memory-form case of dis68k.cpp:421-453 as written. */
  function DecodeShiftMemoryAsWritten(opnum: nat, word: u16, c: Cursor): (r: Outcome)
    requires c.Valid()
    ensures r.Accept? <==> IsMemoryAlterable(GetMode(word))
  {
    var dmode, dreg := GetMode(word), Low3(word);
    if dmode <= 1 || dmode >= 9 then Reject
    else
      var (operand, d) := Render(dmode, dreg, 0, c);
      Accept(ShiftMnemonicAsWritten(opnum), operand, d)
  }

  /**
    The word 0xE318 matches entry 63 and no entry before it. The entries
    are checked eight at a time from the back: `RolWordSkips<n>` covers
    entries n..62, and `stop` names entry 63.
  */
  lemma RolWordSkips57(stop: nat)
    requires stop == 63
    ensures NoneMatch(Optab, 0xE318, 57, stop) && EntryMatches(0xE318, Optab[stop])
  {
    assert NoneMatch(Optab, 0xE318, 57, 63) && EntryMatches(0xE318, Optab[63]);
  }

  lemma RolWordSkips49(stop: nat)
    requires stop == 63
    ensures NoneMatch(Optab, 0xE318, 49, stop) && EntryMatches(0xE318, Optab[stop])
  {
    RolWordSkips57(stop);
    assert NoneMatch(Optab, 0xE318, 49, 57);
    NoneMatchJoin(Optab, 0xE318, 49, 57, stop);
  }

  lemma RolWordSkips41(stop: nat)
    requires stop == 63
    ensures NoneMatch(Optab, 0xE318, 41, stop) && EntryMatches(0xE318, Optab[stop])
  {
    RolWordSkips49(stop);
    assert NoneMatch(Optab, 0xE318, 41, 49);
    NoneMatchJoin(Optab, 0xE318, 41, 49, stop);
  }

  lemma RolWordSkips33(stop: nat)
    requires stop == 63
    ensures NoneMatch(Optab, 0xE318, 33, stop) && EntryMatches(0xE318, Optab[stop])
  {
    RolWordSkips41(stop);
    assert NoneMatch(Optab, 0xE318, 33, 41);
    NoneMatchJoin(Optab, 0xE318, 33, 41, stop);
  }

  lemma RolWordSkips25(stop: nat)
    requires stop == 63
    ensures NoneMatch(Optab, 0xE318, 25, stop) && EntryMatches(0xE318, Optab[stop])
  {
    RolWordSkips33(stop);
    assert NoneMatch(Optab, 0xE318, 25, 33);
    NoneMatchJoin(Optab, 0xE318, 25, 33, stop);
  }

  lemma RolWordSkips17(stop: nat)
    requires stop == 63
    ensures NoneMatch(Optab, 0xE318, 17, stop) && EntryMatches(0xE318, Optab[stop])
  {
    RolWordSkips25(stop);
    assert NoneMatch(Optab, 0xE318, 17, 25);
    NoneMatchJoin(Optab, 0xE318, 17, 25, stop);
  }

  lemma RolWordSkips9(stop: nat)
    requires stop == 63
    ensures NoneMatch(Optab, 0xE318, 9, stop) && EntryMatches(0xE318, Optab[stop])
  {
    RolWordSkips17(stop);
    assert NoneMatch(Optab, 0xE318, 9, 17);
    NoneMatchJoin(Optab, 0xE318, 9, 17, stop);
  }

  lemma RolWordSkips1(stop: nat)
    requires stop == 63
    ensures NoneMatch(Optab, 0xE318, 1, stop) && EntryMatches(0xE318, Optab[stop])
  {
    RolWordSkips9(stop);
    assert NoneMatch(Optab, 0xE318, 1, 9);
    NoneMatchJoin(Optab, 0xE318, 1, 9, stop);
  }

  /** Bit 8 of 0xE318 is set: by its encoding the word is a left rotate. */
  lemma RolWordIsLeft()
    ensures IsLeft(0xE318) && ShiftName(ShiftType(0xE318, true), IsLeft(0xE318)) == "ROL"
  {
  }

  /** Entry 63 is a register rotate. */
  lemma Entry63IsShiftRegister(word: u16, c: Cursor)
    requires c.Valid()
    ensures DecodeAt(63, word, c) == DecodeShiftRegister(63, word, c)
  {
    assert Handler(63) == Some(ShiftRegister);
  }

  /** Entry 63 decodes 0xE318 as a byte rotate of D0 by one; the names as written call it ROR. */
  lemma RolWordEntry63(c: Cursor)
    requires c.Valid()
    ensures DecodeAt(63, 0xE318, c) == Accept("ROL.B", "#1,D0", c)
    ensures DecodeShiftRegisterAsWritten(63, 0xE318, c) == Accept("ROR.B", "#1,D0", c)
  {
    Entry63IsShiftRegister(0xE318, c);
    assert Dec(1) == "1" && Dec(0) == "0";
  }

  /**
    The word 0xE318 has bit 8 set, a left rotate: the scan with the
    corrected names prints it as "ROL.B #1,D0", where the names as written
    give "ROR.B".
  */
  lemma RolWordDisassembly(c: Cursor)
    requires c.Valid()
    ensures Scan(0xE318, c, 1) == Accept("ROL.B", "#1,D0", c)
    ensures DecodeShiftRegisterAsWritten(63, 0xE318, c).opcode == "ROR.B"
  {
    RolWordSkips1(63);
    RolWordEntry63(c);
    ScanFirstMatch(0xE318, 0xE318, c, 63);
  }

  /**
    The word 0xE7D0 matches entry 64 and no entry before it, checked
    eight at a time in the same way: `RolMemorySkips<n>` covers entries
    n..63, and `stop` names entry 64.
  */
  lemma RolMemorySkips57(stop: nat)
    requires stop == 64
    ensures NoneMatch(Optab, 0xE7D0, 57, stop) && EntryMatches(0xE7D0, Optab[stop])
  {
    assert NoneMatch(Optab, 0xE7D0, 57, 64) && EntryMatches(0xE7D0, Optab[64]);
  }

  lemma RolMemorySkips49(stop: nat)
    requires stop == 64
    ensures NoneMatch(Optab, 0xE7D0, 49, stop) && EntryMatches(0xE7D0, Optab[stop])
  {
    RolMemorySkips57(stop);
    assert NoneMatch(Optab, 0xE7D0, 49, 57);
    NoneMatchJoin(Optab, 0xE7D0, 49, 57, stop);
  }

  lemma RolMemorySkips41(stop: nat)
    requires stop == 64
    ensures NoneMatch(Optab, 0xE7D0, 41, stop) && EntryMatches(0xE7D0, Optab[stop])
  {
    RolMemorySkips49(stop);
    assert NoneMatch(Optab, 0xE7D0, 41, 49);
    NoneMatchJoin(Optab, 0xE7D0, 41, 49, stop);
  }

  lemma RolMemorySkips33(stop: nat)
    requires stop == 64
    ensures NoneMatch(Optab, 0xE7D0, 33, stop) && EntryMatches(0xE7D0, Optab[stop])
  {
    RolMemorySkips41(stop);
    assert NoneMatch(Optab, 0xE7D0, 33, 41);
    NoneMatchJoin(Optab, 0xE7D0, 33, 41, stop);
  }

  lemma RolMemorySkips25(stop: nat)
    requires stop == 64
    ensures NoneMatch(Optab, 0xE7D0, 25, stop) && EntryMatches(0xE7D0, Optab[stop])
  {
    RolMemorySkips33(stop);
    assert NoneMatch(Optab, 0xE7D0, 25, 33);
    NoneMatchJoin(Optab, 0xE7D0, 25, 33, stop);
  }

  lemma RolMemorySkips17(stop: nat)
    requires stop == 64
    ensures NoneMatch(Optab, 0xE7D0, 17, stop) && EntryMatches(0xE7D0, Optab[stop])
  {
    RolMemorySkips25(stop);
    assert NoneMatch(Optab, 0xE7D0, 17, 25);
    NoneMatchJoin(Optab, 0xE7D0, 17, 25, stop);
  }

  lemma RolMemorySkips9(stop: nat)
    requires stop == 64
    ensures NoneMatch(Optab, 0xE7D0, 9, stop) && EntryMatches(0xE7D0, Optab[stop])
  {
    RolMemorySkips17(stop);
    assert NoneMatch(Optab, 0xE7D0, 9, 17);
    NoneMatchJoin(Optab, 0xE7D0, 9, 17, stop);
  }

  lemma RolMemorySkips1(stop: nat)
    requires stop == 64
    ensures NoneMatch(Optab, 0xE7D0, 1, stop) && EntryMatches(0xE7D0, Optab[stop])
  {
    RolMemorySkips9(stop);
    assert NoneMatch(Optab, 0xE7D0, 1, 9);
    NoneMatchJoin(Optab, 0xE7D0, 1, 9, stop);
  }

  /** Bit 8 of 0xE7D0 is set: by its encoding the word is a left rotate of memory. */
  lemma RolMemoryIsLeft()
    ensures IsLeft(0xE7D0) && ShiftName(ShiftType(0xE7D0, false), IsLeft(0xE7D0)) == "ROL"
  {
  }

  /** Entry 64 decodes 0xE7D0 as a rotate of the word at (A0); the names as written call it ROR. */
  lemma RolMemoryEntry64(c: Cursor)
    requires c.Valid()
    ensures DecodeAt(64, 0xE7D0, c) == Accept("ROL", "(A0)", c)
    ensures DecodeShiftMemoryAsWritten(64, 0xE7D0, c) == Accept("ROR", "(A0)", c)
  {
    assert Handler(64) == Some(ShiftMemory);
    assert Dec(0) == "0";
  }

  /**
    The word 0xE7D0 has bit 8 set, a left rotate of the word at (A0): the
    scan with the corrected names prints it as "ROL (A0)", where the names
    as written give "ROR".
  */
  lemma RolMemoryDisassembly(c: Cursor)
    requires c.Valid()
    ensures Scan(0xE7D0, c, 1) == Accept("ROL", "(A0)", c)
    ensures DecodeShiftMemoryAsWritten(64, 0xE7D0, c).opcode == "ROR"
  {
    RolMemorySkips1(64);
    RolMemoryEntry64(c);
    ScanFirstMatch(0xE7D0, 0xE7D0, c, 64);
  }
}
