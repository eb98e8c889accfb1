/**
  The constant tables of dis68k.cpp: the opcode catalogue `optab`, the
  condition-code mnemonics `bra_tab` and `scc_tab`, the size letters
  `size_arr`, and the case labels of the decoder's `switch (opnum)`.
*/
module Catalogue {
  import opened ByteCursor

  datatype Option<T> = None | Some(value: T)

  /** One catalogue entry: a word `w` matches when `(w & mask) == value`. */
  datatype OpcodeDetails = OpcodeDetails(mask: bv16, value: bv16)

  /**
    `optab[88]` (dis68k.cpp:43-66); entry 0 is reserved and never scanned.
    The table is written as eleven rows of eight entries (two source lines
    each), so that looking up an entry by a constant index stays cheap.
  */
  const Optab: seq<OpcodeDetails> :=
    OptabRow0 + OptabRow1 + OptabRow2 + OptabRow3 + OptabRow4 + OptabRow5
    + OptabRow6 + OptabRow7 + OptabRow8 + OptabRow9 + OptabRow10

  /** Entries 0..7. */
  const OptabRow0: seq<OpcodeDetails> := [
    OpcodeDetails(0x0000, 0x0000), OpcodeDetails(0xF1F0, 0xC100), OpcodeDetails(0xF000, 0xD000), OpcodeDetails(0xF0C0, 0xD0C0),
    OpcodeDetails(0xFF00, 0x0600), OpcodeDetails(0xF100, 0x5000), OpcodeDetails(0xF130, 0xD100), OpcodeDetails(0xF000, 0xC000)
  ]
  /** Entries 8..15. */
  const OptabRow1: seq<OpcodeDetails> := [
    OpcodeDetails(0xFF00, 0x0200), OpcodeDetails(0xF118, 0xE100), OpcodeDetails(0xFFC0, 0xE1C0), OpcodeDetails(0xF118, 0xE000),
    OpcodeDetails(0xFFC0, 0xE0C0), OpcodeDetails(0xF000, 0x6000), OpcodeDetails(0xF1C0, 0x0140), OpcodeDetails(0xFFC0, 0x0840)
  ]
  /** Entries 16..23. */
  const OptabRow2: seq<OpcodeDetails> := [
    OpcodeDetails(0xF1C0, 0x0180), OpcodeDetails(0xFFC0, 0x0880), OpcodeDetails(0xF1C0, 0x01C0), OpcodeDetails(0xFFC0, 0x08C0),
    OpcodeDetails(0xF1C0, 0x0100), OpcodeDetails(0xFFC0, 0x0800), OpcodeDetails(0xF1C0, 0x4180), OpcodeDetails(0xFF00, 0x4200)
  ]
  /** Entries 24..31. */
  const OptabRow3: seq<OpcodeDetails> := [
    OpcodeDetails(0xF100, 0xB000), OpcodeDetails(0xF0C0, 0xB0C0), OpcodeDetails(0xFF00, 0x0C00), OpcodeDetails(0xF138, 0xB108),
    OpcodeDetails(0xF0F8, 0x50C8), OpcodeDetails(0xF1C0, 0x81C0), OpcodeDetails(0xF1C0, 0x80C0), OpcodeDetails(0xF100, 0xB100)
  ]
  /** Entries 32..39. */
  const OptabRow4: seq<OpcodeDetails> := [
    OpcodeDetails(0xFF00, 0x0A00), OpcodeDetails(0xF100, 0xC100), OpcodeDetails(0xFFB8, 0x4880), OpcodeDetails(0xFFC0, 0x4EC0),
    OpcodeDetails(0xFFC0, 0x4E80), OpcodeDetails(0xF1C0, 0x41C0), OpcodeDetails(0xFFF8, 0x4E50), OpcodeDetails(0xF118, 0xE108)
  ]
  /** Entries 40..47. */
  const OptabRow5: seq<OpcodeDetails> := [
    OpcodeDetails(0xFFC0, 0xE3C0), OpcodeDetails(0xF118, 0xE008), OpcodeDetails(0xFFC0, 0xE2C0), OpcodeDetails(0xC000, 0x0000),
    OpcodeDetails(0xFFC0, 0x44C0), OpcodeDetails(0xFFC0, 0x46C0), OpcodeDetails(0xFFC0, 0x40C0), OpcodeDetails(0xFFF0, 0x4E60)
  ]
  /** Entries 48..55. */
  const OptabRow6: seq<OpcodeDetails> := [
    OpcodeDetails(0xC1C0, 0x0040), OpcodeDetails(0xFB80, 0x4880), OpcodeDetails(0xF138, 0x0108), OpcodeDetails(0xF100, 0x7000),
    OpcodeDetails(0xF1C0, 0xC1C0), OpcodeDetails(0xF1C0, 0xC0C0), OpcodeDetails(0xFFC0, 0x4800), OpcodeDetails(0xFF00, 0x4400)
  ]
  /** Entries 56..63. */
  const OptabRow7: seq<OpcodeDetails> := [
    OpcodeDetails(0xFF00, 0x4000), OpcodeDetails(0xFFFF, 0x4E71), OpcodeDetails(0xFF00, 0x4600), OpcodeDetails(0xF000, 0x8000),
    OpcodeDetails(0xFF00, 0x0000), OpcodeDetails(0xFFC0, 0x4840), OpcodeDetails(0xFFFF, 0x4E70), OpcodeDetails(0xF118, 0xE118)
  ]
  /** Entries 64..71. */
  const OptabRow8: seq<OpcodeDetails> := [
    OpcodeDetails(0xFFC0, 0xE7C0), OpcodeDetails(0xF118, 0xE018), OpcodeDetails(0xFFC0, 0xE6C0), OpcodeDetails(0xF118, 0xE110),
    OpcodeDetails(0xFFC0, 0xE5C0), OpcodeDetails(0xF118, 0xE010), OpcodeDetails(0xFFC0, 0xE4C0), OpcodeDetails(0xFFFF, 0x4E73)
  ]
  /** Entries 72..79. */
  const OptabRow9: seq<OpcodeDetails> := [
    OpcodeDetails(0xFFFF, 0x4E77), OpcodeDetails(0xFFFF, 0x4E75), OpcodeDetails(0xF1F0, 0x8100), OpcodeDetails(0xF0C0, 0x50C0),
    OpcodeDetails(0xFFFF, 0x4E72), OpcodeDetails(0xF000, 0x9000), OpcodeDetails(0xF0C0, 0x90C0), OpcodeDetails(0xFF00, 0x0400)
  ]
  /** Entries 80..87. */
  const OptabRow10: seq<OpcodeDetails> := [
    OpcodeDetails(0xF100, 0x5100), OpcodeDetails(0xF130, 0x9100), OpcodeDetails(0xFFF8, 0x4840), OpcodeDetails(0xFFC0, 0x4AC0),
    OpcodeDetails(0xFFF0, 0x4E40), OpcodeDetails(0xFFFF, 0x4E76), OpcodeDetails(0xFF00, 0x4A00), OpcodeDetails(0xFFF8, 0x4E58)
  ]

  /** `&` on 16-bit words. */
  function And16(a: u16, b: u16): u16
  {
    ((a as bv16) & (b as bv16)) as int
  }

  /** `(word & optab[opnum].mask) == optab[opnum].value` (dis68k.cpp:189). */
  predicate Matches(word: u16, opnum: nat)
    requires opnum < |Optab|
  {
    EntryMatches(word as bv16, Optab[opnum])
  }

  /** `(instruction & mask) == value` for one entry. */
  predicate EntryMatches(w: bv16, e: OpcodeDetails)
  {
    w & e.mask == e.value
  }

  /** `bra_tab` (dis68k.cpp:68-73). */
  const BraTab: seq<string> := [
    "BRA", "BSR", "BHI", "BLS",
    "BCC", "BCS", "BNE", "BEQ",
    "BVC", "BVS", "BPL", "BMI",
    "BGE", "BLT", "BGT", "BLE"
  ]

  /** `scc_tab` (dis68k.cpp:74-79). */
  const SccTab: seq<string> := [
    "ST", "SF", "SHI", "SLS",
    "SCC", "SCS", "SNE", "SEQ",
    "SVC", "SVS", "SPL", "SMI",
    "SGE", "SLT", "SGT", "SLE"
  ]

  /** `size_arr` (dis68k.cpp:80): 0 = byte, 1 = word, 2 = long. */
  const SizeArr: seq<char> := ['B', 'W', 'L']

  /**
    The 68000's names of the sixteen conditions, in encoding order; the
    tables above are built from these.
  */
  const Conditions: seq<string> := [
    "T", "F", "HI", "LS", "CC", "CS", "NE", "EQ",
    "VC", "VS", "PL", "MI", "GE", "LT", "GT", "LE"
  ]

  /**
    `scc_tab[cc]` is "S" and the condition for every code; `bra_tab[cc]` is
    "B" and the condition except for codes 0 and 1, which are BRA and BSR.
  */
  lemma ConditionTables(cc: nat)
    requires cc < 16
    ensures |BraTab| == |SccTab| == |Conditions| == 16
    ensures SccTab[cc] == "S" + Conditions[cc]
    ensures cc >= 2 ==> BraTab[cc] == "B" + Conditions[cc]
    ensures cc == 0 ==> BraTab[cc] == "BRA"
    ensures cc == 1 ==> BraTab[cc] == "BSR"
  {
  }

  /** The groups of case labels of `switch (opnum)` (dis68k.cpp:193-1036). */
  datatype Form =
    | AbcdSbcd | AddAndEorOrSub | AddaSuba | ImmediateOps | AddqSubq | AddxSubxCmpm
    | ShiftRegister | ShiftMemory | Bcc | BitOps | ToDataRegister | Clr | Cmpa | Dbcc
    | Exg | Ext | JmpJsr | Lea | Link | Move | MoveToCcrSr | MoveFromSr | MoveUsp
    | Movea | Movem | Movep | Moveq | NbcdNegNegxNot | NoOperand | Pea | Scc | Swap
    | Tas | Trap | Tst | Unlk

  const AbcdSbcdOps: set<int> := {1, 74}
  const AddAndEorOrSubOps: set<int> := {2, 7, 31, 59, 77}
  const AddaSubaOps: set<int> := {3, 78}
  const ImmediateOpsOps: set<int> := {4, 8, 26, 32, 60, 79}
  const AddqSubqOps: set<int> := {5, 80}
  const AddxSubxCmpmOps: set<int> := {6, 81, 27}
  const ShiftRegisterOps: set<int> := {9, 11, 39, 41, 63, 65, 67, 69}
  const ShiftMemoryOps: set<int> := {10, 12, 40, 42, 64, 66, 68, 70}
  const BitOpsOps: set<int> := {14, 15, 16, 17, 18, 19, 20, 21}
  const ToDataRegisterOps: set<int> := {22, 29, 30, 52, 53, 24}
  const JmpJsrOps: set<int> := {35, 36}
  const MoveToCcrSrOps: set<int> := {44, 45}
  const NbcdNegNegxNotOps: set<int> := {54, 55, 56, 58}
  const NoOperandOps: set<int> := {57, 62, 71, 72, 73, 76, 85}

  /**
    The case that handles `opnum`, or None where the switch would take its
    `default` branch.
  */
  function Handler(opnum: int): Option<Form>
  {
    if opnum in AbcdSbcdOps then Some(AbcdSbcd)
    else if opnum in AddAndEorOrSubOps then Some(AddAndEorOrSub)
    else if opnum in AddaSubaOps then Some(AddaSuba)
    else if opnum in ImmediateOpsOps then Some(ImmediateOps)
    else if opnum in AddqSubqOps then Some(AddqSubq)
    else if opnum in AddxSubxCmpmOps then Some(AddxSubxCmpm)
    else if opnum in ShiftRegisterOps then Some(ShiftRegister)
    else if opnum in ShiftMemoryOps then Some(ShiftMemory)
    else if opnum == 13 then Some(Bcc)
    else if opnum in BitOpsOps then Some(BitOps)
    else if opnum in ToDataRegisterOps then Some(ToDataRegister)
    else if opnum == 23 then Some(Clr)
    else if opnum == 25 then Some(Cmpa)
    else if opnum == 28 then Some(Dbcc)
    else if opnum == 33 then Some(Exg)
    else if opnum == 34 then Some(Ext)
    else if opnum in JmpJsrOps then Some(JmpJsr)
    else if opnum == 37 then Some(Lea)
    else if opnum == 38 then Some(Link)
    else if opnum == 43 then Some(Move)
    else if opnum in MoveToCcrSrOps then Some(MoveToCcrSr)
    else if opnum == 46 then Some(MoveFromSr)
    else if opnum == 47 then Some(MoveUsp)
    else if opnum == 48 then Some(Movea)
    else if opnum == 49 then Some(Movem)
    else if opnum == 50 then Some(Movep)
    else if opnum == 51 then Some(Moveq)
    else if opnum in NbcdNegNegxNotOps then Some(NbcdNegNegxNot)
    else if opnum in NoOperandOps then Some(NoOperand)
    else if opnum == 61 then Some(Pea)
    else if opnum == 75 then Some(Scc)
    else if opnum == 82 then Some(Swap)
    else if opnum == 83 then Some(Tas)
    else if opnum == 84 then Some(Trap)
    else if opnum == 86 then Some(Tst)
    else if opnum == 87 then Some(Unlk)
    else None
  }

  /**
    Every catalogue index 1..87 has a case, and index 0 and anything past
    the table have none: the `default` branch cannot be reached from the scan.
  */
  lemma HandlerTotal(opnum: int)
    ensures Handler(opnum).Some? <==> 1 <= opnum <= 87
  {
  }

  lemma OptabSize()
    ensures |Optab| == 88
  {
  }
}
