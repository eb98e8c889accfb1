# dis68k in Dafny

A model of the dis68k Motorola 68000 disassembler: the `Dis68k` cursor
object over a window of memory (`dis68k.h`), and the decoder of
`dis68k.cpp`. The decoder has four parts:

- the opcode catalogue `optab` and the tables `bra_tab`, `scc_tab` and `size_arr`;
- the effective-address decoder `getmode`;
- the operand printer `sprintmode`;
- `disasm`, which turns one instruction into the line `"%-8s %s\n"`. It
  covers all 87 catalogue entries and the MOVEM register-list builder.

The project has two layers:

- **Values.** Everything is first stated on values. A `Cursor` datatype (module
  `ByteCursor`) holds the window, the current position, the running
  address and the overflow flag. Reading a byte or a word is a function
  from cursor to (value, cursor). `Operand.Render` is `sprintmode`. Each case
  group of the `switch` is a `Decoder.Decode*` function that returns
  `Accept(opcode, operands, cursor)` or `Reject` (the source's `break`
  without `decoded`). `Decoder.Scan` is the first-match loop and
  `Decoder.Disassemble` is `disasm`, except that it prints the corrected
  ROL/ROR names of the finding below (see "## Left out").
- **The object.** The class `Disassembler.Dis68k` keeps the source's
  fields (`cur`, `address` and `overflow` are mutable; `mem`, `begin` and
  `end` are fixed). Each method has the source's loops and branches, and is
  proved to leave exactly the state, and return exactly the result, that
  the value layer gives for the old state, so the class also prints the
  corrected rotate names. The MOVEM list is built in the
  source's 11-slot `rlist` array, by the loops of `dis68k.cpp:814-873`.

The value layer carries the properties:

- first match wins;
- each decoded instruction consumes exactly its extension words;
- the accept conditions are stated as 68000 addressing-mode categories;
- branch targets are relative to the address after the opcode word;
- the register list lists exactly the set bits, as maximal runs;
- the decimal and hexadecimal renderings round-trip.

The source's `const uint8_t *` fields `begin`, `end` and `cur` become a byte
sequence and indices into it. The caller's output buffers become return values.

Modules: `Format` (printf-style number rendering), `ByteCursor`,
`Catalogue`, `Operand`, `RegisterList`, `Decoder`, `RotateFinding` (the one
finding below) and `Disassembler` (the class).

## Model

| member | source | states |
|---|---|---|
| ByteCursor.Start | dis68k.h:10-17 | a fresh cursor stands at the start of the window, has no overflow, and carries the given address |
| Disassembler.Dis68k.constructor | dis68k.h:10-17 | the object's fields are the starting cursor of the window and address |
| ByteCursor.ReadByte | dis68k.h:22-35 | a read leaves the window and start fixed, moves the position and the address forward together, and never moves past the end |
| Disassembler.Dis68k.GetByte | dis68k.h:22-35 | `getbyte` returns the byte and the new fields that `ReadByte` gives for the old fields |
| ByteCursor.ReadWord | dis68k.h:37-50 | a word read consumes exactly one word when two bytes are left, and otherwise nothing (with overflow set) |
| Disassembler.Dis68k.GetWord | dis68k.h:37-50 | `getword` returns the word and the new fields that `ReadWord` gives for the old fields |
| ByteCursor.ReadWordIsTwoBytes | dis68k.h:37-50 | with two bytes left the word is the two bytes big-endian and the cursor advances by 2; otherwise it is 0, the cursor stays and overflow is set |
| ByteCursor.ReadWordBigEndian | dis68k.h:41 | the high byte of the word read is the byte at the cursor and the low byte is the next one |
| ByteCursor.ShortReadIsZero | dis68k.h:39-49 | reading a word with no whole word left gives 0, sets overflow and leaves the position |
| ByteCursor.LockStep | dis68k.h:28-29 | the address stays the start address plus the number of bytes consumed, modulo 2^32, across any sequence of reads |
| ByteCursor.ConsumedCompose | dis68k.h:42-43 | consuming n words and then m words is consuming n + m words |
| ByteCursor.AdvancesTransitive | dis68k.h:22-50 | cursor progress composes across reads |
| Catalogue.ConditionTables | dis68k.cpp:68-79 | `scc_tab` is "S" plus each 68000 condition name; `bra_tab` is "B" plus the name, except BRA and BSR for codes 0 and 1 |
| Catalogue.HandlerTotal | dis68k.cpp:193-1036 | every entry 1..87 of the catalogue has a case of the switch, and no other entry has one |
| Catalogue.OptabSize | dis68k.cpp:43-66 | the catalogue has 88 entries, entry 0 reserved |
| Operand.GetMode | dis68k.cpp:165-177 | the decoded mode is at most 12, and it is 12 (invalid) exactly for mode field 7 with a register field of 5..7 |
| Operand.GetModeOfField | dis68k.cpp:165-177 | `getmode` recovers every mode 0..11 from the 6-bit field the 68000 uses for it |
| Operand.FieldOfGetMode | dis68k.cpp:165-177 | every field `getmode` accepts is the encoding of its decoded mode, so valid fields and modes correspond one to one; only the low six bits matter |
| Operand.Sext16 | dis68k.cpp:100 | the result is the 16-bit two's-complement reading of the word: in -32768..32767 and congruent to it modulo 2^16 |
| Operand.Sext8 | dis68k.cpp:113 | the same, for 8 bits |
| Operand.Render | dis68k.cpp:88-157 | `sprintmode` consumes exactly the extension words that the 68000 defines for the mode and size |
| Disassembler.Dis68k.SprintMode | dis68k.cpp:88-157 | the method's text and new fields are those of `Render` for the old fields |
| Operand.Displaced | dis68k.cpp:97-107 | the displacement modes 5 and 9 read one extension word |
| Disassembler.Dis68k.DisplacedText | dis68k.cpp:97-107 | the method equals `Displaced` on the old fields |
| Operand.PcRelativeTarget | dis68k.cpp:102-106 | the annotated target of a PC-relative operand is the address of its extension word plus the displacement, modulo 2^32 |
| Operand.Indexed | dis68k.cpp:108-132 | the indexed modes 6 and 10 read one extension word |
| Disassembler.Dis68k.IndexedText | dis68k.cpp:108-132 | the method equals `Indexed` on the old fields |
| Operand.IndexedOperand | dis68k.cpp:108-132 | the displacement is the signed low byte of the extension word; the index register (kind, number, size) comes from its high byte |
| Operand.Immediate | dis68k.cpp:141-153 | immediates read one word for byte and word sizes and two for long size |
| Disassembler.Dis68k.ImmediateOperand | dis68k.cpp:141-153 | the method equals `Immediate` on the old fields |
| Format.Dec | dis68k.cpp:92 | `%i` of a natural number is a non-empty string of digits without a leading zero |
| Format.DecRoundTrip | dis68k.cpp:92 | reading back the decimal rendering gives the number |
| Format.DecInjective | dis68k.cpp:92 | different numbers print differently |
| Format.SignedDec | dis68k.cpp:101 | `%+i` begins with '-' exactly for negative numbers and with '+' otherwise |
| Format.SignedRoundTrip | dis68k.cpp:101 | reading back the signed rendering gives the number |
| Format.Hex | dis68k.cpp:133-135 | `%0Nx` / `%0NX` has exactly N hexadecimal digits |
| Format.HexRoundTrip | dis68k.cpp:133-135 | reading back an N-digit rendering of a number below 16^N gives the number |
| Format.HexCaseOnly | dis68k.cpp:312-319 | upper- and lower-case renderings differ in letter case only, digit by digit |
| Format.PadRight | dis68k.cpp:1043 | `%-8s` keeps the string, pads it with blanks to eight columns, and never truncates |
| Decoder.LineLayout | dis68k.cpp:1043 | a line is the mnemonic left-justified in eight columns, one blank, the operands and a newline |
| Decoder.ArithmeticShiftNames | dis68k.cpp:394-450 | entries 9-12 are named ASL/ASR by bit 8 of the word they match (set means left) |
| Decoder.LogicalShiftNames | dis68k.cpp:394-450 | entries 39-42 are named LSL/LSR by the same rule |
| Decoder.RotateExtendNames | dis68k.cpp:394-450 | entries 67-70 are named ROXL/ROXR by the same rule |
| Decoder.RotateNames | dis68k.cpp:394-450 | entries 63-66 are named ROL/ROR by the same rule, in the corrected model |
| Decoder.ShiftMnemonicAsWrittenSwapped | dis68k.cpp:403-445 | as written, entries 63/64 match left rotations but print ROR, and 65/66 match right rotations but print ROL |
| Decoder.DecodeAbcdSbcd | dis68k.cpp:194-211 | ABCD/SBCD always decode and read nothing |
| Decoder.DecodeAddAndEorOrSub | dis68k.cpp:212-262 | decodes exactly when the size is valid, entries 2 and 77 (AND, SUB) do not name An at byte size, entry 31 (EOR) has bit 8 set, and a register-to-memory form names an alterable address; the instruction reads exactly its operand's extension words |
| Disassembler.Dis68k.AddAndEorOrSub | dis68k.cpp:212-262 | the method's outcome and new fields are those of `DecodeAddAndEorOrSub` |
| Decoder.DecodeAddaSuba | dis68k.cpp:263-279 | ADDA/SUBA always decode and read the source's extension words at word or long size |
| Disassembler.Dis68k.AddaSuba | dis68k.cpp:263-279 | the method equals `DecodeAddaSuba` |
| Decoder.ImmediateSource | dis68k.cpp:309-320 | the immediate takes one word, or two for long size |
| Disassembler.Dis68k.ImmediateText | dis68k.cpp:309-320 | the method equals `ImmediateSource` |
| Decoder.DecodeImmediateOps | dis68k.cpp:280-332 | decodes exactly when the size is valid and the destination is data alterable, or SR for ANDI/EORI/ORI; reads the immediate and then the destination's words |
| Disassembler.Dis68k.ImmediateOps | dis68k.cpp:280-332 | the method equals `DecodeImmediateOps` |
| Decoder.DecodeAddqSubq | dis68k.cpp:333-353 | decodes exactly when the size is valid and the destination is alterable, but not An at byte size |
| Disassembler.Dis68k.AddqSubq | dis68k.cpp:333-353 | the method equals `DecodeAddqSubq` |
| Decoder.DecodeAddxSubxCmpm | dis68k.cpp:354-381 | decodes exactly when the size is valid, reading nothing |
| Decoder.DecodeShiftRegister | dis68k.cpp:382-420 | decodes exactly when the size is valid, reading nothing |
| Decoder.DecodeShiftMemory | dis68k.cpp:421-453 | decodes exactly for memory alterable operands, reading their extension words |
| Disassembler.Dis68k.ShiftMemory | dis68k.cpp:421-453 | the method equals `DecodeShiftMemory` |
| Decoder.BranchTarget | dis68k.cpp:454-468 | the target reads the extension word only when the 8-bit displacement is zero |
| Disassembler.Dis68k.Target | dis68k.cpp:454-466 | the method equals `BranchTarget` |
| Decoder.BranchTargetIsRelative | dis68k.cpp:454-468 | both branch encodings go to the address after the opcode word plus the signed displacement, modulo 2^32; the 8-bit form needs no word left in the window |
| Decoder.DecodeBcc | dis68k.cpp:454-468 | branches always decode and read their displacement word only in the 16-bit form |
| Disassembler.Dis68k.Bcc | dis68k.cpp:454-468 | the method equals `DecodeBcc` |
| Decoder.BitNumber | dis68k.cpp:469-528 | the static forms read one immediate word and the dynamic forms none |
| Disassembler.Dis68k.BitNumberText | dis68k.cpp:469-528 | the method equals `BitNumber` |
| Decoder.DecodeBitOps | dis68k.cpp:469-528 | BCHG/BCLR/BSET decode for data alterable operands and BTST for data operands other than immediate |
| Disassembler.Dis68k.BitOps | dis68k.cpp:469-528 | the method equals `DecodeBitOps` |
| Decoder.DecodeToDataRegister | dis68k.cpp:529-574 | CHK, CMP, DIVS, DIVU, MULS and MULU decode for data source operands (CMP also from An) of a valid size |
| Disassembler.Dis68k.ToDataRegister | dis68k.cpp:529-574 | the method equals `DecodeToDataRegister` |
| Decoder.DecodeClr | dis68k.cpp:575-586 | CLR decodes exactly for data alterable operands of a valid size |
| Disassembler.Dis68k.Clr | dis68k.cpp:575-586 | the method equals `DecodeClr` |
| Decoder.DecodeCmpa | dis68k.cpp:587-598 | CMPA always decodes, reading the source at word or long size |
| Disassembler.Dis68k.Cmpa | dis68k.cpp:587-598 | the method equals `DecodeCmpa` |
| Decoder.DbccNameIsCondition | dis68k.cpp:599-610 | every DBcc mnemonic is "DB" plus the condition name (DBT and DBF, not DBRA/DBSR), and every Scc mnemonic is "S" plus it |
| Decoder.WordTarget | dis68k.cpp:599-610 | the DBcc displacement takes exactly one word |
| Disassembler.Dis68k.WordTargetOf | dis68k.cpp:599-610 | the method equals `WordTarget` |
| Decoder.DbccTargetIsBranchTarget | dis68k.cpp:599-610 | DBcc goes to the same target as the 16-bit form of Bcc |
| Decoder.DecodeDbcc | dis68k.cpp:599-610 | DBcc always decodes and reads one word |
| Disassembler.Dis68k.Dbcc | dis68k.cpp:599-610 | the method equals `DecodeDbcc` |
| Decoder.DecodeExg | dis68k.cpp:611-631 | EXG decodes exactly for operation modes 8, 9 and 17, reading nothing |
| Decoder.DecodeExt | dis68k.cpp:632-638 | EXT always decodes, reading nothing |
| Decoder.DecodeJmpJsr | dis68k.cpp:639-657 | JMP/JSR decode exactly for control operands |
| Disassembler.Dis68k.JmpJsr | dis68k.cpp:639-657 | the method equals `DecodeJmpJsr` |
| Decoder.DecodeLea | dis68k.cpp:658-672 | LEA decodes exactly for control operands |
| Disassembler.Dis68k.Lea | dis68k.cpp:658-672 | the method equals `DecodeLea` |
| Decoder.DecodeLink | dis68k.cpp:673-680 | LINK always decodes and reads its displacement word |
| Disassembler.Dis68k.Link | dis68k.cpp:673-680 | the method equals `DecodeLink` |
| Decoder.MoveDestField | dis68k.cpp:683-684 | the destination field has its register and mode subfields swapped into `getmode` order |
| Decoder.DecodeMove | dis68k.cpp:681-723 | MOVE decodes exactly when the size is valid, the source mode is valid and the destination is data alterable; it reads the source's words and then the destination's |
| Disassembler.Dis68k.Move | dis68k.cpp:681-723 | the method equals `DecodeMove` |
| Decoder.DecodeMoveToCcrSr | dis68k.cpp:724-742 | MOVE to CCR/SR decodes exactly for data sources |
| Disassembler.Dis68k.MoveToCcrSr | dis68k.cpp:724-742 | the method equals `DecodeMoveToCcrSr` |
| Decoder.DecodeMoveFromSr | dis68k.cpp:743-756 | MOVE from SR decodes exactly for data alterable destinations |
| Disassembler.Dis68k.MoveFromSr | dis68k.cpp:743-756 | the method equals `DecodeMoveFromSr` |
| Decoder.DecodeMoveUsp | dis68k.cpp:757-768 | MOVE USP always decodes, reading nothing |
| Decoder.DecodeMovea | dis68k.cpp:769-787 | MOVEA decodes exactly for size fields 2 (long) and 3 (word) |
| Disassembler.Dis68k.Movea | dis68k.cpp:769-787 | the method equals `DecodeMovea` |
| Decoder.MovemWords | dis68k.cpp:800-876 | MOVEM reads the mask word and then the address's extension words |
| Decoder.DecodeMovem | dis68k.cpp:788-886 | MOVEM decodes exactly for control addresses, plus predecrement to memory or postincrement to registers |
| Disassembler.Dis68k.Movem | dis68k.cpp:788-886 | the method, which builds the list in the 11-slot array, equals `DecodeMovem` |
| Decoder.DecodeMovep | dis68k.cpp:887-904 | MOVEP always decodes and reads its displacement word |
| Disassembler.Dis68k.Movep | dis68k.cpp:887-904 | the method equals `DecodeMovep` |
| Decoder.DecodeMoveq | dis68k.cpp:905-910 | MOVEQ always decodes, reading nothing |
| Decoder.DecodeNbcdNegNegxNot | dis68k.cpp:911-935 | NBCD/NEG/NEGX/NOT decode exactly for data alterable operands of a valid size |
| Disassembler.Dis68k.NbcdNegNegxNot | dis68k.cpp:911-935 | the method equals `DecodeNbcdNegNegxNot` |
| Decoder.DecodeNoOperand | dis68k.cpp:936-967 | the operand-less instructions always decode with a blank operand and read nothing |
| Decoder.DecodePea | dis68k.cpp:968-978 | PEA decodes exactly for control operands |
| Disassembler.Dis68k.Pea | dis68k.cpp:968-978 | the method equals `DecodePea` |
| Decoder.DecodeScc | dis68k.cpp:979-992 | Scc decodes exactly for data alterable operands |
| Disassembler.Dis68k.Scc | dis68k.cpp:979-992 | the method equals `DecodeScc` |
| Decoder.DecodeSwap | dis68k.cpp:993-998 | SWAP always decodes, reading nothing |
| Decoder.DecodeTas | dis68k.cpp:999-1008 | TAS decodes exactly for data alterable operands |
| Disassembler.Dis68k.Tas | dis68k.cpp:999-1008 | the method equals `DecodeTas` |
| Decoder.DecodeTrap | dis68k.cpp:1009-1014 | TRAP always decodes, reading nothing |
| Decoder.DecodeTst | dis68k.cpp:1015-1027 | TST decodes exactly for data alterable operands of a valid size |
| Disassembler.Dis68k.Tst | dis68k.cpp:1015-1027 | the method equals `DecodeTst` |
| Decoder.DecodeUnlk | dis68k.cpp:1028-1033 | UNLK always decodes, reading nothing |
| Decoder.DecodeFormLength | dis68k.cpp:193-1036 | every case group that decodes reads exactly the extension words of its instruction form |
| Decoder.DecodeAtLength | dis68k.cpp:193-1036 | the case of any entry that decodes reads exactly that entry's extension words |
| Disassembler.Dis68k.DecodeCase | dis68k.cpp:193-1036 | the switch's outcome and new fields are those of `DecodeAt`; a case that breaks leaves the cursor untouched |
| Decoder.Candidates | dis68k.cpp:188-189 | one candidate outcome per catalogue entry |
| Decoder.FirstIsLowest | dis68k.cpp:188-189 | the first accepting outcome is the lowest one, and none at all means every one rejects |
| Decoder.ScanStep | dis68k.cpp:188-189 | one loop turn: a matching entry whose case decodes ends the scan, any other entry passes it on |
| Decoder.ScanFirstAccept | dis68k.cpp:188-189 | a successful scan returns the lowest entry that matches and decodes |
| Decoder.ScanNoAccept | dis68k.cpp:188-189 | the scan fails exactly when no entry matches and decodes |
| Decoder.ScanLowestAccept | dis68k.cpp:188-189 | if entry k matches and decodes and no earlier entry does, the scan's result is entry k's |
| Decoder.CandidatesAccept | dis68k.cpp:188-189 | an entry's candidate accepts exactly when the word matches its mask and value and its case decodes |
| Decoder.NoneMatchMeans | dis68k.cpp:189 | the bit-vector test over a block of entries says exactly that no entry in it matches |
| Decoder.FirstSkips | dis68k.cpp:188-189 | rejecting candidates can be skipped |
| Decoder.ScanSkips | dis68k.cpp:188-189 | entries the word does not match can be skipped |
| Decoder.ScanFirstMatch | dis68k.cpp:188-189 | when k is the first entry the word matches and its case decodes, the scan's result is entry k's |
| Decoder.DisassembleFound | dis68k.cpp:179-1049 | when entry k is the first to decode, `disasm` succeeds with k's line, reports the opcode word's address, and consumes the opcode word plus k's extension words |
| Decoder.DisassembleNotFound | dis68k.cpp:179-1049 | when no entry decodes, `disasm` fails with "???", reports the opcode word's address, and consumes only the opcode word |
| Disassembler.Dis68k.Disasm | dis68k.cpp:179-1049 | the loop's result, address, text and new fields are those of `Disassemble` for the old fields |
| RegisterList.Bit | dis68k.cpp:817-819 | each slot of the list array is 0 or 1 |
| RegisterList.Fill | dis68k.cpp:817-822 | the array has 11 slots, with guard slots 0, 9 and 10 cleared |
| RegisterList.FillOn | dis68k.cpp:817-822 | slot k+1 is set exactly when mask bit base+k is set |
| RegisterList.FillSlots | dis68k.cpp:817-822 | the fill loop leaves the array holding the mask bits of one register bank |
| RegisterList.ScanSlots | dis68k.cpp:824-843 | the scan loop's text is the one the three tests give, slot by slot |
| RegisterList.BuildRegisterList | dis68k.cpp:814-873 | the method's text is `RegisterListText` of the mask |
| RegisterList.ScanText | dis68k.cpp:824-843 | the slot-by-slot text lists the bank's maximal runs of set bits in ascending order: a lone register or a pair as "Rn,", a longer run as "Rm-Rn," |
| RegisterList.ScanIsRuns | dis68k.cpp:824-843 | the same, from any cleared slot on |
| RegisterList.RunsCover | dis68k.cpp:824-843 | a register lies in some run exactly when its bit is set |
| RegisterList.BankCover | dis68k.cpp:814-873 | a register of a bank is listed exactly when its mask bit is set |
| RegisterList.RunMaximal | dis68k.cpp:824-843 | every run starts and ends on set bits and cannot be extended on either side |
| RegisterList.RunsSeparated | dis68k.cpp:824-843 | runs are in ascending order, with a cleared register between any two consecutive runs |
| RegisterList.RunLength | dis68k.cpp:824-843 | a run extends to the next cleared bit or the end of the bank |
| RegisterList.RunLengthSet | dis68k.cpp:824-843 | every register inside a run is set |
| RegisterList.TextShape | dis68k.cpp:824-843 | a bank's text is empty exactly when it has no runs; otherwise it starts with the bank letter and ends with a comma |
| RegisterList.ListEmpty | dis68k.cpp:814-873 | the register list is empty exactly when the 16-bit mask is zero |
| RegisterList.ListShape | dis68k.cpp:814-884 | a non-empty list starts with D or A and ends with the comma that the memory-to-register form replaces |
| RegisterList.LowestSetWord | dis68k.cpp:814-873 | a non-zero 16-bit mask has a set bit among its 16 bits |
| RegisterList.SomeBankSet | dis68k.cpp:814-873 | a non-zero 16-bit mask sets a register in the D bank or the A bank |
| RotateFinding.DecodeShiftRegisterAsWritten | dis68k.cpp:382-420 | the register-form case as written decodes exactly when the size is valid |
| RotateFinding.RolWordIsLeft | dis68k.cpp:394-411 | word 0xE318 has bit 8 set, a left rotation, ROL on the 68000 |
| RotateFinding.RolWordEntry63 | dis68k.cpp:382-420 | entry 63 decodes 0xE318 as "ROL.B #1,D0" in the corrected model and as "ROR.B #1,D0" as written |
| RotateFinding.RolWordDisassembly | dis68k.cpp:179-1049 | the scan of 0xE318 stops at entry 63 and gives "ROL.B #1,D0", where the code as written prints "ROR.B" |
| RotateFinding.DecodeShiftMemoryAsWritten | dis68k.cpp:421-453 | the memory-form case as written decodes exactly for memory alterable operands |
| RotateFinding.RolMemoryIsLeft | dis68k.cpp:433-450 | word 0xE7D0 has bit 8 set, a left rotation of memory, ROL on the 68000 |
| RotateFinding.RolMemoryEntry64 | dis68k.cpp:421-453 | entry 64 decodes 0xE7D0 as "ROL (A0)" in the corrected model and as "ROR (A0)" as written |
| RotateFinding.RolMemoryDisassembly | dis68k.cpp:179-1049 | the scan of 0xE7D0 stops at entry 64 and gives "ROL (A0)", where the code as written prints "ROR" |

## Left out

- Decoder.ShiftMnemonic: the decoder prints the corrected rotate names for entries 63-66 (ROL when bit 8 is set, ROR when it is clear), where dis68k.cpp:403-406 and 442-445 print the reverse. The members that decode or print those words follow the corrected names, not the code as written: `Decoder.DecodeShiftRegister`, `Decoder.DecodeShiftMemory`, `Decoder.DecodeAt`, `Decoder.Scan`, `Decoder.Disassemble`, `Disassembler.Dis68k.ShiftMemory`, `Disassembler.Dis68k.DecodeCase` and `Disassembler.Dis68k.Disasm`. The as-written behaviour is `RotateFinding.DecodeShiftRegisterAsWritten` and `RotateFinding.DecodeShiftMemoryAsWritten` (see "## Findings").
- Diagnostics: `diagnostic_printf` and the messages on stderr and stdout (invalid modes, the unreachable `default` of the switch) are output only and are not modelled.
- `snprintf` truncation to the caller's buffer sizes is left out. The model returns the whole text. The case buffers (50 and 101 bytes) are left out too.
- The source reads bytes through raw addresses. The model reads them from a byte sequence by index, with `cur` and `end` as positions in `mem`.
- The MOVEM mode-4 bit reversal (dis68k.cpp:801-809). It stores into a local that shadows the mask and is never read, so it has no effect on the output. The model renders the list from the mask as read, as the source does.
- `Operand.Render`: for the invalid mode 12, and for mode 11 with a size outside 0..2, `sprintmode` writes nothing into the buffer. The model gives the empty text, which assumes the buffer starts empty.
- `Decoder.MovemOperand`: the memory-to-register form of MOVEM with a zero mask makes the source overwrite the byte before its empty list buffer (`strlen` is 0 at dis68k.cpp:882). That is undefined behaviour, and the model prints the address and a comma there.
- The callers of `disasm` (any driver program) are not part of this model.
- 32-bit wrap-around is modelled for `address`. The running position `cur` is an index into the window and needs no wrap-around.

## Findings

| source | as written | input that shows it | evidently intended | confidence | as-written member | corrected member |
|---|---|---|---|---|---|---|
| dis68k.cpp:403-406 | entries 63/64 (bit 8 set, a left rotation) print "ROR" and entries 65/66 (bit 8 clear) print "ROL" (the same swap again at dis68k.cpp:442-445) | opcode word 0xE318 gives "ROR.B #1,D0", and 0xE7D0 gives "ROR (A0)" | "ROL.B #1,D0" and "ROL (A0)": on the 68000, bit 8 set means rotate left, as the ASL/LSL/ROXL entries get right | not executed | RotateFinding.RolWordDisassembly | Decoder.RotateNames |
