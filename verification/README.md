# A verified model of the RISC-V disassembler and the branch trace models

The project models two parts of the repository.

**The disassembler** (`plug_in/disassembler/riscv_disas.c`) turns an instruction word into one line of text in five
stages over one record: opcode selection, operand extraction, expansion of compressed instructions, lifting to
pseudo-instructions, and a format interpreter that appends to a bounded buffer. A prefix length code over bytes stands in
front. All 319 opcodes of the table are modelled, on rv32, rv64 and rv128.

**The trace models** (`model/Trace.py`, `model/branch_prediction_model.py`) mark the taken instructions of an execution
trace, charge costs by class, and score a saturating-counter branch predictor over it.

## How it is organised

| file | content |
|---|---|
| `Opcodes.dfy` | opcodes, codecs and the columns of the opcode table |
| `OpcodeDecoder.dfy` | the opcode switch |
| `Encodings.dfy` | fixed bits of the 32-bit instructions, and the proof that the switch recognises exactly these |
| `ShortEncodings.dfy` | the listings of the compressed instructions (tables 16.5 to 16.7), and exactly where the switch departs from them |
| `Immediates.dfy` | each immediate three ways: as the source shifts it, as the manual defines it, and scattered back |
| `Operands.dfy` | operands per codec, the encoder, and the two round trips |
| `Decoding.dfy`, `Compression.dfy`, `Locality.dfy` | the record, expansion, and what the record depends on |
| `PseudoInstructions.dfy`, `Semantics.dfy` | lifting, and the effect of base and pseudo-instructions on registers, memory, CSRs and the program counter |
| `ShortSemantics.dfy` | the effect of every compressed instruction, and exactly which expansions have it |
| `Fetch.dfy` | length code and byte fetch |
| `Formats.dfy`, `Mnemonics.dfy`, `Registers.dfy`, `Numerals.dfy` | format strings, names and numerals |
| `Text.dfy`, `Layout.dfy`, `Truncation.dfy` | the text as bounded appends and as unbounded concatenation, its shape, for which buffer sizes the format loop ends, and how much of the text each leaves |
| `Identification.dfy`, `Injectivity.dfy` | which records and words print the same text |
| `Assembly.dfy` | the line that each instruction prints, written out by instruction |
| `Words.dfy`, `Targets.dfy` | words as numbers, and the printed address of jumps and branches against execution |
| `TextBuffer.dfy`, `Disassembler.dfy` | the buffer and the record updated in place, and the whole call |
| `Traces.dfy`, `BranchPrediction.dfy` | the trace models |
| `TraceClasses.dfy` | the classes of the trace model against the opcodes of the disassembler |

Opcode numbers become three datatypes (32-bit, compressed, pseudo); rows that differ only in size, width, format or
operation share a constructor. The table is a set of functions from opcode to name, codec, format, candidates and
decompression columns. The register fields are 8-bit and the immediate is 32-bit, as in the record of the source; `Value`
reads the immediate as signed.

`hide` statements keep definitions out of proofs that do not need them; they change no meaning.

## Where the code differs from its documentation

The model follows the code; each difference is in a statement above its consequence.

- The lifting constraint of `ret` (`riscv_disas.c:116`) tests no immediate, so `jalr x0, imm(ra)` prints as `ret` for
  every immediate: `LiftingPreservesMeaning` and `TextIdentifiesWord` carve out exactly this case.
- Rows with the flag `rvcd_imm_nz` become illegal for a zero immediate. This includes `c.andi` and the shifts, which
  chapter 16 of the RISC-V Unprivileged ISA (version 20191213) keeps legal, as instruction, as hint, or on RV128 as a
  shift by 64: `IllegalExpansions` and `WordsMadeIllegal` say exactly when.
- The amount of `c.srli` and `c.srai` is not sign-extended on RV128 (`riscv_disas.c:1606-1609`), as section 16.5 asks, so
  word 0x9001 is expanded to a shift by 32 instead of 96: `ShiftBy96`, and `ExpansionPreservesEffect` for the exact
  condition.
- The opcode switch takes words that tables 16.5 to 16.7 reserve or leave to custom extensions for the instruction beside
  them: `c.subw` and `c.addw` on RV32 (word 0x9C01, `SubwOnRv32`), `c.addiw`, `c.lwsp`, `c.ldsp` and `c.lqsp` with rd = x0,
  `c.jr` with rs1 = x0, RV32 shifts with bit 12 set, and the zero immediates of `c.addi4spn`, `c.addi16sp` and `c.lui`,
  which expansion then makes illegal. The hints of `c.nop` with an immediate are taken for `c.addi`.
  `DecodedByOpcodeMap` lists them all.
- The codecs of `fence` and `fence.i` read 8 and 0 of the bits that the encoding leaves open, so the other bits are lost:
  `EncodeUndoesDecode` says exactly when, `FenceLosesBits` shows word 0x108F.
- An append that is cut off (`riscv_disas.c:2063-2065`) fills the whole size and writes its terminator one character after
  it: `AppendOverruns` says when, `OverrunExactly` for which sizes of a whole text, `JalOverruns66` and `JalOverruns` show
  word 0xEF, at every address and for every size from 66 to 84.
- The padding loops (`riscv_disas.c:2142-2144` and `2213-2215`) append nothing once one character is left, so the format
  loop does not end for a size of 32 or less, nor for 64 or less when the text has an offset: `DisassemblyEnds` is the
  exact condition, `JalHangs64` shows word 0xEF.
- The printed target of a jump or branch is a sum of 64 bits on every instruction set (`riscv_disas.c:2145-2146`). On RV32
  and RV128 it is not the address that execution goes on at when that sum leaves the range: `TargetReached` is the exact
  condition, `WrapsOnRv32` shows a jump by -12 from address 0.
- The flag `rvcd_imm_nz_hint` of `c.addi` is never tested.
- The trace model reads every word as a 32-bit instruction (`Trace.py:28-49` and `74`): compressed jumps and branches are
  normal instructions to it (`ClassesAreOpcodes`), and a compressed instruction that falls through is marked as taken
  (`MarksAreExact`).
- The predictor counts two predictions for each jump or branch (`branch_prediction_model.py:110-111`), and a not-taken
  instruction can succeed only while the stored address equals the target 0 of an unmarked instruction:
  `PredictionsAreCounted` and `NotTakenSuccess`.

## Model

| member | source | states |
|---|---|---|
| `Fetch.InstFetch` | plug_in/disassembler/riscv_disas.c:2257-2265 | reading an instruction writes out the little-endian value of exactly the bytes that its length code names, and the length code of that value is the same length |
| `Fetch.LengthIsInFirstBytes` | plug_in/disassembler/riscv_disas.c:2236-2253 | the length code depends on the lowest seven bits only |
| `Fetch.LengthPatterns` | plug_in/disassembler/riscv_disas.c:2236-2253 | the four lengths by the bit patterns of section 1.5, and no length exactly for seven low bits that are all set |
| `Fetch.LittleEndianOfBytes` | plug_in/disassembler/riscv_disas.c:2257-2265 | a value is recovered from as many of its bytes as it fits in |
| `Fetch.BytesOfLittleEndian` | plug_in/disassembler/riscv_disas.c:2257-2265 | a value assembled from bytes fits in them and has those bytes |
| `Fetch.FetchFirst` | plug_in/disassembler/riscv_disas.c:2236-2265 | fetching from an instruction laid out before anything else returns that instruction and its length |
| `Fetch.FetchAllOfStream` | plug_in/disassembler/riscv_disas.c:2236-2265 | the length code is uniquely decodable: repeated fetching over any concatenation of 2, 4, 6 and 8-byte instructions recovers exactly that sequence |
| `Encodings.DecodedByFixedFields` | plug_in/disassembler/riscv_disas.c:999-1487 | the switch over the 32-bit opcodes selects an instruction exactly when the word carries the field values of its encoding |
| `Encodings.DecodedByFixedBits` | plug_in/disassembler/riscv_disas.c:907-1487 | for every word, instruction set and 32-bit instruction: opcode selection yields it if and only if the word has the fixed bits of its encoding under its mask |
| `ShortEncodings.Quadrant0Decoded` | plug_in/disassembler/riscv_disas.c:912-922 | quadrant 0: the switch selects each row of table 16.5 for the words of that row, and c.addi4spn for its reserved zero immediate, and nothing else |
| `ShortEncodings.Quadrant1Decoded` | plug_in/disassembler/riscv_disas.c:923-964 | quadrant 1: the switch selects each row of table 16.6 for the words of that row but the c.nop hints, and for the listed reserved and custom words, and nothing else |
| `ShortEncodings.Quadrant2Decoded` | plug_in/disassembler/riscv_disas.c:965-998 | quadrant 2: the switch selects each row of table 16.7 for the words of that row and for the listed reserved and custom words, and nothing else |
| `ShortEncodings.DecodedByOpcodeMap` | plug_in/disassembler/riscv_disas.c:907-998 | for every word, instruction set and compressed instruction: opcode selection yields it if and only if the word is in its row of tables 16.5 to 16.7 and no c.nop hint, or is one of the listed words outside the row |
| `ShortEncodings.OutsideIsOutside` | plug_in/disassembler/riscv_disas.c:907-998 | no listed outside word is in the row it is taken for |
| `ShortEncodings.SubwOnRv32` | plug_in/disassembler/riscv_disas.c:954-955 | 0x9C01, reserved on RV32, is expanded to subw there |
| `ShortEncodings.WordsMadeIllegal` | plug_in/disassembler/riscv_disas.c:1989-2005 | within the rows expansion makes exactly the zero immediates of c.andi and the shifts illegal; outside them, exactly those of c.addi4spn, c.addi16sp and c.lui |
| `Locality.OpcodeMatchesLength` | plug_in/disassembler/riscv_disas.c:907-1487 | a legal opcode is compressed exactly when the length code is 2 and full-width exactly when it is 4 |
| `Locality.OtherLengthsAreIllegal` | plug_in/disassembler/riscv_disas.c:907-1487 | every word of another length decodes to illegal with all operand fields zero |
| `Immediates.ExtractI` | plug_in/disassembler/riscv_disas.c:1579-1581 | imm12, I-type: the shift expression equals the field-by-field definition of the manual, on every word |
| `Immediates.GatherI` | plug_in/disassembler/riscv_disas.c:1579-1581 | imm12, I-type: the value is in its range and alignment, and scattering it gives back exactly the immediate bits of the word |
| `Immediates.ScatterI` | plug_in/disassembler/riscv_disas.c:1579-1581 | imm12, I-type: every value in range is recovered after scattering |
| `Immediates.ExtractU` | plug_in/disassembler/riscv_disas.c:1583-1585 | imm20, U-type: the shift expression equals the field-by-field definition of the manual, on every word |
| `Immediates.GatherU` | plug_in/disassembler/riscv_disas.c:1583-1585 | imm20, U-type: the value is in its range and alignment, and scattering it gives back exactly the immediate bits of the word |
| `Immediates.ScatterU` | plug_in/disassembler/riscv_disas.c:1583-1585 | imm20, U-type: every value in range is recovered after scattering |
| `Immediates.ExtractJ` | plug_in/disassembler/riscv_disas.c:1587-1592 | jimm20, J-type: the shift expression equals the field-by-field definition of the manual, on every word |
| `Immediates.GatherJ` | plug_in/disassembler/riscv_disas.c:1587-1592 | jimm20, J-type: the value is in its range and alignment, and scattering it gives back exactly the immediate bits of the word |
| `Immediates.ScatterJ` | plug_in/disassembler/riscv_disas.c:1587-1592 | jimm20, J-type: every value in range is recovered after scattering |
| `Immediates.ExtractS` | plug_in/disassembler/riscv_disas.c:1594-1597 | simm12, S-type: the shift expression equals the field-by-field definition of the manual, on every word |
| `Immediates.GatherS` | plug_in/disassembler/riscv_disas.c:1594-1597 | simm12, S-type: the value is in its range and alignment, and scattering it gives back exactly the immediate bits of the word |
| `Immediates.ScatterS` | plug_in/disassembler/riscv_disas.c:1594-1597 | simm12, S-type: every value in range is recovered after scattering |
| `Immediates.ExtractB` | plug_in/disassembler/riscv_disas.c:1599-1604 | sbimm12, B-type: the shift expression equals the field-by-field definition of the manual, on every word |
| `Immediates.GatherB` | plug_in/disassembler/riscv_disas.c:1599-1604 | sbimm12, B-type: the value is in its range and alignment, and scattering it gives back exactly the immediate bits of the word |
| `Immediates.ScatterB` | plug_in/disassembler/riscv_disas.c:1599-1604 | sbimm12, B-type: every value in range is recovered after scattering |
| `Immediates.ExtractShamt5` | plug_in/disassembler/riscv_disas.c:1527-1529 | 5-bit shift amount: the shift expression equals the field-by-field definition of the manual, on every word |
| `Immediates.GatherShamt5` | plug_in/disassembler/riscv_disas.c:1527-1529 | 5-bit shift amount: the value is in its range and alignment, and scattering it gives back exactly the immediate bits of the word |
| `Immediates.ScatterShamt5` | plug_in/disassembler/riscv_disas.c:1527-1529 | 5-bit shift amount: every value in range is recovered after scattering |
| `Immediates.ExtractShamt6` | plug_in/disassembler/riscv_disas.c:1531-1533 | 6-bit shift amount: the shift expression equals the field-by-field definition of the manual, on every word |
| `Immediates.GatherShamt6` | plug_in/disassembler/riscv_disas.c:1531-1533 | 6-bit shift amount: the value is in its range and alignment, and scattering it gives back exactly the immediate bits of the word |
| `Immediates.ScatterShamt6` | plug_in/disassembler/riscv_disas.c:1531-1533 | 6-bit shift amount: every value in range is recovered after scattering |
| `Immediates.ExtractShamt7` | plug_in/disassembler/riscv_disas.c:1535-1537 | 7-bit shift amount: the shift expression equals the field-by-field definition of the manual, on every word |
| `Immediates.GatherShamt7` | plug_in/disassembler/riscv_disas.c:1535-1537 | 7-bit shift amount: the value is in its range and alignment, and scattering it gives back exactly the immediate bits of the word |
| `Immediates.ScatterShamt7` | plug_in/disassembler/riscv_disas.c:1535-1537 | 7-bit shift amount: every value in range is recovered after scattering |
| `Immediates.ExtractCsr` | plug_in/disassembler/riscv_disas.c:1575-1577 | CSR number: the shift expression equals the field-by-field definition of the manual, on every word |
| `Immediates.GatherCsr` | plug_in/disassembler/riscv_disas.c:1575-1577 | CSR number: the value is in its range and alignment, and scattering it gives back exactly the immediate bits of the word |
| `Immediates.ScatterCsr` | plug_in/disassembler/riscv_disas.c:1575-1577 | CSR number: every value in range is recovered after scattering |
| `Immediates.ExtractCSh5` | plug_in/disassembler/riscv_disas.c:1571-1573 | 5-bit compressed shift amount: the shift expression equals the field-by-field definition of the manual, on every word |
| `Immediates.GatherCSh5` | plug_in/disassembler/riscv_disas.c:1571-1573 | 5-bit compressed shift amount: the value is in its range and alignment, and scattering it gives back exactly the immediate bits of the word |
| `Immediates.ScatterCSh5` | plug_in/disassembler/riscv_disas.c:1571-1573 | 5-bit compressed shift amount: every value in range is recovered after scattering |
| `Immediates.ExtractCSh6` | plug_in/disassembler/riscv_disas.c:1606-1609 | 6-bit compressed shift amount: the shift expression equals bits 12 and 6 to 2 of the word, unsigned, on every word (what these bits mean on RV128 is in `ShortSemantics.ShiftAmount`) |
| `Immediates.GatherCSh6` | plug_in/disassembler/riscv_disas.c:1606-1609 | 6-bit compressed shift amount: the value is in its range and alignment, and scattering it gives back exactly the immediate bits of the word |
| `Immediates.ScatterCSh6` | plug_in/disassembler/riscv_disas.c:1606-1609 | 6-bit compressed shift amount: every value in range is recovered after scattering |
| `Immediates.ExtractCI` | plug_in/disassembler/riscv_disas.c:1611-1614 | CI immediate: the shift expression equals the field-by-field definition of the manual, on every word |
| `Immediates.GatherCI` | plug_in/disassembler/riscv_disas.c:1611-1614 | CI immediate: the value is in its range and alignment, and scattering it gives back exactly the immediate bits of the word |
| `Immediates.ScatterCI` | plug_in/disassembler/riscv_disas.c:1611-1614 | CI immediate: every value in range is recovered after scattering |
| `Immediates.ExtractCLui` | plug_in/disassembler/riscv_disas.c:1616-1619 | c.lui immediate: the shift expression equals the field-by-field definition of the manual, on every word |
| `Immediates.GatherCLui` | plug_in/disassembler/riscv_disas.c:1616-1619 | c.lui immediate: the value is in its range and alignment, and scattering it gives back exactly the immediate bits of the word |
| `Immediates.ScatterCLui` | plug_in/disassembler/riscv_disas.c:1616-1619 | c.lui immediate: every value in range is recovered after scattering |
| `Immediates.ExtractCLwsp` | plug_in/disassembler/riscv_disas.c:1621-1625 | c.lwsp offset: the shift expression equals the field-by-field definition of the manual, on every word |
| `Immediates.GatherCLwsp` | plug_in/disassembler/riscv_disas.c:1621-1625 | c.lwsp offset: the value is in its range and alignment, and scattering it gives back exactly the immediate bits of the word |
| `Immediates.ScatterCLwsp` | plug_in/disassembler/riscv_disas.c:1621-1625 | c.lwsp offset: every value in range is recovered after scattering |
| `Immediates.ExtractCLdsp` | plug_in/disassembler/riscv_disas.c:1627-1631 | c.ldsp offset: the shift expression equals the field-by-field definition of the manual, on every word |
| `Immediates.GatherCLdsp` | plug_in/disassembler/riscv_disas.c:1627-1631 | c.ldsp offset: the value is in its range and alignment, and scattering it gives back exactly the immediate bits of the word |
| `Immediates.ScatterCLdsp` | plug_in/disassembler/riscv_disas.c:1627-1631 | c.ldsp offset: every value in range is recovered after scattering |
| `Immediates.ExtractCLqsp` | plug_in/disassembler/riscv_disas.c:1633-1637 | c.lqsp offset: the shift expression equals the field-by-field definition of the manual, on every word |
| `Immediates.GatherCLqsp` | plug_in/disassembler/riscv_disas.c:1633-1637 | c.lqsp offset: the value is in its range and alignment, and scattering it gives back exactly the immediate bits of the word |
| `Immediates.ScatterCLqsp` | plug_in/disassembler/riscv_disas.c:1633-1637 | c.lqsp offset: every value in range is recovered after scattering |
| `Immediates.ExtractC16sp` | plug_in/disassembler/riscv_disas.c:1639-1645 | c.addi16sp immediate: the shift expression equals the field-by-field definition of the manual, on every word |
| `Immediates.GatherC16sp` | plug_in/disassembler/riscv_disas.c:1639-1645 | c.addi16sp immediate: the value is in its range and alignment, and scattering it gives back exactly the immediate bits of the word |
| `Immediates.ScatterC16sp` | plug_in/disassembler/riscv_disas.c:1639-1645 | c.addi16sp immediate: every value in range is recovered after scattering |
| `Immediates.ExtractCJ` | plug_in/disassembler/riscv_disas.c:1647-1656 | CJ target: the shift expression equals the field-by-field definition of the manual, on every word |
| `Immediates.GatherCJ` | plug_in/disassembler/riscv_disas.c:1647-1656 | CJ target: the value is in its range and alignment, and scattering it gives back exactly the immediate bits of the word |
| `Immediates.ScatterCJ` | plug_in/disassembler/riscv_disas.c:1647-1656 | CJ target: every value in range is recovered after scattering |
| `Immediates.ExtractCB` | plug_in/disassembler/riscv_disas.c:1658-1664 | CB target: the shift expression equals the field-by-field definition of the manual, on every word |
| `Immediates.GatherCB` | plug_in/disassembler/riscv_disas.c:1658-1664 | CB target: the value is in its range and alignment, and scattering it gives back exactly the immediate bits of the word |
| `Immediates.ScatterCB` | plug_in/disassembler/riscv_disas.c:1658-1664 | CB target: every value in range is recovered after scattering |
| `Immediates.ExtractCSwsp` | plug_in/disassembler/riscv_disas.c:1666-1669 | c.swsp offset: the shift expression equals the field-by-field definition of the manual, on every word |
| `Immediates.GatherCSwsp` | plug_in/disassembler/riscv_disas.c:1666-1669 | c.swsp offset: the value is in its range and alignment, and scattering it gives back exactly the immediate bits of the word |
| `Immediates.ScatterCSwsp` | plug_in/disassembler/riscv_disas.c:1666-1669 | c.swsp offset: every value in range is recovered after scattering |
| `Immediates.ExtractCSdsp` | plug_in/disassembler/riscv_disas.c:1671-1674 | c.sdsp offset: the shift expression equals the field-by-field definition of the manual, on every word |
| `Immediates.GatherCSdsp` | plug_in/disassembler/riscv_disas.c:1671-1674 | c.sdsp offset: the value is in its range and alignment, and scattering it gives back exactly the immediate bits of the word |
| `Immediates.ScatterCSdsp` | plug_in/disassembler/riscv_disas.c:1671-1674 | c.sdsp offset: every value in range is recovered after scattering |
| `Immediates.ExtractCSqsp` | plug_in/disassembler/riscv_disas.c:1676-1679 | c.sqsp offset: the shift expression equals the field-by-field definition of the manual, on every word |
| `Immediates.GatherCSqsp` | plug_in/disassembler/riscv_disas.c:1676-1679 | c.sqsp offset: the value is in its range and alignment, and scattering it gives back exactly the immediate bits of the word |
| `Immediates.ScatterCSqsp` | plug_in/disassembler/riscv_disas.c:1676-1679 | c.sqsp offset: every value in range is recovered after scattering |
| `Immediates.ExtractC4spn` | plug_in/disassembler/riscv_disas.c:1681-1686 | c.addi4spn immediate: the shift expression equals the field-by-field definition of the manual, on every word |
| `Immediates.GatherC4spn` | plug_in/disassembler/riscv_disas.c:1681-1686 | c.addi4spn immediate: the value is in its range and alignment, and scattering it gives back exactly the immediate bits of the word |
| `Immediates.ScatterC4spn` | plug_in/disassembler/riscv_disas.c:1681-1686 | c.addi4spn immediate: every value in range is recovered after scattering |
| `Immediates.ExtractCW` | plug_in/disassembler/riscv_disas.c:1688-1692 | c.lw and c.sw offset: the shift expression equals the field-by-field definition of the manual, on every word |
| `Immediates.GatherCW` | plug_in/disassembler/riscv_disas.c:1688-1692 | c.lw and c.sw offset: the value is in its range and alignment, and scattering it gives back exactly the immediate bits of the word |
| `Immediates.ScatterCW` | plug_in/disassembler/riscv_disas.c:1688-1692 | c.lw and c.sw offset: every value in range is recovered after scattering |
| `Immediates.ExtractCD` | plug_in/disassembler/riscv_disas.c:1694-1697 | c.ld and c.sd offset: the shift expression equals the field-by-field definition of the manual, on every word |
| `Immediates.GatherCD` | plug_in/disassembler/riscv_disas.c:1694-1697 | c.ld and c.sd offset: the value is in its range and alignment, and scattering it gives back exactly the immediate bits of the word |
| `Immediates.ScatterCD` | plug_in/disassembler/riscv_disas.c:1694-1697 | c.ld and c.sd offset: every value in range is recovered after scattering |
| `Immediates.ExtractCQ` | plug_in/disassembler/riscv_disas.c:1699-1703 | c.lq and c.sq offset: the shift expression equals the field-by-field definition of the manual, on every word |
| `Immediates.GatherCQ` | plug_in/disassembler/riscv_disas.c:1699-1703 | c.lq and c.sq offset: the value is in its range and alignment, and scattering it gives back exactly the immediate bits of the word |
| `Immediates.ScatterCQ` | plug_in/disassembler/riscv_disas.c:1699-1703 | c.lq and c.sq offset: every value in range is recovered after scattering |
| `Immediates.Signed6Bits` | plug_in/disassembler/riscv_disas.c:1611-1614 | a sign-extended immediate of 6 bits has its two's-complement value range |
| `Immediates.Signed9Bits` | plug_in/disassembler/riscv_disas.c:1658-1664 | a sign-extended immediate of 9 bits has its two's-complement value range |
| `Immediates.Signed10Bits` | plug_in/disassembler/riscv_disas.c:1639-1645 | a sign-extended immediate of 10 bits has its two's-complement value range |
| `Immediates.Signed12Bits` | plug_in/disassembler/riscv_disas.c:1579-1656 | a sign-extended immediate of 12 bits has its two's-complement value range |
| `Immediates.Signed13Bits` | plug_in/disassembler/riscv_disas.c:1599-1604 | a sign-extended immediate of 13 bits has its two's-complement value range |
| `Immediates.Signed18Bits` | plug_in/disassembler/riscv_disas.c:1616-1619 | a sign-extended immediate of 18 bits has its two's-complement value range |
| `Immediates.Signed21Bits` | plug_in/disassembler/riscv_disas.c:1587-1592 | a sign-extended immediate of 21 bits has its two's-complement value range |
| `Disassembler.ExtractFields` | plug_in/disassembler/riscv_disas.c:1491-1569 | every register and flag extractor reads the field that the instruction format names |
| `Operands.ExtractedInRange` | plug_in/disassembler/riscv_disas.c:1707-1810 | what a 32-bit codec extracts is in range, with every field the codec does not read zero |
| `Operands.FieldsAreRead` | plug_in/disassembler/riscv_disas.c:1707-1810 | decoding any 32-bit instruction reads exactly the fields of its format in the manual, written out by instruction |
| `Operands.OperandsCaptured` | plug_in/disassembler/riscv_disas.c:1707-1810 | encoding the extracted operands of any word gives back the operand bits of that word, for every 32-bit codec |
| `Operands.OperandsRecovered` | plug_in/disassembler/riscv_disas.c:1707-1810 | extracting from the encoded operands gives them back, for every 32-bit codec and operand set in range |
| `Operands.EncodeUndoesDecode` | plug_in/disassembler/riscv_disas.c:907-1985 | encode(decode(w)) is w on the low 32 bits if and only if w is no fence, or the bits that its codec does not read are zero; for every word that decodes to a 32-bit instruction |
| `Operands.EncodeKeepsRead` | plug_in/disassembler/riscv_disas.c:907-1985 | encode(decode(w)) is what the opcode and the codec read of w: all 32 bits, but for fence and fence.i |
| `Operands.FenceLosesBits` | plug_in/disassembler/riscv_disas.c:1805-1810 | 0x108F decodes to fence.i and is encoded back as 0x100F |
| `Operands.DecodeUndoesEncode` | plug_in/disassembler/riscv_disas.c:907-1985 | decode(encode(op, operands)) gives back opcode and operands, for every operand set the instruction can carry, whatever lies above bit 31 |
| `Operands.DecodedIsEncodable` | plug_in/disassembler/riscv_disas.c:907-1985 | what a word decodes to is an operand set the instruction can carry |
| `Locality.OperandsStayInTables` | plug_in/disassembler/riscv_disas.c:1707-2005 | for every word and instruction set the operand fields stay below 32, 8, 16 and 2 through decompression, so every name-table lookup is defined |
| `Locality.JunkAboveIsIgnored` | plug_in/disassembler/riscv_disas.c:907-2253 | length, opcode, codec and operands depend only on address, instruction set and the first bytes that the length names |
| `Compression.SelectedExpands` | plug_in/disassembler/riscv_disas.c:907-998 | the branches on the instruction set in the opcode switch agree with the decompression columns |
| `Compression.NoCompressedOpSurvives` | plug_in/disassembler/riscv_disas.c:1989-2005 | after decompression no opcode is compressed, for every word and instruction set |
| `Compression.IllegalExpansions` | plug_in/disassembler/riscv_disas.c:1989-2005 | decompression makes a legal opcode illegal exactly in the rows with the non-zero-immediate flag and a zero immediate |
| `Compression.DecompressKeepsTheRest` | plug_in/disassembler/riscv_disas.c:1989-2005 | decompression changes opcode and codec together for a 32-bit instruction, the opcode alone when it becomes illegal, and nothing else |
| `Compression.DecompressIdempotent` | plug_in/disassembler/riscv_disas.c:1989-2005 | decompressing twice is decompressing once |
| `Compression.ExpansionIsEncodable` | plug_in/disassembler/riscv_disas.c:1989-2005 | the operands of a compressed instruction fit the 32-bit instruction it becomes |
| `Compression.DecompressionPreservesMeaning` | plug_in/disassembler/riscv_disas.c:1989-2005 | the 32-bit word encoded from the expanded opcode and operands decodes, without decompression and on any instruction set, to the same opcode, codec and operands |
| `ShortSemantics.ExpansionsDoTheSame` | plug_in/disassembler/riscv_disas.c:525-570 | each compressed instruction, loads, stores and the breakpoint included, has on every valid state the effect that chapter 16 gives its 16-bit word when run as the instruction in its decompression columns on the operands its codec extracts, right shifts on RV128 with bit 12 set apart |
| `ShortSemantics.LostShiftSign` | plug_in/disassembler/riscv_disas.c:1606-1609 | for each such right shift there is a valid state on which the expansion has another effect |
| `ShortSemantics.ShiftBy96` | plug_in/disassembler/riscv_disas.c:1606-1609 | 0x9001, on RV128 a right shift by 96, is expanded to a right shift by 32 and is one of these shifts |
| `ShortSemantics.ExpansionPreservesEffect` | plug_in/disassembler/riscv_disas.c:1989-2005 | for every compressed word that stays legal: the record left after decompression does on all valid states what chapter 16 says of the word, if and only if the word is not a right shift on RV128 with bit 12 set |
| `Mnemonics.NamedAfterExpansion` | plug_in/disassembler/riscv_disas.c:525-570 | outside nine listed rows, a compressed instruction is named after the instruction its decompression columns hold |
| `Mnemonics.OwnNames` | plug_in/disassembler/riscv_disas.c:525-570 | the names of those nine rows |
| `Formats.FormattedAfterExpansion` | plug_in/disassembler/riscv_disas.c:525-570 | outside c.nop and c.mv a compressed row has the format of its expansion |
| `PseudoInstructions.FirstMatchPicks` | plug_in/disassembler/riscv_disas.c:2042-2056 | the search returns the least candidate whose whole constraint list holds, or none when none does |
| `PseudoInstructions.ConstraintsMean` | plug_in/disassembler/riscv_disas.c:105-131 | each constraint list holds exactly under the stated condition on the operands |
| `PseudoInstructions.LiftedFrom` | plug_in/disassembler/riscv_disas.c:2042-2056 | a pseudo-instruction is reached only from the opcode it stands for and under its condition; otherwise nothing changes |
| `PseudoInstructions.ReturnsLift` | plug_in/disassembler/riscv_disas.c:2042-2056 | lifting reaches `ret` from exactly the jalr with rd = x0 and rs1 = ra |
| `PseudoInstructions.LiftPicksFirst` | plug_in/disassembler/riscv_disas.c:2042-2056 | lifting picks the first candidate in table order whose condition holds, and leaves the record alone when none holds |
| `PseudoInstructions.LiftsExactly` | plug_in/disassembler/riscv_disas.c:134-295 | for each pseudo-instruction: lifting reaches it if and only if the opcode is the one it stands for, its condition holds, and none of the listed preferred ones applies (nop before mv, ret before jr, sltz before sgtz, bltz before bgtz before bgt, blez before bgez before ble) |
| `PseudoInstructions.LiftsWheneverPossible` | plug_in/disassembler/riscv_disas.c:2042-2056 | whatever meets the condition of any pseudo-instruction of its opcode is lifted, and to which |
| `PseudoInstructions.LiftKeepsTheRest` | plug_in/disassembler/riscv_disas.c:2042-2056 | lifting keeps address, word, operands and the codec of the base instruction |
| `PseudoInstructions.LiftIdempotent` | plug_in/disassembler/riscv_disas.c:2042-2056 | lifting twice is lifting once |
| `Semantics.PseudosMeanTheSame` | plug_in/disassembler/riscv_disas.c:2009-2056 | on every valid state a pseudo-instruction, on the operands its format shows, does what its base instruction does, `jalr x0, imm(ra)` with a non-zero immediate apart |
| `Semantics.RetLosesImmediate` | plug_in/disassembler/riscv_disas.c:116 | for every non-zero immediate there is a state on which `ret` differs from the `jalr x0, imm(ra)` it replaces |
| `Semantics.ConditionsAreDefinitions` | plug_in/disassembler/riscv_disas.c:105-131 | for every encodable operand set: the constraints of a pseudo-instruction hold if and only if the operands are those that the manual gives for it on what its text shows; for `ret`, with a zero immediate |
| `Semantics.LiftingPreservesMeaning` | plug_in/disassembler/riscv_disas.c:2009-2056 | a lifted instruction has the effect of the base instruction on all valid states if and only if the base instruction is not a jalr with rd = x0, rs1 = ra and a non-zero immediate |
| `Text.PaddingProgress` | plug_in/disassembler/riscv_disas.c:2060-2066 | every round of a padding loop adds a blank while that leaves room for the terminator; from any shorter text, no number of rounds reaches a column that is not less than the size |
| `Text.PaddingEndsExactly` | plug_in/disassembler/riscv_disas.c:2213-2215 | a padding loop ends if and only if the text reaches the column already or the size exceeds the column, and then leaves the padded text |
| `Text.FormattedFits` | plug_in/disassembler/riscv_disas.c:2060-2232 | the bounded appends build the unbounded text whenever that is shorter than the buffer |
| `Text.AppendOverruns` | plug_in/disassembler/riscv_disas.c:2060-2066 | an append fills the whole size, and writes its terminator after it, exactly when more than one character is left but not room for the addition and the terminator |
| `Text.CsrTextRead` | plug_in/disassembler/riscv_disas.c:2149-2158 | a register prints its name, or 0x and three hexadecimal digits that stand for its number |
| `Text.RoundingModes` | plug_in/disassembler/riscv_disas.c:2159-2183 | the rounding modes print in the order of table 11.1, the reserved ones as inv |
| `Text.FenceSetLetters` | plug_in/disassembler/riscv_disas.c:2184-2211 | each letter of a fence set is printed exactly when its bit is set |
| `Text.FenceOrder` | plug_in/disassembler/riscv_disas.c:2184-2211 | the letters are printed in alphabetical order, each once, and nothing else |
| `Layout.FormatsAreSound` | plug_in/disassembler/riscv_disas.c:67-101 | every format prints the name, possibly the flags, a tab and operands separated by punctuation, and ends by column 84 |
| `Layout.RenderedInside` | plug_in/disassembler/riscv_disas.c:2096-2231 | the operands never pass the last column computed from the widths |
| `Layout.TextShape` | plug_in/disassembler/riscv_disas.c:2096-2231 | the text is the mnemonic and flags, blanks up to column 32 (one at least), and the operands from column 32 on |
| `Assembly.EveryOpIsWritten` | plug_in/disassembler/riscv_disas.c:67-101 | every format column prints the operands of its instruction in the order of assembly language, given instruction by instruction, with flags exactly for the atomic instructions and a target exactly for auipc, jal, j and branches |
| `Assembly.PrintsItsLine` | plug_in/disassembler/riscv_disas.c:2073-2232 | every record prints mnemonic and flags, blanks to column 32, these operands, and for the jumps and branches blanks to column 64 and the target |
| `Targets.TargetNumber` | plug_in/disassembler/riscv_disas.c:2145-2146 | the printed target is the address plus the signed offset modulo 2^64, as numbers |
| `Targets.TargetTextRead` | plug_in/disassembler/riscv_disas.c:2145-2147 | the digits after `# 0x` stand for that number |
| `Targets.TargetReached` | plug_in/disassembler/riscv_disas.c:2145-2146 | it is the address that the program counter wraps to always on RV64, and elsewhere if and only if the sum is in the range of both |
| `Targets.WrapsOnRv32` | plug_in/disassembler/riscv_disas.c:2145-2146 | on RV32 a jump by -12 from address 0 prints another address than it goes to |
| `Targets.PrintedTargetIsNext` | plug_in/disassembler/riscv_disas.c:2139-2148 | the line of a jal, or of a branch that is taken, ends in the address that execution goes on at: always on RV64, elsewhere if and only if nothing wraps |
| `Layout.TextIsShort` | plug_in/disassembler/riscv_disas.c:2073-2232 | no text is longer than 84 characters |
| `Layout.NothingIsTruncated` | plug_in/disassembler/riscv_disas.c:2060-2232 | with tab 32 and any buffer of more than 84 characters the appends build the unbounded text |
| `Truncation.TextIsCut` | plug_in/disassembler/riscv_disas.c:2073-2232 | for every record and every size for which the format loop ends, the exact length of what is left: the whole text, or the size, or one less where an append ends there |
| `Truncation.EndsExactly` | plug_in/disassembler/riscv_disas.c:2073-2232 | for every record that can be printed and every size: all padding loops of the format loop end if and only if the size exceeds one tab stop, and two when the format ends in an offset |
| `Truncation.AppendsAreCut` | plug_in/disassembler/riscv_disas.c:2060-2066 | the length that a sequence of appends leaves: of all strings together, or the size, or one less where one of the appends ends there |
| `Truncation.OverrunExactly` | plug_in/disassembler/riscv_disas.c:2060-2232 | for every record and every size for which the format loop ends: the appends fill the whole size if and only if the text is too long and no append ends one short of the size; for sizes of more than 64, exactly from 66 to the length of the text; they never leave more than the size |
| `Truncation.LongTextPauses` | plug_in/disassembler/riscv_disas.c:2139-2148 | a text of more than 64 characters ends in an offset, whose target starts in column 64 and is the only append that ends or starts past it |
| `Numerals.DigitsInjective` | plug_in/disassembler/riscv_disas.c:2131-2156 | printed digits determine the number |
| `Numerals.DigitsRead` | plug_in/disassembler/riscv_disas.c:2131-2156 | the printed digits, read back by character code, stand for the number |
| `Numerals.NoLeadingZero` | plug_in/disassembler/riscv_disas.c:2131-2156 | they do not begin with a zero, but for the number zero |
| `Numerals.DecimalRead` | plug_in/disassembler/riscv_disas.c:2131-2141 | a signed number prints as digits that stand for it, after a minus sign exactly if it is negative |
| `Numerals.Hex3Read` | plug_in/disassembler/riscv_disas.c:2154-2155 | three hexadecimal digits stand for their number |
| `Numerals.DecimalInjective` | plug_in/disassembler/riscv_disas.c:2131-2141 | decimal printing determines the signed number |
| `Numerals.Hex3Injective` | plug_in/disassembler/riscv_disas.c:2154-2155 | three hexadecimal digits determine a number below 4096 |
| `Numerals.DecimalLength` | plug_in/disassembler/riscv_disas.c:2131-2141 | a 32-bit number prints in at most 11 characters |
| `Numerals.HexLength` | plug_in/disassembler/riscv_disas.c:2145-2147 | a 64-bit number prints in at most 16 hexadecimal digits |
| `Registers.RegistersFound` | plug_in/disassembler/riscv_disas.c:51-63 | register names are found back, so they are distinct, short and free of delimiters |
| `Registers.IregsAreNumbered` | plug_in/disassembler/riscv_disas.c:51-56 | x0 to x9 have the names of chapter 25: five of their own, then t and s, numbered through |
| `Registers.UpperIregsAreNumbered` | plug_in/disassembler/riscv_disas.c:51-56 | x10 to x31 have the names of chapter 25: a, s and t, numbered through |
| `Registers.FregsAreNumbered` | plug_in/disassembler/riscv_disas.c:58-63 | f0 to f9 have the names of chapter 25: ft and fs, numbered through |
| `Registers.UpperFregsAreNumbered` | plug_in/disassembler/riscv_disas.c:58-63 | f10 to f31 have the names of chapter 25: fa, fs and ft, numbered through |
| `Mnemonics.NamesAreDistinct` | plug_in/disassembler/riscv_disas.c:297-617 | no two printable opcodes share a name |
| `Mnemonics.IntegerMnemonics` | plug_in/disassembler/riscv_disas.c:297-524 | the mnemonics of the base integer instructions, spelled out |
| `Mnemonics.ArithmeticMnemonics` | plug_in/disassembler/riscv_disas.c:297-524 | those of the arithmetic instructions and their size suffixes |
| `Mnemonics.SystemMnemonics` | plug_in/disassembler/riscv_disas.c:297-524 | those of the fences, system and CSR instructions |
| `Mnemonics.AtomicMnemonics` | plug_in/disassembler/riscv_disas.c:297-524 | those of the atomic instructions and their width suffixes |
| `Mnemonics.FloatMnemonics` | plug_in/disassembler/riscv_disas.c:297-524 | those of the floating-point operations |
| `Mnemonics.ConversionMnemonics` | plug_in/disassembler/riscv_disas.c:297-524 | those of the conversions and the format suffixes |
| `Mnemonics.PseudoMnemonics` | plug_in/disassembler/riscv_disas.c:571-617 | those of the integer pseudo-instructions |
| `Mnemonics.JumpPseudoMnemonics` | plug_in/disassembler/riscv_disas.c:571-617 | those of the jumps among them, fsrmi and fsflagsi |
| `Mnemonics.MorePseudoMnemonics` | plug_in/disassembler/riscv_disas.c:571-617 | those of the branches, moves and counters among them |
| `Mnemonics.FloatCsrMnemonics` | plug_in/disassembler/riscv_disas.c:571-617 | those that read and write the floating-point CSRs |
| `Mnemonics.ComposedMnemonics` | plug_in/disassembler/riscv_disas.c:297-524 | names that are put together, at members of each family |
| `Mnemonics.ComposedFloatMnemonics` | plug_in/disassembler/riscv_disas.c:297-524 | the same for conversions and moves |
| `Identification.TokenDetermines` | plug_in/disassembler/riscv_disas.c:2096-2231 | two printed operands are equal exactly when the fields they show are, the two reserved rounding modes apart |
| `Identification.SameText` | plug_in/disassembler/riscv_disas.c:2073-2232 | two records at one address print the same text exactly when they have the same opcode and show the same fields |
| `Identification.WideOperandsShown` | plug_in/disassembler/riscv_disas.c:297-524 | the text of a 32-bit instruction shows every operand field that its codec reads or its opcode does not fix |
| `Identification.PseudoOperandsShown` | plug_in/disassembler/riscv_disas.c:571-617 | the text of a pseudo-instruction other than `ret` determines the operands of its base instruction |
| `Injectivity.TextIdentifiesRecord` | plug_in/disassembler/riscv_disas.c:2042-2232 | two expanded records at one address print the same text if and only if they are the same instruction with the same operands, up to the reserved rounding modes, or both print as `ret` |
| `Injectivity.TextIdentifiesWord` | plug_in/disassembler/riscv_disas.c:2269-2277 | two legal 4-byte words at one address print the same text if and only if they are the same word, or both fence with the same sets, both fence.i, both jalr x0, imm(ra), or equal but for the reserved rounding modes 5 and 6 |
| `Injectivity.EncodingPrintsTheSame` | plug_in/disassembler/riscv_disas.c:2269-2277 | a legal word of either length prints what its 32-bit encoding prints, on any instruction set |
| `Injectivity.TextIdentifiesInstruction` | plug_in/disassembler/riscv_disas.c:2269-2277 | two legal words of either length, on any instruction sets, print the same text at one address if and only if their 32-bit encodings are equal or confused as 4-byte words are |
| `Injectivity.CompressedTextIsExpandedText` | plug_in/disassembler/riscv_disas.c:2269-2277 | a compressed word prints exactly what the 32-bit word that it expands to prints |
| `Injectivity.JunkChangesNoText` | plug_in/disassembler/riscv_disas.c:2269-2277 | words with the same first bytes print the same text |
| `Disassembler.RvDecode.constructor` | plug_in/disassembler/riscv_disas.c:2271 | the record starts with address and word, and zero elsewhere |
| `Disassembler.RvDecode.DecodeOpcode` | plug_in/disassembler/riscv_disas.c:907-1487 | sets the opcode that the word selects and nothing else |
| `Disassembler.RvDecode.DecodeOperands` | plug_in/disassembler/riscv_disas.c:1707-1985 | the switch over the codecs, with the shift-expression extractors, leaves the operands that the instruction formats define; fields a codec does not name keep their value |
| `Disassembler.RvDecode.DecodeWideOperands` | plug_in/disassembler/riscv_disas.c:1716-1767 | the cases of the 32-bit codecs with an immediate |
| `Disassembler.RvDecode.DecodeRegisterOperands` | plug_in/disassembler/riscv_disas.c:1768-1810 | the cases of the 32-bit codecs without an immediate |
| `Disassembler.RvDecode.DecodeShortImmediates` | plug_in/disassembler/riscv_disas.c:1811-1901 | the cases of the compressed codecs with an immediate that is no shift amount and not relative to the stack pointer |
| `Disassembler.RvDecode.DecodeShortShifts` | plug_in/disassembler/riscv_disas.c:1822-1846 | the cases of the compressed shifts |
| `Disassembler.RvDecode.DecodeStackImmediates` | plug_in/disassembler/riscv_disas.c:1847-1892 | the cases of the compressed codecs with an immediate relative to the stack pointer |
| `Disassembler.RvDecode.DecodeShortAccesses` | plug_in/disassembler/riscv_disas.c:1902-1983 | the cases of the compressed loads, stores and register operations |
| `Disassembler.RvDecode.Decompress` | plug_in/disassembler/riscv_disas.c:1989-2005 | replaces the opcode and codec, or makes the opcode illegal, as the columns and the flag say |
| `Disassembler.RvDecode.CheckConstraints` | plug_in/disassembler/riscv_disas.c:2009-2038 | true exactly when every constraint of the list holds |
| `Disassembler.RvDecode.LiftPseudo` | plug_in/disassembler/riscv_disas.c:2042-2056 | the scan over the candidates leaves the record that first-match lifting defines; its opcode is a given pseudo-instruction if and only if that one's condition holds and no preferred one applies |
| `TextBuffer.Strlen` | plug_in/disassembler/riscv_disas.c:2062 | the length of the text in the buffer |
| `TextBuffer.Append` | plug_in/disassembler/riscv_disas.c:2060-2066 | leaves the text with the addition, cut off at the size, or unchanged when only one character is left |
| `TextBuffer.Pad` | plug_in/disassembler/riscv_disas.c:2213-2215 | whenever the padding loop ends, leaves the text padded with blanks to the column |
| `Disassembler.AppendOffset` | plug_in/disassembler/riscv_disas.c:2139-2148 | offset, blanks to the second tab stop, and the address plus the signed offset modulo 2^64 in hexadecimal, whenever the padding ends |
| `Disassembler.AppendFence` | plug_in/disassembler/riscv_disas.c:2184-2211 | the letters of a fence set in the order i, o, r, w |
| `Disassembler.Emit` | plug_in/disassembler/riscv_disas.c:2097-2229 | obeys one format directive as the bounded interpreter defines it, whenever its padding ends |
| `Disassembler.FormatInto` | plug_in/disassembler/riscv_disas.c:2073-2232 | the format loop ends, and leaves the bounded text of the record, whenever all its padding loops end; with tab 32 and a larger size that is the line written out for the instruction |
| `Disassembler.DisasmInst` | plug_in/disassembler/riscv_disas.c:2269-2277 | the five stages end for every size of more than one tab stop, or two for a format with an offset, and leave the bounded text of the word, which is the line written out for its instruction when the size exceeds that; an array of exactly the given size is enough unless an append is cut off |
| `Disassembler.DisassemblyEnds` | plug_in/disassembler/riscv_disas.c:2269-2277 | for every word, address and size: the format loop ends if and only if the size exceeds one tab stop, and two when the format ends in an offset |
| `Disassembler.JalHangs64` | plug_in/disassembler/riscv_disas.c:2142-2144 | the format loop of word 0xEF does not end for a size of 64, at any address |
| `Disassembler.JalOverruns66` | plug_in/disassembler/riscv_disas.c:2060-2066 | at every address the text of word 0xEF fills a size of 66 completely, so its terminator goes after it |
| `Disassembler.JalOverruns` | plug_in/disassembler/riscv_disas.c:2060-2066 | at one address the text of word 0xEF fills every size from 66 to 84 completely |
| `Disassembler.LongestText` | plug_in/disassembler/riscv_disas.c:2073-2232 | the text of word 0xEF at that address has the greatest length, 84 characters |
| `Disassembler.DisasmInto128` | plug_in/disassembler/toy_scalar_disasm_sv_wrapper.c:13-19 | a buffer of 128 characters always receives the whole line written out for the instruction, which is at most 84 characters long |
| `Traces.Instruction.constructor` | model/Trace.py:10-18 | an instruction holds its line and is not marked |
| `Traces.Trace.constructor` | model/Trace.py:56-60 | building a trace leaves one object per line, marked |
| `Traces.Trace.ParseFile` | model/Trace.py:63-66 | one new, distinct, unmarked object per line, in order |
| `Traces.Trace.StateUpdate` | model/Trace.py:69-76 | every instruction but the last is marked as taken, with target, exactly when the next address is not the next word; nothing else changes |
| `Traces.MarksAreExact` | model/Trace.py:69-76 | what each mark says, and that addresses and contents are kept |
| `Traces.AnnotationIsLossless` | model/Trace.py:69-76 | the addresses rebuilt from the first address, the marks and the targets are those of the trace |
| `Traces.ClassesPartition` | model/Trace.py:83-101 | the four cost classes partition the trace, and the branch classes partition the branches |
| `Traces.CostIsConserved` | model/Trace.py:111-121 | total cost is instructions plus jumps plus taken branches, between one and two cycles for each instruction |
| `Traces.BranchOccurCountsJumpsAway` | model/Trace.py:95-97 | the branches counted as taken are those not followed by the next word |
| `Traces.MarkingKeepsClasses` | model/Trace.py:83-89 | marking changes no class of jumps or normal instructions |
| `Traces.CostOfTrace` | model/Trace.py:56-121 | the cost that is reported for a parsed trace, in terms of the lines alone |
| `TraceClasses.ClassesAreOpcodes` | model/Trace.py:28-53 | for every word that the opcode switch finds legal: the trace model takes it for a jump if and only if it is a jal or jalr, and for a branch if and only if it is a conditional branch |
| `TraceClasses.CostOfProgram` | model/Trace.py:83-121 | a trace of legal words costs its length, plus one for each jal, jalr and branch that jumps away, these by the opcode switch of the disassembler |
| `BranchPrediction.BranchPredictor.constructor` | model/branch_prediction_model.py:59-63 | all counters and the stored address start at 0 |
| `BranchPrediction.BranchPredictor.Update` | model/branch_prediction_model.py:68-75 | a taken outcome stores the target and counts up to 3, another counts down to -2 |
| `BranchPrediction.BranchPredictor.PredictJump` | model/branch_prediction_model.py:77-79 | predicts by the sign of the counter and counts the prediction |
| `BranchPrediction.BranchPredictor.PredictPc` | model/branch_prediction_model.py:81-82 | the stored address |
| `BranchPrediction.BranchPredictor.Success` | model/branch_prediction_model.py:65-66 | counts one success |
| `BranchPrediction.Score` | model/branch_prediction_model.py:108-113 | the body of the scoring loop, with both calls of the predictor; a success is counted exactly for a jump or branch predicted in its direction while the stored address is its target |
| `BranchPrediction.ScoreTrace` | model/branch_prediction_model.py:108-113 | the scoring loop leaves the predictor of the whole run, and in each jump or branch the direction predicted before it |
| `BranchPrediction.Evaluate` | model/branch_prediction_model.py:54-113 | parsing, marking and scoring a trace from a new predictor leaves in each jump or branch the direction predicted for it, and none in the others |
| `BranchPrediction.CounterStaysInRange` | model/branch_prediction_model.py:68-75 | on every run the counter stays between -2 and 3 |
| `BranchPrediction.StoredPcIsLastTarget` | model/branch_prediction_model.py:68-70 | the stored address is the target of the latest taken jump or branch, 0 before any |
| `BranchPrediction.PredictionsAreCounted` | model/branch_prediction_model.py:108-113 | predictions are exactly twice the jumps and branches; successes and mispredictions together are at most the jumps and branches, so successes are at most half of the predictions |
| `BranchPrediction.SuccessesAreCounted` | model/branch_prediction_model.py:111-112 | the successes are exactly the jumps and branches predicted in their direction whose target is that of the latest taken one before |
| `BranchPrediction.MispredictionsAreLeft` | model/branch_prediction_model.py:108-113 | the mispredictions are exactly the jumps and branches that differ from the direction left in them |
| `BranchPrediction.NotTakenSuccess` | model/branch_prediction_model.py:111-112 | an instruction that was not taken is a success if and only if it is predicted so and the latest target is 0 |
| `BranchPrediction.MissesAreAmortised` | model/branch_prediction_model.py:68-79 | missed taken outcomes plus the distance of the counter from predicting taken never exceed the not-taken outcomes plus the initial distance, and the other way round |
| `BranchPrediction.TwoCompetitive` | model/branch_prediction_model.py:68-79 | mispredictions are at most 2*min(taken, not taken) + 1 |
| `BranchPrediction.BoundIsTight` | model/branch_prediction_model.py:68-79 | for every n there is a list of trace lines, at addresses 0 and 4 in turn, whose marked trace has n jumps and branches, all mispredicted; for odd n the bound is reached |
| `BranchPrediction.AlternatingIsMarked` | model/Trace.py:56-76 | parsing and marking these lines gives taken and not-taken branches in turn, and an unmarked last record where n is even |
| `BranchPrediction.AlternatingIsMissed` | model/branch_prediction_model.py:68-79 | a new predictor mispredicts every one of n alternating branches, of which one more is not taken where n is odd, and its counter goes between 0 and -1 |
| `BranchPrediction.SingleRun` | model/branch_prediction_model.py:68-79 | a run of taken outcomes causes at most 2 mispredictions, a run of not-taken ones at most 4, from any counter in range |
| `BranchPrediction.MispredictionsPerRun` | model/branch_prediction_model.py:68-79 | from any counter in range, mispredictions over a trace are at most 2 for each taken run and 4 for each other run |
| `BranchPrediction.MispredictionsFromStart` | model/branch_prediction_model.py:59-79 | a new predictor makes at least 2 fewer than that on every trace with a jump or branch |
| `BranchPrediction.RunBoundIsTight` | model/branch_prediction_model.py:59-79 | for every k > 0 there is a list of trace lines whose marked trace has k taken runs and k others, and on which a new predictor makes 6k - 2 mispredictions, which is that bound |
| `BranchPrediction.LoopIsMarked` | model/Trace.py:56-76 | parsing and marking whole rounds of these lines gives five taken branches and five that fall through in turn |

## Left out

- The register name table of the CSRs (`riscv_disas.c:621-903`) is a parameter: any partial naming with distinct names of
  1 to 14 characters, without delimiters and not beginning with 0. The strings themselves are not modelled.
- `snprintf` is modelled by digit functions; its 64-byte scratch buffer is larger than any number printed here.
- The switch on raw opcode patterns is modelled over named fields of the word, and the opcode table as functions of the
  opcode instead of an array; sentinel-terminated lists are sequences.
- The candidates that lift `jal` with rd = ra and `jalr` with rd = ra to themselves end their lists and change nothing;
  they are not listed.
- Semantics.LiftingPreservesMeaning: the CSRs `fflags`, `frm` and `fcsr` are separate cells, floating-point registers hold
  a sign and a magnitude, and traps and advancing counters are not modelled, because no lifted instruction uses them.
  The moves between floating-point registers print integer register names (`riscv_disas.c:581-589`); only their register
  numbers are given a meaning.
- ShortSemantics.ExpansionsDoTheSame: memory is a map from addresses to bytes, always accessible at any alignment; a
  breakpoint is an event and nothing more. The reserved and custom words that the switch takes for a row are given the effect of that
  row, as the manual gives them none.
- Disassembler.DisasmInst: nothing for the sizes for which the format loop does not end; and where an append is cut off it
  asks for an array longer than the size, because the source then writes one character after it.
- The hexadecimal dump that is commented out in the formatter, and the static allocation in the SystemVerilog wrapper.
- File reading, regular expressions, the printed table and the floating-point averages of the Python models.
- The bus generator, the SystemVerilog sources, generated simulator files, plots and log translation: they hold no logic of
  this kind or are not part of this model.
