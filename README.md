# MOS 6502 instruction semantics, modelled in Dafny

This project models the instruction-semantics lifter of the panopticon
disassembler for the MOS 6502 (`mos6502/src/semantic.rs`). Each routine of
that file turns one decoded 6502 instruction into a short, fixed list of
RREIL statements. Those statements are bit-precise updates of A, X, Y, S,
the flags C, Z, I, D, B, V and N, a few scratch temporaries and the `ram`
address space. Three routines (`jmp_direct`, `jmp_indirect`, `jsr`) also
record instruction records ("mnemonics") and jump edges on the decoder's
`State`.

The project has these parts:

- `core.dfy` (module `Core`) holds the RREIL vocabulary the file uses:
  names, rvalues, lvalues, statements, guards, mnemonics and jumps. It also
  holds the decoder `State` as a class with two logs that only grow.
- `semantic.dfy` (module `Semantic`) has one function per routine of
  `semantic.rs`, returning the statement list the routine emits. The three
  control-flow routines are methods that append to the `State` logs.
- `evaluator.dfy` (module `Evaluator`) is a reference semantics for the
  statements.
  - `Exec` runs a statement list on a `Machine`: the registers, the flags,
    the temporaries, `ram`, and the value `?` reads as.
  - `Run` is the same evaluator as a loop, proved equal to `Exec`.
- `bits.dfy` and `steps.dfy` hold bit arithmetic, and the effect of single
  statements.
- The property modules state what each routine's statements do to the
  machine:
  - `SimpleProps`, `LogicProps`, `ShiftProps`, `TransferProps`,
    `ArithProps`;
  - `StackProps` (pushes and pulls, flag packing and unpacking);
  - `FlowProps` (the operand word, the fetch, the call).
- `Findings`, `CarryFindings` and `StatusFindings` hold the places where the statements differ
  from what the instruction evidently means. Each has a concrete input
  showing the difference and a corrected statement list with the intended
  property proved.

The model follows the code as written, including where it differs from a
real 6502:

- `lsr` uses `shl`.
- `rol` fills bit 7 from C.
- `bit` takes V from bit 7 of `A & r`.
- Pushes and pulls both increment S.
- `php` packs `?` into bit 5.
- Some routines use `cmples` and others `cmplts` for N.

## Model

| member | source | states |
|---|---|---|
| Core.LvalueRoundTrip | mos6502/src/semantic.rs:420 | `Lvalue::from_rvalue` gives back every lvalue read as an operand, a whole variable or `?`, so `rol`/`ror` on such an operand does not fail |
| Steps.ExtractBit | mos6502/src/semantic.rs:422 | `extract(1, j)` on a location wider than `j` exists and reads bit `j` of it |
| Semantic.JmpDirect | mos6502/src/semantic.rs:614-628 | appends exactly one `jmp` record (length 3, format `{c:ram}`, operand the 16-bit constant `immlo \| immhi << 8`, no statements) and exactly one unconditional edge to that same constant; returns true |
| Semantic.JmpIndirect | mos6502/src/semantic.rs:630-659 | appends a zero-length `__fetch` record whose statements load 16 bits from the indirect address into `res`, then a `jmp` record showing the indirect address; the one unconditional edge targets `res:16`, the fetched value, not a constant |
| Semantic.Jsr | mos6502/src/semantic.rs:661-679 | appends one `jsr` record whose statement calls the target constant, and one unconditional edge to the fall-through `address + 3`, not to the target; requires that the 16-bit addition does not overflow |
| FlowProps.ImmWordValue | mos6502/src/semantic.rs:615 | the operand word is little-endian, `lo + 256 * hi`, and `lo` and `hi` are recovered from it |
| FlowProps.FetchEffect | mos6502/src/semantic.rs:638-642 | the fetch leaves in `res` the word at the indirect address, low byte first, and changes nothing else |
| FlowProps.JsrStmtsEffect | mos6502/src/semantic.rs:670-674 | the `call` statement `jsr` carries changes no tracked state |
| SimpleProps.EmptyRoutines | mos6502/src/semantic.rs:23-29 | `nop` and `nop_r` (and `brk`) emit no statement and change nothing |
| SimpleProps.FlagInstructions | mos6502/src/semantic.rs:202-242 | each of `clc`, `sec`, `cli`, `sei`, `cld`, `sed`, `clv` writes its constant into exactly one flag and changes nothing else |
| SimpleProps.StoreEffect | mos6502/src/semantic.rs:564-580 | `sta`, `stx`, `sty` emit exactly one `store/ram` and change only memory, writing the operand at the address the register holds |
| LogicProps.AndEffect | mos6502/src/semantic.rs:158-164 | `and` sets A to `A AND r` (a byte), Z when it is zero and N when it is zero or negative (`cmples`); nothing else changes |
| LogicProps.OraEffect | mos6502/src/semantic.rs:341-347 | `ora` sets A to the low byte of `r OR A`, Z when zero, N when negative (`cmplts`); nothing else changes |
| LogicProps.EorEffect | mos6502/src/semantic.rs:284-290 | `eor` sets A to the low byte of `r XOR A`, Z when zero, N when negative; nothing else changes |
| LogicProps.BitEffect | mos6502/src/semantic.rs:175-182 | `bit` leaves A and the architectural state alone except Z, N and V, which come from `res = A AND r`, V being bit 7 of `res` |
| LogicProps.BitFlagsEffect | mos6502/src/semantic.rs:178-180 | the three flag statements of `bit` set Z, N and V from the byte in `res` |
| LogicProps.BitOverflowFlag | mos6502/src/semantic.rs:175-182 | `bit` sets V exactly when bit 7 of A and bit 7 of the operand are both set |
| ShiftProps.AslEffect | mos6502/src/semantic.rs:166-173 | `asl` ignores its operand: bit 7 of A into C, A doubled modulo 256, Z and N from the new A; nothing else changes |
| ShiftProps.LsrEffect | mos6502/src/semantic.rs:332-339 | `lsr` puts bit 0 of A in C, shifts A left modulo 256 by the operand as it reads once C is written, sets Z from the new A and clears N; any operand |
| ShiftProps.LsrShiftSteps | mos6502/src/semantic.rs:334-335 | the first two statements of `lsr`: C from bit 0, then the left shift by the operand read after that write |
| ShiftProps.LsrFlagSteps | mos6502/src/semantic.rs:336-337 | the last two statements of `lsr`: Z from A, N cleared |
| ShiftProps.RolEffect | mos6502/src/semantic.rs:419-429 | `rol` on a byte register: old bit 7 to C, bits 0-5 up one, old bit 6 lost under old C in bit 7, bit 0 cleared; Z and N (`cmples`) from the result; nothing else architectural changes |
| ShiftProps.RorEffect | mos6502/src/semantic.rs:431-441 | `ror` on a byte register: old bit 0 to C, the other bits down one, old C into bit 7; Z and N from the result |
| ShiftProps.RolHead | mos6502/src/semantic.rs:422-424 | save bit 7 in `hb`, shift left, select C into bit 7 |
| ShiftProps.RorHead | mos6502/src/semantic.rs:434-436 | save bit 0 in `lb`, shift right, select C into bit 7 |
| ShiftProps.RotateTailEffect | mos6502/src/semantic.rs:425-427 | the saved bit becomes C, and Z and N follow the rotated register |
| TransferProps.CmpEffect | mos6502/src/semantic.rs:244-250 | `cmp r1, r2` sets C when `r1 < r2` unsigned, copies C into N, sets Z on equality, and writes nothing else |
| TransferProps.CompareRegisterEffect | mos6502/src/semantic.rs:252-262 | `cpx`, `cpy`, `cpa` compare X, Y and A with the operand, with the flags of `cmp` |
| TransferProps.CpxEffect | mos6502/src/semantic.rs:252-254 | `cpx`: C and N when X is below the operand, Z when equal |
| TransferProps.CpyEffect | mos6502/src/semantic.rs:256-258 | `cpy`: C and N when Y is below the operand, Z when equal |
| TransferProps.CpaEffect | mos6502/src/semantic.rs:260-262 | `cpa`: C and N when A is below the operand, Z when equal |
| TransferProps.IncEffect | mos6502/src/semantic.rs:292-298 | `inc` into a byte register: operand + 1 modulo 256, Z and N from the new register |
| TransferProps.IncIndexEffect | mos6502/src/semantic.rs:304-310 | `inx`, `iny` step X, Y up by one, wrapping 0xFF to 0, with Z and N from the new value |
| TransferProps.InaEffect | mos6502/src/semantic.rs:300-302 | `ina r` sets A to the operand plus one modulo 256 (not A plus one), Z and N from it; nothing else changes |
| TransferProps.InxEffect | mos6502/src/semantic.rs:304-306 | `inx`: X becomes X + 1 modulo 256, Z and N from the new X, nothing else changes |
| TransferProps.InyEffect | mos6502/src/semantic.rs:308-310 | `iny`: Y becomes Y + 1 modulo 256, Z and N from the new Y, nothing else changes |
| TransferProps.DecEffect | mos6502/src/semantic.rs:264-270 | `dec` into a byte register: operand - 1 modulo 256, Z from the register, N from the operand read after the write |
| TransferProps.DecFlagsEffect | mos6502/src/semantic.rs:267-268 | Z from the register, N from the operand (`cmplts`) |
| TransferProps.DecIndexEffect | mos6502/src/semantic.rs:276-282 | `dex`, `dey` step X, Y down by one, wrapping 0 to 0xFF, with N from the new value since the operand is the register |
| TransferProps.DexEffect | mos6502/src/semantic.rs:276-278 | `dex`: X becomes X - 1 modulo 256 (0 to 0xFF), Z and N from the new X |
| TransferProps.DeyEffect | mos6502/src/semantic.rs:280-282 | `dey`: Y becomes Y - 1 modulo 256 (0 to 0xFF), Z and N from the new Y |
| TransferProps.DeaOperandSign | mos6502/src/semantic.rs:272-274 | `dea` on an operand other than A takes N from the operand's old value, not from the new A |
| TransferProps.LdEffect | mos6502/src/semantic.rs:312-318 | `ld` into a byte register: the operand's low byte, Z and N from it |
| TransferProps.LoadRegisterEffect | mos6502/src/semantic.rs:320-330 | `lda`, `ldx`, `ldy` load A, X, Y with Z and N from the loaded byte |
| TransferProps.TrrEffect | mos6502/src/semantic.rs:582-588 | `trr` copies a byte register into another and sets Z and N from the copy |
| TransferProps.TransferEffect | mos6502/src/semantic.rs:590-612 | the six transfers, each with Z and N from the copied value, `txs` included |
| TransferProps.ZeroNegativeEffect | mos6502/src/semantic.rs:585-586 | `cmpeq Z` and `cmplts N` on a byte register set Z on zero and N on bit 7 |
| ArithProps.SumEffect | mos6502/src/semantic.rs:33-35 | the first three statements leave `res` = A + r + C (`adc`) or A - r + C (`sbc`) modulo 256 |
| ArithProps.AdcEffect | mos6502/src/semantic.rs:31-52 | `adc`: A = A + r + C mod 256; Z on zero; N on zero or negative; C and V both set exactly when the result equals the old A and C was set; nothing else architectural changes |
| ArithProps.SbcEffect | mos6502/src/semantic.rs:450-471 | `sbc`: A = A - r + C mod 256 with the same flags as `adc` |
| ArithProps.AdcFlagsMeaning | mos6502/src/semantic.rs:31-52 | after `adc`, C is set iff C was set and the operand is 0xFF modulo 256; V equals C; Z and N describe the new A |
| ArithProps.SbcFlagsMeaning | mos6502/src/semantic.rs:450-471 | after `sbc`, C is set iff C was set and the operand is 1 modulo 256; V equals C; Z and N describe the new A |
| ArithProps.FlagsEffect | mos6502/src/semantic.rs:37-51 | the flag statements common to both routines, from `res`, give the flags above and move `res` into A |
| ArithProps.ArithFrame | mos6502/src/semantic.rs:31-52 | neither `adc` nor `sbc` writes X, Y, S, I, D, B or memory |
| StackProps.StackAddressEffect | mos6502/src/semantic.rs:351-352 | `sp = 0x100 + S`, always within page one |
| StackProps.NextSlotEffect | mos6502/src/semantic.rs:356 | `sp + 1` in nine bits, so 0x1FF + 1 wraps to 0 |
| StackProps.PhaEffect | mos6502/src/semantic.rs:349-359 | `pha` stores A at `0x100 + S` and leaves S one higher modulo 256; nothing else architectural changes |
| StackProps.PhpEffect | mos6502/src/semantic.rs:361-379 | `php` stores the packed status byte at `0x100 + S` and leaves S one higher |
| StackProps.PushStaysInPageOne | mos6502/src/semantic.rs:349-379 | a push changes exactly one `ram` cell, in page one; every other address keeps its byte |
| StackProps.PackFlagsEffect | mos6502/src/semantic.rs:366-373 | the eight packing statements leave the status byte in `flags` and change nothing else |
| StackProps.PackedBits | mos6502/src/semantic.rs:366-373 | bit by bit the packed byte is C, Z, I, D, B, bit 0 of `?`, V, N |
| StackProps.PlaEffect | mos6502/src/semantic.rs:381-394 | `pla` loads A from `(0x100 + S + 1)` in nine bits, leaves S one higher modulo 256, Z and N from the loaded byte |
| StackProps.PlpEffect | mos6502/src/semantic.rs:396-416 | `plp` unpacks the pulled byte into C, Z, I, D, V, N (B untouched), leaves S one higher, then overwrites Z and N from A |
| StackProps.UnpackEffect | mos6502/src/semantic.rs:404-409 | the six moves set C, Z, I, D, V, N from bits 0, 1, 2, 3, 6, 7 of `flags`, and B and the rest stay |
| StackProps.PackUnpack | mos6502/src/semantic.rs:366-409 | packing then unpacking restores every flag; the only lasting change is the `flags` temporary |
| StackProps.UnpackPacked | mos6502/src/semantic.rs:404-409 | unpacking the packed byte changes nothing |
| StackProps.PushPullSlots | mos6502/src/semantic.rs:349-416 | a pull reads one slot above the slot the push with the same S wrote, and S = 0xFF reads address 0 |
| Findings.LsrShiftsLeft | mos6502/src/semantic.rs:332-339 | as written, `lsr #1` on A = 2 gives A = 4 |
| Findings.LsrCorrectedEffect | mos6502/src/semantic.rs:332-339 | the corrected `lsr` halves A and puts bit 0 in C, so `2 * A' + C' = A` |
| Findings.RolFillsBit7 | mos6502/src/semantic.rs:419-429 | as written, `rol` on 1 with C set gives 0x82 |
| Findings.RolCorrectedEffect | mos6502/src/semantic.rs:419-429 | the corrected `rol`: `2 * A + C = A' + 256 * C'` |
| Findings.PhaPlaLosesA | mos6502/src/semantic.rs:349-394 | as written, `pha; pla` with S = 0 does not restore A when the byte at 0x102 differs |
| Findings.PhaThenPla | mos6502/src/semantic.rs:349-394 | as written, `pha; pla` with S below 0xFE reads the byte two slots up and leaves S two higher |
| Findings.PhaPlaCorrected | mos6502/src/semantic.rs:349-394 | with the corrected pair, `pha; pla` restores A and S; only the stack slot and Z, N change |
| StatusFindings.PhpThenPlp | mos6502/src/semantic.rs:361-416 | as written, `php; plp` with S below 0xFE takes C, I, D, V from the byte two slots above the one written, Z and N from A, and leaves S two higher |
| StatusFindings.PhpPlpLosesC | mos6502/src/semantic.rs:361-416 | as written, `php; plp` with S = 0, C set and byte 0 at 0x102 clears C |
| StatusFindings.PhpCorrectedEffect | mos6502/src/semantic.rs:361-379 | the corrected `php` stores the packed status byte at `0x100 + S` and leaves S one lower modulo 256, flags untouched |
| StatusFindings.PlpCorrectedEffect | mos6502/src/semantic.rs:396-416 | the corrected `plp` moves S up one modulo 256 and unpacks C, Z, I, D, V and N from the byte at `0x100 + S` |
| StatusFindings.PhpPlpCorrected | mos6502/src/semantic.rs:361-416 | with the corrected pair, `php; plp` gives back every flag, A, X, Y and S; only the stack slot changes |
| Findings.BitMissesBit6 | mos6502/src/semantic.rs:175-182 | as written, `bit` with A = 0 and operand 0x40 leaves V clear and sets N |
| Findings.BitCorrectedEffect | mos6502/src/semantic.rs:175-182 | the corrected `bit`: Z from `A AND r`, N and V from bits 7 and 6 of the operand, nothing else changes |
| Findings.StaWritesAtA | mos6502/src/semantic.rs:564-572 | as written, `sta` with A = 0x10 and a 16-bit operand 0x2000 writes at 0x10 and 0x11, not at 0x2000 |
| Findings.StCorrectedEffect | mos6502/src/semantic.rs:564-580 | the corrected store writes the register at the operand address, and reading it back gives the register |
| Findings.CmpCarryInverted | mos6502/src/semantic.rs:244-262 | as written, `cpa #3` with A = 5 clears C and N |
| Findings.CmpCorrectedMeaning | mos6502/src/semantic.rs:244-250 | the corrected `cmp` on bytes: `r1 - r2 = res - 256 * (1 - C)`, so C is set iff `r1 >= r2`; N is bit 7 of the difference; Z on equality |
| CarryFindings.AdcDropsCarry | mos6502/src/semantic.rs:31-52 | as written, `adc` with A = 0xFF, operand 1, C clear gives A = 0 and C clear |
| CarryFindings.AdcMissesOverflow | mos6502/src/semantic.rs:31-52 | as written, `adc` with A = 0x50, operand 0x50, C clear gives A = 0xA0 with V clear |
| CarryFindings.SbcOneTooMany | mos6502/src/semantic.rs:450-471 | as written, `sbc` with A = 5, operand 3, C set gives A = 3 and clears C |
| CarryFindings.AdcCorrectedMeaning | mos6502/src/semantic.rs:31-52 | the corrected `adc`: `A + r + C = A' + 256 * C'`, V iff the signed sum leaves -128..127, Z and N from A' |
| CarryFindings.SbcCorrectedMeaning | mos6502/src/semantic.rs:450-471 | the corrected `sbc`: `A' = A - r - (1 - C)` mod 256, C iff no borrow, V iff signed overflow of the difference, Z and N from A' |
| CarryFindings.AdcCorrectedOverflowSample | mos6502/src/semantic.rs:31-52 | the corrected `adc` on 0x50 + 0x50 gives A = 0xA0 with V and N set, C and Z clear |

## Left out

- Decimal mode: `adc` and `sbc` have only their binary-mode statements. The decimal-mode code is commented out in the source (lines 53-155 and 472-561).
- The commented-out `brk` push sequence and `rts`: they emit nothing.
- The RREIL macros: the statement lists are written out directly. How the macro builds and checks them is not part of this model.
- Panopticon's `State` and `Variant` internals: `State` is a class holding the two logs the routines append to.
- The errors `mnemonic` and `jump` can return (unwrapped in the source) are not part of this model: recording an instruction or an edge always succeeds.
- `unwrap` panics: these become preconditions. The `rol`/`ror` operand must be a whole variable wide enough for the bit extraction (`Semantic.RolOperand`). `get_group` needs the field to exist.
- Semantic.Jsr requires that `st.address as u16 + 3` (line 662) does not overflow (`Semantic.JsrAddressFits`). In the source that addition panics in a debug build and wraps to a low address in a release build; the wrapped edge target is not modelled.
- The statics `A`, `X`, `Y` and `SP` that `tax` … `tya` pass to `trr` (lines 590-612) come from the disassembler crate (`use disassembler::*`, line 19), which is not part of this model. The model takes them to be the 8-bit variables `A:8`, `X:8`, `Y:8` and `S:8` that the other routines name, so the `tsx` and `txs` clauses of TransferProps.TransferEffect rest on `SP` being `S:8`.
- The value of `?`: it reads as an oracle field of the machine. No property constrains it, so bit 5 of the packed status byte is left open.
- The effect of `call`: it changes no tracked state in the evaluator. The callee is not modelled.
- Concurrency, and the decode loop that calls these routines.
- ArithProps.AdcEffect, ArithProps.SbcEffect, ArithProps.SumEffect, ArithProps.AdcFlagsMeaning, ArithProps.SbcFlagsMeaning and ArithProps.ArithFrame require that the operand does not read the `carry` temporary. The source has no such condition, but the only operands the decoder passes are registers, memory-derived values and constants, never that temporary.
- TransferProps.CmpEffect, TransferProps.CompareRegisterEffect, TransferProps.CpxEffect, TransferProps.CpyEffect and TransferProps.CpaEffect require that the operands do not read C or N. These are the flags `cmp` writes; the decoder never passes them.
- TransferProps.DecEffect, TransferProps.DecFlagsEffect and TransferProps.DeaOperandSign cover byte-sized operands that do not read Z only. TransferProps.DeaOperandSign also requires an operand that does not read A; for `dea` on A itself, TransferProps.DecEffect gives N from the new A.
- ShiftProps.RolEffect, ShiftProps.RorEffect, ShiftProps.RolHead, ShiftProps.RorHead and ShiftProps.RotateTailEffect cover byte registers only. TransferProps.IncEffect, TransferProps.LdEffect and TransferProps.TrrEffect likewise cover byte-register destinations only.
- Semantic.JmpDirect, Semantic.JmpIndirect and Semantic.Jsr state their new logs with `old`. They are proved like the rest but only in terms of the state before and after the call.

## Findings

Where the code differs from the documented behaviour of this lifter, the
model follows the code. That covers the V of `bit`, the direction of `lsr`,
the `php`/`plp` round trip and the store operand order. The table lists
each difference together with the correction proved for it.

| source | as written | input that shows it | evidently intended | confidence | as-written member | corrected member |
|---|---|---|---|---|---|---|
| mos6502/src/semantic.rs:332-339 | `lsr` shifts A left by the operand | A = 2, operand 1: A becomes 4 | shift right by one, bit 0 into C | high; not executed | Findings.LsrShiftsLeft | Findings.LsrCorrectedEffect |
| mos6502/src/semantic.rs:419-429 | `rol` selects old C into bit 7 after the left shift | register 1, C set: result 0x82 | old C into bit 0: result 3 | high; not executed | Findings.RolFillsBit7 | Findings.RolCorrectedEffect |
| mos6502/src/semantic.rs:349-394 | both push and pull increment S, so a pull reads two slots above the byte the push wrote | `pha; pla` with S = 0, A = 1, byte 0 at 0x102: A becomes 0 | push decrements S after storing, pull increments before loading | high; not executed | Findings.PhaPlaLosesA | Findings.PhaPlaCorrected |
| mos6502/src/semantic.rs:31-52 | C is set only when the result equals the old A and C was set | A = 0xFF, operand 1, C clear: A = 0, C clear | C is the carry out of the 9-bit sum | high; not executed | CarryFindings.AdcDropsCarry | CarryFindings.AdcCorrectedMeaning |
| mos6502/src/semantic.rs:31-52 | V is the same bit as C | A = 0x50, operand 0x50, C clear: A = 0xA0, V clear | V is signed overflow | high; not executed | CarryFindings.AdcMissesOverflow | CarryFindings.AdcCorrectedMeaning |
| mos6502/src/semantic.rs:450-471 | `sbc` computes A - r + C | A = 5, operand 3, C set: A = 3, C clear | A - r - (1 - C), C set when no borrow | high; not executed | CarryFindings.SbcOneTooMany | CarryFindings.SbcCorrectedMeaning |
| mos6502/src/semantic.rs:361-416 | `php` and `plp` both increment S, so `plp` reads two slots above the byte `php` wrote, and `plp` then overwrites Z and N from A | `php; plp` with S = 0, C set, byte 0 at 0x102: C becomes clear | push decrements S after storing, pull increments before loading, all six flags from the byte | high; not executed | StatusFindings.PhpPlpLosesC | StatusFindings.PhpPlpCorrected |
| mos6502/src/semantic.rs:175-182 | `bit` takes N and V from `A & r`, V from bit 7 | A = 0, operand 0x40: V clear, N set | N and V are bits 7 and 6 of the operand | high; not executed | Findings.BitMissesBit6 | Findings.BitCorrectedEffect |
| mos6502/src/semantic.rs:564-580 | the store uses the register as the address and the operand as the value | A = 0x10, 16-bit operand 0x2000: bytes written at 0x10 and 0x11 | the register's byte written at the operand address | medium; not executed | Findings.StaWritesAtA | Findings.StCorrectedEffect |
| mos6502/src/semantic.rs:244-262 | C is set when r1 < r2 and N copies C | `cpa #3` with A = 5: C and N clear | C set when r1 >= r2, N is bit 7 of r1 - r2 | medium; not executed | Findings.CmpCarryInverted | Findings.CmpCorrectedMeaning |
