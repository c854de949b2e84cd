/** The MOS 6502 instruction semantics: one routine per instruction, each
    returning the fixed statement list the lifter emits for it, and the three
    control-flow routines that record instructions and edges on the decoder
    state. Statement lists are written in the order and with the operands of
    `mos6502/src/semantic.rs`; longer lists are assembled from the groups the
    source separates by blank lines, so that each group can be reasoned about
    on its own. */
module Semantic {
  import opened Core
  import opened Bits

  /** The stack pointer register `SP`, an alias of `S:8`. */
  function SP(): Lvalue { LVariable(S, 8) }

  function Res8(): Rvalue { Reg(Temp(Res), 8) }

  // ---------------------------------------------------------------------
  // Instructions without effect

  function Nop(): seq<Stmt> { [] }

  function NopR(r: Rvalue): seq<Stmt> { [] }

  /** `brk` deliberately emits nothing: the interrupt sequence is not simulated. */
  function Brk(): seq<Stmt> { [] }

  // ---------------------------------------------------------------------
  // Addition and subtraction with carry (binary mode only)

  /** `res := A op r + C`, with the carry widened to 8 bits first. */
  function SumWithCarry(op: BinOp, r: Rvalue): seq<Stmt>
  {
    [ ZExt(8, LVariable(Temp(Carry), 8), Reg(C, 1)),
      Binary(op, LVariable(Temp(Res), 8), Reg(A, 8), r),
      Binary(AddOp, LVariable(Temp(Res), 8), Res8(), Reg(Temp(Carry), 8)) ]
  }

  function ZeroOfRes(): seq<Stmt>
  {
    [ Compare(Eq, LVariable(Z, 1), Imm(0, 8), Res8()) ]
  }

  function CarryOfRes(): seq<Stmt>
  {
    [ Compare(LeU, LVariable(Temp(C1), 1), Res8(), Reg(A, 8)),
      Compare(Eq, LVariable(Temp(C2), 1), Res8(), Reg(A, 8)),
      Binary(AndOp, LVariable(Temp(C2), 1), Reg(Temp(C2), 1), Reg(C, 1)),
      Binary(AndOp, LVariable(C, 1), Reg(Temp(C1), 1), Reg(Temp(C2), 1)) ]
  }

  function NegativeOfRes(): seq<Stmt>
  {
    [ Compare(LeS, LVariable(N, 1), Res8(), Imm(0, 8)) ]
  }

  function OverflowOfRes(): seq<Stmt>
  {
    [ Compare(LeS, LVariable(Temp(V1), 1), Res8(), Reg(A, 8)),
      Compare(Eq, LVariable(Temp(V2), 1), Res8(), Reg(A, 8)),
      Binary(AndOp, LVariable(Temp(V2), 1), Reg(Temp(V2), 1), Reg(C, 1)),
      Binary(AndOp, LVariable(V, 1), Reg(Temp(V1), 1), Reg(Temp(V2), 1)) ]
  }

  function ResToA(): seq<Stmt>
  {
    [ Mov(LVariable(A, 8), Res8()) ]
  }

  /** The flag updates and the final move shared by `adc` and `sbc`. */
  function FlagsOfRes(): seq<Stmt>
  {
    ZeroOfRes() + CarryOfRes() + NegativeOfRes() + OverflowOfRes() + ResToA()
  }

  function Adc(r: Rvalue): seq<Stmt>
  {
    SumWithCarry(AddOp, r) + FlagsOfRes()
  }

  function Sbc(r: Rvalue): seq<Stmt>
  {
    SumWithCarry(SubOp, r) + FlagsOfRes()
  }

  // ---------------------------------------------------------------------
  // Logic

  function And(r: Rvalue): seq<Stmt>
  {
    [ Binary(AndOp, LVariable(A, 8), Reg(A, 8), r),
      Compare(Eq, LVariable(Z, 1), Reg(A, 8), Imm(0, 8)),
      Compare(LeS, LVariable(N, 1), Reg(A, 8), Imm(0, 8)) ]
  }

  function Eor(r: Rvalue): seq<Stmt>
  {
    [ Binary(XorOp, LVariable(A, 8), r, Reg(A, 8)),
      Compare(Eq, LVariable(Z, 1), Reg(A, 8), Imm(0, 8)),
      Compare(LtS, LVariable(N, 1), Reg(A, 8), Imm(0, 8)) ]
  }

  function Ora(r: Rvalue): seq<Stmt>
  {
    [ Binary(OrOp, LVariable(A, 8), r, Reg(A, 8)),
      Compare(Eq, LVariable(Z, 1), Reg(A, 8), Imm(0, 8)),
      Compare(LtS, LVariable(N, 1), Reg(A, 8), Imm(0, 8)) ]
  }

  function Bit(r: Rvalue): seq<Stmt>
  {
    [ Binary(AndOp, LVariable(Temp(Res), 8), Reg(A, 8), r),
      Compare(Eq, LVariable(Z, 1), Res8(), Imm(0, 8)),
      Compare(LeS, LVariable(N, 1), Res8(), Imm(0, 8)),
      Mov(LVariable(V, 1), BitOf(Temp(Res), 7)) ]
  }

  // ---------------------------------------------------------------------
  // Shifts and rotates

  /** `asl` always shifts the accumulator; its operand is ignored. */
  function Asl(r: Rvalue): seq<Stmt>
  {
    [ Mov(LVariable(C, 1), BitOf(A, 7)),
      Binary(ShlOp, LVariable(A, 8), Reg(A, 8), Imm(1, 8)),
      Compare(Eq, LVariable(Z, 1), Reg(A, 8), Imm(0, 8)),
      Compare(LeS, LVariable(N, 1), Reg(A, 8), Imm(0, 8)) ]
  }

  function Lsr(r: Rvalue): seq<Stmt>
  {
    [ Mov(LVariable(C, 1), Reg(A, 1)),
      Binary(ShlOp, LVariable(A, 8), Reg(A, 8), r),
      Compare(Eq, LVariable(Z, 1), Reg(A, 8), Imm(0, 8)),
      Mov(LVariable(N, 1), Imm(0, 1)) ]
  }

  /** What the source's two `unwrap`s in `rol` demand: the operand names a
      whole location, and that location has a bit 7. */
  predicate RolOperand(r: Rvalue)
  {
    r.Variable? && r.offset == 0 && 8 <= r.size
  }

  /** The same for `ror`, which extracts bit 0. */
  predicate RorOperand(r: Rvalue)
  {
    r.Variable? && r.offset == 0 && 1 <= r.size
  }

  function Rol(r: Rvalue): seq<Stmt>
    requires RolOperand(r)
  {
    var l := FromRvalue(r).value;
    [ Mov(LVariable(Temp(Hb), 1), Extract(l, 1, 7).value),
      Binary(ShlOp, l, r, Imm(1, 8)),
      Sel(7, l, Reg(C, 1)),
      Mov(LVariable(C, 1), Reg(Temp(Hb), 1)),
      Compare(Eq, LVariable(Z, 1), r, Imm(0, 8)),
      Compare(LeS, LVariable(N, 1), r, Imm(0, 8)) ]
  }

  function Ror(r: Rvalue): seq<Stmt>
    requires RorOperand(r)
  {
    var l := FromRvalue(r).value;
    [ Mov(LVariable(Temp(Lb), 1), Extract(l, 1, 0).value),
      Binary(ShrOp, l, r, Imm(1, 8)),
      Sel(7, l, Reg(C, 1)),
      Mov(LVariable(C, 1), Reg(Temp(Lb), 1)),
      Compare(Eq, LVariable(Z, 1), r, Imm(0, 8)),
      Compare(LeS, LVariable(N, 1), r, Imm(0, 8)) ]
  }

  // ---------------------------------------------------------------------
  // Flag instructions

  /** Writes the constant `k` to the one-bit flag `f`. */
  function SetFlag(f: Name, k: nat): seq<Stmt>
  {
    [ Mov(LVariable(f, 1), Imm(k, 1)) ]
  }

  function Clc(): seq<Stmt> { SetFlag(C, 0) }
  function Cli(): seq<Stmt> { SetFlag(I, 0) }
  function Cld(): seq<Stmt> { SetFlag(D, 0) }
  function Clv(): seq<Stmt> { SetFlag(V, 0) }
  function Sec(): seq<Stmt> { SetFlag(C, 1) }
  function Sei(): seq<Stmt> { SetFlag(I, 1) }
  function Sed(): seq<Stmt> { SetFlag(D, 1) }

  // ---------------------------------------------------------------------
  // Compare, decrement, increment, load, store, transfer

  function Cmp(r1: Rvalue, r2: Rvalue): seq<Stmt>
  {
    [ Compare(LtU, LVariable(C, 1), r1, r2),
      Mov(LVariable(N, 1), Reg(C, 1)),
      Compare(Eq, LVariable(Z, 1), r1, r2) ]
  }

  function Cpx(r: Rvalue): seq<Stmt> { Cmp(Reg(X, 8), r) }
  function Cpy(r: Rvalue): seq<Stmt> { Cmp(Reg(Y, 8), r) }
  function Cpa(r: Rvalue): seq<Stmt> { Cmp(Reg(A, 8), r) }

  function Dec(l: Lvalue, r: Rvalue): seq<Stmt>
  {
    [ Binary(SubOp, l, r, Imm(1, 8)),
      Compare(Eq, LVariable(Z, 1), ToRvalue(l), Imm(0, 8)),
      Compare(LtS, LVariable(N, 1), r, Imm(0, 8)) ]
  }

  function Dea(r: Rvalue): seq<Stmt> { Dec(LVariable(A, 8), r) }
  function Dex(): seq<Stmt> { Dec(LVariable(X, 8), Reg(X, 8)) }
  function Dey(): seq<Stmt> { Dec(LVariable(Y, 8), Reg(Y, 8)) }

  function Inc(l: Lvalue, r: Rvalue): seq<Stmt>
  {
    [ Binary(AddOp, l, r, Imm(1, 8)),
      Compare(Eq, LVariable(Z, 1), ToRvalue(l), Imm(0, 8)),
      Compare(LtS, LVariable(N, 1), ToRvalue(l), Imm(0, 8)) ]
  }

  function Ina(r: Rvalue): seq<Stmt> { Inc(LVariable(A, 8), r) }
  function Inx(): seq<Stmt> { Inc(LVariable(X, 8), Reg(X, 8)) }
  function Iny(): seq<Stmt> { Inc(LVariable(Y, 8), Reg(Y, 8)) }

  function Ld(l: Lvalue, r: Rvalue): seq<Stmt>
  {
    [ Mov(l, r),
      Compare(Eq, LVariable(Z, 1), ToRvalue(l), Imm(0, 8)),
      Compare(LtS, LVariable(N, 1), ToRvalue(l), Imm(0, 8)) ]
  }

  function Lda(r: Rvalue): seq<Stmt> { Ld(LVariable(A, 8), r) }
  function Ldx(r: Rvalue): seq<Stmt> { Ld(LVariable(X, 8), r) }
  function Ldy(r: Rvalue): seq<Stmt> { Ld(LVariable(Y, 8), r) }

  /** `store/ram (reg), (ptr)`: the register is the address operand and
      `ptr` the value stored. */
  function St(reg: Lvalue, ptr: Rvalue): seq<Stmt>
  {
    [ Store(ToRvalue(reg), ptr) ]
  }

  function Sta(r: Rvalue): seq<Stmt> { St(LVariable(A, 8), r) }
  function Stx(r: Rvalue): seq<Stmt> { St(LVariable(X, 8), r) }
  function Sty(r: Rvalue): seq<Stmt> { St(LVariable(Y, 8), r) }

  function Trr(src: Lvalue, dst: Lvalue): seq<Stmt>
  {
    [ Mov(dst, ToRvalue(src)),
      Compare(Eq, LVariable(Z, 1), ToRvalue(dst), Imm(0, 8)),
      Compare(LtS, LVariable(N, 1), ToRvalue(dst), Imm(0, 8)) ]
  }

  function Tax(): seq<Stmt> { Trr(LVariable(A, 8), LVariable(X, 8)) }
  function Tay(): seq<Stmt> { Trr(LVariable(A, 8), LVariable(Y, 8)) }
  function Tsx(): seq<Stmt> { Trr(SP(), LVariable(X, 8)) }
  function Txa(): seq<Stmt> { Trr(LVariable(X, 8), LVariable(A, 8)) }
  function Txs(): seq<Stmt> { Trr(LVariable(X, 8), SP()) }
  function Tya(): seq<Stmt> { Trr(LVariable(Y, 8), LVariable(A, 8)) }

  // ---------------------------------------------------------------------
  // Stack

  function Sp9(): Rvalue { Reg(Temp(Sp), 9) }

  /** `sp := 0x100 + S` in 9 bits: the address of the stack slot S points at. */
  function StackAddress(): seq<Stmt>
  {
    [ ZExt(9, LVariable(Temp(Sp), 9), Reg(S, 8)),
      Binary(AddOp, LVariable(Temp(Sp), 9), Sp9(), Imm(0x100, 9)) ]
  }

  /** `sp := sp + 1` in 9 bits. */
  function NextSlot(): seq<Stmt>
  {
    [ Binary(AddOp, LVariable(Temp(Sp), 9), Sp9(), Imm(1, 9)) ]
  }

  /** `S := sp:8`, the low byte of the slot address. */
  function SpToS(): seq<Stmt>
  {
    [ Mov(SP(), Reg(Temp(Sp), 8)) ]
  }

  function Pha(): seq<Stmt>
  {
    StackAddress() + [ Store(Sp9(), Reg(A, 8)) ] + NextSlot() + SpToS()
  }

  /** The processor status byte: C, Z, I, D, B in bits 0 to 4, `?` in bit 5,
      V and N in bits 6 and 7. */
  function PackFlags(): seq<Stmt>
  {
    [ ZExt(8, LVariable(Temp(Flags), 8), Reg(C, 1)),
      Sel(1, LVariable(Temp(Flags), 8), Reg(Z, 1)),
      Sel(2, LVariable(Temp(Flags), 8), Reg(I, 1)),
      Sel(3, LVariable(Temp(Flags), 8), Reg(D, 1)),
      Sel(4, LVariable(Temp(Flags), 8), Reg(B, 1)),
      Sel(5, LVariable(Temp(Flags), 8), Undefined),
      Sel(6, LVariable(Temp(Flags), 8), Reg(V, 1)),
      Sel(7, LVariable(Temp(Flags), 8), Reg(N, 1)) ]
  }

  function Php(): seq<Stmt>
  {
    StackAddress() + PackFlags() + [ Store(Sp9(), Reg(Temp(Flags), 8)) ] + NextSlot() + SpToS()
  }

  /** Z and N from the accumulator, with N the sign bit. */
  function ZeroNegativeOfA(): seq<Stmt>
  {
    [ Compare(Eq, LVariable(Z, 1), Reg(A, 8), Imm(0, 8)),
      Compare(LtS, LVariable(N, 1), Reg(A, 8), Imm(0, 8)) ]
  }

  function Pla(): seq<Stmt>
  {
    StackAddress() + NextSlot() + [ Load(LVariable(A, 8), Sp9()) ] + SpToS() + ZeroNegativeOfA()
  }

  /** C, Z, I, D, V and N from bits 0, 1, 2, 3, 6 and 7 of the pulled byte. */
  function UnpackFlags(): seq<Stmt>
  {
    [ Mov(LVariable(C, 1), Reg(Temp(Flags), 1)),
      Mov(LVariable(Z, 1), BitOf(Temp(Flags), 1)),
      Mov(LVariable(I, 1), BitOf(Temp(Flags), 2)),
      Mov(LVariable(D, 1), BitOf(Temp(Flags), 3)),
      Mov(LVariable(V, 1), BitOf(Temp(Flags), 6)),
      Mov(LVariable(N, 1), BitOf(Temp(Flags), 7)) ]
  }

  function Plp(): seq<Stmt>
  {
    StackAddress() + NextSlot() + [ Load(LVariable(Temp(Flags), 8), Sp9()) ]
      + UnpackFlags() + SpToS() + ZeroNegativeOfA()
  }

  // ---------------------------------------------------------------------
  // Control flow

  /** The 16-bit operand word `immlo | immhi << 8`, each field first cast to
      16 bits and the shift done in 16 bits. */
  function ImmWord(lo: nat, hi: nat): nat
  {
    BitOr(lo % 0x1_0000, (hi % 0x1_0000) * 0x100 % 0x1_0000)
  }

  /** The record-and-edge part of `jmp_direct`. */
  method JmpDirect(st: State) returns (ok: bool)
    requires "immlo" in st.groups && "immhi" in st.groups
    modifies st
    ensures ok
    ensures var next := Constant(ImmWord(st.groups["immlo"], st.groups["immhi"]), 16);
            st.mnemonics == old(st.mnemonics) + [Mnemonic(3, "jmp", "{c:ram}", [next], [])]
            && st.jumps == old(st.jumps) + [Jump(next, Always)]
  {
    var next := Constant(ImmWord(st.GetGroup("immlo"), st.GetGroup("immhi")), 16);
    st.PushMnemonic(3, "jmp", "{c:ram}", [next], []);
    st.PushJump(next, Always);
    ok := true;
  }

  /** The fetch `jmp_indirect` records ahead of the jump: a 16-bit
      load from the indirect address into `res`. */
  function FetchStmts(ptr: Rvalue): seq<Stmt>
  {
    [ Load(LVariable(Temp(Res), 16), ptr) ]
  }

  method JmpIndirect(st: State) returns (ok: bool)
    requires "immlo" in st.groups && "immhi" in st.groups
    modifies st
    ensures ok
    ensures var ptr := Constant(ImmWord(st.groups["immlo"], st.groups["immhi"]), 16);
            st.mnemonics == old(st.mnemonics) + [Mnemonic(0, "__fetch", "", [], FetchStmts(ptr)),
                                                 Mnemonic(3, "jmp", "{p:ram}", [ptr], [])]
            && st.jumps == old(st.jumps) + [Jump(Reg(Temp(Res), 16), Always)]
  {
    var ptr := Constant(ImmWord(st.GetGroup("immlo"), st.GetGroup("immhi")), 16);
    st.PushMnemonic(0, "__fetch", "", [], FetchStmts(ptr));
    var next := Reg(Temp(Res), 16);
    st.PushMnemonic(3, "jmp", "{p:ram}", [ptr], []);
    st.PushJump(next, Always);
    ok := true;
  }

  /** The statements of a `jsr`: a call to the target whose result is discarded. */
  function JsrStmts(target: Rvalue): seq<Stmt>
  {
    [ Call(LUndefined, target) ]
  }

  /** `address as u16 + 3` without overflow: the addition is checked in the
      source, so an address whose low 16 bits are 0xFFFD or more is excluded. */
  predicate JsrAddressFits(address: nat)
  {
    address % 0x1_0000 + 3 < 0x1_0000
  }

  method Jsr(st: State) returns (ok: bool)
    requires "immlo" in st.groups && "immhi" in st.groups
    requires JsrAddressFits(st.address)
    modifies st
    ensures ok
    ensures var target := Constant(ImmWord(st.groups["immlo"], st.groups["immhi"]), 16);
            var next := Constant(st.address % 0x1_0000 + 3, 16);
            st.mnemonics == old(st.mnemonics) + [Mnemonic(3, "jsr", "{c:ram}", [target], JsrStmts(target))]
            && st.jumps == old(st.jumps) + [Jump(next, Always)]
  {
    var next := Constant(st.address % 0x1_0000 + 3, 16);
    var target := Constant(ImmWord(st.GetGroup("immlo"), st.GetGroup("immhi")), 16);
    st.PushMnemonic(3, "jsr", "{c:ram}", [target], JsrStmts(target));
    st.PushJump(next, Always);
    ok := true;
  }
}
