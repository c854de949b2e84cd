/** Places where the lifted statements differ from what the instruction
    evidently means. For each: a concrete input on which the statements as
    written give the surprising result, and a corrected statement list with
    the intended property proved about it. */
module Findings {
  import opened Core
  import opened Bits
  import opened Evaluator
  import opened Semantic
  import opened Steps
  import opened ShiftProps
  import opened StackProps
  import opened LogicProps
  import opened SimpleProps
  import opened TransferProps

  // ---------------------------------------------------------------------
  // `lsr` shifts left

  /** As written, `lsr #1` on A = 2 leaves A = 4: the shift goes left. */
  lemma LsrShiftsLeft(m: Machine)
    requires m.a == 2
    ensures Exec(Lsr(Imm(1, 8)), m).a == 4
  {
    LsrEffect(Imm(1, 8), m);
  }

  /** `lsr` with the shift the mnemonic names: one place to the right. */
  function LsrCorrected(): seq<Stmt>
  {
    [ Mov(LVariable(C, 1), Reg(A, 1)),
      Binary(ShrOp, LVariable(A, 8), Reg(A, 8), Imm(1, 8)),
      Compare(Eq, LVariable(Z, 1), Reg(A, 8), Imm(0, 8)),
      Mov(LVariable(N, 1), Imm(0, 1)) ]
  }

  /** The corrected `lsr` halves A and moves the bit shifted out into C:
      A = 2 * A' + C', so nothing is lost. */
  lemma LsrCorrectedEffect(m: Machine)
    ensures var m1 := Exec(LsrCorrected(), m);
            m1 == m.(c := m.a % 2, a := m.a / 2, z := Flag(m.a / 2 == 0), n := 0)
            && 2 * m1.a + m1.c == m.a
  {
    ExecFour(LsrCorrected(), m);
    MovBitStep(C, A, 0, m);
    var m1 := m.(c := m.a % 2);
    ShiftOneStep(A, m1);
    var m2 := m1.(a := m.a / 2);
    ZeroStep(Reg(A, 8), m2);
    SetFlagStep(N, 0, m2.(z := Flag(m.a / 2 == 0)));
  }

  // ---------------------------------------------------------------------
  // `rol` puts the carry in bit 7

  /** As written, `rol` on a register holding 1 with C = 1 gives 0x82 where
      the rotate gives 3. */
  lemma RolFillsBit7(n: Name, m: Machine)
    requires ByteRegister(n) && Get(m, n) == 1 && m.c == 1
    ensures Get(Exec(Rol(Reg(n, 8)), m), n) == 0x82
  {
    RolOfOne(Get(m, n), m.c);
    RolValue(n, m);
  }

  lemma RolOfOne(v: Word, c: OneBit)
    requires v == 1 && c == 1
    ensures 2 * v % 0x80 + 0x80 * c == 0x82 && 2 * v + c == 3
  {
  }

  /** The register `rol` writes, as written. */
  lemma RolValue(n: Name, m: Machine)
    requires ByteRegister(n)
    ensures Get(Exec(Rol(Reg(n, 8)), m), n) == 2 * Get(m, n) % 0x80 + 0x80 * m.c
  {
    var k := 2 * Get(m, n) % 0x80 + 0x80 * m.c;
    RolEffect(n, m);
    ArchGet(Exec(Rol(Reg(n, 8)), m), Put(m, n, k).(c := BitAt(Get(m, n), 7), z := Flag(k == 0), n := Flag(k == 0 || k >= 0x80)), n);
  }

  /** Machines with the same architectural state agree on every register and flag. */
  lemma ArchGet(m1: Machine, m2: Machine, n: Name)
    requires Arch(m1) == Arch(m2) && !n.Temp?
    ensures Get(m1, n) == Get(m2, n)
  {
    assert Get(m1, n) == Get(Arch(m1), n);
    assert Get(m2, n) == Get(Arch(m2), n);
  }

  /** `rol` with the old carry entering bit 0. */
  function RolCorrectedHead(n: Name): seq<Stmt>
  {
    [ Mov(LVariable(Temp(Hb), 1), Variable(n, 1, 7)),
      Binary(ShlOp, LVariable(n, 8), Reg(n, 8), Imm(1, 8)),
      Sel(0, LVariable(n, 8), Reg(C, 1)) ]
  }

  function RolCorrected(n: Name): seq<Stmt>
  {
    RolCorrectedHead(n) + RotateTail(n, Hb)
  }

  /** `sel/0 n:8, C:1` on an even byte: the carry is added in. */
  lemma SelLowStep(n: Name, m: Machine, w: Word)
    requires ByteRegister(n) && w < 0x100 && w % 2 == 0
    ensures Step(Sel(0, LVariable(n, 8), Reg(C, 1)), Put(m, n, w)) == Put(m, n, w + m.c)
  {
    GetPutSame(m, n, w);
    CarryPut(m, n, w);
    PutPutSame(m, n, w, w + m.c);
  }

  lemma RolCorrectedHeadEffect(n: Name, m: Machine)
    requires ByteRegister(n)
    ensures var v := Get(m, n);
            Exec(RolCorrectedHead(n), m) == Put(m.(temps := m.temps[Hb := BitAt(v, 7)]), n, 2 * v % 0x100 + m.c)
  {
    var v := Get(m, n);
    ExecThree(RolCorrectedHead(n), m);
    MovBitStep(Temp(Hb), n, 7, m);
    var m1 := m.(temps := m.temps[Hb := BitAt(v, 7)]);
    GetPut(m, Temp(Hb), BitAt(v, 7), n);
    ShiftOneStep(n, m1);
    EvenDouble(v);
    SelLowStep(n, m1, 2 * v % 0x100);
  }

  lemma EvenDouble(v: Byte)
    ensures 2 * v % 0x100 % 2 == 0 && 2 * v % 0x100 + 1 < 0x100
  {
  }

  /** The corrected `rol`: A' = 2 * A + C modulo 256 and C' = old bit 7, so
      2 * A + C = A' + 256 * C'. */
  lemma RolCorrectedEffect(n: Name, m: Machine)
    requires ByteRegister(n)
    ensures var v := Get(m, n);
            var k := 2 * v % 0x100 + m.c;
            Arch(Exec(RolCorrected(n), m)) == Arch(Put(m, n, k).(c := BitAt(v, 7), z := Flag(k == 0), n := Flag(k == 0 || k >= 0x80)))
            && 2 * v + m.c == k + 0x100 * BitAt(v, 7)
  {
    RolCorrectedArch(n, m);
    DoubleSplit(Get(m, n));
  }

  lemma RolCorrectedArch(n: Name, m: Machine)
    requires ByteRegister(n)
    ensures var v := Get(m, n);
            var k := 2 * v % 0x100 + m.c;
            Arch(Exec(RolCorrected(n), m)) == Arch(Put(m, n, k).(c := BitAt(v, 7), z := Flag(k == 0), n := Flag(k == 0 || k >= 0x80)))
  {
    var v := Get(m, n);
    RolCorrectedHeadEffect(n, m);
    RotateComposed(n, m, RolCorrectedHead(n), Hb, 2 * v % 0x100 + m.c, BitAt(v, 7));
  }

  /** Doubling a byte: the low eight bits, and bit 7 carried out. */
  lemma DoubleSplit(v: Byte)
    ensures 2 * v == 2 * v % 0x100 + 0x100 * BitAt(v, 7)
  {
    BitAtDiv(v, 7);
    var h := v / 0x80;
    var l := v % 0x80;
    assert v == 0x80 * h + l && h < 2;
    assert 2 * v == 0x100 * h + 2 * l && 2 * l < 0x100;
    DivUnique(2 * v, 0x100, h, 2 * l);
  }

  // ---------------------------------------------------------------------
  // `pha` and `pla` both move S upwards

  /** As written, `pha` then `pla` with S below 0xFE: the pull reads the
      byte two slots above the one the push wrote, and S ends two higher. */
  lemma PhaThenPla(m: Machine)
    requires m.s < 0xFE
    ensures var m2 := Exec(Pha() + Pla(), m);
            m2.a == ReadByte(m.ram, 0x100 + m.s + 2) && m2.s == m.s + 2
  {
    ExecAppend(Pha(), Pla(), m);
    PhaEffect(m);
    PlaAfterPha(m, Exec(Pha(), m));
  }

  lemma PlaAfterPha(m: Machine, m1: Machine)
    requires m.s < 0xFE
    requires Arch(m1) == Arch(m.(ram := m.ram[0x100 + m.s := m.a], s := (m.s + 1) % 0x100))
    ensures Exec(Pla(), m1).a == ReadByte(m.ram, 0x100 + m.s + 2) && Exec(Pla(), m1).s == m.s + 2
  {
    assert m1.s == Arch(m1).s && m1.ram == Arch(m1).ram;
    PlaTwoUp(m, m1);
  }

  lemma PlaTwoUp(m: Machine, m1: Machine)
    requires m.s < 0xFE && m1.s == m.s + 1 && m1.ram == m.ram[0x100 + m.s := m.a]
    ensures Exec(Pla(), m1).a == ReadByte(m.ram, 0x100 + m.s + 2) && Exec(Pla(), m1).s == m.s + 2
  {
    PlaReads(m1);
    TwoUp(m.s, m1.s);
    ReadOther(m.ram, 0x100 + m.s, 0x100 + m.s + 2, m.a);
  }

  lemma TwoUp(s: Byte, s1: Byte)
    requires s < 0xFE && s1 == s + 1
    ensures PullAddress(s1) == 0x100 + s + 2 && (s1 + 1) % 0x100 == s + 2
  {
  }

  /** A byte written at one address does not change what another reads. */
  lemma ReadOther(ram: map<Word, Byte>, p: Word, q: Word, b: Byte)
    requires p != q
    ensures ReadByte(ram[p := b], q) == ReadByte(ram, q)
  {
  }

  /** What `pla` leaves in A and S, as written. */
  lemma PlaReads(m: Machine)
    ensures Exec(Pla(), m).a == ReadByte(m.ram, PullAddress(m.s))
    ensures Exec(Pla(), m).s == (m.s + 1) % 0x100
  {
    PlaEffect(m);
  }

  /** So `pha; pla` with S = 0 does not give A back when the byte at 0x102
      differs from A. */
  lemma PhaPlaLosesA(m: Machine)
    requires m.s == 0 && m.a == 1 && ReadByte(m.ram, 0x102) == 0
    ensures Exec(Pha() + Pla(), m).a != m.a
  {
    PhaThenPla(m);
  }

  /** A push that stores at `0x100 + S` and then moves S down. */
  function PhaCorrected(): seq<Stmt>
  {
    StackAddress() + [ Store(Sp9(), Reg(A, 8)), Binary(SubOp, SP(), Reg(S, 8), Imm(1, 8)) ]
  }

  /** A pull that moves S up and then loads from `0x100 + S`. */
  function PlaCorrected(): seq<Stmt>
  {
    [ Binary(AddOp, SP(), Reg(S, 8), Imm(1, 8)) ] + (StackAddress() + PullCorrectedTail())
  }

  function PullCorrectedTail(): seq<Stmt>
  {
    [ Load(LVariable(A, 8), Sp9()) ] + ZeroNegativeOfA()
  }

  /** The corrected push writes A at `0x100 + S` and leaves S one lower,
      modulo 256. */
  lemma PhaCorrectedEffect(m: Machine)
    ensures Exec(PhaCorrected(), m)
            == m.(ram := m.ram[0x100 + m.s := m.a], s := (m.s + 0xFF) % 0x100, temps := m.temps[Sp := 0x100 + m.s])
  {
    var tail := [ Store(Sp9(), Reg(A, 8)), Binary(SubOp, SP(), Reg(S, 8), Imm(1, 8)) ];
    ExecAppend(StackAddress(), tail, m);
    StackAddressEffect(m);
    var m1 := m.(temps := m.temps[Sp := 0x100 + m.s]);
    ExecTwo(tail, m1);
    StoreSlotStep(A, m1, 0x100 + m.s);
    var m2 := m1.(ram := m.ram[0x100 + m.s := m.a]);
    BinaryByteStep(SubOp, S, Reg(S, 8), Imm(1, 8), m2);
  }

  /** The corrected pull moves S up one, modulo 256, loads A from
      `0x100 + S` and sets Z and N from it. */
  lemma PlaCorrectedEffect(m: Machine, t: Byte, k: Byte)
    requires t == (m.s + 1) % 0x100 && k == ReadByte(m.ram, 0x100 + t)
    ensures Exec(PlaCorrected(), m)
            == m.(s := t, a := k, z := Flag(k == 0), n := Flag(k >= 0x80), temps := m.temps[Sp := 0x100 + t])
  {
    var m1 := m.(s := t);
    PlaCorrectedSplit(m, m1);
    PullCorrectedFrom(m1, k);
  }

  lemma PlaCorrectedSplit(m: Machine, m1: Machine)
    requires m1 == m.(s := (m.s + 1) % 0x100)
    ensures Exec(PlaCorrected(), m) == Exec(StackAddress() + PullCorrectedTail(), m1)
  {
    ExecAppend([ Binary(AddOp, SP(), Reg(S, 8), Imm(1, 8)) ], StackAddress() + PullCorrectedTail(), m);
    StackUpEffect(m);
  }

  lemma StackUpEffect(m: Machine)
    ensures Exec([ Binary(AddOp, SP(), Reg(S, 8), Imm(1, 8)) ], m) == m.(s := (m.s + 1) % 0x100)
  {
    ExecOne([ Binary(AddOp, SP(), Reg(S, 8), Imm(1, 8)) ], m);
    BinaryByteStep(AddOp, S, Reg(S, 8), Imm(1, 8), m);
  }

  lemma PullCorrectedFrom(m: Machine, k: Byte)
    requires k == ReadByte(m.ram, 0x100 + m.s)
    ensures Exec(StackAddress() + PullCorrectedTail(), m)
            == m.(a := k, z := Flag(k == 0), n := Flag(k >= 0x80), temps := m.temps[Sp := 0x100 + m.s])
  {
    var p := 0x100 + m.s;
    ExecAppend(StackAddress(), PullCorrectedTail(), m);
    StackAddressEffect(m);
    var m1 := m.(temps := m.temps[Sp := p]);
    var load := [ Load(LVariable(A, 8), Sp9()) ];
    ExecAppend(load, ZeroNegativeOfA(), m1);
    ExecOne(load, m1);
    LoadSlotStep(m1, p);
    ZeroNegativeOfAEffect(m1.(a := k));
  }

  /** Down one, then up one, modulo 256, is where S started. */
  lemma DownThenUp(s: Byte)
    ensures ((s + 0xFF) % 0x100 + 1) % 0x100 == s
  {
  }

  /** With the corrected pair, `pha; pla` gives A and S back: the only
      lasting changes are the stack slot written and Z and N, which now
      describe A. */
  lemma PhaPlaCorrected(m: Machine)
    ensures Arch(Exec(PhaCorrected() + PlaCorrected(), m))
            == Arch(m.(ram := m.ram[0x100 + m.s := m.a], z := Flag(m.a == 0), n := Flag(m.a >= 0x80)))
  {
    ExecAppend(PhaCorrected(), PlaCorrected(), m);
    PhaCorrectedEffect(m);
    PullAfterPush(m, Exec(PhaCorrected(), m));
  }

  lemma PullAfterPush(m: Machine, m1: Machine)
    requires m1 == m.(ram := m.ram[0x100 + m.s := m.a], s := (m.s + 0xFF) % 0x100, temps := m.temps[Sp := 0x100 + m.s])
    ensures Arch(Exec(PlaCorrected(), m1))
            == Arch(m.(ram := m.ram[0x100 + m.s := m.a], z := Flag(m.a == 0), n := Flag(m.a >= 0x80)))
  {
    PushedSlot(m, m1);
    PlaCorrectedEffect(m1, m.s, m.a);
  }

  /** After the corrected push, one up from S is the slot just written. */
  lemma PushedSlot(m: Machine, m1: Machine)
    requires m1 == m.(ram := m.ram[0x100 + m.s := m.a], s := (m.s + 0xFF) % 0x100, temps := m.temps[Sp := 0x100 + m.s])
    ensures (m1.s + 1) % 0x100 == m.s && ReadByte(m1.ram, 0x100 + m.s) == m.a
  {
    DownThenUp(m.s);
  }

  // ---------------------------------------------------------------------
  // `bit` takes N and V from `A & r`

  /** As written, `bit` with A = 0 and an operand of 0x40 leaves V clear
      though bit 6 of the operand is set, and sets N though bit 7 of the
      operand is clear. */
  lemma BitMissesBit6(r: Rvalue, m: Machine)
    requires m.a == 0 && Eval(r, m) == 0x40
    ensures Exec(Bit(r), m).v == 0 && Exec(Bit(r), m).n == 1
    ensures BitAt(Eval(r, m), 6) == 1 && BitAt(Eval(r, m), 7) == 0
  {
    BitEffect(r, m);
    BitAndZero(m.a, Eval(r, m));
    ZeroAt(7);
    OperandBits(Eval(r, m));
  }

  lemma BitAndZero(x: nat, y: nat)
    requires x == 0
    ensures BitAnd(x, y) == 0
  {
  }

  lemma OperandBits(x: nat)
    requires x == 0x40
    ensures BitAt(x, 6) == 1 && BitAt(x, 7) == 0
  {
    BitAtDiv(x, 6);
    BitAtDiv(x, 7);
  }

  /** `bit` as the instruction is documented: Z from `A & r`, N and V from
      bits 7 and 6 of the operand itself. */
  function BitCorrected(r: Rvalue): seq<Stmt>
  {
    BitCorrectedOperand(r) + BitCorrectedFlags()
  }

  /** The operand's low byte in `addend`, and `res = A & addend`. */
  function BitCorrectedOperand(r: Rvalue): seq<Stmt>
  {
    [ Mov(LVariable(Temp(Addend), 8), r),
      Binary(AndOp, LVariable(Temp(Res), 8), Reg(A, 8), Reg(Temp(Addend), 8)) ]
  }

  function BitCorrectedFlags(): seq<Stmt>
  {
    [ Compare(Eq, LVariable(Z, 1), Res8(), Imm(0, 8)),
      Mov(LVariable(N, 1), BitOf(Temp(Addend), 7)),
      Mov(LVariable(V, 1), BitOf(Temp(Addend), 6)) ]
  }

  lemma BitCorrectedHead(r: Rvalue, m: Machine)
    ensures var x := Eval(r, m) % 0x100;
            var m1 := m.(temps := m.temps[Addend := x]);
            Exec(BitCorrectedOperand(r), m) == m1.(temps := m1.temps[Res := AndByte(m.a, x)])
  {
    var x := Eval(r, m) % 0x100;
    var m1 := m.(temps := m.temps[Addend := x]);
    ExecTwo(BitCorrectedOperand(r), m);
    TruncMod(Eval(r, m), 8);
    assert Pow2(8) == 0x100;
    assert Step(BitCorrectedOperand(r)[0], m) == m1;
    BinaryTempStep(AndOp, Res, 8, Reg(A, 8), Reg(Temp(Addend), 8), m1);
  }

  lemma BitCorrectedFlagsEffect(m: Machine, x: Byte, k: Byte)
    requires Get(m, Temp(Addend)) == x && Get(m, Temp(Res)) == k
    ensures Exec(BitCorrectedFlags(), m) == m.(z := Flag(k == 0), n := BitAt(x, 7), v := BitAt(x, 6))
  {
    ExecThree(BitCorrectedFlags(), m);
    ZeroStep(Res8(), m);
    var m1 := m.(z := Flag(k == 0));
    MovBitStep(N, Temp(Addend), 7, m1);
    MovBitStep(V, Temp(Addend), 6, m1.(n := BitAt(x, 7)));
  }

  /** The corrected `bit` leaves A and everything but Z, N and V as they
      were; Z says whether A and the operand share a set bit, N and V are
      bits 7 and 6 of the operand, whatever A holds. */
  lemma BitCorrectedEffect(r: Rvalue, m: Machine)
    ensures var x := Eval(r, m) % 0x100;
            Arch(Exec(BitCorrected(r), m)) == Arch(m.(z := Flag(BitAnd(m.a, x) == 0), n := BitAt(x, 7), v := BitAt(x, 6)))
  {
    ExecAppend(BitCorrectedOperand(r), BitCorrectedFlags(), m);
    BitCorrectedHead(r, m);
    var x := Eval(r, m) % 0x100;
    BitCorrectedFlagsEffect(Exec(BitCorrectedOperand(r), m), x, AndByte(m.a, x));
  }

  // ---------------------------------------------------------------------
  // The stores write the operand at the register's address

  /** As written, `sta` with A = 0x10 and the 16-bit operand 0x2000 writes
      the operand's two bytes at 0x10 and 0x11 and leaves 0x2000 alone. */
  lemma StaWritesAtA(r: Rvalue, m: Machine)
    requires m.a == 0x10 && Eval(r, m) == 0x2000 && SizeOf(r) == 16
    ensures var ram := Exec(Sta(r), m).ram;
            ReadByte(ram, 0x10) == 0x00 && ReadByte(ram, 0x11) == 0x20
            && ReadByte(ram, 0x2000) == ReadByte(m.ram, 0x2000)
  {
    StoreEffect(r, m);
  }

  /** A store of the register `n` at the address the operand gives. */
  function StCorrected(n: Name, r: Rvalue): seq<Stmt>
  {
    [ Store(r, Reg(n, 8)) ]
  }

  /** The corrected store writes the register at the operand's address, so
      a load from that address reads the register back; no other cell,
      register or flag changes. */
  lemma StCorrectedEffect(n: Name, r: Rvalue, m: Machine)
    requires ByteRegister(n)
    ensures var m1 := Exec(StCorrected(n, r), m);
            m1 == m.(ram := m.ram[Eval(r, m) := Get(m, n)])
            && ReadByte(m1.ram, Eval(r, m)) == Get(m, n)
  {
    ExecOne(StCorrected(n, r), m);
  }

  // ---------------------------------------------------------------------
  // `cmp` sets C on a borrow

  /** As written, `cpa #3` with A = 5 clears C although 5 >= 3, and so
      clears N as well. */
  lemma CmpCarryInverted(m: Machine)
    requires m.a == 5
    ensures Exec(Cpa(Imm(3, 8)), m).c == 0 && Exec(Cpa(Imm(3, 8)), m).n == 0
    ensures m.a >= Eval(Imm(3, 8), m)
  {
    CpaEffect(Imm(3, 8), m);
  }

  /** `cmp` as the instruction is documented: C when no borrow is needed,
      N from bit 7 of the difference, Z on equality. */
  function CmpCorrected(r1: Rvalue, r2: Rvalue): seq<Stmt>
  {
    CmpCorrectedHead(r1, r2) + CmpCorrectedTail(r1, r2)
  }

  function CmpCorrectedHead(r1: Rvalue, r2: Rvalue): seq<Stmt>
  {
    [ Compare(LeU, LVariable(C, 1), r2, r1),
      Binary(SubOp, LVariable(Temp(Res), 8), r1, r2) ]
  }

  function CmpCorrectedTail(r1: Rvalue, r2: Rvalue): seq<Stmt>
  {
    [ Mov(LVariable(N, 1), BitOf(Temp(Res), 7)),
      Compare(Eq, LVariable(Z, 1), r1, r2) ]
  }

  /** The operands of a comparison read none of the locations it writes. */
  predicate CompareOperands(r1: Rvalue, r2: Rvalue)
  {
    !Reads(r1, C) && !Reads(r2, C) && !Reads(r1, N) && !Reads(r2, N)
    && !Reads(r1, Temp(Res)) && !Reads(r2, Temp(Res))
  }

  /** The corrected `cmp` sets C when r1 >= r2, leaves the difference modulo
      256 in `res`, takes N from its bit 7 and sets Z on equality. */
  lemma CmpCorrectedEffect(r1: Rvalue, r2: Rvalue, m: Machine)
    requires CompareOperands(r1, r2)
    ensures var x := Eval(r1, m);
            var y := Eval(r2, m);
            var k := (x - y) % 0x100;
            Exec(CmpCorrected(r1, r2), m) == m.(c := Flag(y <= x), n := BitAt(k, 7), z := Flag(x == y), temps := m.temps[Res := k])
  {
    var x: int := Eval(r1, m);
    var y: int := Eval(r2, m);
    CmpCorrectedAt(r1, r2, m, x, y, (x - y) % 0x100);
  }

  lemma CmpCorrectedAt(r1: Rvalue, r2: Rvalue, m: Machine, x: Word, y: Word, k: Byte)
    requires CompareOperands(r1, r2)
    requires x == Eval(r1, m) && y == Eval(r2, m) && k == (x - y) % 0x100
    ensures Exec(CmpCorrected(r1, r2), m) == m.(c := Flag(y <= x), n := BitAt(k, 7), z := Flag(x == y), temps := m.temps[Res := k])
  {
    var m1 := m.(c := Flag(y <= x));
    var m2 := m1.(temps := m1.temps[Res := k]);
    CmpHeadSteps(r1, r2, m, x, y, k);
    CmpTailSteps(r1, r2, m2, x, y, k);
    CmpComposed(r1, r2, m, m2, m2.(n := BitAt(k, 7), z := Flag(x == y)));
  }

  lemma CmpComposed(r1: Rvalue, r2: Rvalue, m: Machine, m2: Machine, m3: Machine)
    requires Exec(CmpCorrectedHead(r1, r2), m) == m2 && Exec(CmpCorrectedTail(r1, r2), m2) == m3
    ensures Exec(CmpCorrected(r1, r2), m) == m3
  {
    ExecAppend(CmpCorrectedHead(r1, r2), CmpCorrectedTail(r1, r2), m);
  }

  /** C from the comparison, then the difference into `res`. */
  lemma CmpHeadSteps(r1: Rvalue, r2: Rvalue, m: Machine, x: Word, y: Word, k: Byte)
    requires CompareOperands(r1, r2)
    requires x == Eval(r1, m) && y == Eval(r2, m) && k == (x - y) % 0x100
    ensures var m1 := m.(c := Flag(y <= x));
            Exec(CmpCorrectedHead(r1, r2), m) == m1.(temps := m1.temps[Res := k])
  {
    var m1 := m.(c := Flag(y <= x));
    ExecTwo(CmpCorrectedHead(r1, r2), m);
    NoBorrowStep(r1, r2, m);
    CarryFrame(r1, r2, m, m1);
    DifferenceStep(r1, r2, m1, x, y, k);
  }

  /** `cmpleu C:1, r2, r1`. */
  lemma NoBorrowStep(r1: Rvalue, r2: Rvalue, m: Machine)
    ensures Step(Compare(LeU, LVariable(C, 1), r2, r1), m) == m.(c := Flag(Eval(r2, m) <= Eval(r1, m)))
  {
  }

  /** Operands that do not read C are unaffected by writing it. */
  lemma CarryFrame(r1: Rvalue, r2: Rvalue, m: Machine, m1: Machine)
    requires !Reads(r1, C) && !Reads(r2, C) && m1 == m.(c := m1.c)
    ensures Eval(r1, m1) == Eval(r1, m) && Eval(r2, m1) == Eval(r2, m)
  {
    assert Put(m, C, m1.c) == m1;
    EvalFrame(r1, m, C, m1.c);
    EvalFrame(r2, m, C, m1.c);
  }

  /** `sub res:8, r1, r2`: the difference modulo 256. */
  lemma DifferenceStep(r1: Rvalue, r2: Rvalue, m: Machine, x: Word, y: Word, k: Byte)
    requires x == Eval(r1, m) && y == Eval(r2, m) && k == (x - y) % 0x100
    ensures Step(Binary(SubOp, LVariable(Temp(Res), 8), r1, r2), m) == m.(temps := m.temps[Res := k])
  {
    assert Pow2(8) == 0x100;
    BinaryTempStep(SubOp, Res, 8, r1, r2, m);
  }

  /** N from bit 7 of `res`, then Z on equality. */
  lemma CmpTailSteps(r1: Rvalue, r2: Rvalue, m2: Machine, x: Word, y: Word, k: Byte)
    requires CompareOperands(r1, r2)
    requires x == Eval(r1, m2) && y == Eval(r2, m2) && Get(m2, Temp(Res)) == k
    ensures Exec(CmpCorrectedTail(r1, r2), m2) == m2.(n := BitAt(k, 7), z := Flag(x == y))
  {
    ExecTwo(CmpCorrectedTail(r1, r2), m2);
    var m3 := m2.(n := BitAt(k, 7));
    MovBitStep(N, Temp(Res), 7, m2);
    assert Put(m2, N, BitAt(k, 7)) == m3;
    EvalFrame(r1, m2, N, m3.n);
    EvalFrame(r2, m2, N, m3.n);
    EqualStep(r1, r2, m3);
  }

  /** For byte operands the corrected flags mean what the instruction says:
      r1 - r2 = res - 256 * (1 - C), so C is clear exactly on a borrow, and
      N is the sign of the difference's low byte. */
  lemma CmpCorrectedMeaning(r1: Rvalue, r2: Rvalue, m: Machine)
    requires CompareOperands(r1, r2) && Eval(r1, m) < 0x100 && Eval(r2, m) < 0x100
    ensures var m1 := Exec(CmpCorrected(r1, r2), m);
            var k := Get(m1, Temp(Res));
            Eval(r1, m) - Eval(r2, m) == k - 0x100 * (1 - m1.c)
            && (m1.c == 1 <==> Eval(r1, m) >= Eval(r2, m))
            && (m1.n == 1 <==> k >= 0x80) && (m1.z == 1 <==> Eval(r1, m) == Eval(r2, m))
  {
    CmpCorrectedEffect(r1, r2, m);
    var x: int := Eval(r1, m);
    CmpOutcome(Exec(CmpCorrected(r1, r2), m), m, x, Eval(r2, m), (x - Eval(r2, m)) % 0x100);
  }

  lemma CmpOutcome(m1: Machine, m: Machine, x: Byte, y: Byte, k: Byte)
    requires k == (x - y) % 0x100
    requires m1 == m.(c := Flag(y <= x), n := BitAt(k, 7), z := Flag(x == y), temps := m.temps[Res := k])
    ensures x - y == Get(m1, Temp(Res)) - 0x100 * (1 - m1.c)
    ensures (m1.c == 1 <==> x >= y) && (m1.n == 1 <==> k >= 0x80) && (m1.z == 1 <==> x == y)
  {
    TopBitOf(k);
  }

  lemma TopBitOf(k: Byte)
    ensures BitAt(k, 7) == 1 <==> k >= 0x80
  {
    BitAtDiv(k, 7);
    assert Pow2(7) == 0x80;
  }
}
