/** `asl`, `lsr`, `rol` and `ror`. */
module ShiftProps {
  import opened Core
  import opened Bits
  import opened Evaluator
  import opened Semantic
  import opened Steps

  /** `asl` moves bit 7 of A into C and shifts A left by one, whatever its
      operand; Z and N follow the new A. */
  lemma AslEffect(r: Rvalue, m: Machine)
    ensures var k := 2 * m.a % 0x100;
            Exec(Asl(r), m) == m.(c := BitAt(m.a, 7), a := k, z := Flag(k == 0), n := Flag(k == 0 || k >= 0x80))
  {
    ExecFour(Asl(r), m);
    MovBitStep(C, A, 7, m);
    var m1 := m.(c := BitAt(m.a, 7));
    ShiftOneStep(A, m1);
    var m2 := m1.(a := 2 * m.a % 0x100);
    ZeroStep(Reg(A, 8), m2);
    var m3 := m2.(z := Flag(m2.a == 0));
    NonPositiveStep(Reg(A, 8), m3);
  }

  /** `lsr` moves bit 0 of A into C, shifts A LEFT by the operand, sets Z
      from the new A and clears N. The operand is read after C is written,
      so an operand that reads C sees the new C. */
  lemma LsrEffect(r: Rvalue, m: Machine)
    ensures var k := m.a * Pow2(Eval(r, m.(c := BitAt(m.a, 0)))) % 0x100;
            Exec(Lsr(r), m) == m.(c := BitAt(m.a, 0), a := k, z := Flag(k == 0), n := 0)
  {
    var k := m.a * Pow2(Eval(r, m.(c := BitAt(m.a, 0)))) % 0x100;
    ExecFour(Lsr(r), m);
    LsrShiftSteps(r, m, k);
    LsrFlagSteps(r, m.(c := BitAt(m.a, 0), a := k));
  }

  /** C from bit 0 of A, then A shifted left by the operand as it reads
      after that write. */
  lemma LsrShiftSteps(r: Rvalue, m: Machine, k: Byte)
    requires k == m.a * Pow2(Eval(r, m.(c := BitAt(m.a, 0)))) % 0x100
    ensures Step(Lsr(r)[1], Step(Lsr(r)[0], m)) == m.(c := BitAt(m.a, 0), a := k)
  {
    MovBitStep(C, A, 0, m);
    var m1 := m.(c := BitAt(m.a, 0));
    assert Put(m, C, BitAt(m.a, 0)) == m1;
    ShiftAccumulatorStep(r, m1);
  }

  /** Z from the new A, N cleared. */
  lemma LsrFlagSteps(r: Rvalue, m: Machine)
    ensures Step(Lsr(r)[3], Step(Lsr(r)[2], m)) == m.(z := Flag(m.a == 0), n := 0)
  {
    ZeroStep(Reg(A, 8), m);
    SetFlagStep(N, 0, m.(z := Flag(m.a == 0)));
  }

  /** `rol` on a byte register: the old bit 7 goes to C, the other bits move
      up by one, and the old C lands in bit 7 (bit 0 becomes 0). Z and N
      follow the new value. */
  lemma RolEffect(n: Name, m: Machine)
    requires ByteRegister(n)
    ensures var v := Get(m, n);
            var k := 2 * v % 0x80 + 0x80 * m.c;
            Arch(Exec(Rol(Reg(n, 8)), m)) == Arch(Put(m, n, k).(c := BitAt(v, 7), z := Flag(k == 0), n := Flag(k == 0 || k >= 0x80)))
  {
    var v := Get(m, n);
    var k := 2 * v % 0x80 + 0x80 * m.c;
    RotateShape(n);
    RolHead(n, m);
    RotateComposed(n, m, RolHeadStmts(n), Hb, k, BitAt(v, 7));
  }

  /** `ror` on a byte register: the old bit 0 goes to C, the other bits move
      down by one, and the old C lands in bit 7. Z and N follow the new value. */
  lemma RorEffect(n: Name, m: Machine)
    requires ByteRegister(n)
    ensures var v := Get(m, n);
            var k := v / 2 + 0x80 * m.c;
            Arch(Exec(Ror(Reg(n, 8)), m)) == Arch(Put(m, n, k).(c := BitAt(v, 0), z := Flag(k == 0), n := Flag(k == 0 || k >= 0x80)))
  {
    var v := Get(m, n);
    var k := v / 2 + 0x80 * m.c;
    RotatedByte(v, m.c);
    RotateShape(n);
    RorHead(n, m);
    RotateComposed(n, m, RorHeadStmts(n), Lb, k, BitAt(v, 0));
  }

  /** The first three statements of `rol` on a byte register. */
  function RolHeadStmts(n: Name): seq<Stmt>
  {
    [ Mov(LVariable(Temp(Hb), 1), Variable(n, 1, 7)),
      Binary(ShlOp, LVariable(n, 8), Reg(n, 8), Imm(1, 8)),
      Sel(7, LVariable(n, 8), Reg(C, 1)) ]
  }

  /** The first three statements of `ror` on a byte register. */
  function RorHeadStmts(n: Name): seq<Stmt>
  {
    [ Mov(LVariable(Temp(Lb), 1), Variable(n, 1, 0)),
      Binary(ShrOp, LVariable(n, 8), Reg(n, 8), Imm(1, 8)),
      Sel(7, LVariable(n, 8), Reg(C, 1)) ]
  }

  lemma RotateShape(n: Name)
    requires ByteRegister(n)
    ensures Rol(Reg(n, 8)) == RolHeadStmts(n) + RotateTail(n, Hb)
    ensures Ror(Reg(n, 8)) == RorHeadStmts(n) + RotateTail(n, Lb)
  {
  }

  /** Save bit 7, shift left, put C in bit 7. */
  lemma RolHead(n: Name, m: Machine)
    requires ByteRegister(n)
    ensures var v := Get(m, n);
            Exec(RolHeadStmts(n), m) == Put(m.(temps := m.temps[Hb := BitAt(v, 7)]), n, 2 * v % 0x80 + 0x80 * m.c)
  {
    var v := Get(m, n);
    ExecThree(RolHeadStmts(n), m);
    MovBitStep(Temp(Hb), n, 7, m);
    var m1 := m.(temps := m.temps[Hb := BitAt(v, 7)]);
    GetPut(m, Temp(Hb), BitAt(v, 7), n);
    ShiftOneStep(n, m1);
    SelCarryAfterPut(n, m1, 2 * v % 0x100);
    DoubleLowBits(v);
  }

  lemma DoubleLowBits(v: nat)
    ensures 2 * v % 0x100 % 0x80 == 2 * v % 0x80
  {
    var w := 2 * v % 0x100;
    var q := 2 * v / 0x100;
    var s := w / 0x80;
    var r := w % 0x80;
    assert 2 * v == 0x80 * (2 * q + s) + r;
    DivUnique(2 * v, 0x80, 2 * q + s, r);
  }

  /** Save bit 0, shift right, put C in bit 7. */
  lemma RorHead(n: Name, m: Machine)
    requires ByteRegister(n)
    ensures var v := Get(m, n);
            Exec(RorHeadStmts(n), m) == Put(m.(temps := m.temps[Lb := BitAt(v, 0)]), n, v / 2 + 0x80 * m.c)
  {
    var v := Get(m, n);
    ExecThree(RorHeadStmts(n), m);
    MovBitStep(Temp(Lb), n, 0, m);
    var m1 := m.(temps := m.temps[Lb := BitAt(v, 0)]);
    GetPut(m, Temp(Lb), BitAt(v, 0), n);
    ShiftOneStep(n, m1);
    HalfLowBits(v);
    SelCarryAfterPut(n, m1, v / 2);
  }

  lemma RotatedByte(v: Byte, c: OneBit)
    ensures v / 2 + 0x80 * c < 0x100
  {
  }

  lemma HalfLowBits(v: Byte)
    ensures v / 2 < 0x80 && v / 2 % 0x80 == v / 2
  {
  }

  /** The last three statements of both rotates: the saved bit becomes C, and
      Z and N follow the rotated register. */
  function RotateTail(n: Name, t: TempName): seq<Stmt>
  {
    [ Mov(LVariable(C, 1), Reg(Temp(t), 1)),
      Compare(Eq, LVariable(Z, 1), Reg(n, 8), Imm(0, 8)),
      Compare(LeS, LVariable(N, 1), Reg(n, 8), Imm(0, 8)) ]
  }

  /** A rotate's head followed by its tail, whatever the head computed. */
  lemma RotateComposed(n: Name, m: Machine, head: seq<Stmt>, t: TempName, k: Word, bit: OneBit)
    requires ByteRegister(n) && k < 0x100
    requires Exec(head, m) == Put(m.(temps := m.temps[t := bit]), n, k)
    ensures Arch(Exec(head + RotateTail(n, t), m)) == Arch(Put(m, n, k).(c := bit, z := Flag(k == 0), n := Flag(k == 0 || k >= 0x80)))
  {
    ExecAppend(head, RotateTail(n, t), m);
    var m0 := m.(temps := m.temps[t := bit]);
    PutTemps(m, n, k, m0.temps);
    GetPut(m0, n, k, Temp(t));
    GetPutSame(m0, n, k);
    RotateTailEffect(n, t, Put(m0, n, k), k, bit);
  }

  lemma RotateTailEffect(n: Name, t: TempName, m: Machine, k: Word, bit: OneBit)
    requires ByteRegister(n) && Get(m, n) == k && Get(m, Temp(t)) == bit
    ensures Exec(RotateTail(n, t), m) == m.(c := bit, z := Flag(k == 0), n := Flag(k == 0 || k >= 0x80))
  {
    ExecThree(RotateTail(n, t), m);
    MovBitStep(C, Temp(t), 0, m);
    var m1 := m.(c := bit);
    ZeroStep(Reg(n, 8), m1);
    NonPositiveStep(Reg(n, 8), m1.(z := Flag(k == 0)));
  }

}
