/** `cmp` and its three register forms, `inc`/`dec` and their register forms,
    the loads and the register transfers. */
module TransferProps {
  import opened Core
  import opened Bits
  import opened Evaluator
  import opened Semantic
  import opened Steps

  /** Z and N from a whole byte register, N being the sign bit: the flag
      update that closes `inc`, `ld` and `trr`. */
  function ZeroNegativeOf(n: Name): seq<Stmt>
  {
    [ Compare(Eq, LVariable(Z, 1), Reg(n, 8), Imm(0, 8)),
      Compare(LtS, LVariable(N, 1), Reg(n, 8), Imm(0, 8)) ]
  }

  lemma ZeroNegativeEffect(n: Name, m: Machine, k: Word)
    requires ByteRegister(n) && Get(m, n) == k
    ensures Exec(ZeroNegativeOf(n), m) == m.(z := Flag(k == 0), n := Flag(k >= 0x80))
  {
    ExecTwo(ZeroNegativeOf(n), m);
    EvalByte(n, m);
    ZeroStep(Reg(n, 8), m);
    var m1 := m.(z := Flag(k == 0));
    EvalByte(n, m1);
    NegativeStep(Reg(n, 8), m1);
  }

  /** A write of the byte `k` to `n` followed by the Z and N update, whatever
      statement did the write. */
  lemma WriteThenZeroNegative(n: Name, m: Machine, first: Stmt, k: Word)
    requires ByteRegister(n) && k < 0x100
    requires Step(first, m) == Put(m, n, k)
    ensures Exec([first] + ZeroNegativeOf(n), m) == Put(m, n, k).(z := Flag(k == 0), n := Flag(k >= 0x80))
  {
    ExecAppend([first], ZeroNegativeOf(n), m);
    ExecOne([first], m);
    GetPutSame(m, n, k);
    ZeroNegativeEffect(n, Put(m, n, k), k);
  }

  // ---------------------------------------------------------------------
  // Compare

  /** `cmp r1, r2` sets C when r1 is below r2 as unsigned numbers, copies C
      into N, sets Z when the two are equal, and writes nothing else. The
      operands are values, not the flags `cmp` writes. */
  lemma CmpEffect(r1: Rvalue, r2: Rvalue, m: Machine)
    requires !Reads(r1, C) && !Reads(r2, C) && !Reads(r1, N) && !Reads(r2, N)
    ensures var x := Eval(r1, m);
            var y := Eval(r2, m);
            Exec(Cmp(r1, r2), m) == m.(c := Flag(x < y), n := Flag(x < y), z := Flag(x == y))
  {
    var x := Eval(r1, m);
    var y := Eval(r2, m);
    ExecThree(Cmp(r1, r2), m);
    BelowStep(r1, r2, m);
    var m1 := m.(c := Flag(x < y));
    CopyCarryStep(m1);
    var m2 := m1.(n := Flag(x < y));
    EvalFlagsFrame(r1, m, Flag(x < y), Flag(x < y));
    EvalFlagsFrame(r2, m, Flag(x < y), Flag(x < y));
    EqualStep(r1, r2, m2);
  }

  /** `cmpltu C:1, r1, r2`. */
  lemma BelowStep(r1: Rvalue, r2: Rvalue, m: Machine)
    ensures Step(Compare(LtU, LVariable(C, 1), r1, r2), m) == m.(c := Flag(Eval(r1, m) < Eval(r2, m)))
  {
  }

  /** `mov N:1, C:1`. */
  lemma CopyCarryStep(m: Machine)
    ensures Step(Mov(LVariable(N, 1), Reg(C, 1)), m) == m.(n := m.c)
  {
  }

  /** `cmpeq Z:1, r1, r2`. */
  lemma EqualStep(r1: Rvalue, r2: Rvalue, m: Machine)
    ensures Step(Compare(Eq, LVariable(Z, 1), r1, r2), m) == m.(z := Flag(Eval(r1, m) == Eval(r2, m)))
  {
  }

  /** An operand that reads neither C nor N is unaffected by writing them. */
  lemma EvalFlagsFrame(r: Rvalue, m: Machine, c: OneBit, n: OneBit)
    requires !Reads(r, C) && !Reads(r, N)
    ensures Eval(r, m.(c := c, n := n)) == Eval(r, m)
  {
  }

  /** `cpx`, `cpy` and `cpa` compare X, Y and A with the operand. */
  lemma CompareRegisterEffect(r: Rvalue, m: Machine)
    requires !Reads(r, C) && !Reads(r, N)
    ensures var y := Eval(r, m);
            Exec(Cpx(r), m) == m.(c := Flag(m.x < y), n := Flag(m.x < y), z := Flag(m.x == y))
            && Exec(Cpy(r), m) == m.(c := Flag(m.y < y), n := Flag(m.y < y), z := Flag(m.y == y))
            && Exec(Cpa(r), m) == m.(c := Flag(m.a < y), n := Flag(m.a < y), z := Flag(m.a == y))
  {
    CpxEffect(r, m);
    CpyEffect(r, m);
    CpaEffect(r, m);
  }

  lemma CpxEffect(r: Rvalue, m: Machine)
    requires !Reads(r, C) && !Reads(r, N)
    ensures var y := Eval(r, m);
            Exec(Cpx(r), m) == m.(c := Flag(m.x < y), n := Flag(m.x < y), z := Flag(m.x == y))
  {
    CmpEffect(Reg(X, 8), r, m);
    EvalByte(X, m);
  }

  lemma CpyEffect(r: Rvalue, m: Machine)
    requires !Reads(r, C) && !Reads(r, N)
    ensures var y := Eval(r, m);
            Exec(Cpy(r), m) == m.(c := Flag(m.y < y), n := Flag(m.y < y), z := Flag(m.y == y))
  {
    CmpEffect(Reg(Y, 8), r, m);
    EvalByte(Y, m);
  }

  lemma CpaEffect(r: Rvalue, m: Machine)
    requires !Reads(r, C) && !Reads(r, N)
    ensures var y := Eval(r, m);
            Exec(Cpa(r), m) == m.(c := Flag(m.a < y), n := Flag(m.a < y), z := Flag(m.a == y))
  {
    CmpEffect(Reg(A, 8), r, m);
    EvalByte(A, m);
  }

  // ---------------------------------------------------------------------
  // Increment and decrement

  /** `inc` into a byte register: the register becomes the operand plus one,
      modulo 256, and Z and N follow the new register. */
  lemma IncEffect(n: Name, r: Rvalue, m: Machine)
    requires ByteRegister(n)
    ensures var k := (Eval(r, m) + 1) % 0x100;
            Exec(Inc(LVariable(n, 8), r), m) == Put(m, n, k).(z := Flag(k == 0), n := Flag(k >= 0x80))
  {
    var k := (Eval(r, m) + 1) % 0x100;
    var first := Binary(AddOp, LVariable(n, 8), r, Imm(1, 8));
    assert Inc(LVariable(n, 8), r) == [first] + ZeroNegativeOf(n);
    BinaryByteStep(AddOp, n, r, Imm(1, 8), m);
    WriteThenZeroNegative(n, m, first, k);
  }

  /** `inx` and `iny` step X and Y up by one, wrapping from 0xFF to 0. */
  lemma IncIndexEffect(m: Machine)
    ensures var kx := (m.x + 1) % 0x100;
            var ky := (m.y + 1) % 0x100;
            Exec(Inx(), m) == m.(x := kx, z := Flag(kx == 0), n := Flag(kx >= 0x80))
            && Exec(Iny(), m) == m.(y := ky, z := Flag(ky == 0), n := Flag(ky >= 0x80))
  {
    InxEffect(m);
    InyEffect(m);
  }

  lemma InxEffect(m: Machine)
    ensures var k := (m.x + 1) % 0x100;
            Exec(Inx(), m) == m.(x := k, z := Flag(k == 0), n := Flag(k >= 0x80))
  {
    IncEffect(X, Reg(X, 8), m);
    assert Put(m, X, (m.x + 1) % 0x100) == m.(x := (m.x + 1) % 0x100);
  }

  lemma InyEffect(m: Machine)
    ensures var k := (m.y + 1) % 0x100;
            Exec(Iny(), m) == m.(y := k, z := Flag(k == 0), n := Flag(k >= 0x80))
  {
    IncEffect(Y, Reg(Y, 8), m);
    assert Put(m, Y, (m.y + 1) % 0x100) == m.(y := (m.y + 1) % 0x100);
  }

  /** `ina r` sets A to the operand plus one, not A plus one. */
  lemma InaEffect(r: Rvalue, m: Machine)
    ensures var k := (Eval(r, m) + 1) % 0x100;
            Exec(Ina(r), m) == m.(a := k, z := Flag(k == 0), n := Flag(k >= 0x80))
  {
    IncEffect(A, r, m);
    assert Put(m, A, (Eval(r, m) + 1) % 0x100) == m.(a := (Eval(r, m) + 1) % 0x100);
  }

  /** `dec` into a byte register: the register becomes the operand minus one,
      modulo 256, and Z follows the new register. N is the sign bit of the
      operand read AFTER the write: the operand's old value when it is
      another location, the new value when it is the register itself. */
  lemma DecEffect(n: Name, r: Rvalue, m: Machine)
    requires ByteRegister(n) && SizeOf(r) == 8 && !Reads(r, Z)
    ensures var k := (Eval(r, m) - 1) % 0x100;
            var m1 := Put(m, n, k);
            Exec(Dec(LVariable(n, 8), r), m) == m1.(z := Flag(k == 0), n := Flag(Eval(r, m1) >= 0x80))
  {
    DecWith(n, r, m, (Eval(r, m) - 1) % 0x100);
  }

  lemma DecWith(n: Name, r: Rvalue, m: Machine, k: Byte)
    requires ByteRegister(n) && SizeOf(r) == 8 && !Reads(r, Z)
    requires k == (Eval(r, m) - 1) % 0x100
    ensures Exec(Dec(LVariable(n, 8), r), m) == Put(m, n, k).(z := Flag(k == 0), n := Flag(Eval(r, Put(m, n, k)) >= 0x80))
  {
    var first := Binary(SubOp, LVariable(n, 8), r, Imm(1, 8));
    assert Dec(LVariable(n, 8), r) == [first] + DecFlags(n, r);
    BinaryByteStep(SubOp, n, r, Imm(1, 8), m);
    DecComposed(n, r, m, first, k);
  }

  lemma DecComposed(n: Name, r: Rvalue, m: Machine, first: Stmt, k: Word)
    requires ByteRegister(n) && k < 0x100 && SizeOf(r) == 8 && !Reads(r, Z)
    requires Step(first, m) == Put(m, n, k)
    ensures var m1 := Put(m, n, k);
            Exec([first] + DecFlags(n, r), m) == m1.(z := Flag(k == 0), n := Flag(Eval(r, m1) >= 0x80))
  {
    ExecAppend([first], DecFlags(n, r), m);
    ExecOne([first], m);
    GetPutSame(m, n, k);
    DecFlagsEffect(n, r, Put(m, n, k), k);
  }

  /** The flag updates of `dec`: Z from the register, N from the operand. */
  function DecFlags(n: Name, r: Rvalue): seq<Stmt>
  {
    [ Compare(Eq, LVariable(Z, 1), Reg(n, 8), Imm(0, 8)),
      Compare(LtS, LVariable(N, 1), r, Imm(0, 8)) ]
  }

  lemma DecFlagsEffect(n: Name, r: Rvalue, m: Machine, k: Word)
    requires ByteRegister(n) && Get(m, n) == k
    requires SizeOf(r) == 8 && !Reads(r, Z)
    ensures Exec(DecFlags(n, r), m) == m.(z := Flag(k == 0), n := Flag(Eval(r, m) >= 0x80))
  {
    ExecTwo(DecFlags(n, r), m);
    EvalByte(n, m);
    ZeroStep(Reg(n, 8), m);
    var m1 := m.(z := Flag(k == 0));
    EvalFrame(r, m, Z, Flag(k == 0));
    assert Put(m, Z, Flag(k == 0)) == m1;
    NegativeStep(r, m1);
  }

  /** `dex` and `dey` therefore take N from the decremented register. */
  lemma DecIndexEffect(m: Machine)
    ensures var kx := (m.x - 1) % 0x100;
            var ky := (m.y - 1) % 0x100;
            Exec(Dex(), m) == m.(x := kx, z := Flag(kx == 0), n := Flag(kx >= 0x80))
            && Exec(Dey(), m) == m.(y := ky, z := Flag(ky == 0), n := Flag(ky >= 0x80))
  {
    DexEffect(m);
    DeyEffect(m);
  }

  lemma DexEffect(m: Machine)
    ensures var k := (m.x - 1) % 0x100;
            Exec(Dex(), m) == m.(x := k, z := Flag(k == 0), n := Flag(k >= 0x80))
  {
    var k := (m.x - 1) % 0x100;
    EvalByte(X, m);
    DecWith(X, Reg(X, 8), m, k);
    assert Put(m, X, k) == m.(x := k);
  }

  lemma DeyEffect(m: Machine)
    ensures var k := (m.y - 1) % 0x100;
            Exec(Dey(), m) == m.(y := k, z := Flag(k == 0), n := Flag(k >= 0x80))
  {
    var k := (m.y - 1) % 0x100;
    EvalByte(Y, m);
    DecWith(Y, Reg(Y, 8), m, k);
    assert Put(m, Y, k) == m.(y := k);
  }

  /** `dea` on an operand other than A takes N from the operand as it was
      before the decrement, not from the new A. */
  lemma DeaOperandSign(r: Rvalue, m: Machine)
    requires SizeOf(r) == 8 && !Reads(r, Z) && !Reads(r, A)
    ensures Exec(Dea(r), m).n == Flag(Eval(r, m) >= 0x80)
    ensures Exec(Dea(r), m).a == (Eval(r, m) - 1) % 0x100
  {
    DecEffect(A, r, m);
    EvalFrame(r, m, A, (Eval(r, m) - 1) % 0x100);
  }

  // ---------------------------------------------------------------------
  // Loads and transfers

  /** `ld` into a byte register: the register takes the operand's low byte,
      and Z and N follow it. */
  lemma LdEffect(n: Name, r: Rvalue, m: Machine)
    requires ByteRegister(n)
    ensures var k := Eval(r, m) % 0x100;
            Exec(Ld(LVariable(n, 8), r), m) == Put(m, n, k).(z := Flag(k == 0), n := Flag(k >= 0x80))
  {
    var k := Eval(r, m) % 0x100;
    var first := Mov(LVariable(n, 8), r);
    assert Ld(LVariable(n, 8), r) == [first] + ZeroNegativeOf(n);
    MovByteStep(n, r, m);
    WriteThenZeroNegative(n, m, first, k);
  }

  /** `lda`, `ldx` and `ldy` load a byte operand into A, X and Y. */
  lemma LoadRegisterEffect(r: Rvalue, m: Machine)
    ensures var k := Eval(r, m) % 0x100;
            Exec(Lda(r), m) == m.(a := k, z := Flag(k == 0), n := Flag(k >= 0x80))
            && Exec(Ldx(r), m) == m.(x := k, z := Flag(k == 0), n := Flag(k >= 0x80))
            && Exec(Ldy(r), m) == m.(y := k, z := Flag(k == 0), n := Flag(k >= 0x80))
  {
    LdEffect(A, r, m);
    LdEffect(X, r, m);
    LdEffect(Y, r, m);
  }

  /** `trr src, dst` between byte registers copies src into dst, and Z and N
      follow the copied value. */
  lemma TrrEffect(src: Name, dst: Name, m: Machine)
    requires ByteRegister(src) && ByteRegister(dst)
    ensures var k := Get(m, src);
            Exec(Trr(LVariable(src, 8), LVariable(dst, 8)), m) == Put(m, dst, k).(z := Flag(k == 0), n := Flag(k >= 0x80))
  {
    var k := Get(m, src);
    var first := Mov(LVariable(dst, 8), Reg(src, 8));
    assert Trr(LVariable(src, 8), LVariable(dst, 8)) == [first] + ZeroNegativeOf(dst);
    EvalByte(src, m);
    MovByteStep(dst, Reg(src, 8), m);
    WriteThenZeroNegative(dst, m, first, k);
  }

  /** The six transfers. `txs` sets Z and N like the others. */
  lemma TransferEffect(m: Machine)
    ensures Exec(Tax(), m) == m.(x := m.a, z := Flag(m.a == 0), n := Flag(m.a >= 0x80))
    ensures Exec(Tay(), m) == m.(y := m.a, z := Flag(m.a == 0), n := Flag(m.a >= 0x80))
    ensures Exec(Tsx(), m) == m.(x := m.s, z := Flag(m.s == 0), n := Flag(m.s >= 0x80))
    ensures Exec(Txa(), m) == m.(a := m.x, z := Flag(m.x == 0), n := Flag(m.x >= 0x80))
    ensures Exec(Txs(), m) == m.(s := m.x, z := Flag(m.x == 0), n := Flag(m.x >= 0x80))
    ensures Exec(Tya(), m) == m.(a := m.y, z := Flag(m.y == 0), n := Flag(m.y >= 0x80))
  {
    TrrEffect(A, X, m);
    TrrEffect(A, Y, m);
    TrrEffect(S, X, m);
    TrrEffect(X, A, m);
    TrrEffect(X, S, m);
    TrrEffect(Y, A, m);
  }
}
