/** The effect of single statements of the shapes the routines use, in closed
    form. Chaining these keeps each routine's proof a short list of steps. */
module Steps {
  import opened Core
  import opened Bits
  import opened Evaluator

  lemma WrapMod(k: int, p: nat)
    requires p >= 1
    ensures Wrap(k, p) == k % p
  {
  }

  /** A byte register read whole. */
  lemma EvalByte(n: Name, m: Machine)
    requires ByteRegister(n)
    ensures Eval(Reg(n, 8), m) == Get(m, n) < 0x100
  {
  }

  /** `mov f:1, [k]:1`. */
  lemma SetFlagStep(f: Name, k: nat, m: Machine)
    requires FlagName(f) && k < 2
    ensures Step(Mov(LVariable(f, 1), Imm(k, 1)), m) == Put(m, f, k)
  {
  }

  /** `mov d:1, n:1/j`: one bit of a location copied into a flag or temporary. */
  lemma MovBitStep(d: Name, n: Name, j: nat, m: Machine)
    requires FlagName(d) || d.Temp?
    requires j < 16
    ensures Step(Mov(LVariable(d, 1), Variable(n, 1, j)), m) == Put(m, d, BitAt(Get(m, n), j))
  {
    EvalBit(n, j, m);
  }

  /** Reading `n:1/j` gives bit `j` of `n`. */
  lemma EvalBit(n: Name, j: nat, m: Machine)
    requires j < 16
    ensures Eval(Variable(n, 1, j), m) == BitAt(Get(m, n), j)
  {
    var k := Get(m, n);
    BitAtDiv(k, j);
    assert Eval(Variable(n, 1, j), m) == Trunc(if j == 0 then k else k / Pow2(j), 1);
  }

  /** `l.extract(1, j)` on a location at least `j + 1` bits wide exists and
      reads bit `j` of that location. */
  lemma ExtractBit(l: Lvalue, j: nat, m: Machine)
    requires l.LVariable? && j < l.size && j < 16
    ensures Extract(l, 1, j).Some?
    ensures Eval(Extract(l, 1, j).value, m) == BitAt(Get(m, l.name), j)
  {
    EvalBit(l.name, j, m);
  }

  /** `cmpeq Z:1, x, [0]:8` and `cmpeq Z:1, [0]:8, x`. */
  lemma ZeroStep(x: Rvalue, m: Machine)
    ensures Step(Compare(Eq, LVariable(Z, 1), x, Imm(0, 8)), m) == m.(z := Flag(Eval(x, m) == 0))
    ensures Step(Compare(Eq, LVariable(Z, 1), Imm(0, 8), x), m) == m.(z := Flag(Eval(x, m) == 0))
  {
  }

  /** `cmplts N:1, x, [0]:8` on a byte: N is bit 7. */
  lemma NegativeStep(x: Rvalue, m: Machine)
    requires SizeOf(x) == 8
    ensures Step(Compare(LtS, LVariable(N, 1), x, Imm(0, 8)), m) == m.(n := Flag(Eval(x, m) >= 0x80))
  {
  }

  /** `cmples N:1, x, [0]:8` on a byte: N is bit 7, or the byte is zero. */
  lemma NonPositiveStep(x: Rvalue, m: Machine)
    requires SizeOf(x) == 8
    ensures Step(Compare(LeS, LVariable(N, 1), x, Imm(0, 8)), m) == m.(n := Flag(Eval(x, m) == 0 || Eval(x, m) >= 0x80))
  {
  }

  /** A binary operation into a byte register. */
  lemma BinaryByteStep(op: BinOp, n: Name, x: Rvalue, y: Rvalue, m: Machine)
    requires ByteRegister(n)
    ensures Step(Binary(op, LVariable(n, 8), x, y), m) == Put(m, n, ApplyBinary(op, Eval(x, m), Eval(y, m)) % 0x100)
  {
  }

  /** A move into a byte register. */
  lemma MovByteStep(n: Name, x: Rvalue, m: Machine)
    requires ByteRegister(n)
    ensures Step(Mov(LVariable(n, 8), x), m) == Put(m, n, Eval(x, m) % 0x100)
  {
    TruncMod(Eval(x, m), 8);
    assert Pow2(8) == 0x100;
  }

  /** A binary operation into a temporary of `size` bits. */
  lemma BinaryTempStep(op: BinOp, t: TempName, size: nat, x: Rvalue, y: Rvalue, m: Machine)
    requires size <= 16
    ensures Step(Binary(op, LVariable(Temp(t), size), x, y), m)
            == m.(temps := m.temps[t := ApplyBinary(op, Eval(x, m), Eval(y, m)) % Pow2(size)])
  {
    TruncMod(ApplyBinary(op, Eval(x, m), Eval(y, m)), size);
  }

  /** Truncation to `size` bits is the remainder modulo 2^size. */
  lemma TruncMod(k: int, size: nat)
    requires size <= 16
    ensures Trunc(k, size) == k % Pow2(size) < 0x1_0000
  {
    assert Pow2(size) <= 0x1_0000;
  }

  /** `shl n:8, n:8, [1]:8` and `shr n:8, n:8, [1]:8` on a byte register. */
  lemma ShiftOneStep(n: Name, m: Machine)
    requires ByteRegister(n)
    ensures Step(Binary(ShlOp, LVariable(n, 8), Reg(n, 8), Imm(1, 8)), m) == Put(m, n, 2 * Get(m, n) % 0x100)
    ensures Step(Binary(ShrOp, LVariable(n, 8), Reg(n, 8), Imm(1, 8)), m) == Put(m, n, Get(m, n) / 2)
  {
  }

  /** Reading back a byte register just written. */
  lemma GetPutSame(m: Machine, n: Name, k: Word)
    requires ByteRegister(n) && k < 0x100
    ensures Get(Put(m, n, k), n) == k
  {
  }

  /** A second write to a byte register hides the first. */
  lemma PutPutSame(m: Machine, n: Name, k1: Word, k2: Word)
    requires ByteRegister(n)
    ensures Put(Put(m, n, k1), n, k2) == Put(m, n, k2)
  {
  }

  /** A write to a byte register leaves the carry as it was. */
  lemma CarryPut(m: Machine, n: Name, k: Word)
    requires ByteRegister(n)
    ensures Put(m, n, k).c == m.c
  {
  }

  /** `sel/7 n:8, C:1` on a byte register: bit 7 replaced by the carry. */
  lemma SelByteStep(n: Name, m: Machine)
    requires ByteRegister(n)
    ensures Step(Sel(7, LVariable(n, 8), Reg(C, 1)), m) == Put(m, n, Get(m, n) % 0x80 + 0x80 * m.c)
  {
    SetTopBit(Get(m, n), m.c);
    assert Eval(Reg(C, 1), m) == m.c;
  }

  /** Bit 7 of a byte replaced by a one-bit value. */
  lemma SetTopBit(k: Word, c: OneBit)
    requires k < 0x100
    ensures SetBit(k, 7, c) == k % 0x80 + 0x80 * c < 0x100
  {
    SetBitTop(k, 7, c);
    var p := Pow2(7);
    assert p == 0x80;
    var lo := k % p;
    assert lo < 0x80;
    if c == 0 {
      assert SetBit(k, 7, c) == lo;
    } else {
      assert SetBit(k, 7, c) == lo + 0x80;
    }
  }

  /** `sel/7 n:8, C:1` right after `n` was written with the byte `w`. */
  lemma SelCarryAfterPut(n: Name, m: Machine, w: Word)
    requires ByteRegister(n) && w < 0x100
    ensures Step(Sel(7, LVariable(n, 8), Reg(C, 1)), Put(m, n, w)) == Put(m, n, w % 0x80 + 0x80 * m.c)
  {
    GetPutSame(m, n, w);
    CarryPut(m, n, w);
    SelByteStep(n, Put(m, n, w));
    PutPutSame(m, n, w, w % 0x80 + 0x80 * m.c);
  }

  /** A write to a byte register commutes with replacing the temporaries. */
  lemma PutTemps(m: Machine, n: Name, k: Word, t: map<TempName, Word>)
    requires ByteRegister(n)
    ensures Put(m.(temps := t), n, k) == Put(m, n, k).(temps := t)
  {
  }

  /** `shl A:8, A:8, r`: the accumulator shifted left by the operand's value. */
  lemma ShiftAccumulatorStep(r: Rvalue, m: Machine)
    ensures Step(Binary(ShlOp, LVariable(A, 8), Reg(A, 8), r), m) == m.(a := m.a * Pow2(Eval(r, m)) % 0x100)
  {
    BinaryByteStep(ShlOp, A, Reg(A, 8), r, m);
  }

  /** `and res:8, A:8, r`. */
  lemma AndResStep(r: Rvalue, m: Machine)
    ensures var k := BitAnd(m.a, Eval(r, m));
            k < 0x100 && Step(Binary(AndOp, LVariable(Temp(Res), 8), Reg(A, 8), r), m) == m.(temps := m.temps[Res := k])
  {
    BitAndBound(m.a, Eval(r, m));
  }

  /** The temporary `res`, read as a byte, after `k` was written to it. */
  lemma EvalRes(m: Machine, k: Word)
    requires k < 0x100
    ensures Eval(Reg(Temp(Res), 8), m.(temps := m.temps[Res := k])) == k
  {
  }
}
