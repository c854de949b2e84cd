/** `adc` and `sbc` in binary mode: the sum with carry, and the flags the
    lifter derives from it. */
module ArithProps {
  import opened Core
  import opened Bits
  import opened Evaluator
  import opened Semantic
  import opened Steps

  // ---------------------------------------------------------------------
  // Single statements

  /** `and` of two one-bit values is their conjunction. */
  lemma BitAndFlags(x: nat, y: nat)
    requires x < 2 && y < 2
    ensures BitAnd(x, y) == Flag(x == 1 && y == 1)
  {
  }

  /** A one-bit comparison into a temporary. */
  lemma CompareTempStep(op: CmpOp, t: TempName, x: Rvalue, y: Rvalue, m: Machine)
    ensures Step(Compare(op, LVariable(Temp(t), 1), x, y), m)
            == m.(temps := m.temps[t := Flag(Holds(op, Eval(x, m), Eval(y, m), SizeOf(x)))])
  {
  }

  /** `and t:1, t:1, C:1`. */
  lemma AndCarryStep(t: TempName, m: Machine, b: OneBit)
    requires Get(m, Temp(t)) == b
    ensures Step(Binary(AndOp, LVariable(Temp(t), 1), Reg(Temp(t), 1), Reg(C, 1)), m)
            == m.(temps := m.temps[t := Flag(b == 1 && m.c == 1)])
  {
    BitAndFlags(b, m.c);
  }

  /** `and f:1, t1:1, t2:1` into a flag. */
  lemma AndFlagStep(f: Name, t1: TempName, t2: TempName, m: Machine, b1: OneBit, b2: OneBit)
    requires f == C || f == V
    requires Get(m, Temp(t1)) == b1 && Get(m, Temp(t2)) == b2
    ensures Step(Binary(AndOp, LVariable(f, 1), Reg(Temp(t1), 1), Reg(Temp(t2), 1)), m)
            == Put(m, f, Flag(b1 == 1 && b2 == 1))
  {
    BitAndFlags(b1, b2);
  }

  // ---------------------------------------------------------------------
  // The sum

  /** Reducing modulo 256 before adding the carry changes nothing. */
  lemma ModThenAdd(u: int, c: OneBit)
    ensures (u % 0x100 + c) % 0x100 == (u + c) % 0x100
  {
  }

  /** `zext/8 carry:8, C:1`. */
  lemma WidenCarryStep(m: Machine)
    ensures Step(ZExt(8, LVariable(Temp(Carry), 8), Reg(C, 1)), m) == m.(temps := m.temps[Carry := m.c])
  {
  }

  /** `add res:8, A:8, r` or `sub res:8, A:8, r`. */
  lemma OperandStep(op: BinOp, r: Rvalue, m: Machine)
    requires op == AddOp || op == SubOp
    ensures var x := Eval(r, m);
            Step(Binary(op, LVariable(Temp(Res), 8), Reg(A, 8), r), m)
            == m.(temps := m.temps[Res := (if op == AddOp then m.a + x else m.a - x) % 0x100])
  {
    BinaryTempStep(op, Res, 8, Reg(A, 8), r, m);
  }

  /** `add res:8, res:8, carry:8`. */
  lemma AddCarryStep(m: Machine, k: Word, c: OneBit)
    requires Get(m, Temp(Res)) == k && k < 0x100 && Get(m, Temp(Carry)) == c
    ensures Step(Binary(AddOp, LVariable(Temp(Res), 8), Res8(), Reg(Temp(Carry), 8)), m)
            == m.(temps := m.temps[Res := (k + c) % 0x100])
  {
    BinaryTempStep(AddOp, Res, 8, Res8(), Reg(Temp(Carry), 8), m);
  }

  /** The first three statements leave `res` = A + r + C (`adc`) or
      A - r + C (`sbc`), modulo 256, and the carry in `carry`. */
  lemma SumEffect(op: BinOp, r: Rvalue, m: Machine, u: int, k: Byte)
    requires op == AddOp || op == SubOp
    requires !Reads(r, Temp(Carry))
    requires u == (if op == AddOp then m.a + Eval(r, m) else m.a - Eval(r, m)) && k == (u + m.c) % 0x100
    ensures Exec(SumWithCarry(op, r), m) == m.(temps := m.temps[Carry := m.c][Res := k])
  {
    var m1 := m.(temps := m.temps[Carry := m.c]);
    SumSplit(op, r, m, m1);
    SumFrom(op, r, m, m1, u);
  }

  /** The carry widened, then the two additions still to run. */
  lemma SumSplit(op: BinOp, r: Rvalue, m: Machine, m1: Machine)
    requires m1 == m.(temps := m.temps[Carry := m.c])
    ensures Exec(SumWithCarry(op, r), m)
            == Step(Binary(AddOp, LVariable(Temp(Res), 8), Res8(), Reg(Temp(Carry), 8)),
                    Step(Binary(op, LVariable(Temp(Res), 8), Reg(A, 8), r), m1))
  {
    ExecThree(SumWithCarry(op, r), m);
    WidenCarryStep(m);
  }

  lemma SumFrom(op: BinOp, r: Rvalue, m: Machine, m1: Machine, u: int)
    requires op == AddOp || op == SubOp
    requires !Reads(r, Temp(Carry))
    requires m1 == m.(temps := m.temps[Carry := m.c])
    requires u == if op == AddOp then m.a + Eval(r, m) else m.a - Eval(r, m)
    ensures Step(Binary(AddOp, LVariable(Temp(Res), 8), Res8(), Reg(Temp(Carry), 8)),
                 Step(Binary(op, LVariable(Temp(Res), 8), Reg(A, 8), r), m1))
            == m.(temps := m.temps[Carry := m.c][Res := (u + m.c) % 0x100])
  {
    OperandAfterCarry(op, r, m, m1, u);
    CarryIntoRes(m, m1, u);
  }

  /** The operand step reads `r` as before the carry was widened. */
  lemma OperandAfterCarry(op: BinOp, r: Rvalue, m: Machine, m1: Machine, u: int)
    requires op == AddOp || op == SubOp
    requires !Reads(r, Temp(Carry))
    requires m1 == m.(temps := m.temps[Carry := m.c])
    requires u == if op == AddOp then m.a + Eval(r, m) else m.a - Eval(r, m)
    ensures Step(Binary(op, LVariable(Temp(Res), 8), Reg(A, 8), r), m1) == m1.(temps := m1.temps[Res := u % 0x100])
  {
    EvalFrame(r, m, Temp(Carry), m.c);
    assert Put(m, Temp(Carry), m.c) == m1;
    OperandStep(op, r, m1);
  }

  lemma CarryIntoRes(m: Machine, m1: Machine, u: int)
    requires m1 == m.(temps := m.temps[Carry := m.c])
    ensures Step(Binary(AddOp, LVariable(Temp(Res), 8), Res8(), Reg(Temp(Carry), 8)), m1.(temps := m1.temps[Res := u % 0x100]))
            == m.(temps := m.temps[Carry := m.c][Res := (u + m.c) % 0x100])
  {
    var m2 := m1.(temps := m1.temps[Res := u % 0x100]);
    AddCarryStep(m2, u % 0x100, m.c);
    ModThenAdd(u, m.c);
    assert m2.temps[Res := (u + m.c) % 0x100] == m.temps[Carry := m.c][Res := (u + m.c) % 0x100];
  }

  // ---------------------------------------------------------------------
  // The flags

  /** `res` read back as a byte. */
  lemma EvalResByte(m: Machine, k: Word)
    requires Get(m, Temp(Res)) == k && k < 0x100
    ensures Eval(Res8(), m) == k
  {
  }

  /** `t2 := t2 & C`, right after `t1 := h` and `t2 := e`. */
  lemma MaskPair(t1: TempName, t2: TempName, m0: Machine, h: OneBit, e: OneBit)
    requires t1 != t2
    ensures Step(Binary(AndOp, LVariable(Temp(t2), 1), Reg(Temp(t2), 1), Reg(C, 1)), m0.(temps := m0.temps[t1 := h][t2 := e]))
            == m0.(temps := m0.temps[t1 := h][t2 := Flag(e == 1 && m0.c == 1)])
  {
    var m := m0.(temps := m0.temps[t1 := h][t2 := e]);
    AndCarryStep(t2, m, e);
    assert m.temps[t2 := Flag(e == 1 && m0.c == 1)] == m0.temps[t1 := h][t2 := Flag(e == 1 && m0.c == 1)];
  }

  /** `f := t1 & t2` where `t2` implies `t1`: the flag becomes `t2`. */
  lemma JoinPair(t1: TempName, t2: TempName, f: Name, m0: Machine, h: OneBit, b: OneBit)
    requires t1 != t2 && (f == C || f == V) && (b == 1 ==> h == 1)
    ensures var m1 := m0.(temps := m0.temps[t1 := h][t2 := b]);
            Step(Binary(AndOp, LVariable(f, 1), Reg(Temp(t1), 1), Reg(Temp(t2), 1)), m1) == Put(m1, f, b)
  {
    AndFlagStep(f, t1, t2, m0.(temps := m0.temps[t1 := h][t2 := b]), h, b);
  }

  /** `t1 := res op A` and `t2 := res == A`, one statement at a time. */
  lemma CompareResSteps(op: CmpOp, t1: TempName, t2: TempName, m: Machine, k: Word)
    requires t1 != Res && t2 != Res
    requires Get(m, Temp(Res)) == k && k < 0x100
    ensures var m1 := m.(temps := m.temps[t1 := Flag(Holds(op, k, m.a, 8))]);
            Step(Compare(op, LVariable(Temp(t1), 1), Res8(), Reg(A, 8)), m) == m1
            && Step(Compare(Eq, LVariable(Temp(t2), 1), Res8(), Reg(A, 8)), m1)
               == m.(temps := m.temps[t1 := Flag(Holds(op, k, m.a, 8))][t2 := Flag(k == m.a)])
  {
    EvalResByte(m, k);
    CompareTempStep(op, t1, Res8(), Reg(A, 8), m);
    var m1 := m.(temps := m.temps[t1 := Flag(Holds(op, k, m.a, 8))]);
    EvalResByte(m1, k);
    CompareTempStep(Eq, t2, Res8(), Reg(A, 8), m1);
  }

  /** C := (res <= A unsigned) & (res == A) & C, which is (res == A) & C. */
  lemma CarryGroupEffect(m: Machine, k: Word)
    requires Get(m, Temp(Res)) == k && k < 0x100
    ensures var both := Flag(k == m.a && m.c == 1);
            Exec(CarryOfRes(), m) == m.(temps := m.temps[C1 := Flag(k <= m.a)][C2 := both], c := both)
  {
    ExecFour(CarryOfRes(), m);
    CompareResSteps(LeU, C1, C2, m, k);
    MaskPair(C1, C2, m, Flag(k <= m.a), Flag(k == m.a));
    JoinPair(C1, C2, C, m, Flag(k <= m.a), Flag(k == m.a && m.c == 1));
  }

  /** V := (res <= A signed) & (res == A) & C, which is (res == A) & C. */
  lemma OverflowGroupEffect(m: Machine, k: Word)
    requires Get(m, Temp(Res)) == k && k < 0x100
    ensures var both := Flag(k == m.a && m.c == 1);
            Exec(OverflowOfRes(), m) == m.(temps := m.temps[V1 := Flag(Holds(LeS, k, m.a, 8))][V2 := both], v := both)
  {
    ExecFour(OverflowOfRes(), m);
    CompareResSteps(LeS, V1, V2, m, k);
    MaskPair(V1, V2, m, Flag(Holds(LeS, k, m.a, 8)), Flag(k == m.a));
    JoinPair(V1, V2, V, m, Flag(Holds(LeS, k, m.a, 8)), Flag(k == m.a && m.c == 1));
  }

  /** Z from `res`, then C. */
  lemma FlagsFirstEffect(m: Machine, k: Word)
    requires Get(m, Temp(Res)) == k && k < 0x100
    ensures var both := Flag(k == m.a && m.c == 1);
            Exec(ZeroOfRes() + CarryOfRes(), m)
            == m.(z := Flag(k == 0), temps := m.temps[C1 := Flag(k <= m.a)][C2 := both], c := both)
  {
    ExecAppend(ZeroOfRes(), CarryOfRes(), m);
    ExecOne(ZeroOfRes(), m);
    EvalResByte(m, k);
    ZeroStep(Res8(), m);
    CarryGroupEffect(m.(z := Flag(k == 0)), k);
  }

  /** N from `res` (`cmples`: set for zero too), then V, then A := res. */
  lemma FlagsSecondEffect(m: Machine, k: Word)
    requires Get(m, Temp(Res)) == k && k < 0x100
    ensures var both := Flag(k == m.a && m.c == 1);
            Exec(NegativeOfRes() + (OverflowOfRes() + ResToA()), m)
            == m.(n := Flag(k == 0 || k >= 0x80), temps := m.temps[V1 := Flag(Holds(LeS, k, m.a, 8))][V2 := both], v := both, a := k)
  {
    ExecAppend(NegativeOfRes(), OverflowOfRes() + ResToA(), m);
    ExecOne(NegativeOfRes(), m);
    EvalResByte(m, k);
    NonPositiveStep(Res8(), m);
    OverflowThenMove(m.(n := Flag(k == 0 || k >= 0x80)), k);
  }

  /** V, then A := res. */
  lemma OverflowThenMove(m: Machine, k: Word)
    requires Get(m, Temp(Res)) == k && k < 0x100
    ensures var both := Flag(k == m.a && m.c == 1);
            Exec(OverflowOfRes() + ResToA(), m)
            == m.(temps := m.temps[V1 := Flag(Holds(LeS, k, m.a, 8))][V2 := both], v := both, a := k)
  {
    ExecAppend(OverflowOfRes(), ResToA(), m);
    OverflowGroupEffect(m, k);
    var both := Flag(k == m.a && m.c == 1);
    MoveRes(m.(temps := m.temps[V1 := Flag(Holds(LeS, k, m.a, 8))][V2 := both], v := both), k);
  }

  /** `mov A:8, res:8`. */
  lemma MoveRes(m: Machine, k: Word)
    requires Get(m, Temp(Res)) == k && k < 0x100
    ensures Exec(ResToA(), m) == m.(a := k)
  {
    ExecOne(ResToA(), m);
    EvalResByte(m, k);
    MovByteStep(A, Res8(), m);
  }

  lemma FlagsShape()
    ensures FlagsOfRes() == (ZeroOfRes() + CarryOfRes()) + (NegativeOfRes() + (OverflowOfRes() + ResToA()))
  {
  }

  /** The tail shared by `adc` and `sbc`, from `res` = k: Z when k is zero,
      C and V both set exactly when k equals A and C was set, N for k zero
      or negative, and A := k. */
  lemma FlagsEffect(m: Machine, k: Word)
    requires Get(m, Temp(Res)) == k && k < 0x100
    ensures var both := Flag(k == m.a && m.c == 1);
            Arch(Exec(FlagsOfRes(), m))
            == Arch(m.(a := k, z := Flag(k == 0), c := both, n := Flag(k == 0 || k >= 0x80), v := both))
  {
    FlagsShape();
    ExecAppend(ZeroOfRes() + CarryOfRes(), NegativeOfRes() + (OverflowOfRes() + ResToA()), m);
    FlagsFirstEffect(m, k);
    FlagsFrom(m, k);
  }

  lemma FlagsFrom(m: Machine, k: Word)
    requires Get(m, Temp(Res)) == k && k < 0x100
    ensures var both := Flag(k == m.a && m.c == 1);
            var m1 := m.(z := Flag(k == 0), temps := m.temps[C1 := Flag(k <= m.a)][C2 := both], c := both);
            Arch(Exec(NegativeOfRes() + (OverflowOfRes() + ResToA()), m1))
            == Arch(m.(a := k, z := Flag(k == 0), c := both, n := Flag(k == 0 || k >= 0x80), v := both))
  {
    var both := Flag(k == m.a && m.c == 1);
    var m1 := m.(z := Flag(k == 0), temps := m.temps[C1 := Flag(k <= m.a)][C2 := both], c := both);
    FlagsSecondEffect(m1, k);
    assert Flag(k == m.a && both == 1) == both;
  }

  // ---------------------------------------------------------------------
  // The instructions

  /** `adc r`: A becomes A + r + C modulo 256. Z is set for a zero result and
      N for a zero or negative one; C and V are both set exactly when the
      result equals the old A and C was set. No other register changes. */
  lemma AdcEffect(r: Rvalue, m: Machine)
    requires !Reads(r, Temp(Carry))
    ensures var k := (m.a + Eval(r, m) + m.c) % 0x100;
            var both := Flag(k == m.a && m.c == 1);
            Arch(Exec(Adc(r), m))
            == Arch(m.(a := k, z := Flag(k == 0), c := both, n := Flag(k == 0 || k >= 0x80), v := both))
  {
    AdcWith(r, m, (m.a + Eval(r, m) + m.c) % 0x100);
  }

  lemma AdcWith(r: Rvalue, m: Machine, k: Byte)
    requires !Reads(r, Temp(Carry))
    requires k == (m.a + Eval(r, m) + m.c) % 0x100
    ensures var both := Flag(k == m.a && m.c == 1);
            Arch(Exec(Adc(r), m))
            == Arch(m.(a := k, z := Flag(k == 0), c := both, n := Flag(k == 0 || k >= 0x80), v := both))
  {
    SumEffect(AddOp, r, m, m.a + Eval(r, m), k);
    AdcFrom(r, m, k);
    ExecAppend(SumWithCarry(AddOp, r), FlagsOfRes(), m);
  }

  lemma AdcFrom(r: Rvalue, m: Machine, k: Word)
    requires k == (m.a + Eval(r, m) + m.c) % 0x100
    ensures var both := Flag(k == m.a && m.c == 1);
            Arch(Exec(FlagsOfRes(), m.(temps := m.temps[Carry := m.c][Res := k])))
            == Arch(m.(a := k, z := Flag(k == 0), c := both, n := Flag(k == 0 || k >= 0x80), v := both))
  {
    FlagsEffect(m.(temps := m.temps[Carry := m.c][Res := k]), k);
  }

  /** `sbc r`: A becomes A - r + C modulo 256, with the flags of `adc`. */
  lemma SbcEffect(r: Rvalue, m: Machine)
    requires !Reads(r, Temp(Carry))
    ensures var k := (m.a - Eval(r, m) + m.c) % 0x100;
            var both := Flag(k == m.a && m.c == 1);
            Arch(Exec(Sbc(r), m))
            == Arch(m.(a := k, z := Flag(k == 0), c := both, n := Flag(k == 0 || k >= 0x80), v := both))
  {
    SbcWith(r, m, (m.a - Eval(r, m) + m.c) % 0x100);
  }

  lemma SbcWith(r: Rvalue, m: Machine, k: Byte)
    requires !Reads(r, Temp(Carry))
    requires k == (m.a - Eval(r, m) + m.c) % 0x100
    ensures var both := Flag(k == m.a && m.c == 1);
            Arch(Exec(Sbc(r), m))
            == Arch(m.(a := k, z := Flag(k == 0), c := both, n := Flag(k == 0 || k >= 0x80), v := both))
  {
    SumEffect(SubOp, r, m, m.a - Eval(r, m), k);
    SbcFrom(r, m, k);
    ExecAppend(SumWithCarry(SubOp, r), FlagsOfRes(), m);
  }

  lemma SbcFrom(r: Rvalue, m: Machine, k: Word)
    requires k == (m.a - Eval(r, m) + m.c) % 0x100
    ensures var both := Flag(k == m.a && m.c == 1);
            Arch(Exec(FlagsOfRes(), m.(temps := m.temps[Carry := m.c][Res := k])))
            == Arch(m.(a := k, z := Flag(k == 0), c := both, n := Flag(k == 0 || k >= 0x80), v := both))
  {
    FlagsEffect(m.(temps := m.temps[Carry := m.c][Res := k]), k);
  }

  /** With the carry in, A + x + 1 wraps back to A exactly when x is 0xFF
      modulo 256; A - x + 1 does when x is 1 modulo 256. */
  lemma BackToA(a: Byte, x: int)
    ensures (a + x + 1) % 0x100 == a <==> x % 0x100 == 0xFF
    ensures (a - x + 1) % 0x100 == a <==> x % 0x100 == 1
  {
  }

  /** The condition both flags take, in terms of the inputs. */
  lemma CarryMeaning(a: Byte, x: int, c: OneBit)
    ensures ((a + x + c) % 0x100 == a && c == 1) <==> (c == 1 && x % 0x100 == 0xFF)
    ensures ((a - x + c) % 0x100 == a && c == 1) <==> (c == 1 && x % 0x100 == 1)
  {
    if c == 1 {
      BackToA(a, x);
    }
  }

  /** What the flags after `adc` mean in terms of the inputs: C is set only
      when C was set and the operand is 0xFF modulo 256 (so `adc` never sets
      a clear carry), V always equals C, Z says the new A is zero and N says
      it is zero or has bit 7 set. */
  lemma AdcFlagsMeaning(r: Rvalue, m: Machine)
    requires !Reads(r, Temp(Carry))
    ensures var m1 := Exec(Adc(r), m);
            (m1.c == 1 <==> m.c == 1 && Eval(r, m) % 0x100 == 0xFF)
            && m1.v == m1.c
            && (m1.z == 1 <==> m1.a == 0)
            && (m1.n == 1 <==> m1.a == 0 || m1.a >= 0x80)
            && m1.a == (m.a + Eval(r, m) + m.c) % 0x100
  {
    var k := (m.a + Eval(r, m) + m.c) % 0x100;
    AdcWith(r, m, k);
    AdcOutcome(Exec(Adc(r), m), m, Eval(r, m), k);
  }

  /** The same for `sbc`: C is set only when C was set and the operand is 1
      modulo 256, V equals C, and Z and N describe the new A. */
  lemma SbcFlagsMeaning(r: Rvalue, m: Machine)
    requires !Reads(r, Temp(Carry))
    ensures var m1 := Exec(Sbc(r), m);
            (m1.c == 1 <==> m.c == 1 && Eval(r, m) % 0x100 == 1)
            && m1.v == m1.c
            && (m1.z == 1 <==> m1.a == 0)
            && (m1.n == 1 <==> m1.a == 0 || m1.a >= 0x80)
            && m1.a == (m.a - Eval(r, m) + m.c) % 0x100
  {
    var k := (m.a - Eval(r, m) + m.c) % 0x100;
    SbcWith(r, m, k);
    SbcOutcome(Exec(Sbc(r), m), m, Eval(r, m), k);
  }

  /** The flags of an `adc` outcome in terms of the operand `x`. */
  lemma AdcOutcome(m1: Machine, m: Machine, x: Word, k: Byte)
    requires k == (m.a + x + m.c) % 0x100
    requires var both := Flag(k == m.a && m.c == 1);
             Arch(m1) == Arch(m.(a := k, z := Flag(k == 0), c := both, n := Flag(k == 0 || k >= 0x80), v := both))
    ensures (m1.c == 1 <==> m.c == 1 && x % 0x100 == 0xFF) && m1.v == m1.c
    ensures (m1.z == 1 <==> m1.a == 0) && (m1.n == 1 <==> m1.a == 0 || m1.a >= 0x80) && m1.a == k
  {
    CarryMeaning(m.a, x, m.c);
  }

  /** The flags of an `sbc` outcome in terms of the operand `x`. */
  lemma SbcOutcome(m1: Machine, m: Machine, x: Word, k: Byte)
    requires k == (m.a - x + m.c) % 0x100
    requires var both := Flag(k == m.a && m.c == 1);
             Arch(m1) == Arch(m.(a := k, z := Flag(k == 0), c := both, n := Flag(k == 0 || k >= 0x80), v := both))
    ensures (m1.c == 1 <==> m.c == 1 && x % 0x100 == 1) && m1.v == m1.c
    ensures (m1.z == 1 <==> m1.a == 0) && (m1.n == 1 <==> m1.a == 0 || m1.a >= 0x80) && m1.a == k
  {
    CarryMeaning(m.a, x, m.c);
  }

  /** Neither instruction writes X, Y, S, I, D, B or memory. */
  lemma ArithFrame(r: Rvalue, m: Machine)
    requires !Reads(r, Temp(Carry))
    ensures var m1 := Exec(Adc(r), m);
            var m2 := Exec(Sbc(r), m);
            m1.x == m.x && m1.y == m.y && m1.s == m.s && m1.i == m.i && m1.d == m.d && m1.b == m.b && m1.ram == m.ram
            && m2.x == m.x && m2.y == m.y && m2.s == m.s && m2.i == m.i && m2.d == m.d && m2.b == m.b && m2.ram == m.ram
  {
    AdcEffect(r, m);
    SbcEffect(r, m);
  }
}
