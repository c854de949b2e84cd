/** `adc` and `sbc` in binary mode compute the carry and the overflow flag
    as the same bit, which is set only when the result equals the old A and
    C was set. For each: a concrete input on which the statements as
    written lose the carry or subtract one too few, and a corrected
    statement list that adds in nine bits, with the intended carry,
    borrow and overflow proved about it. */
module CarryFindings {
  import opened Core
  import opened Bits
  import opened Evaluator
  import opened Semantic
  import opened Steps
  import opened ArithProps
  import opened StackProps

  // ---------------------------------------------------------------------
  // As written

  /** As written, `adc` with A = 0xFF, an operand of 1 and C clear leaves
      A = 0 and C clear: the carry out of 0xFF + 1 = 0x100 is lost. */
  lemma AdcDropsCarry(r: Rvalue, m: Machine)
    requires !Reads(r, Temp(Carry)) && m.a == 0xFF && Eval(r, m) == 1 && m.c == 0
    ensures Exec(Adc(r), m).a == 0 && Exec(Adc(r), m).c == 0
    ensures m.a + Eval(r, m) + m.c == 0x100
  {
    AdcFlagsMeaning(r, m);
  }

  /** As written, `adc` with A = 0x50, an operand of 0x50 and C clear gives
      A = 0xA0 with V clear, although 80 + 80 = 160 leaves the signed range. */
  lemma AdcMissesOverflow(r: Rvalue, m: Machine)
    requires !Reads(r, Temp(Carry)) && m.a == 0x50 && Eval(r, m) == 0x50 && m.c == 0
    ensures Exec(Adc(r), m).a == 0xA0 && Exec(Adc(r), m).v == 0 && Exec(Adc(r), m).n == 1
    ensures SignedAt(m.a, 8) + SignedAt(Eval(r, m), 8) + m.c > 0x7F
  {
    AdcFlagsMeaning(r, m);
  }

  /** As written, `sbc` with A = 5, an operand of 3 and C set (no borrow
      pending) leaves A = 3 where 5 - 3 = 2, and clears C although nothing
      was borrowed. */
  lemma SbcOneTooMany(r: Rvalue, m: Machine)
    requires !Reads(r, Temp(Carry)) && m.a == 5 && Eval(r, m) == 3 && m.c == 1
    ensures Exec(Sbc(r), m).a == 3 && Exec(Sbc(r), m).c == 0
    ensures m.a - Eval(r, m) - (1 - m.c) == 2
  {
    SbcFlagsMeaning(r, m);
  }

  // ---------------------------------------------------------------------
  // Corrected: A + addend + C in nine bits

  /** `res := A + addend + C` in nine bits. */
  function SumStmts(): seq<Stmt>
  {
    [ ZExt(9, LVariable(Temp(Carry), 9), Reg(C, 1)),
      ZExt(9, LVariable(Temp(Res), 9), Reg(A, 8)),
      Binary(AddOp, LVariable(Temp(Res), 9), Reg(Temp(Res), 9), Reg(Temp(Addend), 8)),
      Binary(AddOp, LVariable(Temp(Res), 9), Reg(Temp(Res), 9), Reg(Temp(Carry), 9)) ]
  }

  /** V: bit 7 of `(A ^ res) & (addend ^ res)`, set when both operands have
      the same sign and the result has the other. */
  function OverflowStmts(): seq<Stmt>
  {
    [ Binary(XorOp, LVariable(Temp(V1), 8), Reg(A, 8), Res8()),
      Binary(XorOp, LVariable(Temp(V2), 8), Reg(Temp(Addend), 8), Res8()),
      Binary(AndOp, LVariable(Temp(V1), 8), Reg(Temp(V1), 8), Reg(Temp(V2), 8)),
      Mov(LVariable(V, 1), BitOf(Temp(V1), 7)) ]
  }

  /** C from bit 8 of the sum, A from its low byte, then Z and N from A. */
  function ResultStmts(): seq<Stmt>
  {
    [ Mov(LVariable(C, 1), BitOf(Temp(Res), 8)),
      Mov(LVariable(A, 8), Res8()) ] + ZeroNegativeOfA()
  }

  function AddCore(): seq<Stmt>
  {
    SumStmts() + (OverflowStmts() + ResultStmts())
  }

  /** `adc` adds the operand itself. */
  function AdcCorrected(r: Rvalue): seq<Stmt>
  {
    [ Mov(LVariable(Temp(Addend), 8), r) ] + AddCore()
  }

  /** `sbc` adds the operand's ones' complement: A - r - (1 - C) is
      A + (0xFF - r) + C modulo 256. */
  function SbcCorrected(r: Rvalue): seq<Stmt>
  {
    [ Binary(SubOp, LVariable(Temp(Addend), 8), Imm(0xFF, 8), r) ] + AddCore()
  }

  /** The architectural state after adding the byte `w` and C to A. */
  function Added(m: Machine, w: Byte): Machine
  {
    var s := m.a + w + m.c;
    var k := s % 0x100;
    m.(a := k, c := s / 0x100,
       v := Flag(BitAt(m.a, 7) != BitAt(k, 7) && BitAt(w, 7) != BitAt(k, 7)),
       z := Flag(k == 0), n := Flag(k >= 0x80))
  }

  lemma SumSteps(m: Machine, w: Byte)
    requires Get(m, Temp(Addend)) == w
    ensures var ss := SumStmts();
            var m1 := m.(temps := m.temps[Carry := m.c]);
            var m2 := m1.(temps := m1.temps[Res := m.a]);
            var m3 := m2.(temps := m2.temps[Res := m.a + w]);
            Step(ss[0], m) == m1 && Step(ss[1], m1) == m2 && Step(ss[2], m2) == m3
            && Step(ss[3], m3) == m3.(temps := m3.temps[Res := m.a + w + m.c])
  {
    var m1 := m.(temps := m.temps[Carry := m.c]);
    var m2 := m1.(temps := m1.temps[Res := m.a]);
    ExtendSteps(m);
    AddSteps(m2, m.a, w, m.c);
  }

  /** The carry and A zero-extended to nine bits. */
  lemma ExtendSteps(m: Machine)
    ensures var ss := SumStmts();
            var m1 := m.(temps := m.temps[Carry := m.c]);
            Step(ss[0], m) == m1 && Step(ss[1], m1) == m1.(temps := m1.temps[Res := m.a])
  {
    assert Pow2(9) == 0x200;
  }

  /** The two nine-bit additions, from `res = a` and `carry = c`. */
  lemma AddSteps(m: Machine, a: Byte, w: Byte, c: OneBit)
    requires Get(m, Temp(Res)) == a && Get(m, Temp(Addend)) == w && Get(m, Temp(Carry)) == c
    ensures var ss := SumStmts();
            var m3 := m.(temps := m.temps[Res := a + w]);
            Step(ss[2], m) == m3 && Step(ss[3], m3) == m3.(temps := m3.temps[Res := a + w + c])
  {
    assert Pow2(9) == 0x200 && Pow2(8) == 0x100;
  }

  lemma SumEffect(m: Machine, w: Byte)
    requires Get(m, Temp(Addend)) == w
    ensures Exec(SumStmts(), m) == m.(temps := m.temps[Carry := m.c][Res := m.a + w + m.c])
  {
    ExecFour(SumStmts(), m);
    SumSteps(m, w);
  }

  /** `t := x ^ res:8` while `res` holds the nine-bit sum s. */
  lemma XorResStep(t: TempName, x: Rvalue, m: Machine, s: nat, y: Byte)
    requires Get(m, Temp(Res)) == s && s < 0x200 && Eval(x, m) == y
    ensures Step(Binary(XorOp, LVariable(Temp(t), 8), x, Res8()), m)
            == m.(temps := m.temps[t := XorByte(y, s % 0x100)])
  {
    BinaryTempStep(XorOp, t, 8, x, Res8(), m);
    assert Eval(Res8(), m) == s % 0x100;
  }

  lemma OverflowXorSteps(m: Machine, w: Byte, s: nat)
    requires Get(m, Temp(Addend)) == w && Get(m, Temp(Res)) == s && s < 0x200
    ensures var m1 := m.(temps := m.temps[V1 := XorByte(m.a, s % 0x100)]);
            Step(OverflowStmts()[0], m) == m1
            && Step(OverflowStmts()[1], m1) == m1.(temps := m1.temps[V2 := XorByte(w, s % 0x100)])
  {
    XorResStep(V1, Reg(A, 8), m, s, m.a);
    var m1 := m.(temps := m.temps[V1 := XorByte(m.a, s % 0x100)]);
    XorResStep(V2, Reg(Temp(Addend), 8), m1, s, w);
  }

  lemma OverflowAndSteps(m2: Machine, x1: Byte, x2: Byte)
    requires Get(m2, Temp(V1)) == x1 && Get(m2, Temp(V2)) == x2
    ensures var m3 := m2.(temps := m2.temps[V1 := AndByte(x1, x2)]);
            Step(OverflowStmts()[2], m2) == m3
            && Step(OverflowStmts()[3], m3) == m3.(v := BitAt(AndByte(x1, x2), 7))
  {
    var m3 := m2.(temps := m2.temps[V1 := AndByte(x1, x2)]);
    BinaryTempStep(AndOp, V1, 8, Reg(Temp(V1), 8), Reg(Temp(V2), 8), m2);
    MovBitStep(V, Temp(V1), 7, m3);
  }

  /** The overflow statements set V from bit 7 of the operands and of the
      low byte of the sum. */
  lemma OverflowEffect(m: Machine, w: Byte, s: nat)
    requires Get(m, Temp(Addend)) == w && Get(m, Temp(Res)) == s && s < 0x200
    ensures var k := s % 0x100;
            var x1 := XorByte(m.a, k);
            var x2 := XorByte(w, k);
            Exec(OverflowStmts(), m)
            == m.(temps := m.temps[V1 := AndByte(x1, x2)][V2 := x2],
                  v := Flag(BitAt(m.a, 7) != BitAt(k, 7) && BitAt(w, 7) != BitAt(k, 7)))
  {
    var k := s % 0x100;
    var x1 := XorByte(m.a, k);
    var x2 := XorByte(w, k);
    ExecFour(OverflowStmts(), m);
    OverflowXorSteps(m, w, s);
    var m2 := m.(temps := m.temps[V1 := x1][V2 := x2]);
    OverflowAndSteps(m2, x1, x2);
    OverflowBit(m.a, w, k, 7);
    assert m.temps[V1 := x1][V2 := x2][V1 := AndByte(x1, x2)] == m.temps[V1 := AndByte(x1, x2)][V2 := x2];
  }

  /** Bit `j` of `(a ^ k) & (w ^ k)`. */
  lemma OverflowBit(a: nat, w: nat, k: nat, j: nat)
    ensures BitAt(BitAnd(BitXor(a, k), BitXor(w, k)), j)
            == Flag(BitAt(a, j) != BitAt(k, j) && BitAt(w, j) != BitAt(k, j))
  {
    BitAndAt(BitXor(a, k), BitXor(w, k), j);
    BitXorAt(a, k, j);
    BitXorAt(w, k, j);
  }

  lemma ResultSteps(m: Machine, s: nat)
    requires Get(m, Temp(Res)) == s && s < 0x200
    ensures var m1 := m.(c := s / 0x100);
            Step(ResultStmts()[0], m) == m1 && Step(ResultStmts()[1], m1) == m1.(a := s % 0x100)
  {
    MovBitStep(C, Temp(Res), 8, m);
    BitAtDiv(s, 8);
    MovByteStep(A, Res8(), m.(c := s / 0x100));
  }

  /** C from bit 8, A from the low byte, Z and N from the new A. */
  lemma ResultEffect(m: Machine, s: nat)
    requires Get(m, Temp(Res)) == s && s < 0x200
    ensures var k := s % 0x100;
            Exec(ResultStmts(), m) == m.(c := s / 0x100, a := k, z := Flag(k == 0), n := Flag(k >= 0x80))
  {
    var moves := ResultStmts()[..2];
    assert ResultStmts() == moves + ZeroNegativeOfA();
    ExecAppend(moves, ZeroNegativeOfA(), m);
    ExecTwo(moves, m);
    ResultSteps(m, s);
    ZeroNegativeOfAEffect(m.(c := s / 0x100, a := s % 0x100));
  }

  /** The shared part of both corrected routines adds the byte in `addend`
      and C to A. */
  lemma AddCoreEffect(m: Machine, w: Byte)
    requires Get(m, Temp(Addend)) == w
    ensures Arch(Exec(AddCore(), m)) == Arch(Added(m, w))
  {
    ExecAppend(SumStmts(), OverflowStmts() + ResultStmts(), m);
    SumEffect(m, w);
    AddCoreFrom(m, w, Exec(SumStmts(), m));
  }

  lemma AddCoreFrom(m: Machine, w: Byte, m1: Machine)
    requires Get(m, Temp(Addend)) == w
    requires m1 == m.(temps := m.temps[Carry := m.c][Res := m.a + w + m.c])
    ensures Arch(Exec(OverflowStmts() + ResultStmts(), m1)) == Arch(Added(m, w))
  {
    var s := m.a + w + m.c;
    var k := s % 0x100;
    var x2 := XorByte(w, k);
    var m2 := m1.(temps := m1.temps[V1 := AndByte(XorByte(m.a, k), x2)][V2 := x2],
                  v := Flag(BitAt(m.a, 7) != BitAt(k, 7) && BitAt(w, 7) != BitAt(k, 7)));
    SumTemps(m, w, m1, m2);
    ExecAppend(OverflowStmts(), ResultStmts(), m1);
    OverflowEffect(m1, w, s);
    ResultAfter(m, w, m2);
  }

  /** What the sum leaves in the temporaries, before and after the overflow group. */
  lemma SumTemps(m: Machine, w: Byte, m1: Machine, m2: Machine)
    requires Get(m, Temp(Addend)) == w
    requires m1 == m.(temps := m.temps[Carry := m.c][Res := m.a + w + m.c])
    requires var k := (m.a + w + m.c) % 0x100;
             var x2 := XorByte(w, k);
             m2 == m1.(temps := m1.temps[V1 := AndByte(XorByte(m.a, k), x2)][V2 := x2],
                       v := Flag(BitAt(m.a, 7) != BitAt(k, 7) && BitAt(w, 7) != BitAt(k, 7)))
    ensures Get(m1, Temp(Addend)) == w && Get(m1, Temp(Res)) == m.a + w + m.c < 0x200
    ensures var k := (m.a + w + m.c) % 0x100;
            m2 == m.(temps := m2.temps, v := Flag(BitAt(m.a, 7) != BitAt(k, 7) && BitAt(w, 7) != BitAt(k, 7)))
            && Get(m2, Temp(Res)) == m.a + w + m.c
  {
  }

  lemma ResultAfter(m: Machine, w: Byte, m2: Machine)
    requires var k := (m.a + w + m.c) % 0x100;
             m2 == m.(temps := m2.temps, v := Flag(BitAt(m.a, 7) != BitAt(k, 7) && BitAt(w, 7) != BitAt(k, 7)))
             && Get(m2, Temp(Res)) == m.a + w + m.c
    ensures Arch(Exec(ResultStmts(), m2)) == Arch(Added(m, w))
  {
    ResultEffect(m2, m.a + w + m.c);
  }

  /** The corrected `adc` adds the operand's low byte. */
  lemma AdcCorrectedEffect(r: Rvalue, m: Machine)
    ensures Arch(Exec(AdcCorrected(r), m)) == Arch(Added(m, Eval(r, m) % 0x100))
  {
    var first := [ Mov(LVariable(Temp(Addend), 8), r) ];
    ExecAppend(first, AddCore(), m);
    AdcAddend(r, m);
    AddendAfter(m, Eval(r, m) % 0x100, Exec(first, m));
  }

  lemma AdcAddend(r: Rvalue, m: Machine)
    ensures Exec([ Mov(LVariable(Temp(Addend), 8), r) ], m) == m.(temps := m.temps[Addend := Eval(r, m) % 0x100])
  {
    ExecOne([ Mov(LVariable(Temp(Addend), 8), r) ], m);
  }

  /** The corrected `sbc` adds the ones' complement of the operand's low byte. */
  lemma SbcCorrectedEffect(r: Rvalue, m: Machine)
    ensures Arch(Exec(SbcCorrected(r), m)) == Arch(Added(m, 0xFF - Eval(r, m) % 0x100))
  {
    var first := [ Binary(SubOp, LVariable(Temp(Addend), 8), Imm(0xFF, 8), r) ];
    ExecAppend(first, AddCore(), m);
    SbcAddend(r, m);
    AddendAfter(m, 0xFF - Eval(r, m) % 0x100, Exec(first, m));
  }

  lemma SbcAddend(r: Rvalue, m: Machine)
    ensures Exec([ Binary(SubOp, LVariable(Temp(Addend), 8), Imm(0xFF, 8), r) ], m)
            == m.(temps := m.temps[Addend := 0xFF - Eval(r, m) % 0x100])
  {
    ExecOne([ Binary(SubOp, LVariable(Temp(Addend), 8), Imm(0xFF, 8), r) ], m);
    BinaryTempStep(SubOp, Addend, 8, Imm(0xFF, 8), r, m);
    Complement(Eval(r, m));
  }

  /** Once `addend` holds w, the rest adds w and C to A. */
  lemma AddendAfter(m: Machine, w: Byte, m1: Machine)
    requires m1 == m.(temps := m.temps[Addend := w])
    ensures Arch(Exec(AddCore(), m1)) == Arch(Added(m, w))
  {
    AddCoreEffect(m1, w);
    AddedTemps(m, m.temps[Addend := w], w);
  }

  /** `Added` leaves the temporaries alone. */
  lemma AddedTemps(m: Machine, t: map<TempName, Word>, w: Byte)
    ensures Added(m.(temps := t), w) == Added(m, w).(temps := t)
  {
  }

  /** `(0xFF - x) mod 256` is the complement of x's low byte. */
  lemma Complement(x: nat)
    ensures (0xFF - x) % 0x100 == 0xFF - x % 0x100
  {
  }

  // ---------------------------------------------------------------------
  // What the corrected routines mean

  /** The sum in nine bits: no bit is lost, C is the carry out of bit 7. */
  lemma AddedCarry(m: Machine, w: Byte)
    ensures m.a + w + m.c == Added(m, w).a + 0x100 * Added(m, w).c
  {
  }

  /** V is set exactly when the signed sum leaves -128 .. 127. */
  lemma AddedOverflow(m: Machine, w: Byte)
    ensures Added(m, w).v == 1
            <==> !(-0x80 <= SignedAt(m.a, 8) + SignedAt(w, 8) + m.c <= 0x7F)
  {
    SignedOverflow(m.a, w, m.c);
  }

  /** Sign bits decide signed overflow: it happens when both operands have
      the same sign bit and the sum's low byte has the other. */
  lemma SignedOverflow(a: Byte, w: Byte, c: OneBit)
    ensures var k := (a + w + c) % 0x100;
            (BitAt(a, 7) != BitAt(k, 7) && BitAt(w, 7) != BitAt(k, 7))
            <==> !(-0x80 <= SignedAt(a, 8) + SignedAt(w, 8) + c <= 0x7F)
  {
    var k := (a + w + c) % 0x100;
    TopBit(a);
    TopBit(w);
    TopBit(k);
    var a7 := a / 0x80;
    var w7 := w / 0x80;
    var t := a % 0x80 + w % 0x80 + c;
    assert a + w + c == 0x80 * (a7 + w7) + t;
    SumLowByte(a7, w7, t, a + w + c);
  }

  /** Bit 7 of a byte is its top bit, and says whether it is negative. */
  lemma TopBit(x: Byte)
    ensures BitAt(x, 7) == x / 0x80
    ensures SignedAt(x, 8) == x - 0x100 * (x / 0x80)
  {
    BitAtDiv(x, 7);
  }

  /** The low byte of `0x80 * (a7 + w7) + t` for two top bits and a
      remainder t below 0x100, and the signed sum it stands for. */
  lemma SumLowByte(a7: nat, w7: nat, t: nat, s: nat)
    requires a7 < 2 && w7 < 2 && t < 0x100 && s == 0x80 * (a7 + w7) + t
    ensures var k := s % 0x100;
            (a7 != k / 0x80 && w7 != k / 0x80) <==> !(-0x80 <= s - 0x100 * (a7 + w7) <= 0x7F)
  {
    var t7 := t / 0x80;
    var q := a7 + w7 + t7;
    assert s == 0x80 * q + t % 0x80;
    if q == 0 || q == 2 {
      DivUnique(s, 0x100, q / 2, t % 0x80);
    } else {
      DivUnique(s, 0x100, q / 2, 0x80 + t % 0x80);
    }
  }

  /** The corrected `adc`: A + r + C = A' + 256 C' with nothing lost, V is
      signed overflow, and Z and N describe A'. */
  lemma AdcCorrectedMeaning(r: Rvalue, m: Machine)
    ensures var x := Eval(r, m) % 0x100;
            var m1 := Exec(AdcCorrected(r), m);
            m.a + x + m.c == m1.a + 0x100 * m1.c
            && (m1.v == 1 <==> !(-0x80 <= SignedAt(m.a, 8) + SignedAt(x, 8) + m.c <= 0x7F))
            && (m1.z == 1 <==> m1.a == 0) && (m1.n == 1 <==> m1.a >= 0x80)
  {
    var x := Eval(r, m) % 0x100;
    AdcCorrectedEffect(r, m);
    AddedCarry(m, x);
    AddedOverflow(m, x);
    ArchFlags(Exec(AdcCorrected(r), m), Added(m, x));
  }

  /** The corrected `sbc`: A' = A - r - (1 - C) modulo 256, C' is set
      exactly when no borrow is needed, V is signed overflow of the
      difference, and Z and N describe A'. */
  lemma SbcCorrectedMeaning(r: Rvalue, m: Machine)
    ensures var x := Eval(r, m) % 0x100;
            var m1 := Exec(SbcCorrected(r), m);
            m1.a == (m.a - x - (1 - m.c)) % 0x100
            && (m1.c == 1 <==> m.a >= x + (1 - m.c))
            && (m1.v == 1 <==> !(-0x80 <= SignedAt(m.a, 8) - SignedAt(x, 8) - (1 - m.c) <= 0x7F))
            && (m1.z == 1 <==> m1.a == 0) && (m1.n == 1 <==> m1.a >= 0x80)
  {
    var x := Eval(r, m) % 0x100;
    var w := 0xFF - x;
    SbcCorrectedEffect(r, m);
    AddedCarry(m, w);
    AddedOverflow(m, w);
    ComplementSigned(x);
    ArchFlags(Exec(SbcCorrected(r), m), Added(m, w));
    BorrowOf(m.a, x, m.c, Added(m, w).a, Added(m, w).c);
  }

  /** The ones' complement negates and subtracts one, read as signed bytes. */
  lemma ComplementSigned(x: Byte)
    ensures SignedAt(0xFF - x, 8) == -1 - SignedAt(x, 8)
  {
  }

  /** From `a + (0xFF - x) + c = k + 256 c'` to the difference and the borrow. */
  lemma BorrowOf(a: Byte, x: Byte, c: OneBit, k: Byte, c1: nat)
    requires a + (0xFF - x) + c == k + 0x100 * c1
    ensures k == (a - x - (1 - c)) % 0x100
    ensures c1 == 1 <==> a >= x + (1 - c)
  {
    assert a - x - (1 - c) == k + 0x100 * (c1 - 1);
    if c1 == 0 {
      DivUnique(a - x - (1 - c) + 0x100, 0x100, 0, k);
    }
  }

  /** Machines with the same architectural state agree on A and the flags. */
  lemma ArchFlags(m1: Machine, m2: Machine)
    requires Arch(m1) == Arch(m2)
    ensures m1.a == m2.a && m1.c == m2.c && m1.v == m2.v && m1.z == m2.z && m1.n == m2.n
  {
    assert m1.a == Arch(m1).a && m2.a == Arch(m2).a;
  }

  /** The corrected `adc` on A = 0xFF, operand 1, C clear: A = 0, C set. */
  lemma AdcCorrectedSample(r: Rvalue, m: Machine)
    requires Eval(r, m) == 1 && m.a == 0xFF && m.c == 0
    ensures Exec(AdcCorrected(r), m).a == 0 && Exec(AdcCorrected(r), m).c == 1
  {
    AdcCorrectedMeaning(r, m);
  }

  /** The corrected `sbc` on A = 5, operand 3, C set: A = 2, C still set. */
  lemma SbcCorrectedSample(r: Rvalue, m: Machine)
    requires Eval(r, m) == 3 && m.a == 5 && m.c == 1
    ensures Exec(SbcCorrected(r), m).a == 2 && Exec(SbcCorrected(r), m).c == 1
  {
    SbcCorrectedMeaning(r, m);
  }

  /** The corrected `adc` on A = 0x50, operand 0x50, C clear: A = 0xA0 with
      V and N set and C and Z clear. */
  lemma AdcCorrectedOverflowSample(r: Rvalue, m: Machine)
    requires Eval(r, m) == 0x50 && m.a == 0x50 && m.c == 0
    ensures var m1 := Exec(AdcCorrected(r), m);
            m1.a == 0xA0 && m1.v == 1 && m1.n == 1 && m1.c == 0 && m1.z == 0
  {
    AdcCorrectedMeaning(r, m);
    assert SignedAt(0x50, 8) == 0x50;
  }
}
