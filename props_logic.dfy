/** `and`, `ora`, `eor` and `bit`: the accumulator combined bitwise with the
    operand, and the flags taken from the combination. */
module LogicProps {
  import opened Core
  import opened Bits
  import opened Evaluator
  import opened Semantic
  import opened Steps
  import opened TransferProps

  /** `and` writes A AND r to A, Z when that is zero, and N when it is zero or
      negative as a signed byte; nothing else changes. */
  lemma AndEffect(r: Rvalue, m: Machine)
    ensures var k := BitAnd(m.a, Eval(r, m));
            k < 0x100 && Exec(And(r), m) == m.(a := k, z := Flag(k == 0), n := Flag(k == 0 || k >= 0x80))
  {
    BitAndBound(m.a, Eval(r, m));
    ExecThree(And(r), m);
  }

  /** `ora` writes A OR r to A, Z when that is zero and N when it is negative. */
  lemma OraEffect(r: Rvalue, m: Machine)
    ensures var k := BitOr(Eval(r, m), m.a) % 0x100;
            Exec(Ora(r), m) == m.(a := k, z := Flag(k == 0), n := Flag(k >= 0x80))
  {
    var k := BitOr(Eval(r, m), m.a) % 0x100;
    var first := Binary(OrOp, LVariable(A, 8), r, Reg(A, 8));
    assert Ora(r) == [first] + ZeroNegativeOf(A);
    EvalByte(A, m);
    BinaryByteStep(OrOp, A, r, Reg(A, 8), m);
    WriteThenZeroNegative(A, m, first, k);
  }

  /** `eor` writes A XOR r to A, Z when that is zero and N when it is negative. */
  lemma EorEffect(r: Rvalue, m: Machine)
    ensures var k := BitXor(Eval(r, m), m.a) % 0x100;
            Exec(Eor(r), m) == m.(a := k, z := Flag(k == 0), n := Flag(k >= 0x80))
  {
    var k := BitXor(Eval(r, m), m.a) % 0x100;
    var first := Binary(XorOp, LVariable(A, 8), r, Reg(A, 8));
    assert Eor(r) == [first] + ZeroNegativeOf(A);
    EvalByte(A, m);
    BinaryByteStep(XorOp, A, r, Reg(A, 8), m);
    WriteThenZeroNegative(A, m, first, k);
  }

  /** `bit` leaves A as it is and sets Z, N and V from `res = A AND r`, V
      being bit 7 of `res`. */
  lemma BitEffect(r: Rvalue, m: Machine)
    ensures var k := BitAnd(m.a, Eval(r, m));
            Arch(Exec(Bit(r), m)) == Arch(m.(z := Flag(k == 0), n := Flag(k == 0 || k >= 0x80), v := BitAt(k, 7)))
  {
    var k := BitAnd(m.a, Eval(r, m));
    var ss := Bit(r);
    ExecSplit(ss, 1, m);
    ExecOne(ss[..1], m);
    AndResStep(r, m);
    assert ss[1..] == BitFlags();
    BitFlagsEffect(m.(temps := m.temps[Res := k]), k);
  }

  /** The last three statements of `bit`: Z, N and V from `res`. */
  function BitFlags(): seq<Stmt>
  {
    [ Compare(Eq, LVariable(Z, 1), Res8(), Imm(0, 8)),
      Compare(LeS, LVariable(N, 1), Res8(), Imm(0, 8)),
      Mov(LVariable(V, 1), BitOf(Temp(Res), 7)) ]
  }

  lemma BitFlagsEffect(m: Machine, k: Word)
    requires k < 0x100 && Res in m.temps && m.temps[Res] == k
    ensures Exec(BitFlags(), m) == m.(z := Flag(k == 0), n := Flag(k == 0 || k >= 0x80), v := BitAt(k, 7))
  {
    ExecThree(BitFlags(), m);
    assert Eval(Res8(), m) == k;
    ZeroStep(Res8(), m);
    var m1 := m.(z := Flag(k == 0));
    NonPositiveStep(Res8(), m1);
    var m2 := m1.(n := Flag(k == 0 || k >= 0x80));
    MovBitStep(V, Temp(Res), 7, m2);
  }

  /** So `bit` sets V exactly when bit 7 of A and bit 7 of the operand are both set. */
  lemma BitOverflowFlag(r: Rvalue, m: Machine)
    ensures Exec(Bit(r), m).v == BitAt(m.a, 7) * BitAt(Eval(r, m), 7)
  {
    BitEffect(r, m);
    BitAndAt(m.a, Eval(r, m), 7);
  }
}
