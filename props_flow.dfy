/** The control-flow routines: the operand word they build from the two
    decoded bytes, and the fetch of the indirect jump. */
module FlowProps {
  import opened Core
  import opened Bits
  import opened Evaluator
  import opened Semantic

  /** `or` of a number below 2^j with a multiple of 2^j is their sum: the
      two have no bit in common. */
  lemma {:induction false} BitOrDisjoint(x: nat, j: nat, h: nat)
    requires 1 <= j <= 16 && x < Pow2(j)
    ensures BitOr(x, Pow2(j) * h) == x + Pow2(j) * h
    decreases j
  {
    var y := Pow2(j) * h;
    if x != 0 && y != 0 {
      var q := Pow2(j - 1);
      assert Pow2(j) == 2 * q;
      assert y == 2 * (q * h);
      assert y / 2 == q * h && y % 2 == 0;
      if j == 1 {
        assert x == 1;
        assert BitOr(x / 2, y / 2) == y / 2;
      } else {
        BitOrDisjoint(x / 2, j - 1, h);
      }
      assert BitOr(x, y) == 2 * BitOr(x / 2, y / 2) + x % 2;
    }
  }

  /** The operand word is little-endian: `immlo` is the low byte, `immhi`
      the high byte. */
  lemma ImmWordValue(lo: nat, hi: nat)
    requires lo < 0x100 && hi < 0x100
    ensures ImmWord(lo, hi) == lo + 0x100 * hi
    ensures ImmWord(lo, hi) % 0x100 == lo && ImmWord(lo, hi) / 0x100 == hi
  {
    var w := ImmWord(lo, hi);
    HighFieldShift(hi);
    assert lo % 0x1_0000 == lo;
    assert w == BitOr(lo, Pow2(8) * hi);
    BitOrDisjoint(lo, 8, hi);
    assert w == lo + 0x100 * hi;
    DivUnique(w, 0x100, hi, lo);
  }

  /** `(hi as u16) << 8` keeps every bit of a byte. */
  lemma HighFieldShift(hi: nat)
    requires hi < 0x100
    ensures (hi % 0x1_0000) * 0x100 % 0x1_0000 == Pow2(8) * hi
  {
    assert hi % 0x1_0000 == hi;
    assert hi * 0x100 < 0x1_0000;
  }

  /** The fetch of `jmp (ptr)` leaves in `res` the 16-bit word stored at the
      address `ptr`, low byte first, and changes nothing else. */
  lemma FetchEffect(ptr: Rvalue, m: Machine)
    ensures var p := Eval(ptr, m);
            Exec(FetchStmts(ptr), m)
            == m.(temps := m.temps[Res := ReadByte(m.ram, p) + 0x100 * ReadByte(m.ram, (p + 1) % 0x1_0000)])
  {
    ExecOne(FetchStmts(ptr), m);
  }

  /** The record `jsr` carries calls the target and writes nothing the model
      tracks. */
  lemma JsrStmtsEffect(target: Rvalue, m: Machine)
    ensures Exec(JsrStmts(target), m) == m
  {
    ExecOne(JsrStmts(target), m);
  }
}
