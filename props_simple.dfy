/** Routines with a single, fixed effect: the empty routines, the flag
    instructions and the stores. */
module SimpleProps {
  import opened Core
  import opened Bits
  import opened Evaluator
  import opened Semantic

  /** `nop`, `nop_r` and `brk` emit nothing and so change nothing. */
  lemma EmptyRoutines(r: Rvalue, m: Machine)
    ensures Nop() == [] && NopR(r) == [] && Brk() == []
    ensures Exec(Nop(), m) == m && Exec(NopR(r), m) == m && Exec(Brk(), m) == m
  {
  }

  /** Each flag instruction is one move of a constant into one flag, and
      changes nothing else. */
  lemma FlagInstructions(m: Machine)
    ensures Exec(Clc(), m) == m.(c := 0) && Exec(Sec(), m) == m.(c := 1)
    ensures Exec(Cli(), m) == m.(i := 0) && Exec(Sei(), m) == m.(i := 1)
    ensures Exec(Cld(), m) == m.(d := 0) && Exec(Sed(), m) == m.(d := 1)
    ensures Exec(Clv(), m) == m.(v := 0)
  {
    ExecOne(Clc(), m);
    ExecOne(Sec(), m);
    ExecOne(Cli(), m);
    ExecOne(Sei(), m);
    ExecOne(Cld(), m);
    ExecOne(Sed(), m);
    ExecOne(Clv(), m);
  }

  /** A store is one `store/ram` statement; it changes memory and nothing else,
      writing the operand at the address the register holds. */
  lemma StoreEffect(r: Rvalue, m: Machine)
    ensures |Sta(r)| == 1 && Sta(r)[0].Store? && |Stx(r)| == 1 && Stx(r)[0].Store? && |Sty(r)| == 1 && Sty(r)[0].Store?
    ensures Exec(Sta(r), m) == m.(ram := WriteRam(m.ram, m.a, Eval(r, m), SizeOf(r)))
    ensures Exec(Stx(r), m) == m.(ram := WriteRam(m.ram, m.x, Eval(r, m), SizeOf(r)))
    ensures Exec(Sty(r), m) == m.(ram := WriteRam(m.ram, m.y, Eval(r, m), SizeOf(r)))
  {
    ExecOne(Sta(r), m);
    ExecOne(Stx(r), m);
    ExecOne(Sty(r), m);
  }
}
