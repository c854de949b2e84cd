/** A reference semantics for the IR: what a statement sequence does to the
    6502 register file, the flags, the scratch temporaries and `ram`.
    Every value is a natural number below 2^16, truncated to the `size` bits
    of the operand or location it belongs to. */
module Evaluator {
  import opened Core
  import opened Bits

  /** The machine the lifted statements talk about. `undefined` is the value
      `?` reads as; no property of the model fixes it. */
  datatype Machine = Machine(
    a: Byte, x: Byte, y: Byte, s: Byte,
    c: OneBit, z: OneBit, i: OneBit, d: OneBit, b: OneBit, v: OneBit, n: OneBit,
    temps: map<TempName, Word>,
    ram: map<Word, Byte>,
    undefined: Word)

  /** The architectural state: everything but the routine's scratch temporaries. */
  function Arch(m: Machine): Machine
  {
    m.(temps := map[])
  }

  /** The low `size` bits of `k` (at most 16). */
  function Trunc(k: int, size: nat): (r: Word)
  {
    var p := Pow2(if size > 16 then 16 else size);
    if 0 <= k < p then k else k % p
  }

  /** `k` reduced modulo `p`, without a division when `k` is already in range. */
  function Wrap(k: int, p: nat): int
    requires p >= 1
  {
    if 0 <= k < p then k else k % p
  }

  function Flag(p: bool): OneBit { if p then 1 else 0 }

  function Get(m: Machine, n: Name): Word
  {
    match n
    case A => m.a
    case X => m.x
    case Y => m.y
    case S => m.s
    case C => m.c
    case Z => m.z
    case I => m.i
    case D => m.d
    case B => m.b
    case V => m.v
    case N => m.n
    case Temp(t) => if t in m.temps then m.temps[t] else 0
  }

  /** Stores `k` in a location, truncated to the location's own width. */
  function Put(m: Machine, n: Name, k: Word): Machine
  {
    match n
    case A => m.(a := Wrap(k, 0x100))
    case X => m.(x := Wrap(k, 0x100))
    case Y => m.(y := Wrap(k, 0x100))
    case S => m.(s := Wrap(k, 0x100))
    case C => m.(c := Wrap(k, 2))
    case Z => m.(z := Wrap(k, 2))
    case I => m.(i := Wrap(k, 2))
    case D => m.(d := Wrap(k, 2))
    case B => m.(b := Wrap(k, 2))
    case V => m.(v := Wrap(k, 2))
    case N => m.(n := Wrap(k, 2))
    case Temp(t) => m.(temps := m.temps[t := k])
  }

  /** The accumulator, the index registers and the stack pointer. */
  predicate ByteRegister(n: Name)
  {
    n == A || n == X || n == Y || n == S
  }

  /** The seven status flags. */
  predicate FlagName(n: Name)
  {
    n == C || n == Z || n == I || n == D || n == B || n == V || n == N
  }

  function SizeOf(r: Rvalue): nat
  {
    match r
    case Constant(_, size) => size
    case Variable(_, size, _) => size
    case Undefined => 0
  }

  /** Whether reading `r` reads location `n`. */
  predicate Reads(r: Rvalue, n: Name)
  {
    r.Variable? && r.name == n
  }

  function Eval(r: Rvalue, m: Machine): Word
  {
    match r
    case Constant(k, size) => Trunc(k as int, size)
    case Variable(n, size, offset) => Trunc(if offset == 0 then Get(m, n) else Get(m, n) / Pow2(offset), size)
    case Undefined => m.undefined
  }

  function Write(m: Machine, l: Lvalue, k: int): Machine
  {
    match l
    case LVariable(n, size) => Put(m, n, Trunc(k, size))
    case LUndefined => m
  }

  function ReadByte(ram: map<Word, Byte>, p: Word): Byte
  {
    if p in ram then ram[p] else 0
  }

  /** A load of `size` bits: one byte, or two bytes little-endian. */
  function ReadRam(ram: map<Word, Byte>, p: Word, size: nat): Word
  {
    if size <= 8 then ReadByte(ram, p)
    else ReadByte(ram, p) + 0x100 * ReadByte(ram, (p + 1) % 0x1_0000)
  }

  /** A store of `size` bits: one byte, or two bytes little-endian. */
  function WriteRam(ram: map<Word, Byte>, p: Word, k: Word, size: nat): map<Word, Byte>
  {
    if size <= 8 then ram[p := k % 0x100]
    else ram[p := k % 0x100][(p + 1) % 0x1_0000 := k / 0x100]
  }

  /** Arithmetic is taken modulo 2^16 here and truncated further by the destination. */
  function ApplyBinary(op: BinOp, x: Word, y: Word): int
  {
    match op
    case AddOp => x + y
    case SubOp => x - y
    case AndOp => BitAnd(x, y)
    case OrOp => BitOr(x, y)
    case XorOp => BitXor(x, y)
    case ShlOp => x * Pow2(y)
    case ShrOp => x / Pow2(y)
  }

  /** `k` as a two's-complement number of `size` bits. */
  function SignedAt(k: Word, size: nat): int
  {
    if 1 <= size && k >= Pow2(size - 1) then k - Pow2(size) else k
  }

  predicate Holds(op: CmpOp, x: Word, y: Word, size: nat)
  {
    match op
    case Eq => x == y
    case LeU => x <= y
    case LtU => x < y
    case LeS => SignedAt(x, size) <= SignedAt(y, size)
    case LtS => SignedAt(x, size) < SignedAt(y, size)
  }

  /** The effect of one statement. A `call` is an opaque marker: the callee's
      effects are not part of this model. */
  function Step(st: Stmt, m: Machine): Machine
  {
    match st
    case Mov(dst, src) => Write(m, dst, Eval(src, m))
    case ZExt(_, dst, src) => Write(m, dst, Eval(src, m))
    case Binary(op, dst, x, y) => Write(m, dst, ApplyBinary(op, Eval(x, m), Eval(y, m)))
    case Compare(op, dst, x, y) => Write(m, dst, if Holds(op, Eval(x, m), Eval(y, m), SizeOf(x)) then 1 else 0)
    case Sel(j, dst, src) =>
      (match dst
       case LVariable(n, size) => Put(m, n, Trunc(SetBit(Get(m, n), j, Eval(src, m)), size))
       case LUndefined => m)
    case Load(dst, addr) => if dst.LUndefined? then m else Write(m, dst, ReadRam(m.ram, Eval(addr, m), dst.size))
    case Store(addr, src) => m.(ram := WriteRam(m.ram, Eval(addr, m), Eval(src, m), SizeOf(src)))
    case Call(_, _) => m
  }

  /** Executes statements `i ..` of `ss` in order. */
  function ExecFrom(ss: seq<Stmt>, i: nat, m: Machine): Machine
    decreases |ss| - i
  {
    if i >= |ss| then m else ExecFrom(ss, i + 1, Step(ss[i], m))
  }

  /** Executes a statement sequence in order. */
  function Exec(ss: seq<Stmt>, m: Machine): Machine
  {
    ExecFrom(ss, 0, m)
  }

  /** The evaluator as a loop over the statements; it agrees with `Exec`. */
  method Run(ss: seq<Stmt>, m: Machine) returns (r: Machine)
    ensures r == Exec(ss, m)
  {
    r := m;
    var i := 0;
    while i < |ss|
      invariant 0 <= i <= |ss|
      invariant ExecFrom(ss, i, r) == Exec(ss, m)
    {
      r := Step(ss[i], r);
      i := i + 1;
    }
  }

  lemma {:induction false} ExecFromAppend(s1: seq<Stmt>, s2: seq<Stmt>, i: nat, m: Machine)
    requires i <= |s1|
    ensures ExecFrom(s1 + s2, i, m) == Exec(s2, ExecFrom(s1, i, m))
    decreases |s1| - i
  {
    if i == |s1| {
      ExecFromShift(s1, s2, 0, m);
    } else {
      assert (s1 + s2)[i] == s1[i];
      ExecFromAppend(s1, s2, i + 1, Step(s1[i], m));
    }
  }

  lemma {:induction false} ExecFromShift(s1: seq<Stmt>, s2: seq<Stmt>, j: nat, m: Machine)
    ensures ExecFrom(s1 + s2, |s1| + j, m) == ExecFrom(s2, j, m)
    decreases |s2| - j
  {
    if j < |s2| {
      assert (s1 + s2)[|s1| + j] == s2[j];
      ExecFromShift(s1, s2, j + 1, Step(s2[j], m));
    }
  }

  /** Running two statement sequences back to back is running one, then the other. */
  lemma ExecAppend(s1: seq<Stmt>, s2: seq<Stmt>, m: Machine)
    ensures Exec(s1 + s2, m) == Exec(s2, Exec(s1, m))
  {
    ExecFromAppend(s1, s2, 0, m);
  }

  /** Short statement lists, executed one statement at a time. */
  lemma ExecOne(ss: seq<Stmt>, m: Machine)
    requires |ss| == 1
    ensures Exec(ss, m) == Step(ss[0], m)
  {
    assert ExecFrom(ss, 1, Step(ss[0], m)) == Step(ss[0], m);
  }

  lemma ExecTwo(ss: seq<Stmt>, m: Machine)
    requires |ss| == 2
    ensures Exec(ss, m) == Step(ss[1], Step(ss[0], m))
  {
    assert ExecFrom(ss, 0, m) == ExecFrom(ss, 1, Step(ss[0], m));
  }

  lemma ExecThree(ss: seq<Stmt>, m: Machine)
    requires |ss| == 3
    ensures Exec(ss, m) == Step(ss[2], Step(ss[1], Step(ss[0], m)))
  {
    assert ExecFrom(ss, 0, m) == ExecFrom(ss, 1, Step(ss[0], m));
    assert ExecFrom(ss, 1, Step(ss[0], m)) == ExecFrom(ss, 2, Step(ss[1], Step(ss[0], m)));
    assert ExecFrom(ss, 3, Step(ss[2], Step(ss[1], Step(ss[0], m)))) == Step(ss[2], Step(ss[1], Step(ss[0], m)));
  }

  lemma ExecFour(ss: seq<Stmt>, m: Machine)
    requires |ss| == 4
    ensures Exec(ss, m) == Step(ss[3], Step(ss[2], Step(ss[1], Step(ss[0], m))))
  {
    ExecAppend(ss[..2], ss[2..], m);
    assert ss == ss[..2] + ss[2..];
    ExecTwo(ss[..2], m);
    ExecTwo(ss[2..], Step(ss[1], Step(ss[0], m)));
  }

  /** A statement list run as its first `k` statements, then the rest. */
  lemma ExecSplit(ss: seq<Stmt>, k: nat, m: Machine)
    requires k <= |ss|
    ensures Exec(ss, m) == Exec(ss[k..], Exec(ss[..k], m))
  {
    assert ss == ss[..k] + ss[k..];
    ExecAppend(ss[..k], ss[k..], m);
  }

  /** Reading an operand is not affected by writing a location it does not read. */
  lemma EvalFrame(r: Rvalue, m: Machine, n: Name, k: Word)
    requires !Reads(r, n)
    ensures Eval(r, Put(m, n, k)) == Eval(r, m)
  {
    if r.Variable? {
      GetPut(m, n, k, r.name);
    }
  }

  /** Writing one location leaves every other location as it was. */
  lemma GetPut(m: Machine, n: Name, k: Word, other: Name)
    requires other != n
    ensures Get(Put(m, n, k), other) == Get(m, other)
  {
  }
}
