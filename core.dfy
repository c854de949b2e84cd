/** The part of the disassembler core that the 6502 lifter builds on: a small
    register-transfer IR (RREIL), the guards of control-flow edges, the
    instruction records ("mnemonics") and the decoder state that collects them.
    Only the shapes the lifter uses are modelled. */
module Core {

  /** Storage locations named by the lifted code: the accumulator, the two
      index registers and the stack pointer (8 bits each), the seven 1-bit
      flags, and temporaries introduced by a routine (`res`, `carry`, `sp`, ...). */
  datatype Name = A | X | Y | S | C | Z | I | D | B | V | N | Temp(id: TempName)

  /** The scratch temporaries the routines introduce, by their names in the
      lifted code: `res`, `carry`, `c1`, `c2`, `v1`, `v2`, `sp`, `flags`, `hb`,
      `lb`; `addend` is used only by the corrected routines of the findings. */
  datatype TempName = Res | Carry | C1 | C2 | V1 | V2 | Sp | Flags | Hb | Lb | Addend

  /** A readable operand: a constant of `size` bits, the bits
      `offset .. offset + size - 1` of a named location (`A:1/7` is bit 7 of A),
      or the undefined value `?`. */
  datatype Rvalue =
    | Constant(value: nat, size: nat)
    | Variable(name: Name, size: nat, offset: nat)
    | Undefined

  /** An assignable operand: a whole named location of `size` bits, or `?`
      (the result is discarded). */
  datatype Lvalue = LVariable(name: Name, size: nat) | LUndefined

  datatype BinOp = AddOp | SubOp | AndOp | OrOp | XorOp | ShlOp | ShrOp

  /** Comparisons producing one bit: equality, unsigned <= and <, signed <= and <. */
  datatype CmpOp = Eq | LeU | LtU | LeS | LtS

  /** One IR statement. `ram` is the only address space the lifter uses, so
      loads and stores do not carry a space tag. */
  datatype Stmt =
    | Mov(dst: Lvalue, src: Rvalue)
    | ZExt(size: nat, dst: Lvalue, src: Rvalue)
    | Binary(op: BinOp, dst: Lvalue, a: Rvalue, b: Rvalue)
    | Compare(cmp: CmpOp, dst: Lvalue, a: Rvalue, b: Rvalue)
    | Sel(bit: nat, dst: Lvalue, src: Rvalue)
    | Load(dst: Lvalue, addr: Rvalue)
    | Store(addr: Rvalue, src: Rvalue)
    | Call(dst: Lvalue, target: Rvalue)

  /** The condition under which a control-flow edge is taken. */
  datatype Guard = Always | Never | Predicate(flag: Rvalue, expected: bool)

  /** An instruction record: bytes consumed, opcode text, operand format,
      operands and the statements that give its semantics. */
  datatype Mnemonic = Mnemonic(size: nat, opcode: string, format: string,
                               operands: seq<Rvalue>, instructions: seq<Stmt>)

  /** A control-flow edge leaving the instruction being decoded. */
  datatype Jump = Jump(target: Rvalue, guard: Guard)

  datatype Option<T> = None | Some(value: T)

  /** `R:size`, the whole of a location read as an operand. */
  function Reg(n: Name, size: nat): Rvalue { Variable(n, size, 0) }

  /** `R:1/k`, bit k of a location. */
  function BitOf(n: Name, k: nat): Rvalue { Variable(n, 1, k) }

  /** `[v]:size`, a constant. */
  function Imm(v: nat, size: nat): Rvalue { Constant(v, size) }

  /** An lvalue read back as an operand. */
  function ToRvalue(l: Lvalue): Rvalue
  {
    match l
    case LVariable(n, size) => Variable(n, size, 0)
    case LUndefined => Undefined
  }

  /** The lvalue naming the same location as `r`, when `r` names a whole
      location (constants and bit slices are not assignable). */
  function FromRvalue(r: Rvalue): (l: Option<Lvalue>)
    ensures l.Some? <==> (r.Variable? && r.offset == 0) || r.Undefined?
    ensures l.Some? ==> ToRvalue(l.value) == r
  {
    match r
    case Variable(n, size, offset) => if offset == 0 then Some(LVariable(n, size)) else None
    case Undefined => Some(LUndefined)
    case Constant(_, _) => None
  }

  /** Reading an lvalue as an operand and turning it back into an lvalue
      gives the same lvalue. */
  lemma LvalueRoundTrip(l: Lvalue)
    ensures FromRvalue(ToRvalue(l)) == Some(l)
  {
  }

  /** `size` bits of `l` starting at bit `offset`, when they lie inside `l`. */
  function Extract(l: Lvalue, size: nat, offset: nat): Option<Rvalue>
  {
    match l
    case LVariable(n, w) => if offset + size <= w then Some(Variable(n, size, offset)) else None
    case LUndefined => None
  }

  /** The decoder's view of the instruction being decoded, and the records and
      edges a control-flow routine reports for it. `groups` are the operand
      fields the byte matcher extracted (such as `immlo` and `immhi`). The two
      logs only ever grow. */
  class State {
    const address: nat
    const groups: map<string, nat>
    var mnemonics: seq<Mnemonic>
    var jumps: seq<Jump>

    constructor (address: nat, groups: map<string, nat>)
      ensures this.address == address && this.groups == groups
      ensures mnemonics == [] && jumps == []
    {
      this.address := address;
      this.groups := groups;
      mnemonics := [];
      jumps := [];
    }

    /** The value of a decoded operand field; a missing field is a panic in
        the decoder, so callers must ask only for fields the pattern binds. */
    function GetGroup(name: string): nat
      requires name in groups
    {
      groups[name]
    }

    /** Records one instruction. */
    method PushMnemonic(size: nat, opcode: string, format: string,
                        operands: seq<Rvalue>, instructions: seq<Stmt>)
      modifies this
      ensures mnemonics == old(mnemonics) + [Mnemonic(size, opcode, format, operands, instructions)]
      ensures jumps == old(jumps)
    {
      mnemonics := mnemonics + [Mnemonic(size, opcode, format, operands, instructions)];
    }

    /** Records one edge from the current instruction. */
    method PushJump(target: Rvalue, guard: Guard)
      modifies this
      ensures jumps == old(jumps) + [Jump(target, guard)]
      ensures mnemonics == old(mnemonics)
    {
      jumps := jumps + [Jump(target, guard)];
    }
  }
}
