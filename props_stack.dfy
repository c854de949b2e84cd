/** `pha`, `php`, `pla` and `plp`: the stack slot they address, what they
    move between the registers and page one of `ram`, and the status byte
    `php` packs and `plp` unpacks. */
module StackProps {
  import opened Core
  import opened Bits
  import opened Evaluator
  import opened Semantic
  import opened Steps

  /** The value of the temporary `sp`. */
  function SpOf(m: Machine): Word { Get(m, Temp(Sp)) }

  // ---------------------------------------------------------------------
  // The address computation shared by all four routines

  /** `sp := 0x100 + S`: the slot S points at, always in page one. */
  lemma StackAddressEffect(m: Machine)
    ensures Exec(StackAddress(), m) == m.(temps := m.temps[Sp := 0x100 + m.s])
    ensures 0x100 <= 0x100 + m.s <= 0x1FF
  {
    ExecTwo(StackAddress(), m);
    var m1 := m.(temps := m.temps[Sp := m.s]);
    assert Step(StackAddress()[0], m) == m1;
    assert m1.temps[Sp := 0x100 + m.s] == m.temps[Sp := 0x100 + m.s];
  }

  /** `sp := sp + 1` in nine bits: 0x1FF + 1 wraps to 0. */
  lemma NextSlotEffect(m: Machine, p: Word)
    requires SpOf(m) == p && p < 0x200
    ensures Exec(NextSlot(), m) == m.(temps := m.temps[Sp := (p + 1) % 0x200])
  {
    ExecOne(NextSlot(), m);
  }

  /** `S := sp:8`, the low byte of the slot address. */
  lemma SpToSEffect(m: Machine, p: Word)
    requires SpOf(m) == p
    ensures Exec(SpToS(), m) == m.(s := p % 0x100)
  {
    ExecOne(SpToS(), m);
  }

  /** `store/ram sp:9, x:8` writes the byte `x` at the slot. */
  lemma StoreSlotStep(n: Name, m: Machine, p: Word)
    requires SpOf(m) == p && p < 0x200
    requires ByteRegister(n) || n == Temp(Flags)
    requires Get(m, n) < 0x100
    ensures Step(Store(Sp9(), Reg(n, 8)), m) == m.(ram := m.ram[p := Get(m, n)])
  {
  }

  /** `load/ram A:8, sp:9` reads the byte at the slot into A. */
  lemma LoadSlotStep(m: Machine, p: Word)
    requires SpOf(m) == p && p < 0x200
    ensures Step(Load(LVariable(A, 8), Sp9()), m) == m.(a := ReadByte(m.ram, p))
  {
  }

  /** `load/ram flags:8, sp:9` reads the byte at the slot into `flags`. */
  lemma LoadFlagsStep(m: Machine, p: Word)
    requires SpOf(m) == p && p < 0x200
    ensures Step(Load(LVariable(Temp(Flags), 8), Sp9()), m) == m.(temps := m.temps[Flags := ReadByte(m.ram, p)])
  {
  }

  /** The low byte of `0x100 + S + 1` is S + 1 modulo 256. */
  lemma NextLowByte(s: Byte)
    ensures (0x100 + s + 1) % 0x200 % 0x100 == (s + 1) % 0x100
    ensures PullAddress(s) % 0x100 == (s + 1) % 0x100
  {
  }

  // ---------------------------------------------------------------------
  // Pushes

  /** The end of both pushes: store the byte in `n` at the slot, step `sp`
      and copy its low byte to S. */
  function PushTail(n: Name): seq<Stmt>
  {
    [ Store(Sp9(), Reg(n, 8)) ] + NextSlot() + SpToS()
  }

  lemma PushTailEffect(n: Name, m: Machine, p: Word)
    requires SpOf(m) == p && p < 0x200
    requires ByteRegister(n) || n == Temp(Flags)
    requires Get(m, n) < 0x100
    ensures Arch(Exec(PushTail(n), m)) == Arch(m.(ram := m.ram[p := Get(m, n)], s := (p + 1) % 0x200 % 0x100))
  {
    var store := [Store(Sp9(), Reg(n, 8))];
    ExecAppend(store + NextSlot(), SpToS(), m);
    ExecAppend(store, NextSlot(), m);
    ExecOne(store, m);
    StoreSlotStep(n, m, p);
    var m1 := m.(ram := m.ram[p := Get(m, n)]);
    NextSlotEffect(m1, p);
    var m2 := m1.(temps := m.temps[Sp := (p + 1) % 0x200]);
    SpToSEffect(m2, (p + 1) % 0x200);
  }

  /** The two pushes, as the address computation and what follows it. */
  lemma PushShapes()
    ensures Pha() == StackAddress() + PushTail(A)
    ensures Php() == StackAddress() + (PackFlags() + PushTail(Temp(Flags)))
  {
    assert Php() == StackAddress() + PackFlags() + PushTail(Temp(Flags));
  }

  /** `pha` stores A at `0x100 + S`, then leaves S one HIGHER (modulo 256);
      no register or flag other than S changes. */
  lemma PhaEffect(m: Machine)
    ensures Arch(Exec(Pha(), m)) == Arch(m.(ram := m.ram[0x100 + m.s := m.a], s := (m.s + 1) % 0x100))
  {
    var p := 0x100 + m.s;
    PushShapes();
    ExecAppend(StackAddress(), PushTail(A), m);
    StackAddressEffect(m);
    var m1 := m.(temps := m.temps[Sp := p]);
    PushTailEffect(A, m1, p);
    NextLowByte(m.s);
  }

  /** `php` stores the status byte at `0x100 + S` and leaves S one higher;
      no register or flag other than S changes. */
  lemma PhpEffect(m: Machine)
    ensures Arch(Exec(Php(), m)) == Arch(m.(ram := m.ram[0x100 + m.s := PackedFlags(m)], s := (m.s + 1) % 0x100))
  {
    PushShapes();
    ExecAppend(StackAddress(), PackFlags() + PushTail(Temp(Flags)), m);
    StackAddressEffect(m);
    PhpFrom(m, 0x100 + m.s);
  }

  lemma PhpFrom(m: Machine, p: Word)
    requires p == 0x100 + m.s
    ensures Arch(Exec(PackFlags() + PushTail(Temp(Flags)), m.(temps := m.temps[Sp := p])))
            == Arch(m.(ram := m.ram[p := PackedFlags(m)], s := (m.s + 1) % 0x100))
  {
    var m1 := m.(temps := m.temps[Sp := p]);
    PackThenPush(m1, p);
    assert PackedFlags(m1) == PackedFlags(m);
    NextLowByte(m.s);
  }

  /** The status byte packed and pushed at the slot `sp` holds. */
  lemma PackThenPush(m: Machine, p: Word)
    requires SpOf(m) == p && p < 0x200
    ensures Arch(Exec(PackFlags() + PushTail(Temp(Flags)), m))
            == Arch(m.(ram := m.ram[p := PackedFlags(m)], s := (p + 1) % 0x200 % 0x100))
  {
    ExecAppend(PackFlags(), PushTail(Temp(Flags)), m);
    PackFlagsEffect(m);
    var m1 := m.(temps := m.temps[Flags := PackedFlags(m)]);
    PushTailEffect(Temp(Flags), m1, p);
  }

  /** A push writes one `ram` cell, `0x100 + S`, which lies in page one;
      every other address, in page one or not, keeps its byte. */
  lemma PushStaysInPageOne(m: Machine, q: Word)
    requires q != 0x100 + m.s
    ensures 0x100 <= 0x100 + m.s <= 0x1FF
    ensures 0x100 + m.s in Exec(Pha(), m).ram && 0x100 + m.s in Exec(Php(), m).ram
    ensures (q in Exec(Pha(), m).ram <==> q in m.ram) && (q in m.ram ==> Exec(Pha(), m).ram[q] == m.ram[q])
    ensures (q in Exec(Php(), m).ram <==> q in m.ram) && (q in m.ram ==> Exec(Php(), m).ram[q] == m.ram[q])
  {
    PhaEffect(m);
    PhpEffect(m);
  }

  // ---------------------------------------------------------------------
  // The status byte

  /** The byte `php` builds: C, Z, I, D and B in bits 0 to 4, bit 0 of the
      undefined value in bit 5, V and N in bits 6 and 7. */
  function PackedFlags(m: Machine): Byte
  {
    m.c + 2 * m.z + 4 * m.i + 8 * m.d + 16 * m.b + 32 * (m.undefined % 2) + 64 * m.v + 128 * m.n
  }

  /** Each flag sits at its own bit of the packed byte. */
  lemma PackedBits(m: Machine)
    ensures var k := PackedFlags(m);
            BitAt(k, 0) == m.c && BitAt(k, 1) == m.z && BitAt(k, 2) == m.i && BitAt(k, 3) == m.d
            && BitAt(k, 4) == m.b && BitAt(k, 5) == m.undefined % 2 && BitAt(k, 6) == m.v && BitAt(k, 7) == m.n
  {
    var bits: seq<OneBit> := [m.c, m.z, m.i, m.d, m.b, m.undefined % 2, m.v, m.n];
    PackedFromBits(m, bits);
    FromBitsAt(bits, 0);
    FromBitsAt(bits, 1);
    FromBitsAt(bits, 2);
    FromBitsAt(bits, 3);
    FromBitsAt(bits, 4);
    FromBitsAt(bits, 5);
    FromBitsAt(bits, 6);
    FromBitsAt(bits, 7);
  }

  lemma PackedFromBits(m: Machine, bits: seq<OneBit>)
    requires bits == [m.c, m.z, m.i, m.d, m.b, m.undefined % 2, m.v, m.n]
    ensures PackedFlags(m) == FromBits(bits)
  {
    assert FromBits(bits[8..]) == 0;
    assert FromBits(bits[7..]) == m.n;
    assert FromBits(bits[6..]) == m.v + 2 * m.n;
    assert FromBits(bits[5..]) == m.undefined % 2 + 2 * FromBits(bits[6..]);
    assert FromBits(bits[4..]) == m.b + 2 * FromBits(bits[5..]);
    assert FromBits(bits[3..]) == m.d + 2 * FromBits(bits[4..]);
    assert FromBits(bits[2..]) == m.i + 2 * FromBits(bits[3..]);
    assert FromBits(bits[1..]) == m.z + 2 * FromBits(bits[2..]);
  }

  /** `sel/j flags:8, src` while bits j and up of `flags` are still clear. */
  lemma SelFlagsStep(j: nat, p: nat, src: Rvalue, m: Machine, k: Word, bit: OneBit)
    requires 1 <= j <= 7 && p == Pow2(j) && k < p
    requires src == Undefined || (src.Variable? && FlagName(src.name) && src.size == 1 && src.offset == 0)
    requires Eval(src, m) % 2 == bit
    ensures Step(Sel(j, LVariable(Temp(Flags), 8), src), m.(temps := m.temps[Flags := k]))
            == m.(temps := m.temps[Flags := k + p * bit])
  {
    var m1 := m.(temps := m.temps[Flags := k]);
    var e := Eval(src, m);
    assert Eval(src, m1) == e;
    SelFlagsShape(j, src, m1, k);
    SetBitBelow(k, j, p, e, bit);
    var x := k + p * bit;
    assert m1.temps[Flags := x] == m.temps[Flags := x];
  }

  /** Setting bit j of a number below 2^j adds 2^j times the bit. */
  lemma SetBitBelow(k: Word, j: nat, p: nat, e: nat, bit: OneBit)
    requires 1 <= j <= 7 && p == Pow2(j) && k < p && e % 2 == bit
    ensures SetBit(k, j, e) == k + p * bit && k + p * bit < 0x100
  {
    SetBitTop(k, j, e);
    ModBelow(k, p);
    assert p <= 0x80;
  }

  lemma ModBelow(k: nat, p: nat)
    requires k < p
    ensures k % p == k
  {
  }

  lemma SelFlagsShape(j: nat, src: Rvalue, m: Machine, k: Word)
    requires Get(m, Temp(Flags)) == k
    ensures Step(Sel(j, LVariable(Temp(Flags), 8), src), m)
            == m.(temps := m.temps[Flags := Trunc(SetBit(k, j, Eval(src, m)), 8)])
  {
  }

  /** The packing, two statements at a time. */
  function PackStmts(j: nat, first: Rvalue, second: Rvalue): seq<Stmt>
  {
    [ Sel(j, LVariable(Temp(Flags), 8), first),
      Sel(j + 1, LVariable(Temp(Flags), 8), second) ]
  }

  /** Bits j and j + 1 of `flags` set from two flags (or `?`) while the
      bits from j up are clear. */
  lemma PackPair(j: nat, p: nat, p2: nat, first: Rvalue, second: Rvalue, m: Machine, k: Word, b1: OneBit, b2: OneBit, k2: Word)
    requires 1 <= j <= 6 && p == Pow2(j) && p2 == Pow2(j + 1) && p2 == 2 * p && k < p
    requires first == Undefined || (first.Variable? && FlagName(first.name) && first.size == 1 && first.offset == 0)
    requires second.Variable? && FlagName(second.name) && second.size == 1 && second.offset == 0
    requires Eval(first, m) % 2 == b1 && Eval(second, m) % 2 == b2
    requires k2 == k + p * b1 + p2 * b2
    ensures Exec(PackStmts(j, first, second), m.(temps := m.temps[Flags := k]))
            == m.(temps := m.temps[Flags := k2])
  {
    ExecTwo(PackStmts(j, first, second), m.(temps := m.temps[Flags := k]));
    SelFlagsStep(j, p, first, m, k, b1);
    SelFlagsStep(j + 1, p2, second, m, k + p * b1, b2);
  }

  function PackFirst(): seq<Stmt>
  {
    [ ZExt(8, LVariable(Temp(Flags), 8), Reg(C, 1)) ] + PackStmts(1, Reg(Z, 1), Reg(I, 1))
  }

  function PackMiddle(): seq<Stmt>
  {
    PackStmts(3, Reg(D, 1), Reg(B, 1)) + PackStmts(5, Undefined, Reg(V, 1))
  }

  function PackLast(): seq<Stmt>
  {
    [ Sel(7, LVariable(Temp(Flags), 8), Reg(N, 1)) ]
  }

  /** C, Z and I in bits 0 to 2, the rest of `flags` clear. */
  lemma PackFirstEffect(m: Machine)
    ensures Exec(PackFirst(), m) == m.(temps := m.temps[Flags := m.c + 2 * m.z + 4 * m.i])
  {
    var zext := [ZExt(8, LVariable(Temp(Flags), 8), Reg(C, 1))];
    ExecAppend(zext, PackStmts(1, Reg(Z, 1), Reg(I, 1)), m);
    ExecOne(zext, m);
    assert Exec(zext, m) == m.(temps := m.temps[Flags := m.c]);
    PackZI(m);
  }

  lemma PackZI(m: Machine)
    ensures Exec(PackStmts(1, Reg(Z, 1), Reg(I, 1)), m.(temps := m.temps[Flags := m.c]))
            == m.(temps := m.temps[Flags := m.c + 2 * m.z + 4 * m.i])
  {
    PackPair(1, 2, 4, Reg(Z, 1), Reg(I, 1), m, m.c, m.z, m.i, m.c + 2 * m.z + 4 * m.i);
  }

  /** D and B in bits 3 and 4, `?` and V in bits 5 and 6. */
  lemma PackMiddleEffect(m: Machine, k: Word)
    requires k < 8
    ensures Exec(PackMiddle(), m.(temps := m.temps[Flags := k]))
            == m.(temps := m.temps[Flags := k + 8 * m.d + 16 * m.b + 32 * (m.undefined % 2) + 64 * m.v])
  {
    var mk := m.(temps := m.temps[Flags := k]);
    var k1 := k + 8 * m.d + 16 * m.b;
    ExecAppend(PackStmts(3, Reg(D, 1), Reg(B, 1)), PackStmts(5, Undefined, Reg(V, 1)), mk);
    PackDB(m, k);
    PackUV(m, k1);
  }

  lemma PackDB(m: Machine, k: Word)
    requires k < 8
    ensures Exec(PackStmts(3, Reg(D, 1), Reg(B, 1)), m.(temps := m.temps[Flags := k]))
            == m.(temps := m.temps[Flags := k + 8 * m.d + 16 * m.b])
  {
    PackPair(3, 8, 16, Reg(D, 1), Reg(B, 1), m, k, m.d, m.b, k + 8 * m.d + 16 * m.b);
  }

  lemma PackUV(m: Machine, k: Word)
    requires k < 32
    ensures Exec(PackStmts(5, Undefined, Reg(V, 1)), m.(temps := m.temps[Flags := k]))
            == m.(temps := m.temps[Flags := k + 32 * (m.undefined % 2) + 64 * m.v])
  {
    PackPair(5, 32, 64, Undefined, Reg(V, 1), m, k, m.undefined % 2, m.v, k + 32 * (m.undefined % 2) + 64 * m.v);
  }

  /** N in bit 7. */
  lemma PackLastEffect(m: Machine, k: Word)
    requires k < 0x80
    ensures Exec(PackLast(), m.(temps := m.temps[Flags := k])) == m.(temps := m.temps[Flags := k + 128 * m.n])
  {
    ExecOne(PackLast(), m.(temps := m.temps[Flags := k]));
    SelFlagsStep(7, 128, Reg(N, 1), m, k, m.n);
  }

  /** The packing leaves the status byte in `flags` and changes nothing else. */
  lemma PackFlagsEffect(m: Machine)
    ensures Exec(PackFlags(), m) == m.(temps := m.temps[Flags := PackedFlags(m)])
  {
    PackFlagsSplit(m);
    PackFirstEffect(m);
    PackFlagsFrom(m, Exec(PackFirst(), m));
  }

  lemma PackFlagsSplit(m: Machine)
    ensures Exec(PackFlags(), m) == Exec(PackLast(), Exec(PackMiddle(), Exec(PackFirst(), m)))
  {
    assert PackFlags() == PackFirst() + PackMiddle() + PackLast();
    ExecAppend(PackFirst() + PackMiddle(), PackLast(), m);
    ExecAppend(PackFirst(), PackMiddle(), m);
  }

  lemma PackFlagsFrom(m: Machine, m1: Machine)
    requires m1 == m.(temps := m.temps[Flags := m.c + 2 * m.z + 4 * m.i])
    ensures Exec(PackLast(), Exec(PackMiddle(), m1)) == m.(temps := m.temps[Flags := PackedFlags(m)])
  {
    var k := m.c + 2 * m.z + 4 * m.i;
    PackMiddleEffect(m, k);
    PackLastFrom(m, Exec(PackMiddle(), m1));
  }

  lemma PackLastFrom(m: Machine, m2: Machine)
    requires m2 == m.(temps := m.temps[Flags := m.c + 2 * m.z + 4 * m.i + 8 * m.d + 16 * m.b + 32 * (m.undefined % 2) + 64 * m.v])
    ensures Exec(PackLast(), m2) == m.(temps := m.temps[Flags := PackedFlags(m)])
  {
    PackLastEffect(m, m.c + 2 * m.z + 4 * m.i + 8 * m.d + 16 * m.b + 32 * (m.undefined % 2) + 64 * m.v);
  }

  // ---------------------------------------------------------------------
  // Pulls

  /** The slot a pull reads: `0x100 + S + 1` in nine bits, so S = 0xFF
      reads address 0 rather than 0x100. */
  function PullAddress(s: Byte): Word
  {
    (0x100 + s + 1) % 0x200
  }

  /** The first three statements of both pulls: the pull address in `sp`. */
  function PullHead(): seq<Stmt> { StackAddress() + NextSlot() }

  /** The last three statements of both pulls. */
  function PullTail(): seq<Stmt> { SpToS() + ZeroNegativeOfA() }

  function PlaBody(): seq<Stmt> { [Load(LVariable(A, 8), Sp9())] + PullTail() }

  function PlpBody(): seq<Stmt> { [Load(LVariable(Temp(Flags), 8), Sp9())] + (UnpackLow() + (UnpackHigh() + PullTail())) }

  function UnpackLow(): seq<Stmt> { UnpackFlags()[..3] }

  function UnpackHigh(): seq<Stmt> { UnpackFlags()[3..] }

  lemma PullShapes()
    ensures Pla() == PullHead() + PlaBody()
    ensures Plp() == PullHead() + PlpBody()
  {
    assert UnpackFlags() == UnpackLow() + UnpackHigh();
  }

  /** Both pulls run from the pull address onwards. */
  lemma PlaSplit(m: Machine, p: Word)
    requires p == PullAddress(m.s)
    ensures Exec(Pla(), m) == Exec(PlaBody(), m.(temps := m.temps[Sp := p]))
  {
    PullShapes();
    ExecAppend(PullHead(), PlaBody(), m);
    PullAddressEffect(m);
  }

  lemma PlpSplit(m: Machine, p: Word)
    requires p == PullAddress(m.s)
    ensures Exec(Plp(), m) == Exec(PlpBody(), m.(temps := m.temps[Sp := p]))
  {
    PullShapes();
    ExecAppend(PullHead(), PlpBody(), m);
    PullAddressEffect(m);
  }

  lemma PullAddressEffect(m: Machine)
    ensures Exec(PullHead(), m) == m.(temps := m.temps[Sp := PullAddress(m.s)])
  {
    ExecAppend(StackAddress(), NextSlot(), m);
    StackAddressEffect(m);
    var m1 := m.(temps := m.temps[Sp := 0x100 + m.s]);
    NextSlotEffect(m1, 0x100 + m.s);
    assert m1.temps[Sp := PullAddress(m.s)] == m.temps[Sp := PullAddress(m.s)];
  }

  /** Z and N from A, N being the sign bit. */
  lemma ZeroNegativeOfAEffect(m: Machine)
    ensures Exec(ZeroNegativeOfA(), m) == m.(z := Flag(m.a == 0), n := Flag(m.a >= 0x80))
  {
    ExecTwo(ZeroNegativeOfA(), m);
    ZeroStep(Reg(A, 8), m);
    NegativeStep(Reg(A, 8), m.(z := Flag(m.a == 0)));
  }

  /** `S := sp:8`, then Z and N from A. */
  lemma PullEnd(m: Machine, p: Word)
    requires SpOf(m) == p
    ensures Exec(PullTail(), m) == m.(s := p % 0x100, z := Flag(m.a == 0), n := Flag(m.a >= 0x80))
  {
    ExecAppend(SpToS(), ZeroNegativeOfA(), m);
    SpToSEffect(m, p);
    ZeroNegativeOfAEffect(m.(s := p % 0x100));
  }

  /** `pla` loads A from the pull address, leaves S one higher (modulo 256)
      and sets Z and N from the loaded byte. */
  lemma PlaEffect(m: Machine)
    ensures var k := ReadByte(m.ram, PullAddress(m.s));
            Exec(Pla(), m)
            == m.(a := k, s := (m.s + 1) % 0x100, z := Flag(k == 0), n := Flag(k >= 0x80), temps := m.temps[Sp := PullAddress(m.s)])
  {
    PlaSplit(m, PullAddress(m.s));
    PlaFrom(m, PullAddress(m.s));
  }

  lemma PlaFrom(m: Machine, p: Word)
    requires p == PullAddress(m.s)
    ensures var k := ReadByte(m.ram, p);
            Exec(PlaBody(), m.(temps := m.temps[Sp := p]))
            == m.(a := k, s := (m.s + 1) % 0x100, z := Flag(k == 0), n := Flag(k >= 0x80), temps := m.temps[Sp := p])
  {
    NextLowByte(m.s);
    PlaAfterAddress(m, p, (m.s + 1) % 0x100);
  }

  /** The rest of `pla`, from a machine whose `sp` holds the slot address `p`. */
  lemma PlaAfterAddress(m0: Machine, p: Word, t: Byte)
    requires p < 0x200 && p % 0x100 == t
    ensures var k := ReadByte(m0.ram, p);
            Exec(PlaBody(), m0.(temps := m0.temps[Sp := p]))
            == m0.(a := k, s := t, z := Flag(k == 0), n := Flag(k >= 0x80), temps := m0.temps[Sp := p])
  {
    var m := m0.(temps := m0.temps[Sp := p]);
    var k := ReadByte(m0.ram, p);
    PlaLoad(m, p, k);
    PullEnd(m.(a := k), p);
  }

  /** `load/ram A:8, sp:9`, the first statement of the body of `pla`. */
  lemma PlaLoad(m: Machine, p: Word, k: Byte)
    requires SpOf(m) == p && p < 0x200 && k == ReadByte(m.ram, p)
    ensures Exec(PlaBody(), m) == Exec(PullTail(), m.(a := k)) && SpOf(m.(a := k)) == p
  {
    var load := [Load(LVariable(A, 8), Sp9())];
    ExecAppend(load, PullTail(), m);
    ExecOne(load, m);
    LoadSlotStep(m, p);
  }

  /** Moving bit `j` of `flags` into a flag. */
  lemma UnpackBit(d: Name, j: nat, m: Machine, k: Word)
    requires FlagName(d) && j < 16 && Get(m, Temp(Flags)) == k
    ensures Step(Mov(LVariable(d, 1), Variable(Temp(Flags), 1, j)), m) == Put(m, d, BitAt(k, j))
  {
    MovBitStep(d, Temp(Flags), j, m);
  }

  lemma UnpackLowEffect(m: Machine, k: Word)
    requires Get(m, Temp(Flags)) == k
    ensures Exec(UnpackLow(), m) == m.(c := BitAt(k, 0), z := BitAt(k, 1), i := BitAt(k, 2))
  {
    ExecThree(UnpackLow(), m);
    UnpackLowSteps(m, k);
  }

  lemma UnpackLowSteps(m: Machine, k: Word)
    requires Get(m, Temp(Flags)) == k
    ensures Step(UnpackLow()[0], m) == m.(c := BitAt(k, 0))
    ensures Step(UnpackLow()[1], m.(c := BitAt(k, 0))) == m.(c := BitAt(k, 0), z := BitAt(k, 1))
    ensures Step(UnpackLow()[2], m.(c := BitAt(k, 0), z := BitAt(k, 1)))
            == m.(c := BitAt(k, 0), z := BitAt(k, 1), i := BitAt(k, 2))
  {
    UnpackBit(C, 0, m, k);
    var m1 := m.(c := BitAt(k, 0));
    UnpackBit(Z, 1, m1, k);
    var m2 := m1.(z := BitAt(k, 1));
    UnpackBit(I, 2, m2, k);
  }

  lemma UnpackHighEffect(m: Machine, k: Word)
    requires Get(m, Temp(Flags)) == k
    ensures Exec(UnpackHigh(), m) == m.(d := BitAt(k, 3), v := BitAt(k, 6), n := BitAt(k, 7))
  {
    ExecThree(UnpackHigh(), m);
    UnpackBit(D, 3, m, k);
    var m1 := m.(d := BitAt(k, 3));
    UnpackBit(V, 6, m1, k);
    var m2 := m1.(v := BitAt(k, 6));
    UnpackBit(N, 7, m2, k);
  }

  /** The status byte `k` unpacked into the machine: C, Z, I, D, V and N
      from bits 0, 1, 2, 3, 6 and 7; B and everything else unchanged. */
  function Unpacked(m: Machine, k: Word): Machine
  {
    m.(c := BitAt(k, 0), z := BitAt(k, 1), i := BitAt(k, 2), d := BitAt(k, 3), v := BitAt(k, 6), n := BitAt(k, 7))
  }

  /** The six moves unpack the byte held in `flags`. */
  lemma UnpackEffect(m: Machine, k: Word)
    requires Get(m, Temp(Flags)) == k
    ensures Exec(UnpackFlags(), m) == Unpacked(m, k)
  {
    assert UnpackFlags() == UnpackLow() + UnpackHigh();
    ExecAppend(UnpackLow(), UnpackHigh(), m);
    UnpackLowEffect(m, k);
    UnpackHighEffect(m.(c := BitAt(k, 0), z := BitAt(k, 1), i := BitAt(k, 2)), k);
  }

  /** `plp` unpacks the byte at the pull address into the flags, leaves S
      one higher (modulo 256), and ends by setting Z and N from A, so the
      pulled Z and N bits are overwritten; B is never written. */
  lemma PlpEffect(m: Machine)
    ensures var k := ReadByte(m.ram, PullAddress(m.s));
            Exec(Plp(), m)
            == Unpacked(m, k).(s := (m.s + 1) % 0x100, z := Flag(m.a == 0), n := Flag(m.a >= 0x80),
                               temps := m.temps[Sp := PullAddress(m.s)][Flags := k])
  {
    PlpSplit(m, PullAddress(m.s));
    PlpFrom(m, PullAddress(m.s));
  }

  lemma PlpFrom(m: Machine, p: Word)
    requires p == PullAddress(m.s)
    ensures var k := ReadByte(m.ram, p);
            Exec(PlpBody(), m.(temps := m.temps[Sp := p]))
            == Unpacked(m, k).(s := (m.s + 1) % 0x100, z := Flag(m.a == 0), n := Flag(m.a >= 0x80), temps := m.temps[Sp := p][Flags := k])
  {
    NextLowByte(m.s);
    PlpAfterAddress(m, p, (m.s + 1) % 0x100);
  }

  /** The rest of `plp`, from a machine whose `sp` holds the slot address `p`. */
  lemma PlpAfterAddress(m0: Machine, p: Word, t: Byte)
    requires p < 0x200 && p % 0x100 == t
    ensures var k := ReadByte(m0.ram, p);
            Exec(PlpBody(), m0.(temps := m0.temps[Sp := p]))
            == Unpacked(m0, k).(s := t, z := Flag(m0.a == 0), n := Flag(m0.a >= 0x80), temps := m0.temps[Sp := p][Flags := k])
  {
    var m := m0.(temps := m0.temps[Sp := p]);
    var k := ReadByte(m.ram, p);
    var m1 := m.(temps := m.temps[Flags := k]);
    PlpLoad(m, p, k, m1);
    PullEnd(Unpacked(m1, k), p);
  }

  /** The load into `flags` and the unpacking, the first part of the body of `plp`. */
  lemma PlpLoad(m: Machine, p: Word, k: Byte, m1: Machine)
    requires SpOf(m) == p && p < 0x200 && k == ReadByte(m.ram, p)
    requires m1 == m.(temps := m.temps[Flags := k])
    ensures Exec(PlpBody(), m) == Exec(PullTail(), Unpacked(m1, k)) && SpOf(Unpacked(m1, k)) == p
  {
    var load := [Load(LVariable(Temp(Flags), 8), Sp9())];
    ExecAppend(load, UnpackLow() + (UnpackHigh() + PullTail()), m);
    ExecOne(load, m);
    LoadFlagsStep(m, p);
    UnpackThenTail(m1, k);
  }

  lemma UnpackThenTail(m1: Machine, k: Word)
    requires Get(m1, Temp(Flags)) == k
    ensures Exec(UnpackLow() + (UnpackHigh() + PullTail()), m1) == Exec(PullTail(), Unpacked(m1, k))
  {
    ExecAppend(UnpackLow(), UnpackHigh() + PullTail(), m1);
    UnpackLowEffect(m1, k);
    var m2 := m1.(c := BitAt(k, 0), z := BitAt(k, 1), i := BitAt(k, 2));
    ExecAppend(UnpackHigh(), PullTail(), m2);
    UnpackHighEffect(m2, k);
    var m3 := m2.(d := BitAt(k, 3), v := BitAt(k, 6), n := BitAt(k, 7));
    assert m3 == Unpacked(m1, k);
  }

  // ---------------------------------------------------------------------
  // Round trip

  /** Packing the status byte and unpacking it again restores C, Z, I, D, V
      and N: the only lasting change is the `flags` temporary. */
  lemma PackUnpack(m: Machine)
    ensures Exec(PackFlags() + UnpackFlags(), m) == m.(temps := m.temps[Flags := PackedFlags(m)])
  {
    ExecAppend(PackFlags(), UnpackFlags(), m);
    PackFlagsEffect(m);
    UnpackPacked(m, m.(temps := m.temps[Flags := PackedFlags(m)]));
  }

  /** Unpacking the packed byte changes nothing. */
  lemma UnpackPacked(m: Machine, m1: Machine)
    requires m1 == m.(temps := m.temps[Flags := PackedFlags(m)])
    ensures Exec(UnpackFlags(), m1) == m1
  {
    UnpackEffect(m1, PackedFlags(m));
    PackedBits(m);
  }

  /** For the same S, a pull reads the address one above the slot a push
      writes, wrapping from 0x1FF to 0. A push has already moved S up by
      one, so a pull right after it reads two slots above the pushed byte. */
  lemma PushPullSlots(s: Byte)
    ensures PullAddress(s) != 0x100 + s
    ensures s < 0xFF ==> PullAddress(s) == 0x100 + s + 1
    ensures s == 0xFF ==> PullAddress(s) == 0
  {
  }
}
