/** `php` followed by `plp`: as written the status byte is pushed at S and
    pulled from two slots higher, and `plp` ends by overwriting Z and N
    from A, so the pair does not give the flags back. A corrected pair that
    moves S down on the push, up before the pull, and takes every flag from
    the pulled byte restores them all. */
module StatusFindings {
  import opened Core
  import opened Bits
  import opened Evaluator
  import opened Semantic
  import opened Steps
  import opened StackProps
  import opened Findings

  // ---------------------------------------------------------------------
  // As written

  /** As written, `php` then `plp` with S below 0xFE: C, I, D and V come
      from the byte two slots above the one `php` wrote, Z and N describe A,
      and S ends two higher. */
  lemma PhpThenPlp(m: Machine)
    requires m.s < 0xFE
    ensures var m2 := Exec(Php() + Plp(), m);
            var k := ReadByte(m.ram, 0x100 + m.s + 2);
            m2.c == BitAt(k, 0) && m2.i == BitAt(k, 2) && m2.d == BitAt(k, 3) && m2.v == BitAt(k, 6)
            && m2.z == Flag(m.a == 0) && m2.n == Flag(m.a >= 0x80) && m2.s == m.s + 2
  {
    ExecAppend(Php(), Plp(), m);
    PhpEffect(m);
    PlpAfterPhp(m, Exec(Php(), m));
  }

  lemma PlpAfterPhp(m: Machine, m1: Machine)
    requires m.s < 0xFE
    requires Arch(m1) == Arch(m.(ram := m.ram[0x100 + m.s := PackedFlags(m)], s := (m.s + 1) % 0x100))
    ensures var m2 := Exec(Plp(), m1);
            var k := ReadByte(m.ram, 0x100 + m.s + 2);
            m2.c == BitAt(k, 0) && m2.i == BitAt(k, 2) && m2.d == BitAt(k, 3) && m2.v == BitAt(k, 6)
            && m2.z == Flag(m.a == 0) && m2.n == Flag(m.a >= 0x80) && m2.s == m.s + 2
  {
    assert m1.s == Arch(m1).s && m1.ram == Arch(m1).ram && m1.a == Arch(m1).a;
    PlpTwoUp(m, m1);
  }

  lemma PlpTwoUp(m: Machine, m1: Machine)
    requires m.s < 0xFE && m1.s == m.s + 1 && m1.a == m.a
    requires m1.ram == m.ram[0x100 + m.s := PackedFlags(m)]
    ensures var m2 := Exec(Plp(), m1);
            var k := ReadByte(m.ram, 0x100 + m.s + 2);
            m2.c == BitAt(k, 0) && m2.i == BitAt(k, 2) && m2.d == BitAt(k, 3) && m2.v == BitAt(k, 6)
            && m2.z == Flag(m.a == 0) && m2.n == Flag(m.a >= 0x80) && m2.s == m.s + 2
  {
    PlpEffect(m1);
    TwoUp(m.s, m1.s);
    ReadOther(m.ram, 0x100 + m.s, 0x100 + m.s + 2, PackedFlags(m));
  }

  /** So `php; plp` with S = 0 and C set clears C when the byte at 0x102
      is 0. */
  lemma PhpPlpLosesC(m: Machine)
    requires m.s == 0 && m.c == 1 && ReadByte(m.ram, 0x102) == 0
    ensures Exec(Php() + Plp(), m).c == 0
    ensures Exec(Php() + Plp(), m).c != m.c
  {
    PhpThenPlp(m);
  }

  // ---------------------------------------------------------------------
  // Corrected

  /** The tail of the corrected push: store the status byte at `sp`, then
      move S down. */
  function PushFlagsDown(): seq<Stmt>
  {
    [ Store(Sp9(), Reg(Temp(Flags), 8)), Binary(SubOp, SP(), Reg(S, 8), Imm(1, 8)) ]
  }

  /** A push of the status byte that stores at `0x100 + S` and then moves S
      down. */
  function PhpCorrected(): seq<Stmt>
  {
    StackAddress() + (PackFlags() + PushFlagsDown())
  }

  /** The body of the corrected pull: load the status byte from `sp` and
      unpack all six flags from it. */
  function PullFlags(): seq<Stmt>
  {
    [ Load(LVariable(Temp(Flags), 8), Sp9()) ] + UnpackFlags()
  }

  /** A pull of the status byte that moves S up, then loads from
      `0x100 + S`, and leaves Z and N as the byte gives them. */
  function PlpCorrected(): seq<Stmt>
  {
    [ Binary(AddOp, SP(), Reg(S, 8), Imm(1, 8)) ] + (StackAddress() + PullFlags())
  }

  /** The corrected push writes the status byte at `0x100 + S` and leaves S
      one lower, modulo 256; the flags themselves are untouched. */
  lemma PhpCorrectedEffect(m: Machine)
    ensures Exec(PhpCorrected(), m)
            == m.(ram := m.ram[0x100 + m.s := PackedFlags(m)], s := (m.s + 0xFF) % 0x100,
                  temps := m.temps[Sp := 0x100 + m.s][Flags := PackedFlags(m)])
  {
    ExecAppend(StackAddress(), PackFlags() + PushFlagsDown(), m);
    StackAddressEffect(m);
    PushFlagsFrom(m, m.(temps := m.temps[Sp := 0x100 + m.s]));
  }

  lemma PushFlagsFrom(m: Machine, m1: Machine)
    requires m1 == m.(temps := m.temps[Sp := 0x100 + m.s])
    ensures Exec(PackFlags() + PushFlagsDown(), m1)
            == m.(ram := m.ram[0x100 + m.s := PackedFlags(m)], s := (m.s + 0xFF) % 0x100,
                  temps := m.temps[Sp := 0x100 + m.s][Flags := PackedFlags(m)])
  {
    ExecAppend(PackFlags(), PushFlagsDown(), m1);
    PackFlagsEffect(m1);
    assert PackedFlags(m1) == PackedFlags(m);
    PushFlagsDownEffect(m1.(temps := m1.temps[Flags := PackedFlags(m)]), 0x100 + m.s, PackedFlags(m));
  }

  lemma PushFlagsDownEffect(m: Machine, p: Word, k: Byte)
    requires SpOf(m) == p && p < 0x200 && Get(m, Temp(Flags)) == k
    ensures Exec(PushFlagsDown(), m) == m.(ram := m.ram[p := k], s := (m.s + 0xFF) % 0x100)
  {
    ExecTwo(PushFlagsDown(), m);
    StoreSlotStep(Temp(Flags), m, p);
    var m1 := m.(ram := m.ram[p := k]);
    BinaryByteStep(SubOp, S, Reg(S, 8), Imm(1, 8), m1);
  }

  /** What the corrected pull leaves once S points at the slot: `sp` holds
      the slot address and `flags` the byte read there, and C, Z, I, D, V
      and N are unpacked from that byte. */
  function PulledFlags(m: Machine, k: Byte): Machine
  {
    Unpacked(m.(temps := m.temps[Sp := 0x100 + m.s][Flags := k]), k)
  }

  /** The corrected pull moves S up one, modulo 256, and unpacks C, Z, I,
      D, V and N from the byte at `0x100 + S`. */
  lemma PlpCorrectedEffect(m: Machine, t: Byte, k: Byte)
    requires t == (m.s + 1) % 0x100 && k == ReadByte(m.ram, 0x100 + t)
    ensures Exec(PlpCorrected(), m) == PulledFlags(m.(s := t), k)
  {
    var m1 := m.(s := t);
    PlpCorrectedSplit(m, m1);
    PulledSlot(m, m1, t, k);
    PullFlagsFrom(m1, k);
  }

  lemma PulledSlot(m: Machine, m1: Machine, t: Byte, k: Byte)
    requires m1 == m.(s := t) && k == ReadByte(m.ram, 0x100 + t)
    ensures k == ReadByte(m1.ram, 0x100 + m1.s)
  {
  }

  lemma PlpCorrectedSplit(m: Machine, m1: Machine)
    requires m1 == m.(s := (m.s + 1) % 0x100)
    ensures Exec(PlpCorrected(), m) == Exec(StackAddress() + PullFlags(), m1)
  {
    ExecAppend([ Binary(AddOp, SP(), Reg(S, 8), Imm(1, 8)) ], StackAddress() + PullFlags(), m);
    StackUpEffect(m);
  }

  lemma PullFlagsFrom(m: Machine, k: Byte)
    requires k == ReadByte(m.ram, 0x100 + m.s)
    ensures Exec(StackAddress() + PullFlags(), m) == PulledFlags(m, k)
  {
    ExecAppend(StackAddress(), PullFlags(), m);
    StackAddressEffect(m);
    PullFlagsBody(m.(temps := m.temps[Sp := 0x100 + m.s]), 0x100 + m.s, k);
  }

  lemma PullFlagsBody(m: Machine, p: Word, k: Byte)
    requires SpOf(m) == p && p < 0x200 && k == ReadByte(m.ram, p)
    ensures Exec(PullFlags(), m) == Unpacked(m.(temps := m.temps[Flags := k]), k)
  {
    var m1 := m.(temps := m.temps[Flags := k]);
    PullFlagsLoad(m, p, k, m1);
    FlagsHeld(m, k, m1);
    UnpackEffect(m1, k);
  }

  lemma FlagsHeld(m: Machine, k: Byte, m1: Machine)
    requires m1 == m.(temps := m.temps[Flags := k])
    ensures Get(m1, Temp(Flags)) == k
  {
  }

  /** The load into `flags`, the first statement of the corrected pull body. */
  lemma PullFlagsLoad(m: Machine, p: Word, k: Byte, m1: Machine)
    requires SpOf(m) == p && p < 0x200 && k == ReadByte(m.ram, p)
    requires m1 == m.(temps := m.temps[Flags := k])
    ensures Exec(PullFlags(), m) == Exec(UnpackFlags(), m1)
  {
    var load := [ Load(LVariable(Temp(Flags), 8), Sp9()) ];
    ExecAppend(load, UnpackFlags(), m);
    ExecOne(load, m);
    LoadFlagsStep(m, p);
  }

  /** With the corrected pair, `php; plp` gives back every flag, A, X, Y
      and S: the only lasting change is the stack slot written. */
  lemma PhpPlpCorrected(m: Machine)
    ensures Arch(Exec(PhpCorrected() + PlpCorrected(), m)) == Arch(m.(ram := m.ram[0x100 + m.s := PackedFlags(m)]))
  {
    ExecAppend(PhpCorrected(), PlpCorrected(), m);
    PhpCorrectedEffect(m);
    PullFlagsAfterPush(m, Exec(PhpCorrected(), m));
  }

  lemma PullFlagsAfterPush(m: Machine, m1: Machine)
    requires m1 == m.(ram := m.ram[0x100 + m.s := PackedFlags(m)], s := (m.s + 0xFF) % 0x100,
                      temps := m.temps[Sp := 0x100 + m.s][Flags := PackedFlags(m)])
    ensures Arch(Exec(PlpCorrected(), m1)) == Arch(m.(ram := m.ram[0x100 + m.s := PackedFlags(m)]))
  {
    DownThenUp(m.s);
    assert ReadByte(m1.ram, 0x100 + m.s) == PackedFlags(m);
    PlpCorrectedEffect(m1, m.s, PackedFlags(m));
    UnpackedOwnFlags(m, m1.(s := m.s, temps := m1.temps[Sp := 0x100 + m.s][Flags := PackedFlags(m)]));
  }

  /** Unpacking the status byte of a machine into one with the same flags
      changes nothing. */
  lemma UnpackedOwnFlags(m: Machine, m1: Machine)
    requires m1.c == m.c && m1.z == m.z && m1.i == m.i && m1.d == m.d && m1.v == m.v && m1.n == m.n
    ensures Unpacked(m1, PackedFlags(m)) == m1
  {
    PackedBits(m);
  }
}
