/** The hand-assembled extended BPF socket selector, run on every payload. */
module EbpfSelector {
  import opened Bytes
  import opened QuicRoute
  import opened Ebpf

  const BPF_LDX: bv8 := 0x01
  const BPF_ALU64: bv8 := 0x07
  const BPF_JMP: bv8 := 0x05
  const BPF_DW: bv8 := 0x18
  const BPF_B: bv8 := 0x10
  const BPF_MEM: bv8 := 0x60
  const BPF_K: bv8 := 0x00
  const BPF_X: bv8 := 0x08
  const BPF_ADD: bv8 := 0x00
  const BPF_OR: bv8 := 0x40
  const BPF_AND: bv8 := 0x50
  const BPF_LSH: bv8 := 0x60
  const BPF_MOD: bv8 := 0x90
  const BPF_MOV: bv8 := 0xb0
  const BPF_JEQ: bv8 := 0x10
  const BPF_JGT: bv8 := 0x20
  const BPF_JLT: bv8 := 0xa0
  const BPF_EXIT: bv8 := 0x90

  const DEFAULT: nat := 32
  const DEFAULT_EXIT: nat := 33

  /** `workers as i32`: the low 32 bits read as a signed number. */
  function AsI32(workers: nat): (r: int)
    ensures -0x8000_0000 <= r < 0x8000_0000
    ensures (r - workers) % 0x1_0000_0000 == 0
  {
    var low := workers % 0x1_0000_0000;
    if low < 0x8000_0000 then low else low - 0x1_0000_0000
  }

  /** Instructions 0 to 8: load the bounds, require a first byte, branch on the form bit. */
  function HeaderSection(): (p: seq<BpfInsn>)
    ensures |p| == 9
  {
    [ Insn(BPF_ALU64 | BPF_MOV | BPF_X, 6, 1, 0, 0),
      Insn(BPF_LDX | BPF_DW | BPF_MEM, 2, 6, 0, 0),
      Insn(BPF_LDX | BPF_DW | BPF_MEM, 3, 6, 8, 0),
      Insn(BPF_ALU64 | BPF_MOV | BPF_X, 4, 2, 0, 0),
      Insn(BPF_ALU64 | BPF_ADD | BPF_K, 4, 0, 0, 1),
      Insn(BPF_JMP | BPF_JGT | BPF_X, 4, 3, 26, 0),
      Insn(BPF_LDX | BPF_B | BPF_MEM, 0, 2, 0, 0),
      Insn(BPF_ALU64 | BPF_AND | BPF_K, 0, 0, 0, 0x80),
      Insn(BPF_JMP | BPF_JEQ | BPF_K, 0, 0, 14, 0)
    ]
  }

  /** Instructions 9 to 22: the long header form. */
  function LongSection(workers: nat): (p: seq<BpfInsn>)
    ensures |p| == 14
  {
    [ Insn(BPF_ALU64 | BPF_MOV | BPF_X, 4, 2, 0, 0),
      Insn(BPF_ALU64 | BPF_ADD | BPF_K, 4, 0, 0, 6),
      Insn(BPF_JMP | BPF_JGT | BPF_X, 4, 3, 20, 0),
      Insn(BPF_LDX | BPF_B | BPF_MEM, 4, 2, 5, 0),
      Insn(BPF_JMP | BPF_JLT | BPF_K, 4, 0, 18, 2),
      Insn(BPF_ALU64 | BPF_MOV | BPF_X, 5, 2, 0, 0),
      Insn(BPF_ALU64 | BPF_ADD | BPF_K, 5, 0, 0, 8),
      Insn(BPF_JMP | BPF_JGT | BPF_X, 5, 3, 15, 0),
      Insn(BPF_LDX | BPF_B | BPF_MEM, 0, 2, 6, 0),
      Insn(BPF_ALU64 | BPF_LSH | BPF_K, 0, 0, 0, 8),
      Insn(BPF_LDX | BPF_B | BPF_MEM, 4, 2, 7, 0),
      Insn(BPF_ALU64 | BPF_OR | BPF_X, 0, 4, 0, 0),
      Insn(BPF_ALU64 | BPF_MOD | BPF_K, 0, 0, 0, AsI32(workers)),
      Insn(BPF_JMP | BPF_EXIT, 0, 0, 0, 0)
    ]
  }

  /** Instructions 23 to 31: the short header form. */
  function ShortSection(workers: nat): (p: seq<BpfInsn>)
    ensures |p| == 9
  {
    [ Insn(BPF_ALU64 | BPF_MOV | BPF_X, 4, 2, 0, 0),
      Insn(BPF_ALU64 | BPF_ADD | BPF_K, 4, 0, 0, 3),
      Insn(BPF_JMP | BPF_JGT | BPF_X, 4, 3, 6, 0),
      Insn(BPF_LDX | BPF_B | BPF_MEM, 0, 2, 1, 0),
      Insn(BPF_ALU64 | BPF_LSH | BPF_K, 0, 0, 0, 8),
      Insn(BPF_LDX | BPF_B | BPF_MEM, 4, 2, 2, 0),
      Insn(BPF_ALU64 | BPF_OR | BPF_X, 0, 4, 0, 0),
      Insn(BPF_ALU64 | BPF_MOD | BPF_K, 0, 0, 0, AsI32(workers)),
      Insn(BPF_JMP | BPF_EXIT, 0, 0, 0, 0)
    ]
  }

  /** Instructions 32 and 33: socket 0. */
  function DefaultSection(): (p: seq<BpfInsn>)
    ensures |p| == 2
  {
    [ Insn(BPF_ALU64 | BPF_MOV | BPF_K, 0, 0, 0, 0),
      Insn(BPF_JMP | BPF_EXIT, 0, 0, 0, 0)
    ]
  }

  function Program(workers: nat): (p: seq<BpfInsn>)
    ensures |p| == 34
  {
    HeaderSection() + LongSection(workers) + ShortSection(workers) + DefaultSection()
  }

  /** The program as instructions rather than bytes. */
  predicate Disassembled(p: seq<Op>, workers: nat) {
    && |p| == 34
    && BoundsLoaded(p)
    && FormTest(p)
    && IdLengthTest(p)
    && LengthTest(p, 3, 4, 1)
    && LengthTest(p, 9, 4, 6)
    && LengthTest(p, 14, 5, 8)
    && LengthTest(p, 23, 4, 3)
    && IndexTail(p, 17, 6, workers)
    && IndexTail(p, 26, 1, workers)
  }

  predicate BoundsLoaded(p: seq<Op>)
    requires |p| == 34
  {
    p[0] == Alu(Mov, 6, Reg(1)) && p[1] == Load(DoubleWord, 2, 6, 0) && p[2] == Load(DoubleWord, 3, 6, 8)
  }

  predicate FormTest(p: seq<Op>)
    requires |p| == 34
  {
    && p[6] == Load(SingleByte, 0, 2, 0)
    && p[7] == Alu(AndBits, 0, Imm(0x80))
    && p[8] == Jmp(Jeq, 0, Imm(0), 14)
  }

  predicate IdLengthTest(p: seq<Op>)
    requires |p| == 34
  {
    && p[12] == Load(SingleByte, 4, 2, 5)
    && p[13] == Jmp(Jlt, 4, Imm(2), 18)
    && p[32] == Alu(Mov, 0, Imm(0))
    && p[33] == Exit
  }

  /** Three instructions at `pc` that leave for the default when fewer than `size` bytes arrived. */
  predicate LengthTest(p: seq<Op>, pc: nat, t: nat, size: nat) {
    && pc + 2 < |p|
    && p[pc] == Alu(Mov, t, Reg(2))
    && p[pc + 1] == Alu(Add, t, Imm(size))
    && p[pc + 2] == Jmp(Jgt, t, Reg(3), DEFAULT - (pc + 3))
  }

  /** Six instructions at `pc` that read the index at `offset`, reduce it and exit with it. */
  predicate IndexTail(p: seq<Op>, pc: nat, offset: nat, workers: nat) {
    && pc + 5 < |p|
    && p[pc] == Load(SingleByte, 0, 2, offset)
    && p[pc + 1] == Alu(Lsh, 0, Imm(8))
    && p[pc + 2] == Load(SingleByte, 4, 2, offset + 1)
    && p[pc + 3] == Alu(OrBits, 0, Reg(4))
    && p[pc + 4] == Alu(Mod, 0, Imm(AsI32(workers)))
    && p[pc + 5] == Exit
  }

  lemma HeadDecodes(workers: nat)
    ensures BoundsLoaded(DecodeAll(Program(workers)))
    ensures LengthTest(DecodeAll(Program(workers)), 3, 4, 1)
  {
  }

  lemma FormDecodes(workers: nat)
    ensures FormTest(DecodeAll(Program(workers)))
    ensures LengthTest(DecodeAll(Program(workers)), 9, 4, 6)
  {
  }

  lemma IdLengthDecodes(workers: nat)
    ensures IdLengthTest(DecodeAll(Program(workers)))
    ensures LengthTest(DecodeAll(Program(workers)), 14, 5, 8)
  {
  }

  lemma LongTailDecodes(workers: nat)
    ensures IndexTail(DecodeAll(Program(workers)), 17, 6, workers)
  {
  }

  lemma ShortDecodes(workers: nat)
    ensures LengthTest(DecodeAll(Program(workers)), 23, 4, 3)
    ensures IndexTail(DecodeAll(Program(workers)), 26, 1, workers)
  {
  }

  /** What the encoded bytes decode to, for every worker count. */
  lemma ProgramDecodes(workers: nat)
    ensures Disassembled(DecodeAll(Program(workers)), workers)
  {
    HeadDecodes(workers);
    FormDecodes(workers);
    IdLengthDecodes(workers);
    LongTailDecodes(workers);
    ShortDecodes(workers);
  }

  predicate AllCanonical(p: seq<BpfInsn>) {
    forall i :: 0 <= i < |p| ==> Canonical(p[i])
  }

  lemma SectionsAreCanonical(workers: nat)
    ensures AllCanonical(HeaderSection()) && AllCanonical(DefaultSection())
    ensures AllCanonical(ShortSection(workers))
  {
  }

  lemma LongSectionIsCanonical(workers: nat)
    ensures AllCanonical(LongSection(workers))
  {
  }

  /** No instruction sets a field that it does not use. */
  lemma ProgramIsCanonical(workers: nat)
    ensures AllCanonical(Program(workers))
  {
    SectionsAreCanonical(workers);
    LongSectionIsCanonical(workers);
  }

  lemma DisassembledIsForwardOnly(p: seq<Op>, workers: nat)
    requires Disassembled(p, workers)
    ensures ForwardOnly(p)
  {
  }

  /** The run of the selector on one payload, with one step allowed per instruction. */
  function Select(mem: Memory, workers: nat): Machine
    requires mem.Valid()
  {
    Exec(DecodeAll(Program(workers)), mem, Entry(mem), |Program(workers)|)
  }

  predicate Loaded(mem: Memory, regs: Regs) {
    2 in regs && 3 in regs && regs[2] == mem.data && regs[3] == mem.DataEnd()
  }

  /** Three instructions compare a payload length with `size` and leave for the default when it is shorter. */
  lemma BoundsCheck(program: seq<Op>, mem: Memory, pc: nat, regs: Regs, t: nat, size: nat, fuel: nat)
    requires mem.Valid() && Loaded(mem, regs) && t !in {2, 3} && size <= 8
    requires LengthTest(program, pc, t, size) && fuel >= 3
    ensures Exec(program, mem, Running(pc, regs), fuel)
         == Exec(program, mem,
                 Running(if |mem.payload| < size then DEFAULT else pc + 3, regs[t := mem.data + size]), fuel - 3)
  {
    var m1 := Running(pc + 1, regs[t := mem.data]);
    var m2 := Running(pc + 2, regs[t := mem.data + size]);
    assert m2.regs == m1.regs[t := mem.data + size];
    OneStep(program, mem, Running(pc, regs), m1, fuel);
    OneStep(program, mem, m1, m2, fuel - 1);
    OneStep(program, mem, m2, Running(if |mem.payload| < size then DEFAULT else pc + 3, m2.regs), fuel - 2);
  }

  /** The value 64-bit modulo leaves: the immediate was cut to 32 bits and sign-extended. */
  lemma ModuloByImmediate(index: u64, workers: nat)
    requires index < 0x1_0000 && 1 <= workers < 0x1_0000_0000
    ensures Compute(Mod, index, SignExtend(AsI32(workers))) == index % workers
  {
    QuotientIs(workers, 0x1_0000_0000, 0, workers);
    if workers < 0x8000_0000 {
      QuotientIs(workers, U64_RANGE, 0, workers);
    } else {
      var wide := workers - 0x1_0000_0000 + U64_RANGE;
      QuotientIs(workers - 0x1_0000_0000, U64_RANGE, -1, wide);
      QuotientIs(index, wide, 0, index);
      QuotientIs(index, workers, 0, index);
    }
  }

  lemma IndexArithmetic(high: byte, low: byte)
    ensures Compute(Lsh, high, 8) == Shift8(high)
    ensures Compute(OrBits, Shift8(high), low) == BigEndian16(high, low)
  {
    Pow2Values();
    ShiftOr(high, low);
  }

  /** Six instructions read the index at `offset`, reduce it and exit with it. */
  lemma ReadIndex(program: seq<Op>, mem: Memory, pc: nat, regs: Regs, offset: nat, workers: nat, fuel: nat)
    requires mem.Valid() && Loaded(mem, regs) && offset + 2 <= |mem.payload|
    requires 1 <= workers < 0x1_0000_0000
    requires IndexTail(program, pc, offset, workers) && fuel >= 6
    ensures Exec(program, mem, Running(pc, regs), fuel)
         == Exited(pc + 5, IndexAt(mem.payload, offset) % workers)
  {
    var high, low := mem.payload[offset], mem.payload[offset + 1];
    var index := IndexAt(mem.payload, offset);
    var m1 := Running(pc + 1, regs[0 := high]);
    var m2 := Running(pc + 2, m1.regs[0 := Shift8(high)]);
    var m3 := Running(pc + 3, m2.regs[4 := low]);
    var m4 := Running(pc + 4, m3.regs[0 := index]);
    var m5 := Running(pc + 5, m4.regs[0 := index % workers]);
    IndexArithmetic(high, low);
    ModuloByImmediate(index, workers);
    OneStep(program, mem, Running(pc, regs), m1, fuel);
    OneStep(program, mem, m1, m2, fuel - 1);
    OneStep(program, mem, m2, m3, fuel - 2);
    OneStep(program, mem, m3, m4, fuel - 3);
    OneStep(program, mem, m4, m5, fuel - 4);
    OneStep(program, mem, m5, Exited(pc + 5, index % workers), fuel - 5);
  }

  /** From the default label the program exits with socket 0. */
  lemma DefaultExit(p: seq<Op>, workers: nat, mem: Memory, regs: Regs, fuel: nat)
    requires Disassembled(p, workers) && mem.Valid() && fuel >= 2
    ensures Exec(p, mem, Running(DEFAULT, regs), fuel) == Exited(DEFAULT_EXIT, 0)
  {
    var m1 := Running(DEFAULT_EXIT, regs[0 := 0]);
    OneStep(p, mem, Running(DEFAULT, regs), m1, fuel);
    OneStep(p, mem, m1, Exited(DEFAULT_EXIT, 0), fuel - 1);
  }

  /** The first three instructions leave the payload's bounds in registers 2 and 3. */
  lemma LoadBounds(p: seq<Op>, workers: nat, mem: Memory, fuel: nat) returns (regs: Regs)
    requires Disassembled(p, workers) && mem.Valid() && fuel >= 3
    ensures Loaded(mem, regs)
    ensures Exec(p, mem, Entry(mem), fuel) == Exec(p, mem, Running(3, regs), fuel - 3)
  {
    var m1 := Running(1, map[1 := mem.ctx][6 := mem.ctx]);
    var m2 := Running(2, m1.regs[2 := mem.data]);
    regs := m2.regs[3 := mem.DataEnd()];
    OneStep(p, mem, Entry(mem), m1, fuel);
    OneStep(p, mem, m1, m2, fuel - 1);
    OneStep(p, mem, m2, Running(3, regs), fuel - 2);
  }

  /** Instructions 6 to 8 branch on the header form bit of a non-empty payload. */
  lemma FormBranch(p: seq<Op>, workers: nat, mem: Memory, regs: Regs, fuel: nat) returns (next: Regs)
    requires Disassembled(p, workers) && mem.Valid() && Loaded(mem, regs) && mem.payload != [] && fuel >= 3
    ensures Loaded(mem, next)
    ensures Exec(p, mem, Running(6, regs), fuel)
         == Exec(p, mem, Running(if mem.payload[0] >= 0x80 then 9 else 23, next), fuel - 3)
  {
    var bit := And(mem.payload[0], 0x80);
    LongHeaderBit(mem.payload);
    var m1 := Running(7, regs[0 := mem.payload[0]]);
    next := m1.regs[0 := bit];
    OneStep(p, mem, Running(6, regs), m1, fuel);
    OneStep(p, mem, m1, Running(8, next), fuel - 1);
    OneStep(p, mem, Running(8, next), Running(if mem.payload[0] >= 0x80 then 9 else 23, next), fuel - 2);
  }

  /** Instructions 12 and 13 leave for the default when the connection ID is shorter than two bytes. */
  lemma DcidLengthBranch(p: seq<Op>, workers: nat, mem: Memory, regs: Regs, fuel: nat) returns (next: Regs)
    requires Disassembled(p, workers) && mem.Valid() && Loaded(mem, regs) && |mem.payload| >= 6 && fuel >= 2
    ensures Loaded(mem, next)
    ensures Exec(p, mem, Running(12, regs), fuel)
         == Exec(p, mem, Running(if mem.payload[5] < 2 then DEFAULT else 14, next), fuel - 2)
  {
    next := regs[4 := mem.payload[5]];
    OneStep(p, mem, Running(12, regs), Running(13, next), fuel);
    OneStep(p, mem, Running(13, next), Running(if mem.payload[5] < 2 then DEFAULT else 14, next), fuel - 1);
  }

  /** When the program gives up and picks socket 0. */
  predicate TakesDefault(payload: Packet) {
    if payload == [] then true
    else if payload[0] >= 0x80 then |payload| < 8 || payload[5] < 2
    else |payload| < 3
  }

  lemma LongForm(p: seq<Op>, workers: nat, mem: Memory, regs0: Regs, fuel: nat)
    requires Disassembled(p, workers) && mem.Valid() && Loaded(mem, regs0) && 1 <= workers < 0x1_0000_0000
    requires mem.payload != [] && mem.payload[0] >= 0x80 && fuel >= 16
    ensures Exec(p, mem, Running(9, regs0), fuel)
         == if TakesDefault(mem.payload) then Exited(DEFAULT_EXIT, 0)
            else Exited(22, IndexAt(mem.payload, 6) % workers)
  {
    BoundsCheck(p, mem, 9, regs0, 4, 6, fuel);
    var regs1 := regs0[4 := mem.data + 6];
    if |mem.payload| < 6 {
      DefaultExit(p, workers, mem, regs1, fuel - 3);
    } else {
      var regs2 := DcidLengthBranch(p, workers, mem, regs1, fuel - 3);
      if mem.payload[5] < 2 {
        DefaultExit(p, workers, mem, regs2, fuel - 5);
      } else {
        LongIndex(p, workers, mem, regs2, fuel - 5);
      }
    }
  }

  lemma LongIndex(p: seq<Op>, workers: nat, mem: Memory, regs0: Regs, fuel: nat)
    requires Disassembled(p, workers) && mem.Valid() && Loaded(mem, regs0) && 1 <= workers < 0x1_0000_0000 && fuel >= 11
    ensures Exec(p, mem, Running(14, regs0), fuel)
         == if |mem.payload| < 8 then Exited(DEFAULT_EXIT, 0) else Exited(22, IndexAt(mem.payload, 6) % workers)
  {
    BoundsCheck(p, mem, 14, regs0, 5, 8, fuel);
    var regs := regs0[5 := mem.data + 8];
    if |mem.payload| < 8 {
      DefaultExit(p, workers, mem, regs, fuel - 3);
    } else {
      ReadIndex(p, mem, 17, regs, 6, workers, fuel - 3);
    }
  }

  lemma ShortForm(p: seq<Op>, workers: nat, mem: Memory, regs0: Regs, fuel: nat)
    requires Disassembled(p, workers) && mem.Valid() && Loaded(mem, regs0) && 1 <= workers < 0x1_0000_0000
    requires mem.payload != [] && mem.payload[0] < 0x80 && fuel >= 9
    ensures Exec(p, mem, Running(23, regs0), fuel)
         == if TakesDefault(mem.payload) then Exited(DEFAULT_EXIT, 0)
            else Exited(31, IndexAt(mem.payload, 1) % workers)
  {
    BoundsCheck(p, mem, 23, regs0, 4, 3, fuel);
    var regs := regs0[4 := mem.data + 3];
    if |mem.payload| < 3 {
      DefaultExit(p, workers, mem, regs, fuel - 3);
    } else {
      ReadIndex(p, mem, 26, regs, 1, workers, fuel - 3);
    }
  }

  function ReducedIndex(payload: Packet, offset: nat, workers: nat): (r: nat)
    requires offset + 2 <= |payload| && workers > 0
    ensures r < workers && r < 0x1_0000
  {
    var index := IndexAt(payload, offset);
    ModuloBound(index, workers);
    index % workers
  }

  /** Where the program exits and with what, as a function of the payload alone. */
  function ExitFor(payload: Packet, workers: nat): Machine
    requires workers > 0
  {
    if TakesDefault(payload) then Exited(DEFAULT_EXIT, 0)
    else if payload[0] >= 0x80 then Exited(22, ReducedIndex(payload, 6, workers))
    else Exited(31, ReducedIndex(payload, 1, workers))
  }

  lemma RunFromEntry(p: seq<Op>, mem: Memory, workers: nat, fuel: nat)
    requires Disassembled(p, workers) && mem.Valid() && 1 <= workers < 0x1_0000_0000 && fuel >= 34
    ensures Exec(p, mem, Entry(mem), fuel) == ExitFor(mem.payload, workers)
  {
    var regs0 := LoadBounds(p, workers, mem, fuel);
    BoundsCheck(p, mem, 3, regs0, 4, 1, fuel - 3);
    var regs1 := regs0[4 := mem.data + 1];
    if mem.payload == [] {
      DefaultExit(p, workers, mem, regs1, fuel - 6);
    } else {
      RunFromFormBranch(p, mem, workers, regs1, fuel - 6);
    }
  }

  lemma RunFromFormBranch(p: seq<Op>, mem: Memory, workers: nat, regs0: Regs, fuel: nat)
    requires Disassembled(p, workers) && mem.Valid() && Loaded(mem, regs0) && 1 <= workers < 0x1_0000_0000
    requires mem.payload != [] && fuel >= 28
    ensures Exec(p, mem, Running(6, regs0), fuel) == ExitFor(mem.payload, workers)
  {
    var regs := FormBranch(p, workers, mem, regs0, fuel);
    if mem.payload[0] >= 0x80 {
      LongForm(p, workers, mem, regs, fuel - 3);
    } else {
      ShortForm(p, workers, mem, regs, fuel - 3);
    }
  }

  lemma SelectExits(mem: Memory, workers: nat)
    requires mem.Valid() && 1 <= workers < 0x1_0000_0000
    ensures Select(mem, workers) == ExitFor(mem.payload, workers)
  {
    ProgramDecodes(workers);
    RunFromEntry(DecodeAll(Program(workers)), mem, workers, |Program(workers)|);
  }

  /**
   On every payload the program exits without a fault: by the default exactly when the payload is too
   short for an index (or its connection ID is), and otherwise with the index reduced by the workers.
   */
  lemma SelectMeaning(mem: Memory, workers: nat)
    requires mem.Valid() && 1 <= workers < 0x1_0000_0000
    ensures Select(mem, workers).Exited? && Select(mem, workers).value < workers
    ensures Select(mem, workers).at == DEFAULT_EXIT <==> TakesDefault(mem.payload)
    ensures TakesDefault(mem.payload) ==> Select(mem, workers).value == 0
    ensures !TakesDefault(mem.payload) ==>
              Select(mem, workers).value == IndexAt(mem.payload, IndexOffset(mem.payload)) % workers
  {
    SelectExits(mem, workers);
  }

  /** For every worker count, representable or not, the encoded program halts within its own length. */
  lemma SelectHalts(mem: Memory, workers: nat)
    requires mem.Valid()
    ensures !Select(mem, workers).Running?
  {
    ProgramDecodes(workers);
    DisassembledIsForwardOnly(DecodeAll(Program(workers)), workers);
    ForwardOnlyHalts(DecodeAll(Program(workers)), mem, Entry(mem), |Program(workers)|);
  }

  /** The program sends every packet userspace can route to the worker userspace would route it to. */
  lemma SelectAgreesWithWorkerIndex(mem: Memory, workers: nat)
    requires mem.Valid() && 1 <= workers < 0x1_0000_0000
    requires WorkerIndex(mem.payload, workers).Some?
    ensures Select(mem, workers).Exited?
    ensures Some(Select(mem, workers).value as nat) == WorkerIndex(mem.payload, workers)
  {
    SelectMeaning(mem, workers);
    WorkerIndexMeaning(mem.payload, workers);
  }

  function PlacedAt(datagram: Datagram): (mem: Memory)
    ensures mem.Valid() && mem.payload == datagram
  {
    Memory(0, 16, datagram)
  }

  /** The socket picked for a datagram, wherever the kernel placed it in memory. */
  function Socket(datagram: Datagram, workers: nat): nat {
    var m := Select(PlacedAt(datagram), workers);
    if m.Exited? then m.value else 0
  }

  lemma SocketIgnoresPlacement(mem: Memory, workers: nat)
    requires mem.Valid() && |mem.payload| <= MAX_DATAGRAM && 1 <= workers < 0x1_0000_0000
    ensures Select(mem, workers).Exited? && Select(mem, workers).value == Socket(mem.payload, workers)
  {
    SelectMeaning(mem, workers);
    SelectMeaning(PlacedAt(mem.payload), workers);
  }
}
