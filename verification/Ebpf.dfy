/**
 An interpreter for the extended BPF instructions the selector uses: 64-bit arithmetic, unsigned
 64-bit jumps, byte and double-word loads, and exit. Reading an unset register, loading outside the
 two memory regions and running off the program are faults.
 */
module Ebpf {
  import opened Bytes

  /** One encoded instruction; the register byte holds the destination in its low half. */
  datatype BpfInsn = BpfInsn(code: bv8, dstSrc: bv8, off: int, imm: int)

  function Insn(code: bv8, dst: bv8, src: bv8, off: int, imm: int): BpfInsn {
    BpfInsn(code, dst | (src << 4), off, imm)
  }

  datatype AluOp = Add | OrBits | AndBits | Lsh | Mod | Mov

  datatype JmpOp = Jeq | Jgt | Jlt

  datatype Operand = Reg(r: nat) | Imm(i: int)

  datatype Size = SingleByte | DoubleWord

  datatype Op =
    | Alu(alu: AluOp, dst: nat, operand: Operand)
    | Jmp(jmp: JmpOp, dst: nat, operand: Operand, off: int)
    | Load(size: Size, dst: nat, src: nat, off: int)
    | Exit
    | Invalid

  function DstOf(insn: BpfInsn): nat {
    (insn.dstSrc & 0x0f) as nat
  }

  function SrcOf(insn: BpfInsn): nat {
    (insn.dstSrc >> 4) as nat
  }

  function OperandOf(insn: BpfInsn): Operand {
    if insn.code & 0x08 != 0 then Reg(SrcOf(insn)) else Imm(insn.imm)
  }

  function DecodeAlu(op: bv8): Option<AluOp> {
    if op == 0x00 then Some(Add)
    else if op == 0x40 then Some(OrBits)
    else if op == 0x50 then Some(AndBits)
    else if op == 0x60 then Some(Lsh)
    else if op == 0x90 then Some(Mod)
    else if op == 0xb0 then Some(Mov)
    else None
  }

  function DecodeJmp(op: bv8): Option<JmpOp> {
    if op == 0x10 then Some(Jeq)
    else if op == 0x20 then Some(Jgt)
    else if op == 0xa0 then Some(Jlt)
    else None
  }

  function Decode(insn: BpfInsn): Op {
    var class_ := insn.code & 0x07;
    if class_ == 0x07 then
      var alu := DecodeAlu(insn.code & 0xf0);
      if alu.Some? then Alu(alu.value, DstOf(insn), OperandOf(insn)) else Invalid
    else if class_ == 0x05 then
      if insn.code == 0x95 then Exit
      else
        var jmp := DecodeJmp(insn.code & 0xf0);
        if jmp.Some? then Jmp(jmp.value, DstOf(insn), OperandOf(insn), insn.off) else Invalid
    else if class_ == 0x01 && insn.code & 0xe0 == 0x60 then
      if insn.code & 0x18 == 0x10 then Load(SingleByte, DstOf(insn), SrcOf(insn), insn.off)
      else if insn.code & 0x18 == 0x18 then Load(DoubleWord, DstOf(insn), SrcOf(insn), insn.off)
      else Invalid
    else Invalid
  }

  /** The fields an instruction does not use are zero; the kernel refuses a program where they are not. */
  predicate Canonical(insn: BpfInsn) {
    var class_ := insn.code & 0x07;
    if class_ == 0x07 then insn.off == 0 && UnusedOperandIsZero(insn)
    else if insn.code == 0x95 then insn.dstSrc == 0 && insn.off == 0 && insn.imm == 0
    else if class_ == 0x05 then UnusedOperandIsZero(insn)
    else insn.imm == 0
  }

  predicate UnusedOperandIsZero(insn: BpfInsn) {
    if insn.code & 0x08 != 0 then insn.imm == 0 else insn.dstSrc >> 4 == 0
  }

  type Regs = map<nat, u64>

  /** The context block at `ctx` holds the addresses of the payload's first byte and of its end. */
  datatype Memory = Memory(ctx: nat, data: nat, payload: Packet) {
    function DataEnd(): nat { data + |payload| }

    /** Addresses, and the small offsets the program adds to them, stay below 2^64. */
    predicate Valid() { ctx + 16 <= U64_RANGE && DataEnd() + 8 < U64_RANGE }

    function Read(size: Size, addr: int): Option<u64>
      requires Valid()
    {
      match size
      case DoubleWord =>
        if addr == ctx then Some(data) else if addr == ctx + 8 then Some(DataEnd()) else None
      case SingleByte =>
        if data <= addr < DataEnd() then Some(payload[addr - data]) else None
    }
  }

  datatype Machine =
    | Running(pc: nat, regs: Regs)
    | Exited(at: nat, value: u64)
    | Fault

  /** Reduction modulo 2^64. */
  function Wrap(x: int): u64 {
    if 0 <= x < U64_RANGE then x else x % U64_RANGE
  }

  function SignExtend(imm: int): u64 {
    Wrap(imm)
  }

  function ValueOf(operand: Operand, regs: Regs): Option<u64> {
    match operand
    case Imm(i) => Some(SignExtend(i))
    case Reg(r) => if r in regs then Some(regs[r]) else None
  }

  function Compute(alu: AluOp, a: u64, b: u64): u64 {
    match alu
    case Add => Wrap(a as int + b)
    case OrBits => Wrap(Or(a, b))
    case AndBits => And(a, b)
    case Lsh => Wrap(a as int * Pow2(b % 64))
    case Mod => if b == 0 then a else a % b
    case Mov => b
  }

  predicate Taken(jmp: JmpOp, a: u64, b: u64) {
    match jmp
    case Jeq => a == b
    case Jgt => a > b
    case Jlt => a < b
  }

  function Jump(target: int, regs: Regs): Machine {
    if target < 0 then Fault else Running(target, regs)
  }

  function Perform(op: Op, mem: Memory, pc: nat, regs: Regs): Machine
    requires mem.Valid()
  {
    match op
    case Alu(alu, dst, operand) =>
      var b := ValueOf(operand, regs);
      if b.None? || (alu != Mov && dst !in regs) then Fault
      else Running(pc + 1, regs[dst := if alu == Mov then b.value else Compute(alu, regs[dst], b.value)])
    case Jmp(jmp, dst, operand, off) =>
      var b := ValueOf(operand, regs);
      if b.None? || dst !in regs then Fault
      else Jump(pc + 1 + if Taken(jmp, regs[dst], b.value) then off else 0, regs)
    case Load(size, dst, src, off) =>
      if src !in regs then Fault
      else
        var word := mem.Read(size, Wrap(regs[src] as int + off));
        if word.None? then Fault else Running(pc + 1, regs[dst := word.value])
    case Exit =>
      if 0 in regs then Exited(pc, regs[0]) else Fault
    case Invalid => Fault
  }

  function DecodeAll(program: seq<BpfInsn>): seq<Op> {
    Mapped(Decode, program)
  }

  function Step(program: seq<Op>, mem: Memory, m: Machine): Machine
    requires mem.Valid()
  {
    if !m.Running? then m
    else if m.pc >= |program| then Fault
    else Perform(program[m.pc], mem, m.pc, m.regs)
  }

  /** At most `fuel` steps. */
  function Exec(program: seq<Op>, mem: Memory, m: Machine, fuel: nat): Machine
    requires mem.Valid()
    decreases fuel
  {
    if fuel == 0 || !m.Running? then m else Exec(program, mem, Step(program, mem, m), fuel - 1)
  }

  lemma OneStep(program: seq<Op>, mem: Memory, m: Machine, next: Machine, fuel: nat)
    requires mem.Valid() && m.Running? && fuel >= 1 && next == Step(program, mem, m)
    ensures Exec(program, mem, m, fuel) == Exec(program, mem, next, fuel - 1)
  {
  }

  /** The machine on entry: only the context pointer is set. */
  function Entry(mem: Memory): Machine
    requires mem.Valid()
  {
    Running(0, map[1 := mem.ctx])
  }

  /** Every jump goes forward and stays inside, and the last instruction exits. */
  predicate ForwardOnly(program: seq<Op>) {
    && program != []
    && program[|program| - 1].Exit?
    && forall pc :: 0 <= pc < |program| && program[pc].Jmp? ==>
                      program[pc].off >= 0 && pc + 1 + program[pc].off < |program|
  }

  /** From any point of a forward-only program, as many steps as instructions remain are enough to halt. */
  lemma {:induction false} ForwardOnlyHalts(program: seq<Op>, mem: Memory, m: Machine, fuel: nat)
    requires mem.Valid() && ForwardOnly(program)
    requires m.Running? ==> m.pc < |program| && fuel >= |program| - m.pc
    ensures !Exec(program, mem, m, fuel).Running?
    decreases fuel
  {
    if m.Running? {
      var next := Step(program, mem, m);
      assert next.Running? ==> m.pc < next.pc < |program|;
      ForwardOnlyHalts(program, mem, next, fuel - 1);
    }
  }
}
