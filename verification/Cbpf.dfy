/**
 The classic BPF selector and an interpreter for its instructions: one 32-bit accumulator, absolute
 loads in network byte order, forward jumps, modulo and return. A load past the end of the packet ends
 the program with 0.
 */
module Cbpf {
  import opened Bytes
  import opened QuicRoute
  import EbpfSelector

  const U32_RANGE: nat := 0x1_0000_0000

  datatype SockFilter = SockFilter(code: bv16, jt: nat, jf: nat, k: nat)

  datatype Op =
    | LoadByte(offset: nat)
    | LoadHalf(offset: nat)
    | JumpIfSet(mask: nat, jt: nat, jf: nat)
    | JumpAlways(distance: nat)
    | Modulo(divisor: nat)
    | ReturnAccumulator
    | Invalid

  function Decode(insn: SockFilter): Op {
    if insn.code == 0x30 then LoadByte(insn.k)
    else if insn.code == 0x28 then LoadHalf(insn.k)
    else if insn.code == 0x45 then JumpIfSet(insn.k, insn.jt, insn.jf)
    else if insn.code == 0x05 then JumpAlways(insn.k)
    else if insn.code == 0x94 then Modulo(insn.k)
    else if insn.code == 0x16 then ReturnAccumulator
    else Invalid
  }

  datatype Machine = Running(pc: nat, a: nat) | Returned(value: nat) | Fault

  function Perform(op: Op, packet: Packet, pc: nat, a: nat): Machine {
    match op
    case LoadByte(k) =>
      if k + 1 <= |packet| then Running(pc + 1, packet[k]) else Returned(0)
    case LoadHalf(k) =>
      if k + 2 <= |packet| then Running(pc + 1, IndexAt(packet, k)) else Returned(0)
    case JumpIfSet(mask, jt, jf) =>
      Running(pc + 1 + if And(a, mask) != 0 then jt else jf, a)
    case JumpAlways(k) => Running(pc + 1 + k, a)
    case Modulo(k) => if k == 0 then Returned(0) else Running(pc + 1, a % k)
    case ReturnAccumulator => Returned(a)
    case Invalid => Fault
  }

  function DecodeAll(program: seq<SockFilter>): seq<Op> {
    Mapped(Decode, program)
  }

  function Step(program: seq<Op>, packet: Packet, m: Machine): Machine {
    if !m.Running? then m
    else if m.pc >= |program| then Fault
    else Perform(program[m.pc], packet, m.pc, m.a)
  }

  function Exec(program: seq<Op>, packet: Packet, m: Machine, fuel: nat): Machine
    decreases fuel
  {
    if fuel == 0 || !m.Running? then m else Exec(program, packet, Step(program, packet, m), fuel - 1)
  }

  /** Where control may go from `op` at `pc`, when it does not return. */
  function Targets(op: Op, pc: nat): set<nat> {
    match op
    case JumpIfSet(_, jt, jf) => {pc + 1 + jt, pc + 1 + jf}
    case JumpAlways(k) => {pc + 1 + k}
    case ReturnAccumulator => {}
    case Invalid => {}
    case _ => {pc + 1}
  }

  predicate InRange(program: seq<Op>) {
    forall pc, target :: 0 <= pc < |program| && target in Targets(program[pc], pc) ==> target < |program|
  }

  /** Classic jumps only go forward, so a program that stays in range returns within its own length. */
  lemma {:induction false} InRangeHalts(program: seq<Op>, packet: Packet, m: Machine, fuel: nat)
    requires InRange(program)
    requires m.Running? ==> m.pc < |program| && fuel >= |program| - m.pc
    ensures !Exec(program, packet, m, fuel).Running?
    decreases fuel
  {
    if m.Running? {
      var next := Step(program, packet, m);
      assert next.Running? ==> next.pc in Targets(program[m.pc], m.pc) && m.pc < next.pc;
      InRangeHalts(program, packet, next, fuel - 1);
    }
  }

  const BPF_LD: bv16 := 0x00
  const BPF_ALU: bv16 := 0x04
  const BPF_JMP: bv16 := 0x05
  const BPF_RET: bv16 := 0x06
  const BPF_H: bv16 := 0x08
  const BPF_B: bv16 := 0x10
  const BPF_ABS: bv16 := 0x20
  const BPF_K: bv16 := 0x00
  const BPF_A: bv16 := 0x10
  const BPF_JA: bv16 := 0x00
  const BPF_JSET: bv16 := 0x40
  const BPF_MOD: bv16 := 0x90

  function Program(workers: nat): (p: seq<SockFilter>)
    ensures |p| == 7
  {
    [ SockFilter(BPF_LD | BPF_B | BPF_ABS, 0, 0, 0),
      SockFilter(BPF_JMP | BPF_JSET | BPF_K, 0, 2, 0x80),
      SockFilter(BPF_LD | BPF_H | BPF_ABS, 0, 0, 6),
      SockFilter(BPF_JMP | BPF_JA, 0, 0, 1),
      SockFilter(BPF_LD | BPF_H | BPF_ABS, 0, 0, 1),
      SockFilter(BPF_ALU | BPF_MOD | BPF_K, 0, 0, workers % U32_RANGE),
      SockFilter(BPF_RET | BPF_A, 0, 0, 0)
    ]
  }

  function Listing(workers: nat): (ops: seq<Op>)
    ensures |ops| == 7
  {
    [ LoadByte(0), JumpIfSet(0x80, 0, 2), LoadHalf(6), JumpAlways(1), LoadHalf(1),
      Modulo(workers % U32_RANGE), ReturnAccumulator ]
  }

  lemma ProgramDecodes(workers: nat)
    ensures DecodeAll(Program(workers)) == Listing(workers)
  {
  }

  /** Only conditional jumps use the jump fields, and a return of the accumulator has no operand. */
  predicate Canonical(insn: SockFilter) {
    && (insn.code != 0x45 ==> insn.jt == 0 && insn.jf == 0)
    && (insn.code == 0x16 ==> insn.k == 0)
  }

  lemma ProgramIsCanonical(workers: nat)
    ensures forall i :: 0 <= i < 7 ==> Canonical(Program(workers)[i])
  {
  }

  lemma ListingInRange(workers: nat)
    ensures InRange(Listing(workers))
  {
  }

  function Select(packet: Packet, workers: nat): Machine {
    Exec(DecodeAll(Program(workers)), packet, Running(0, 0), |Program(workers)|)
  }

  function Socket(datagram: Datagram, workers: nat): nat {
    var m := Select(datagram, workers);
    if m.Returned? then m.value else 0
  }

  lemma OneStep(program: seq<Op>, packet: Packet, m: Machine, next: Machine, fuel: nat)
    requires m.Running? && fuel >= 1 && next == Step(program, packet, m)
    ensures Exec(program, packet, m, fuel) == Exec(program, packet, next, fuel - 1)
  {
  }

  /** The last two instructions. */
  lemma ReduceAndReturn(packet: Packet, workers: nat, index: nat, fuel: nat)
    requires 1 <= workers < U32_RANGE && fuel >= 2
    ensures Exec(Listing(workers), packet, Running(5, index), fuel) == Returned(index % workers)
  {
    var p := Listing(workers);
    QuotientIs(workers, U32_RANGE, 0, workers);
    OneStep(p, packet, Running(5, index), Running(6, index % workers), fuel);
    OneStep(p, packet, Running(6, index % workers), Returned(index % workers), fuel - 1);
  }

  /** The packet is too short for the index its form announces. */
  predicate TooShort(packet: Packet) {
    packet == [] || |packet| < IndexOffset(packet) + 2
  }

  lemma RunFromEntry(packet: Packet, workers: nat, fuel: nat)
    requires 1 <= workers < U32_RANGE && fuel >= 7
    ensures Exec(Listing(workers), packet, Running(0, 0), fuel)
         == if TooShort(packet) then Returned(0) else Returned(IndexAt(packet, IndexOffset(packet)) % workers)
  {
    var p := Listing(workers);
    if packet == [] {
      OneStep(p, packet, Running(0, 0), Returned(0), fuel);
    } else {
      LongHeaderBit(packet);
      var first := packet[0];
      var form := if first >= 0x80 then 2 else 4;
      OneStep(p, packet, Running(0, 0), Running(1, first), fuel);
      OneStep(p, packet, Running(1, first), Running(form, first), fuel - 1);
      if TooShort(packet) {
        OneStep(p, packet, Running(form, first), Returned(0), fuel - 2);
      } else {
        var index := IndexAt(packet, IndexOffset(packet));
        OneStep(p, packet, Running(form, first), Running(form + 1, index), fuel - 2);
        if form == 2 {
          OneStep(p, packet, Running(3, index), Running(5, index), fuel - 3);
          ReduceAndReturn(packet, workers, index, fuel - 4);
        } else {
          ReduceAndReturn(packet, workers, index, fuel - 3);
        }
      }
    }
  }

  /** On every packet the classic program returns a socket number: 0 on one too short, else the reduced index. */
  lemma SelectMeaning(packet: Packet, workers: nat)
    requires 1 <= workers < U32_RANGE
    ensures Select(packet, workers)
         == if TooShort(packet) then Returned(0) else Returned(IndexAt(packet, IndexOffset(packet)) % workers)
  {
    ProgramDecodes(workers);
    RunFromEntry(packet, workers, |Program(workers)|);
  }

  lemma SelectHalts(packet: Packet, workers: nat)
    ensures !Select(packet, workers).Running?
  {
    ProgramDecodes(workers);
    ListingInRange(workers);
    InRangeHalts(Listing(workers), packet, Running(0, 0), |Program(workers)|);
  }

  /** The only packets on which the two programs may differ: long headers whose connection ID is under two bytes. */
  predicate ShortIdLongHeader(packet: Packet) {
    |packet| >= 8 && packet[0] >= 0x80 && packet[5] < 2
  }

  /** The two programs agree outside that set; on it one gives up and the other still reads two bytes. */
  lemma ProgramsAgree(datagram: Datagram, workers: nat)
    requires 1 <= workers < U32_RANGE
    ensures !ShortIdLongHeader(datagram) ==> Socket(datagram, workers) == EbpfSelector.Socket(datagram, workers)
    ensures ShortIdLongHeader(datagram) ==>
              && EbpfSelector.Socket(datagram, workers) == 0
              && Socket(datagram, workers) == IndexAt(datagram, 6) % workers
    ensures WorkerIndex(datagram, workers).Some? ==>
              && !ShortIdLongHeader(datagram)
              && Some(Socket(datagram, workers)) == WorkerIndex(datagram, workers)
  {
    SelectMeaning(datagram, workers);
    EbpfSelector.SelectMeaning(EbpfSelector.PlacedAt(datagram), workers);
    WorkerIndexMeaning(datagram, workers);
  }
}
