/** Userspace QUIC routing: the worker index carried by the destination connection ID. */
module QuicRoute {
  import opened Bytes

  predicate IsLongHeader(packet: Packet) {
    packet != [] && And(packet[0], 0x80) != 0
  }

  function Shift8(x: nat): nat {
    x * 256
  }

  function BigEndian16(high: int, low: int): int {
    high * 256 + low
  }

  lemma ShiftOr(high: byte, low: byte)
    ensures Or(Shift8(high), low) == BigEndian16(high, low)
  {
    Pow2Values();
    OrDisjoint(high, low, 8);
  }

  /** The two-byte big-endian worker index at the front of a connection ID. */
  function WorkerIndexPrefix(bytes: Packet): Option<nat> {
    if |bytes| < 2 then None else Some(Or(Shift8(bytes[0]), bytes[1]))
  }

  function LongHeaderDcid(packet: Packet): Option<Packet> {
    if |packet| <= 5 then None
    else
      var dcidLen := packet[5];
      if dcidLen == 0 || 6 + dcidLen > |packet| then None
      else Some(packet[6..6 + dcidLen])
  }

  function WorkerIndex(packet: Packet, workers: nat): Option<nat> {
    if workers == 0 || packet == [] then None
    else
      var dcid := if IsLongHeader(packet) then LongHeaderDcid(packet) else Some(packet[1..]);
      if dcid.None? then None
      else
        var prefix := WorkerIndexPrefix(dcid.value);
        if prefix.None? then None else Some(prefix.value % workers)
  }

  /** The filter a kernel-selected worker applies to what its own socket receives. */
  predicate AcceptsPacket(packet: Packet, workers: nat) {
    WorkerIndex(packet, workers).Some?
  }

  /** The packets that carry a worker index, said without the parser: where its two bytes lie and what must fit. */
  predicate Routable(packet: Packet) {
    if packet == [] then false
    else if packet[0] >= 0x80 then |packet| >= 8 && packet[5] >= 2 && 6 + packet[5] <= |packet|
    else |packet| >= 3
  }

  /** Offset of the index bytes in a packet of either form. */
  function IndexOffset(packet: Packet): nat
    requires packet != []
  {
    if packet[0] >= 0x80 then 6 else 1
  }

  function IndexAt(packet: Packet, offset: nat): nat
    requires offset + 2 <= |packet|
  {
    BigEndian16(packet[offset], packet[offset + 1])
  }

  lemma LongHeaderBit(packet: Packet)
    ensures IsLongHeader(packet) <==> packet != [] && packet[0] >= 0x80
  {
    if packet != [] {
      Pow2Values();
      AndSingleBit(packet[0], 7);
    }
  }

  /** The parser finds an index exactly in routable packets, and it is the big-endian pair at the form's offset. */
  lemma WorkerIndexMeaning(packet: Packet, workers: nat)
    requires workers > 0
    ensures WorkerIndex(packet, workers).Some? <==> Routable(packet)
    ensures Routable(packet) ==>
              WorkerIndex(packet, workers) == Some(IndexAt(packet, IndexOffset(packet)) % workers)
  {
    LongHeaderBit(packet);
    if Routable(packet) {
      var offset := IndexOffset(packet);
      ShiftOr(packet[offset], packet[offset + 1]);
    }
  }
}
