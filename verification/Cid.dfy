/** Connection IDs that carry a worker index, and the round trip through both packet forms. */
module Cid {
  import opened Bytes
  import opened QuicRoute
  import EbpfSelector
  import Cbpf

  datatype Error = InvalidConfig | RandomFailed

  const DEFAULT_CID_LEN: nat := 8
  const MIN_CID_LEN: nat := 8
  const MAX_CID_LEN: nat := 20
  const MAX_WORKER_INDEX: nat := 0xffff

  function ValidateWorkerIndex(workerIndex: nat): Result<(), Error> {
    if workerIndex <= MAX_WORKER_INDEX then Ok(()) else Err(InvalidConfig)
  }

  function ValidateCidLen(cidLen: nat): Result<(), Error> {
    if MIN_CID_LEN <= cidLen <= MAX_CID_LEN then Ok(()) else Err(InvalidConfig)
  }

  datatype CidGenerator = CidGenerator(workerIndex: nat, cidLen: nat) {
    predicate Valid() {
      workerIndex <= MAX_WORKER_INDEX && MIN_CID_LEN <= cidLen <= MAX_CID_LEN
    }

    /** `cid` is one this generator can produce. */
    predicate Produces(cid: Packet) {
      && |cid| == cidLen
      && |cid| >= 2
      && BigEndian16(cid[0], cid[1]) == workerIndex
    }

    /** A generator with another length, which keeps its worker index. */
    function WithCidLen(newLen: nat): (r: Result<CidGenerator, Error>)
      requires Valid()
      ensures r.Ok? <==> 8 <= newLen <= 20
      ensures r.Ok? ==> r.value.Valid() && r.value.workerIndex == workerIndex && r.value.cidLen == newLen
    {
      var checked := ValidateCidLen(newLen);
      if checked.Err? then Err(checked.error) else Ok(this.(cidLen := newLen))
    }
  }

  function New(workerIndex: nat): (r: Result<CidGenerator, Error>)
    ensures r.Ok? <==> workerIndex < 0x1_0000
    ensures r.Ok? ==> r.value.Valid() && r.value.workerIndex == workerIndex && r.value.cidLen == 8
  {
    var checked := ValidateWorkerIndex(workerIndex);
    if checked.Err? then Err(checked.error) else Ok(CidGenerator(workerIndex, DEFAULT_CID_LEN))
  }

  /** Overwrites the first two bytes with the index, high byte first; nothing changes on error. */
  method EncodeWorkerIndexPrefix(workerIndex: nat, buffer: array<byte>) returns (r: Result<(), Error>)
    modifies buffer
    ensures r.Ok? <==> workerIndex < 0x1_0000 && buffer.Length >= 2
    ensures r.Ok? ==> BigEndian16(buffer[0], buffer[1]) == workerIndex && buffer[2..] == old(buffer[2..])
    ensures r.Err? ==> buffer[..] == old(buffer[..])
  {
    var checked := ValidateWorkerIndex(workerIndex);
    if checked.Err? {
      return Err(checked.error);
    }
    if buffer.Length < 2 {
      return Err(InvalidConfig);
    }
    buffer[0] := workerIndex / 256 % 256;
    buffer[1] := workerIndex % 256;
    return Ok(());
  }

  /**
   Fills the buffer with random bytes (`random`, or a failure after writing them) and then writes the
   prefix. A buffer of the wrong length is refused untouched.
   */
  method GenerateInto(generator: CidGenerator, buffer: array<byte>, random: nat -> byte, randomOk: bool)
    returns (r: Result<(), Error>)
    requires generator.Valid()
    modifies buffer
    ensures r.Ok? <==> buffer.Length == generator.cidLen && randomOk
    ensures buffer.Length != generator.cidLen ==> r == Err(InvalidConfig) && buffer[..] == old(buffer[..])
    ensures buffer.Length == generator.cidLen && !randomOk ==> r == Err(RandomFailed)
    ensures r.Ok? ==> generator.Produces(buffer[..])
    ensures r.Ok? ==> forall i :: 2 <= i < buffer.Length ==> buffer[i] == random(i)
  {
    if buffer.Length != generator.cidLen {
      return Err(InvalidConfig);
    }
    var checked := ValidateCidLen(buffer.Length);
    if checked.Err? {
      return checked;
    }
    forall i | 0 <= i < buffer.Length {
      buffer[i] := random(i);
    }
    if !randomOk {
      return Err(RandomFailed);
    }
    ghost var filled := buffer[2..];
    r := EncodeWorkerIndexPrefix(generator.workerIndex, buffer);
    assert forall i :: 2 <= i < buffer.Length ==> buffer[i] == buffer[2..][i - 2] == filled[i - 2];
  }

  method Generate(generator: CidGenerator, random: nat -> byte, randomOk: bool)
    returns (r: Result<Packet, Error>)
    requires generator.Valid()
    ensures r.Ok? <==> randomOk
    ensures r.Err? ==> r.error == RandomFailed
    ensures r.Ok? ==> generator.Produces(r.value)
    ensures r.Ok? ==> forall i :: 2 <= i < |r.value| ==> r.value[i] == random(i)
  {
    var cid := new byte[generator.cidLen];
    var filled := GenerateInto(generator, cid, random, randomOk);
    r := if filled.Ok? then Ok(cid[..]) else Err(filled.error);
  }

  /** A long header packet: form byte, four version bytes, ID length, ID, and whatever follows. */
  function LongPacket(first: byte, version: Packet, cid: Packet, rest: Packet): Packet
    requires |cid| < 256
  {
    [first] + version + [|cid|] + cid + rest
  }

  function ShortPacket(first: byte, cid: Packet, rest: Packet): Packet {
    [first] + cid + rest
  }

  lemma IndexModuloWorkers(index: nat, workers: nat)
    requires index < workers
    ensures index % workers == index
  {
    QuotientIs(index, workers, 0, index);
  }

  /** A generated ID in a long header leads back to its worker, whatever else the packet holds. */
  lemma LongRoundTrip(generator: CidGenerator, cid: Packet, first: byte, version: Packet, rest: Packet, workers: nat)
    requires generator.Valid() && generator.Produces(cid)
    requires first >= 0x80 && |version| == 4 && workers > 0
    ensures WorkerIndex(LongPacket(first, version, cid, rest), workers) == Some(generator.workerIndex % workers)
    ensures generator.workerIndex < workers ==>
              WorkerIndex(LongPacket(first, version, cid, rest), workers) == Some(generator.workerIndex)
  {
    var packet := LongPacket(first, version, cid, rest);
    assert packet[0] == first && packet[5] == |cid|;
    assert packet[6] == cid[0] && packet[7] == cid[1];
    WorkerIndexMeaning(packet, workers);
    if generator.workerIndex < workers {
      IndexModuloWorkers(generator.workerIndex, workers);
    }
  }

  lemma ShortRoundTrip(generator: CidGenerator, cid: Packet, first: byte, rest: Packet, workers: nat)
    requires generator.Valid() && generator.Produces(cid)
    requires first < 0x80 && workers > 0
    ensures WorkerIndex(ShortPacket(first, cid, rest), workers) == Some(generator.workerIndex % workers)
    ensures generator.workerIndex < workers ==>
              WorkerIndex(ShortPacket(first, cid, rest), workers) == Some(generator.workerIndex)
  {
    var packet := ShortPacket(first, cid, rest);
    assert packet[1] == cid[0] && packet[2] == cid[1];
    WorkerIndexMeaning(packet, workers);
    if generator.workerIndex < workers {
      IndexModuloWorkers(generator.workerIndex, workers);
    }
  }

  /** Both kernel programs send a packet with a generated ID to the worker that generated it. */
  lemma KernelRoundTrip(
      generator: CidGenerator, cid: Packet, first: byte, version: Packet, rest: Packet, workers: nat)
    requires generator.Valid() && generator.Produces(cid)
    requires |version| == 4 && |rest| <= MAX_DATAGRAM - 26
    requires generator.workerIndex < workers < 0x1_0000_0000
    ensures var packet :=
              if first >= 0x80 then LongPacket(first, version, cid, rest) else ShortPacket(first, cid, rest);
            && |packet| <= MAX_DATAGRAM
            && EbpfSelector.Socket(packet, workers) == generator.workerIndex
            && Cbpf.Socket(packet, workers) == generator.workerIndex
  {
    var packet := if first >= 0x80 then LongPacket(first, version, cid, rest) else ShortPacket(first, cid, rest);
    if first >= 0x80 {
      LongRoundTrip(generator, cid, first, version, rest, workers);
    } else {
      ShortRoundTrip(generator, cid, first, rest, workers);
    }
    Cbpf.ProgramsAgree(packet, workers);
  }
}
