/** The flow hash that spreads peers over workers when the kernel does not. */
module WorkerHash {
  import opened Bytes

  const FNV_OFFSET: u64 := 0xcbf29ce484222325
  const FNV_PRIME: u64 := 0x100000001b3

  /** The inverse of the prime modulo 2^64. */
  const FNV_INVERSE: u64 := 0xce965057aff6957b

  type Octets4 = s: Packet | |s| == 4 witness [0, 0, 0, 0]
  type Octets16 = s: Packet | |s| == 16 witness [0, 0, 0, 0, 0, 0, 0, 0, 0, 0, 0, 0, 0, 0, 0, 0]
  type Port = p: int | 0 <= p < 0x1_0000

  datatype IpAddr = V4(octets4: Octets4) | V6(octets16: Octets16)

  datatype SocketAddr = SocketAddr(ip: IpAddr, port: Port)

  datatype PacketMeta = PacketMeta(peer: Option<SocketAddr>, local: Option<SocketAddr>)

  datatype Error = InvalidConfig

  // ---------- the byte stream ----------

  /** The port in network byte order. */
  function PortBytes(port: Port): (b: Packet)
    ensures |b| == 2 && b[0] as int * 256 + b[1] == port
  {
    [port / 256, port % 256]
  }

  function Encode(addr: Option<SocketAddr>): Packet {
    match addr
    case None => [0]
    case Some(SocketAddr(V4(octets), port)) => [4] + octets + PortBytes(port)
    case Some(SocketAddr(V6(octets), port)) => [6] + octets + PortBytes(port)
  }

  function EncodeMeta(meta: PacketMeta): Packet {
    Encode(meta.peer) + Encode(meta.local)
  }

  function Family(addr: Option<SocketAddr>): byte {
    match addr
    case None => 0
    case Some(SocketAddr(V4(_), _)) => 4
    case Some(SocketAddr(V6(_), _)) => 6
  }

  function Octets(addr: SocketAddr): Packet {
    match addr.ip
    case V4(octets) => octets
    case V6(octets) => octets
  }

  /** The encoding's first byte tells its length. */
  lemma EncodeShape(addr: Option<SocketAddr>)
    ensures Encode(addr) != [] && Encode(addr)[0] == Family(addr)
    ensures |Encode(addr)| == if addr.None? then 1 else if addr.value.ip.V4? then 7 else 19
    ensures addr.Some? ==> Encode(addr) == [Family(addr)] + Octets(addr.value) + PortBytes(addr.value.port)
  {
  }

  /** Reads one address off the front of a stream: a tag, the octets it announces, and a port in network order. */
  function DecodeAddr(bytes: Packet): Option<(Option<SocketAddr>, Packet)> {
    if bytes == [] then None
    else if bytes[0] == 0 then Some((None, bytes[1..]))
    else if bytes[0] == 4 && |bytes| >= 7
    then Some((Some(SocketAddr(V4(bytes[1..5]), bytes[5] as int * 256 + bytes[6])), bytes[7..]))
    else if bytes[0] == 6 && |bytes| >= 19
    then Some((Some(SocketAddr(V6(bytes[1..17]), bytes[17] as int * 256 + bytes[18])), bytes[19..]))
    else None
  }

  /** Reading undoes writing, whatever follows. */
  lemma DecodeEncode(addr: Option<SocketAddr>, rest: Packet)
    ensures DecodeAddr(Encode(addr) + rest) == Some((addr, rest))
  {
    var e := Encode(addr);
    var bytes := e + rest;
    EncodeShape(addr);
    assert bytes[|e|..] == rest;
    if addr.Some? {
      var n := |e| - 2;
      assert bytes[1..n] == Octets(addr.value);
      assert bytes[n] == PortBytes(addr.value.port)[0] && bytes[n + 1] == PortBytes(addr.value.port)[1];
    }
  }

  /** No encoding is a proper prefix of another, and equal encodings come from equal addresses. */
  lemma EncodePrefixFree(a: Option<SocketAddr>, b: Option<SocketAddr>, x: Packet, y: Packet)
    requires Encode(a) + x == Encode(b) + y
    ensures a == b && x == y
  {
    DecodeEncode(a, x);
    DecodeEncode(b, y);
  }

  lemma EncodeMetaInjective(m1: PacketMeta, m2: PacketMeta)
    requires EncodeMeta(m1) == EncodeMeta(m2)
    ensures m1 == m2
  {
    EncodePrefixFree(m1.peer, m2.peer, Encode(m1.local), Encode(m2.local));
    EncodePrefixFree(m1.local, m2.local, [], []);
  }

  // ---------- the hash as a function of the stream ----------

  function Absorb(hash: u64, value: byte): u64 {
    (Xor(hash, value) * (FNV_PRIME as int)) % U64_RANGE
  }

  function Fnv(hash: u64, bytes: Packet): u64
    decreases |bytes|
  {
    if bytes == [] then hash else Fnv(Absorb(hash, bytes[0]), bytes[1..])
  }

  lemma {:induction false} FnvAppend(hash: u64, a: Packet, b: Packet)
    ensures Fnv(hash, a + b) == Fnv(Fnv(hash, a), b)
    decreases |a|
  {
    if a == [] {
      assert a + b == b;
    } else {
      assert (a + b)[0] == a[0] && (a + b)[1..] == a[1..] + b;
      FnvAppend(Absorb(hash, a[0]), a[1..], b);
    }
  }

  /** Undoes the multiplication of one step. */
  function Unmultiplied(hash: u64): nat {
    (hash as int * FNV_INVERSE) % U64_RANGE
  }

  /** Undoes one step of the hash. */
  function Unabsorb(hash: u64, value: byte): nat {
    Xor(Unmultiplied(hash), value)
  }

  lemma MulModLeft(a: int, b: int, m: int)
    requires m > 0
    ensures (a % m) * b % m == a * b % m
  {
    var q := a / m;
    assert a == m * q + a % m;
    var r := (a % m) * b;
    assert a * b == m * (q * b) + r;
    assert r == m * (r / m) + r % m;
    assert a * b == m * (q * b + r / m) + r % m;
    QuotientIs(a * b, m, q * b + r / m, r % m);
  }

  /** Multiplying by the prime and then by its inverse is the identity below 2^64. */
  lemma PrimeCancels(x: u64, p: int, q: int)
    requires p * q % U64_RANGE == 1
    ensures (x * p % U64_RANGE) * q % U64_RANGE == x
  {
    MulModLeft(x * p, q, U64_RANGE);
    var k := p * q / U64_RANGE;
    assert p * q == U64_RANGE * k + 1;
    assert x * p * q == x * (p * q);
    assert x * (p * q) == U64_RANGE * (x * k) + x;
    QuotientIs(x * p * q, U64_RANGE, x * k, x);
  }

  lemma XorIsU64(hash: u64, value: byte)
    ensures Xor(hash, value) < U64_RANGE
  {
    Pow2Is64();
    XorBound(hash, value, 64);
  }

  lemma AbsorbedXor(hash: u64, value: byte)
    ensures Unmultiplied(Absorb(hash, value)) == Xor(hash, value)
  {
    XorIsU64(hash, value);
    PrimeCancels(Xor(hash, value), FNV_PRIME, FNV_INVERSE);
  }

  lemma UnabsorbAbsorb(hash: u64, value: byte)
    ensures Unabsorb(Absorb(hash, value), value) == hash
  {
    AbsorbedXor(hash, value);
    XorCancels(hash, value);
  }

  /** For a fixed stream the hash is injective in its starting state. */
  lemma {:induction false} FnvInjectiveInState(h1: u64, h2: u64, bytes: Packet)
    requires Fnv(h1, bytes) == Fnv(h2, bytes)
    ensures h1 == h2
    decreases |bytes|
  {
    if bytes != [] {
      FnvInjectiveInState(Absorb(h1, bytes[0]), Absorb(h2, bytes[0]), bytes[1..]);
      UnabsorbAbsorb(h1, bytes[0]);
      UnabsorbAbsorb(h2, bytes[0]);
    }
  }

  lemma XorSeparates(a: nat, b1: nat, b2: nat)
    requires Xor(a, b1) == Xor(a, b2)
    ensures b1 == b2
  {
    XorSymmetric(a, b1);
    XorSymmetric(a, b2);
    XorCancels(b1, a);
    XorCancels(b2, a);
  }

  lemma AbsorbSeparatesBytes(hash: u64, b1: byte, b2: byte)
    requires Absorb(hash, b1) == Absorb(hash, b2)
    ensures b1 == b2
  {
    AbsorbedXor(hash, b1);
    AbsorbedXor(hash, b2);
    XorSeparates(hash, b1, b2);
  }

  /** Streams of equal length that differ in exactly one byte never collide, in any state. */
  lemma OneByteNeverCollides(hash: u64, s: Packet, t: Packet, i: nat)
    requires |s| == |t| && i < |s| && s[i] != t[i]
    requires forall k :: 0 <= k < |s| && k != i ==> s[k] == t[k]
    ensures Fnv(hash, s) != Fnv(hash, t)
  {
    var mid := Fnv(hash, s[..i]);
    var rest := s[i + 1..];
    assert s[..i] == t[..i] && t[i + 1..] == rest;
    assert s == s[..i] + ([s[i]] + rest) && t == s[..i] + ([t[i]] + rest);
    FnvAppend(hash, s[..i], [s[i]] + rest);
    FnvAppend(hash, s[..i], [t[i]] + rest);
    assert ([s[i]] + rest)[1..] == rest && ([t[i]] + rest)[1..] == rest;
    if Fnv(hash, s) == Fnv(hash, t) {
      FnvInjectiveInState(Absorb(mid, s[i]), Absorb(mid, t[i]), rest);
      AbsorbSeparatesBytes(mid, s[i], t[i]);
    }
  }

  // ---------- the loops ----------

  method WriteU8(hash: u64, value: byte) returns (h: u64)
    ensures h == Fnv(hash, [value])
  {
    h := (Xor(hash, value) * (FNV_PRIME as int)) % U64_RANGE;
    assert Fnv(h, []) == h;
  }

  method WriteBytes(hash: u64, bytes: Packet) returns (h: u64)
    ensures h == Fnv(hash, bytes)
  {
    h := hash;
    for i := 0 to |bytes|
      invariant h == Fnv(hash, bytes[..i])
    {
      assert bytes[..i + 1] == bytes[..i] + [bytes[i]];
      FnvAppend(hash, bytes[..i], [bytes[i]]);
      h := WriteU8(h, bytes[i]);
    }
    assert bytes[..|bytes|] == bytes;
  }

  method WriteU16(hash: u64, value: Port) returns (h: u64)
    ensures h == Fnv(hash, PortBytes(value))
  {
    h := WriteBytes(hash, PortBytes(value));
  }

  method HashSocketAddr(hash: u64, addr: Option<SocketAddr>) returns (h: u64)
    ensures h == Fnv(hash, Encode(addr))
  {
    if addr.None? {
      h := WriteU8(hash, 0);
      return;
    }
    match addr.value.ip {
      case V4(octets) =>
        h := WriteU8(hash, 4);
        h := WriteBytes(h, octets);
      case V6(octets) =>
        h := WriteU8(hash, 6);
        h := WriteBytes(h, octets);
    }
    h := WriteU16(h, addr.value.port);
    FnvAppend(hash, [Family(addr)], Octets(addr.value));
    FnvAppend(hash, [Family(addr)] + Octets(addr.value), PortBytes(addr.value.port));
    EncodeShape(addr);
  }

  function Flow(meta: PacketMeta): u64 {
    Fnv(FNV_OFFSET, EncodeMeta(meta))
  }

  /** The worker of a hash; there is none among zero workers. */
  function WorkerOf(hash: u64, workers: nat): (r: Result<nat, Error>)
    ensures r.Ok? <==> workers > 0
    ensures r.Ok? ==> r.value < workers
  {
    if workers == 0 then Err(InvalidConfig) else Ok(hash % workers)
  }

  function Selected(meta: PacketMeta, workers: nat): Result<nat, Error> {
    WorkerOf(Flow(meta), workers)
  }

  /** Two hashes leave the same remainder exactly when their difference is a multiple. */
  lemma CongruentIff(a: nat, b: nat, m: nat)
    requires m > 0
    ensures (a - b) % m == 0 <==> a % m == b % m
  {
    var qa, ra, qb, rb := a / m, a % m, b / m, b % m;
    var d := qa - qb;
    assert a - b == m * d + (ra - rb);
    if ra >= rb {
      QuotientIs(a - b, m, d, ra - rb);
    } else {
      assert m * (d - 1) == m * d - m;
      QuotientIs(a - b, m, d - 1, ra - rb + m);
    }
  }

  /** The worker of a flow is the one congruent to its hash. */
  lemma WorkerIsResidue(hash: u64, workers: nat, k: nat)
    requires k < workers
    ensures WorkerOf(hash, workers) == Ok(k) <==> (hash - k) % workers == 0
  {
    CongruentIff(hash, k, workers);
    QuotientIs(k, workers, 0, k);
  }

  lemma SelectedIsResidue(meta: PacketMeta, workers: nat, k: nat)
    requires k < workers
    ensures Selected(meta, workers) == Ok(k) <==> (Flow(meta) - k) % workers == 0
  {
    WorkerIsResidue(Flow(meta), workers, k);
  }

  /** Flows share a worker exactly when their hashes are congruent. */
  lemma SameWorkerIff(h1: u64, h2: u64, workers: nat)
    requires workers > 0
    ensures WorkerOf(h1, workers) == WorkerOf(h2, workers) <==> (h1 - h2) % workers == 0
  {
    CongruentIff(h1, h2, workers);
  }

  method LinuxReuseportSelect(meta: PacketMeta, workers: nat) returns (r: Result<nat, Error>)
    ensures r == Selected(meta, workers)
    ensures r.Ok? ==> r.value < workers && (Flow(meta) - r.value) % workers == 0
  {
    if workers == 0 {
      return Err(InvalidConfig);
    }
    var hash := FNV_OFFSET;
    hash := HashSocketAddr(hash, meta.peer);
    hash := HashSocketAddr(hash, meta.local);
    FnvAppend(FNV_OFFSET, Encode(meta.peer), Encode(meta.local));
    SelectedIsResidue(meta, workers, hash % workers);
    return Ok(hash % workers);
  }

  /** Simulated TCP keeps worker 0 for accepting when there is another worker to serve. */
  function TcpWorkerOf(hash: u64, workers: nat): (r: Result<nat, Error>)
    ensures r.Ok? <==> workers > 0
    ensures r.Ok? ==> r.value < workers && (workers >= 2 ==> r.value != 0)
  {
    if workers <= 1 then WorkerOf(hash, workers)
    else Ok(WorkerOf(hash, workers - 1).value + 1)
  }

  function SelectedTcp(meta: PacketMeta, workers: nat): Result<nat, Error> {
    TcpWorkerOf(Flow(meta), workers)
  }

  /** With two or more workers, TCP picks worker k + 1 where the flow hash is congruent to k modulo one worker less. */
  lemma SelectedTcpIsResidue(meta: PacketMeta, workers: nat, k: nat)
    requires k + 1 < workers
    ensures SelectedTcp(meta, workers) == Ok(k + 1) <==> (Flow(meta) - k) % (workers - 1) == 0
  {
    WorkerIsResidue(Flow(meta), workers - 1, k);
  }

  lemma SameTcpWorkerIff(h1: u64, h2: u64, workers: nat)
    requires workers > 0
    ensures TcpWorkerOf(h1, workers) == TcpWorkerOf(h2, workers)
       <==> workers == 1 || (h1 - h2) % (workers - 1) == 0
  {
    SameWorkerIff(h1, h2, if workers == 1 then 1 else workers - 1);
  }

  /** The peer's bytes come first and the local address's follow. */
  lemma PeerComesFirst(meta: PacketMeta)
    ensures Encode(meta.peer) <= EncodeMeta(meta)
    ensures EncodeMeta(meta)[|Encode(meta.peer)|..] == Encode(meta.local)
  {
  }

  /** A zero byte only multiplies; the caller gives quotient and remainder. */
  lemma AbsorbZero(hash: u64, quotient: nat, next: u64)
    requires hash * FNV_PRIME == U64_RANGE * quotient + next
    ensures Absorb(hash, 0) == next
  {
    assert Xor(hash, 0) == hash;
    QuotientIs(hash * FNV_PRIME, U64_RANGE, quotient, next);
  }

  lemma FnvTwo(hash: u64, a: byte, b: byte)
    ensures Fnv(hash, [a, b]) == Absorb(Absorb(hash, a), b)
  {
    assert [a, b][1..] == [b] && [b][1..] == [];
    assert Fnv(Absorb(hash, a), [b]) == Fnv(Absorb(Absorb(hash, a), b), []);
  }

  /** A flow without addresses hashes to a known value. */
  lemma NamelessFlow(workers: nat)
    requires workers > 0
    ensures Flow(PacketMeta(None, None)) == 0x8328807b4eb6fed
    ensures Selected(PacketMeta(None, None), workers) == Ok(0x8328807b4eb6fed % workers)
  {
    assert EncodeMeta(PacketMeta(None, None)) == [0, 0];
    FnvTwo(FNV_OFFSET, 0, 0);
    AbsorbZero(FNV_OFFSET, 0xcbf29ce5de, 0xaf63bd4c8601b7df);
    AbsorbZero(0xaf63bd4c8601b7df, 0xaf63bd4db0, 0x8328807b4eb6fed);
  }

  /** Two flows whose addresses differ in a single byte of the stream always have different hashes. */
  lemma NeighbouringFlowsDiffer(m1: PacketMeta, m2: PacketMeta, i: nat)
    requires |EncodeMeta(m1)| == |EncodeMeta(m2)| && i < |EncodeMeta(m1)|
    requires forall k :: 0 <= k < |EncodeMeta(m1)| && k != i ==> EncodeMeta(m1)[k] == EncodeMeta(m2)[k]
    ensures m1 != m2 <==> Flow(m1) != Flow(m2)
  {
    if EncodeMeta(m1)[i] == EncodeMeta(m2)[i] {
      assert EncodeMeta(m1) == EncodeMeta(m2);
      EncodeMetaInjective(m1, m2);
    } else {
      OneByteNeverCollides(FNV_OFFSET, EncodeMeta(m1), EncodeMeta(m2), i);
    }
  }
}
