/** Spreading one datagram over a list of caller-owned buffers, in place. */
module Scatter {
  import opened Bytes

  predicate Distinct(buffers: seq<array<byte>>) {
    forall i, j :: 0 <= i < j < |buffers| ==> buffers[i] != buffers[j]
  }

  /** What the buffers hold, one sequence each. */
  function Contents(buffers: seq<array<byte>>): (c: seq<Packet>)
    reads buffers
    ensures |c| == |buffers|
    ensures forall i :: 0 <= i < |c| ==> c[i] == buffers[i][..]
  {
    seq(|buffers|, i requires 0 <= i < |buffers| reads buffers => buffers[i][..])
  }

  /** The buffers laid end to end. */
  function Flat(contents: seq<Packet>): Packet {
    if contents == [] then [] else contents[0] + Flat(contents[1..])
  }

  /** The contents after the payload was written from the first buffer on. */
  function Scattered(payload: Packet, contents: seq<Packet>): (r: seq<Packet>)
    ensures |r| == |contents|
    decreases |contents|
  {
    if contents == [] || payload == [] then contents
    else
      var n := Min(|payload|, |contents[0]|);
      [payload[..n] + contents[0][n..]] + Scattered(payload[n..], contents[1..])
  }

  /** Writing into the first buffer and then into the rest is writing into all of them. */
  lemma Splice(payload: Packet, head: Packet, rest: Packet, n: nat, m: nat)
    requires n == Min(|payload|, |head|) && m == Min(|payload| - n, |rest|)
    ensures payload[..n] + head[n..] + (payload[n..][..m] + rest[m..]) == payload[..n + m] + (head + rest)[n + m..]
  {
    if n == |payload| {
      assert (head + rest)[n..] == head[n..] + rest;
    } else {
      assert payload[..n] + payload[n..][..m] == payload[..n + m];
      assert (head + rest)[n + m..] == rest[m..];
    }
  }

  function Fitting(payload: Packet, contents: seq<Packet>): nat {
    Min(|payload|, |Flat(contents)|)
  }

  /** Laid end to end, the buffers hold as much of the payload as fits, then exactly what they held before. */
  lemma {:induction false} ScatteredFlat(payload: Packet, contents: seq<Packet>)
    ensures Flat(Scattered(payload, contents))
         == payload[..Fitting(payload, contents)] + Flat(contents)[Fitting(payload, contents)..]
    decreases |contents|
  {
    if contents == [] || payload == [] {
      assert payload[..0] + Flat(contents)[0..] == Flat(contents);
    } else {
      var head, tail := contents[0], contents[1..];
      var n := Min(|payload|, |head|);
      var m := Fitting(payload[n..], tail);
      calc {
        Flat(Scattered(payload, contents));
        { ScatterRound(payload, contents, n); }
        (payload[..n] + head[n..]) + Flat(Scattered(payload[n..], tail));
        { ScatteredFlat(payload[n..], tail); }
        (payload[..n] + head[n..]) + (payload[n..][..m] + Flat(tail)[m..]);
        { Splice(payload, head, Flat(tail), n, m); }
        payload[..n + m] + Flat(contents)[n + m..];
      }
      assert n + m == Fitting(payload, contents);
    }
  }

  /** No buffer changes size. */
  lemma {:induction false} ScatteredSizes(payload: Packet, contents: seq<Packet>, i: nat)
    requires i < |contents|
    ensures |Scattered(payload, contents)[i]| == |contents[i]|
    decreases |contents|
  {
    if payload != [] && i > 0 {
      var n := Min(|payload|, |contents[0]|);
      ScatteredSizes(payload[n..], contents[1..], i - 1);
    }
  }

  /** The receiver can read the datagram back from the returned length exactly when the buffers could hold it. */
  lemma GatherReturnsPayload(payload: Packet, contents: seq<Packet>)
    ensures |payload| <= |Flat(contents)| <==>
            |payload| <= |Flat(Scattered(payload, contents))|
            && Flat(Scattered(payload, contents))[..|payload|] == payload
  {
    ScatteredFlat(payload, contents);
  }

  /** What one round of the loop does to the part still to come. */
  lemma ScatterRound(left: Packet, rest: seq<Packet>, n: nat)
    requires left != [] && rest != [] && n == Min(|left|, |rest[0]|)
    ensures Scattered(left, rest)[0] == left[..n] + rest[0][n..]
    ensures Scattered(left, rest)[1..] == Scattered(left[n..], rest[1..])
  {
  }

  /** How much of the payload goes into buffer `i`. */
  function Share(now: seq<Packet>, i: nat, payload: Packet, offset: nat): nat
    requires i < |now| && offset <= |payload|
  {
    Min(|payload| - offset, |now[i]|)
  }

  function Filled(now: seq<Packet>, i: nat, payload: Packet, offset: nat): seq<Packet>
    requires i < |now| && offset <= |payload|
  {
    var n := Share(now, i, payload, offset);
    now[i := payload[offset..offset + n] + now[i][n..]]
  }

  /** What the buffers hold in the end when the loop stands before buffer `i`. */
  function Outcome(now: seq<Packet>, i: nat, payload: Packet, offset: nat): seq<Packet>
    requires i <= |now| && offset <= |payload|
    decreases |now| - i
  {
    if i == |now| || offset == |payload| then now
    else Outcome(Filled(now, i, payload, offset), i + 1, payload, offset + Share(now, i, payload, offset))
  }

  /** The loop leaves the buffers it has passed and scatters the rest of the payload over the others. */
  lemma {:induction false} OutcomeIsScattered(now: seq<Packet>, i: nat, payload: Packet, offset: nat)
    requires i <= |now| && offset <= |payload|
    ensures Outcome(now, i, payload, offset) == now[..i] + Scattered(payload[offset..], now[i..])
    decreases |now| - i
  {
    if i == |now| || offset == |payload| {
      assert now == now[..i] + now[i..];
    } else {
      var n := Share(now, i, payload, offset);
      var next := Filled(now, i, payload, offset);
      OutcomeIsScattered(next, i + 1, payload, offset + n);
      OneBufferOfMany(now, i, payload, offset);
      assert next[..i + 1] == now[..i] + [next[i]];
    }
  }

  lemma OneBufferOfMany(now: seq<Packet>, i: nat, payload: Packet, offset: nat)
    requires i < |now| && offset < |payload|
    ensures var n, next := Share(now, i, payload, offset), Filled(now, i, payload, offset);
            && n <= |payload| - offset
            && Scattered(payload[offset..], now[i..])
            == [next[i]] + Scattered(payload[offset + n..], next[i + 1..])
  {
    var n, next := Share(now, i, payload, offset), Filled(now, i, payload, offset);
    ScatterRound(payload[offset..], now[i..], n);
    assert payload[offset..][..n] == payload[offset..offset + n];
    assert payload[offset..][n..] == payload[offset + n..];
    assert next[i + 1..] == now[i..][1..];
    var r := Scattered(payload[offset..], now[i..]);
    assert r == [r[0]] + r[1..];
  }

  /** Writes the next part of the payload into buffer `i`; returns where the payload goes on. */
  method FillBuffer(payload: Packet, buffers: seq<array<byte>>, offset: nat, i: nat) returns (next: nat)
    requires Distinct(buffers) && i < |buffers| && offset < |payload|
    modifies buffers[i]
    ensures next == offset + old(Share(Contents(buffers), i, payload, offset)) <= |payload|
    ensures Contents(buffers) == old(Filled(Contents(buffers), i, payload, offset))
  {
    var buffer := buffers[i];
    var copyLen := Min(|payload| - offset, buffer.Length);
    ghost var now := Contents(buffers);
    assert now[i] == buffer[..];
    forall k | 0 <= k < copyLen {
      buffer[k] := payload[offset + k];
    }
    assert buffer[..] == payload[offset..offset + copyLen] + now[i][copyLen..];
    assert forall j :: 0 <= j < |buffers| && j != i ==> buffers[j] != buffer && buffers[j][..] == old(buffers[j][..]);
    next := offset + copyLen;
  }

  method ScatterDatagram(payload: Packet, buffers: seq<array<byte>>)
    requires Distinct(buffers)
    modifies buffers
    ensures Contents(buffers) == Scattered(payload, old(Contents(buffers)))
  {
    ghost var target := Outcome(Contents(buffers), 0, payload, 0);
    OutcomeIsScattered(Contents(buffers), 0, payload, 0);
    assert payload[0..] == payload && Contents(buffers)[0..] == Contents(buffers);
    var offset: nat := 0;
    for i := 0 to |buffers|
      invariant offset <= |payload| && Outcome(Contents(buffers), i, payload, offset) == target
    {
      if offset >= |payload| {
        break;
      }
      offset := FillBuffer(payload, buffers, offset, i);
    }
  }

  /** Receives one datagram into the buffers; the length reported is the datagram's, fitting or not. */
  method RecvVectored(payload: Packet, buffers: seq<array<byte>>) returns (len: nat)
    requires Distinct(buffers)
    modifies buffers
    ensures len == |payload|
    ensures var k := old(Fitting(payload, Contents(buffers)));
            Flat(Contents(buffers)) == payload[..k] + old(Flat(Contents(buffers)))[k..]
    ensures len <= |old(Flat(Contents(buffers)))| ==> Flat(Contents(buffers))[..len] == payload
  {
    ScatteredFlat(payload, Contents(buffers));
    ScatterDatagram(payload, buffers);
    len := |payload|;
  }
}
