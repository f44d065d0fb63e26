/** The 184-byte datagram between spy and agent: the C++ struct layout on a little-endian 64-bit machine, and the
    Go decoder that reads it (spy/include/queue.h, agent/collector/collector.go). */
module WireFormat {

  type byte = b: int | 0 <= b < 256

  const GPU_LEN: nat := 32
  const NAME_LEN: nat := 64
  const EVENT_LEN: nat := 184

  // ---- little-endian integers ----

  function Pow256(n: nat): (p: nat)
    ensures p > 0
  {
    if n == 0 then 1 else 256 * Pow256(n - 1)
  }

  function ToBytes(x: nat, n: nat): (bs: seq<byte>)
    ensures |bs| == n
  {
    if n == 0 then [] else [x % 256] + ToBytes(x / 256, n - 1)
  }

  function FromBytes(bs: seq<byte>): (x: nat)
    ensures x < Pow256(|bs|)
  {
    if bs == [] then 0 else bs[0] + 256 * FromBytes(bs[1..])
  }

  lemma {:induction false} FromTo(x: nat, n: nat)
    requires x < Pow256(n)
    ensures FromBytes(ToBytes(x, n)) == x
  {
    if n > 0 {
      FromTo(x / 256, n - 1);
      assert ToBytes(x, n)[1..] == ToBytes(x / 256, n - 1);
    }
  }

  lemma {:induction false} ToFrom(bs: seq<byte>)
    ensures ToBytes(FromBytes(bs), |bs|) == bs
  {
    if bs != [] {
      ToFrom(bs[1..]);
      var x := FromBytes(bs);
      assert x % 256 == bs[0] && x / 256 == FromBytes(bs[1..]);
    }
  }

  /** Byte `i` weighs 256 to the power `i`. */
  ghost function Weighted(bs: seq<byte>): int {
    if bs == [] then 0
    else
      var n := |bs| - 1;
      Weighted(bs[..n]) + bs[n] * Pow256(n)
  }

  lemma {:induction false} FromBytesLast(front: seq<byte>, last: byte)
    ensures FromBytes(front + [last]) == FromBytes(front) + last * Pow256(|front|)
  {
    if front == [] {
      assert front + [last] == [last] && [last][1..] == [];
    } else {
      FromBytesLast(front[1..], last);
      assert (front + [last])[1..] == front[1..] + [last];
      var p := Pow256(|front| - 1);
      assert 256 * (last * p) == last * (256 * p);
    }
  }

  lemma {:induction false} LittleEndian(bs: seq<byte>)
    ensures FromBytes(bs) == Weighted(bs)
  {
    if bs != [] {
      var n := |bs| - 1;
      LittleEndian(bs[..n]);
      FromBytesLast(bs[..n], bs[n]);
      assert bs == bs[..n] + [bs[n]];
    }
  }

  /** Does `v` fit a signed integer of `n` bytes? */
  predicate Signed(v: int, n: nat) {
    0 - Pow256(n) <= 2 * v < Pow256(n)
  }

  function ToSigned(v: int, n: nat): seq<byte>
    requires Signed(v, n)
  {
    ToBytes(if v < 0 then v + Pow256(n) else v, n)
  }

  function FromSigned(bs: seq<byte>): int {
    var x := FromBytes(bs);
    if 2 * x >= Pow256(|bs|) then x - Pow256(|bs|) else x
  }

  lemma Scale(a: int, b: int, p: nat)
    requires a <= b
    ensures a * p <= b * p
  {}

  lemma TopBit(low: nat, last: nat, p: nat)
    requires low < p && last < 256
    ensures 2 * (low + last * p) >= 256 * p <==> last >= 128
  {
    if last >= 128 {
      Scale(128, last, p);
    } else {
      Scale(last, 127, p);
    }
  }

  /** Signed integers are two's complement: the top bit of the last byte takes 256 to the power of the length off. */
  lemma TwosComplement(bs: seq<byte>)
    requires bs != []
    ensures FromSigned(bs) == Weighted(bs) - (if bs[|bs| - 1] >= 128 then Pow256(|bs|) else 0)
  {
    var n := |bs| - 1;
    LittleEndian(bs);
    LittleEndian(bs[..n]);
    TopBit(FromBytes(bs[..n]), bs[n], Pow256(n));
    assert Pow256(|bs|) == 256 * Pow256(n);
  }

  lemma SignedRoundTrip(v: int, n: nat)
    requires Signed(v, n)
    ensures FromSigned(ToSigned(v, n)) == v
  {
    FromTo(if v < 0 then v + Pow256(n) else v, n);
  }

  lemma SignedInverse(bs: seq<byte>)
    requires bs != []
    ensures Signed(FromSigned(bs), |bs|) && ToSigned(FromSigned(bs), |bs|) == bs
  {
    ToFrom(bs);
  }

  // ---- the event ----

  datatype MetricEvent = MetricEvent(kind: int, gpuModel: seq<byte>, podName: seq<byte>, podNamespace: seq<byte>,
                                     durationUs: int, count: nat)

  predicate Representable(e: MetricEvent) {
    && Signed(e.kind, 4) && Signed(e.durationUs, 8) && e.count < Pow256(8)
    && |e.gpuModel| == GPU_LEN && |e.podName| == NAME_LEN && |e.podNamespace| == NAME_LEN
  }

  /** The struct as it lies in memory; `padding` aligns the 64-bit fields and holds anything. */
  function Encode(e: MetricEvent, padding: seq<byte>): (bs: seq<byte>)
    requires Representable(e) && |padding| == 4
    ensures |bs| == EVENT_LEN
  {
    ToSigned(e.kind, 4) + e.gpuModel + e.podName + e.podNamespace + padding
    + ToSigned(e.durationUs, 8) + ToBytes(e.count, 8)
  }

  datatype Decoded = TooShort | Malformed | Event(event: MetricEvent)

  function Fields(bs: seq<byte>): MetricEvent
    requires |bs| >= EVENT_LEN
  {
    MetricEvent(FromSigned(bs[..4]), bs[4..36], bs[36..100], bs[100..164],
                FromSigned(bs[168..176]), FromBytes(bs[176..184]))
  }

  /** One datagram of the collector's loop: short ones are skipped, and a decode needs the whole struct. */
  function Decode(bs: seq<byte>): Decoded {
    if |bs| < 24 then TooShort
    else if |bs| < EVENT_LEN then Malformed
    else Event(Fields(bs))
  }

  lemma Middle<T>(a: seq<T>, b: seq<T>, c: seq<T>)
    ensures (a + b + c)[|a|..|a| + |b|] == b
  {}

  lemma Layout(e: MetricEvent, padding: seq<byte>, rest: seq<byte>)
    requires Representable(e) && |padding| == 4
    ensures var bs := Encode(e, padding) + rest;
            && bs[..4] == ToSigned(e.kind, 4) && bs[4..36] == e.gpuModel && bs[36..100] == e.podName
            && bs[100..164] == e.podNamespace && bs[164..168] == padding
            && bs[168..176] == ToSigned(e.durationUs, 8) && bs[176..184] == ToBytes(e.count, 8)
  {
    var kind, duration, count := ToSigned(e.kind, 4), ToSigned(e.durationUs, 8), ToBytes(e.count, 8);
    var bs := Encode(e, padding) + rest;
    var head := kind + e.gpuModel + e.podName + e.podNamespace;
    assert bs == head + (padding + duration + count + rest);
    assert bs[..164] == head;
    assert bs[..4] == head[..4] && bs[4..36] == head[4..36];
    assert bs[36..100] == head[36..100] && bs[100..164] == head[100..164];
    Middle(kind, e.gpuModel, e.podName + e.podNamespace);
    assert head == kind + e.gpuModel + (e.podName + e.podNamespace);
    Middle(kind + e.gpuModel, e.podName, e.podNamespace);
    Middle(head, padding, duration + count + rest);
    assert bs == head + padding + (duration + count + rest);
    Middle(head + padding, duration, count + rest);
    assert bs == head + padding + duration + (count + rest);
    Middle(head + padding + duration, count, rest);
    assert bs == head + padding + duration + count + rest;
  }

  /** Decoding inverts the layout for every event, whatever the padding and whatever follows the struct. */
  lemma RoundTrip(e: MetricEvent, padding: seq<byte>, rest: seq<byte>)
    requires Representable(e) && |padding| == 4
    ensures Decode(Encode(e, padding) + rest) == Event(e)
  {
    Layout(e, padding, rest);
    SignedRoundTrip(e.kind, 4);
    SignedRoundTrip(e.durationUs, 8);
    FromTo(e.count, 8);
  }

  /** Every 184-byte datagram is the layout of the event it decodes to: no two layouts are confused. */
  lemma InverseRoundTrip(bs: seq<byte>)
    requires |bs| == EVENT_LEN
    ensures Decode(bs).Event? && Representable(Decode(bs).event)
    ensures Encode(Decode(bs).event, bs[164..168]) == bs
  {
    SignedInverse(bs[..4]);
    SignedInverse(bs[168..176]);
    ToFrom(bs[176..184]);
    assert bs == bs[..4] + bs[4..36] + bs[36..100] + bs[100..164] + bs[164..168] + bs[168..176] + bs[176..184];
  }

  ghost predicate IsLayout(bs: seq<byte>, e: MetricEvent, padding: seq<byte>, rest: seq<byte>) {
    Representable(e) && |padding| == 4 && bs == Encode(e, padding) + rest
  }

  /** A datagram decodes exactly when it starts with the layout of some event; anything shorter is rejected. */
  lemma DecodesExactly(bs: seq<byte>)
    ensures Decode(bs).Event? <==> exists e, padding, rest :: IsLayout(bs, e, padding, rest)
    ensures |bs| < 184 ==> Decode(bs) == if |bs| < 24 then TooShort else Malformed
  {
    if Decode(bs).Event? {
      var head := bs[..EVENT_LEN];
      InverseRoundTrip(head);
      assert bs == head + bs[EVENT_LEN..];
      assert IsLayout(bs, Decode(head).event, head[164..168], bs[EVENT_LEN..]);
    }
  }
}
