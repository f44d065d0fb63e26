/** How a pod's name travels in fixed 64-byte buffers: from the environment into the spy's static buffer, from there
    into each event, and out again in the agent (spy/src/spy.cpp, agent/collector/evaluator.go). */
module PodIdentity {
  import opened WireFormat

  /** The bytes before the first NUL. */
  function Length(bs: seq<byte>): (n: nat)
    ensures n <= |bs|
    ensures forall i :: 0 <= i < n ==> bs[i] != 0
    ensures n < |bs| ==> bs[n] == 0
  {
    if bs == [] || bs[0] == 0 then 0 else 1 + Length(bs[1..])
  }

  /** strncpy(dst, src, n): up to n bytes of the string, zeros to the n-th, and the rest of dst as it was. */
  function Strncpy(dst: seq<byte>, src: seq<byte>, n: nat): (r: seq<byte>)
    requires n <= |dst|
    ensures |r| == |dst|
  {
    seq(|dst|, i requires 0 <= i < |dst| => if i >= n then dst[i] else if i < Length(src) then src[i] else 0)
  }

  /** bytesToString */
  function BytesToString(bs: seq<byte>): seq<byte> {
    bs[..Length(bs)]
  }

  method CopyString(dst: array<byte>, src: seq<byte>, n: nat)
    requires n <= dst.Length
    modifies dst
    ensures dst[..] == Strncpy(old(dst[..]), src, n)
  {
    var i := 0;
    while i < n && i < |src| && src[i] != 0
      invariant i <= n && i <= Length(src)
      invariant forall k :: 0 <= k < i ==> dst[k] == src[k]
      invariant forall k :: i <= k < dst.Length ==> dst[k] == old(dst[k])
    {
      dst[i] := src[i];
      i := i + 1;
    }
    var j := i;
    while j < n
      invariant i <= j <= n
      invariant forall k :: 0 <= k < i ==> dst[k] == src[k]
      invariant forall k :: i <= k < j ==> dst[k] == 0
      invariant forall k :: j <= k < dst.Length ==> dst[k] == old(dst[k])
    {
      dst[j] := 0;
      j := j + 1;
    }
  }

  /** The static buffer after DetectPodInfo found the variable set to `name`. */
  function Cached(before: seq<byte>, name: seq<byte>): seq<byte>
    requires |before| == NAME_LEN
  {
    Strncpy(before, name, 63)[63 := 0]
  }

  method DetectName(cached: array<byte>, name: seq<byte>)
    requires cached.Length == NAME_LEN
    modifies cached
    ensures cached[..] == Cached(old(cached[..]), name)
  {
    CopyString(cached, name, 63);
    cached[63] := 0;
  }

  /** The field of an event on the stack: `garbage` is what the memory held, and its last byte is never written. */
  function EventField(garbage: seq<byte>, cached: seq<byte>): seq<byte>
    requires |garbage| == NAME_LEN
  {
    Strncpy(garbage, cached, 63)
  }

  lemma {:induction false} LengthIs(bs: seq<byte>, n: nat)
    requires n <= |bs| && (forall i :: 0 <= i < n ==> bs[i] != 0) && (n < |bs| ==> bs[n] == 0)
    ensures Length(bs) == n
  {
    if n > 0 {
      assert bs[0] != 0;
      LengthIs(bs[1..], n - 1);
    }
  }

  /** What the agent reads back for a name without NUL bytes. */
  function Received(name: seq<byte>, last: byte): seq<byte> {
    if |name| <= 62 then name
    else if last == 0 then name[..63]
    else name[..63] + [last]
  }

  lemma FieldBytes(before: seq<byte>, garbage: seq<byte>, name: seq<byte>)
    requires |before| == NAME_LEN && |garbage| == NAME_LEN && 0 !in name
    ensures var field := EventField(garbage, Cached(before, name));
            && field[63] == garbage[63]
            && forall i :: 0 <= i < 63 ==> field[i] == if i < |name| then name[i] else 0
  {
    LengthIs(name, |name|);
    var cached := Cached(before, name);
    var n := if |name| < 63 then |name| else 63;
    assert forall i :: 0 <= i < n ==> cached[i] == name[i];
    LengthIs(cached, n);
  }

  /** Both copies and the read-back together. */
  lemma NameReceived(before: seq<byte>, garbage: seq<byte>, name: seq<byte>)
    requires |before| == NAME_LEN && |garbage| == NAME_LEN && 0 !in name
    ensures BytesToString(EventField(garbage, Cached(before, name))) == Received(name, garbage[63])
  {
    var field := EventField(garbage, Cached(before, name));
    FieldBytes(before, garbage, name);
    if |name| <= 62 {
      LengthIs(field, |name|);
      assert field[..|name|] == name;
    } else if garbage[63] == 0 {
      LengthIs(field, 63);
      assert field[..63] == name[..63];
    } else {
      LengthIs(field, 64);
      assert field == name[..63] + [garbage[63]];
    }
  }

  lemma ReceivedIffShort(name: seq<byte>)
    ensures |name| <= 62 ==> forall last: byte :: Received(name, last) == name
    ensures |name| > 62 ==> exists last: byte :: Received(name, last) != name
  {
    if |name| > 62 {
      var last: byte := if |name| > 63 && name[63] == 1 then 2 else 1;
      var r := Received(name, last);
      assert |r| == 64 && r[63] == last;
      assert Received(name, last) != name;
    }
  }

  /** A name survives both copies and the read-back, whatever the memory of the event held before, exactly when it
      has at most 62 bytes. */
  lemma SurvivesIff(before: seq<byte>, name: seq<byte>)
    requires |before| == NAME_LEN && 0 !in name
    ensures (forall garbage: seq<byte> :: |garbage| == NAME_LEN ==>
               BytesToString(EventField(garbage, Cached(before, name))) == name)
            <==> |name| <= 62
  {
    forall garbage: seq<byte> | |garbage| == NAME_LEN
      ensures BytesToString(EventField(garbage, Cached(before, name))) == Received(name, garbage[63])
    {
      NameReceived(before, garbage, name);
    }
    ReceivedIffShort(name);
    if |name| > 62 {
      var last: byte :| Received(name, last) != name;
      var garbage := seq(NAME_LEN, i => last);
      assert BytesToString(EventField(garbage, Cached(before, name))) == Received(name, garbage[63]);
    }
  }

  /** End to end: environment, static buffer, event, datagram, decoder, string. */
  lemma EndToEnd(before: seq<byte>, garbage: seq<byte>, name: seq<byte>, e: MetricEvent, padding: seq<byte>)
    requires |before| == NAME_LEN && |garbage| == NAME_LEN && 0 !in name && |padding| == 4
    requires Representable(e) && e.podName == EventField(garbage, Cached(before, name))
    ensures var r := Decode(Encode(e, padding));
            r.Event? && BytesToString(r.event.podName) == Received(name, garbage[63])
  {
    RoundTrip(e, padding, []);
    assert Encode(e, padding) + [] == Encode(e, padding);
    NameReceived(before, garbage, name);
  }
}
