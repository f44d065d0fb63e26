/** The collector object: one read buffer, reused for every datagram, and the channel it feeds
    (agent/collector/collector.go). */
module CollectorObject {
  import opened ApiTypes
  import opened WireFormat

  const BUFFER_LEN: nat := 1024

  function Truncated(datagram: seq<byte>): seq<byte> {
    if |datagram| <= BUFFER_LEN then datagram else datagram[..BUFFER_LEN]
  }

  /** The events that arrivals deliver, in order; `None` is a read that failed. */
  function EventsOf(arrivals: seq<Option<seq<byte>>>): seq<MetricEvent> {
    if arrivals == [] then []
    else
      var n := |arrivals| - 1;
      EventsOf(arrivals[..n]) + EventOf(arrivals[n])
  }

  function EventOf(read: Option<seq<byte>>): seq<MetricEvent> {
    if read.None? then []
    else
      var r := Decode(Truncated(read.value));
      if r.Event? then [r.event] else []
  }

  class Collector {
    const buf: array<byte>
    var metricsChan: seq<MetricEvent>

    constructor ()
      ensures fresh(buf) && buf.Length == 1024 && metricsChan == []
    {
      buf := new byte[BUFFER_LEN](_ => 0);
      metricsChan := [];
    }

    /** The socket copies a datagram into the buffer; what does not fit is cut off, and the rest of the buffer still
        holds the datagram before. */
    method Read(datagram: seq<byte>) returns (n: nat)
      requires buf.Length == BUFFER_LEN
      modifies buf
      ensures n == |Truncated(datagram)| <= BUFFER_LEN && buf[..n] == Truncated(datagram) && buf[n..] == old(buf[n..])
    {
      var bs := Truncated(datagram);
      n := |bs|;
      for i := 0 to n
        invariant forall j :: 0 <= j < i ==> buf[j] == bs[j]
        invariant forall j :: i <= j < buf.Length ==> buf[j] == old(buf[j])
      {
        buf[i] := bs[i];
      }
    }

    /** Any number of passes of the loop: the channel gains exactly the events of the datagrams read, in order; no
        byte of an earlier datagram leaks into a later event. */
    method Listen(arrivals: seq<Option<seq<byte>>>)
      requires buf.Length == BUFFER_LEN
      modifies this`metricsChan, buf
      ensures metricsChan == old(metricsChan) + EventsOf(arrivals)
    {
      for i := 0 to |arrivals|
        invariant metricsChan == old(metricsChan) + EventsOf(arrivals[..i])
      {
        assert arrivals[..i + 1][..i] == arrivals[..i];
        if arrivals[i].None? {
          continue;
        }
        var n := Read(arrivals[i].value);
        if n < 24 {
          continue;
        }
        if n < EVENT_LEN {
          continue;
        }
        metricsChan := metricsChan + [Fields(buf[..n])];
      }
      assert arrivals[..|arrivals|] == arrivals;
    }
  }

  /** A datagram as the spy sends it: one struct. */
  ghost predicate Sent(read: Option<seq<byte>>, e: MetricEvent, padding: seq<byte>) {
    Representable(e) && |padding| == 4 && read == Some(Encode(e, padding))
  }

  lemma SentArrives(read: Option<seq<byte>>, e: MetricEvent, padding: seq<byte>)
    requires Sent(read, e, padding)
    ensures EventOf(read) == [e]
  {
    RoundTrip(e, padding, []);
    assert Encode(e, padding) + [] == Encode(e, padding);
  }

  /** What the spy sends is what the channel gets, event for event, whatever fills the padding. */
  lemma {:induction false} StreamRoundTrip(arrivals: seq<Option<seq<byte>>>, es: seq<MetricEvent>, ps: seq<seq<byte>>)
    requires |arrivals| == |es| == |ps| && forall i :: 0 <= i < |es| ==> Sent(arrivals[i], es[i], ps[i])
    ensures EventsOf(arrivals) == es
  {
    if arrivals != [] {
      var n := |arrivals| - 1;
      var front, rest := arrivals[..n], es[..n];
      SentArrives(arrivals[n], es[n], ps[n]);
      StreamRoundTrip(front, rest, ps[..n]);
      assert es == rest + [es[n]];
    }
  }
}
