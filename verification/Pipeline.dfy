/** The lossy chain from hook to evaluator: ring queue, socket, collector channel, evaluator channel.  Every event
    is numbered as it is produced, so that what happens to each one can be followed. */
module Pipeline {
  import opened ApiTypes

  /** The ring of 4096 slots holds one less; both Go channels hold 1000. */
  const QUEUE_ROOM: nat := 4095
  const CHANNEL_ROOM: nat := 1000

  datatype Item<E> = Item(id: nat, event: E)

  /** `sending`, `receiving` and `forwarding` are events in the hands of the sender thread, the listener and the main
      loop, between taking them from one stage and offering them to the next. */
  datatype State<E> = State(
    produced: seq<E>,
    queue: seq<Item<E>>,
    sending: Option<Item<E>>,
    socket: seq<Item<E>>,
    receiving: Option<Item<E>>,
    collected: seq<Item<E>>,
    forwarding: Option<Item<E>>,
    pending: seq<Item<E>>,
    evaluated: seq<Item<E>>,
    lostAtPush: seq<Item<E>>,
    lostAtSend: seq<Item<E>>,
    lostAtForward: seq<Item<E>>)

  /** A push is accepted only while the ring has room; it may also be refused with room left, when the producer sees
      an old head or the consumer has not stored the new one yet (RingProtocol.ExactTests). */
  datatype Label<E> =
    | Produce(event: E, accepted: bool)
    | Pop
    | Send(delivered: bool)
    | Receive
    | Collect
    | Take
    | Forward
    | Evaluate

  ghost predicate Init<E>(s: State<E>) {
    s == State([], [], None, [], None, [], None, [], [], [], [], [])
  }

  ghost predicate Enabled<E>(s: State<E>, l: Label<E>) {
    match l
    case Produce(_, accepted) => accepted ==> |s.queue| < QUEUE_ROOM
    case Pop => s.queue != [] && s.sending.None?
    case Send(_) => s.sending.Some?
    case Receive => s.socket != [] && s.receiving.None?
    case Collect => s.receiving.Some? && |s.collected| < CHANNEL_ROOM
    case Take => s.collected != [] && s.forwarding.None?
    case Forward => s.forwarding.Some?
    case Evaluate => s.pending != []
  }

  function Next<E>(s: State<E>, l: Label<E>): State<E>
    requires Enabled(s, l)
  {
    match l
    case Produce(event, accepted) =>
      var item := Item(|s.produced|, event);
      var t := s.(produced := s.produced + [event]);
      if accepted then t.(queue := s.queue + [item]) else t.(lostAtPush := s.lostAtPush + [item])
    case Pop => s.(queue := s.queue[1..], sending := Some(s.queue[0]))
    case Send(delivered) =>
      var t := s.(sending := None);
      if delivered then t.(socket := s.socket + [s.sending.value])
      else t.(lostAtSend := s.lostAtSend + [s.sending.value])
    case Receive => s.(socket := s.socket[1..], receiving := Some(s.socket[0]))
    case Collect => s.(collected := s.collected + [s.receiving.value], receiving := None)
    case Take => s.(collected := s.collected[1..], forwarding := Some(s.collected[0]))
    case Forward =>
      var t := s.(forwarding := None);
      if |s.pending| < CHANNEL_ROOM then t.(pending := s.pending + [s.forwarding.value])
      else t.(lostAtForward := s.lostAtForward + [s.forwarding.value])
    case Evaluate => s.(pending := s.pending[1..], evaluated := s.evaluated + [s.pending[0]])
  }

  ghost predicate StepAt<E>(tr: seq<State<E>>, ls: seq<Label<E>>, i: nat)
    requires i < |ls| < |tr|
  {
    Enabled(tr[i], ls[i]) && tr[i + 1] == Next(tr[i], ls[i])
  }

  ghost predicate IsRun<E>(tr: seq<State<E>>, ls: seq<Label<E>>) {
    && |tr| == |ls| + 1
    && Init(tr[0])
    && forall i :: 0 <= i < |ls| ==> StepAt(tr, ls, i)
  }

  // ---- the line of events on their way ----

  function Held<E>(o: Option<Item<E>>): seq<Item<E>> {
    if o.Some? then [o.value] else []
  }

  /** The second half of the chain, oldest first. */
  function Behind<E>(s: State<E>): seq<Item<E>> {
    s.evaluated + s.pending + Held(s.forwarding) + s.collected
  }

  function Ahead<E>(s: State<E>): seq<Item<E>> {
    Held(s.receiving) + s.socket + Held(s.sending) + s.queue
  }

  function Line<E>(s: State<E>): seq<Item<E>> {
    Behind(s) + Ahead(s)
  }

  ghost function Lost<E>(s: State<E>): multiset<Item<E>> {
    multiset(s.lostAtPush) + multiset(s.lostAtSend) + multiset(s.lostAtForward)
  }

  function Numbered<E>(events: seq<E>): seq<Item<E>> {
    seq(|events|, i requires 0 <= i < |events| => Item(i, events[i]))
  }

  ghost predicate Ascending<E>(items: seq<Item<E>>) {
    forall i, j :: 0 <= i < j < |items| ==> items[i].id < items[j].id
  }

  ghost predicate Genuine<E>(items: seq<Item<E>>, produced: seq<E>) {
    forall i :: 0 <= i < |items| ==> items[i].id < |produced| && items[i].event == produced[items[i].id]
  }

  ghost predicate Inv<E>(s: State<E>) {
    && Ascending(Line(s)) && Genuine(Line(s), s.produced)
    && multiset(Line(s)) + Lost(s) == multiset(Numbered(s.produced))
  }

  lemma PopMoves<E>(s: State<E>)
    requires Enabled(s, Pop)
    ensures Ahead(Next(s, Pop)) == Ahead(s)
  {
    assert s.queue == [s.queue[0]] + s.queue[1..];
  }

  lemma ReceiveMoves<E>(s: State<E>)
    requires Enabled(s, Receive)
    ensures Ahead(Next(s, Receive)) == Ahead(s)
  {
    assert s.socket == [s.socket[0]] + s.socket[1..];
  }

  lemma SendMoves<E>(s: State<E>)
    requires Enabled(s, Send(true))
    ensures Ahead(Next(s, Send(true))) == Ahead(s)
  {}

  lemma MainLoopMoves<E>(s: State<E>, l: Label<E>)
    requires Enabled(s, l) && (l.Take? || l.Evaluate? || (l.Forward? && |s.pending| < CHANNEL_ROOM))
    ensures Ahead(Next(s, l)) == Ahead(s) && Behind(Next(s, l)) == Behind(s)
  {
    if l.Take? {
      assert s.collected == [s.collected[0]] + s.collected[1..];
    } else if l.Evaluate? {
      assert s.pending == [s.pending[0]] + s.pending[1..];
    }
  }

  lemma CollectMoves<E>(s: State<E>)
    requires Enabled(s, Collect)
    ensures Line(Next(s, Collect)) == Line(s)
  {
    var t, x := Next(s, Collect), s.receiving.value;
    assert Behind(t) == Behind(s) + [x];
    assert Ahead(s) == [x] + Ahead(t);
  }

  /** Taking an event in hand, or putting it down in the next stage, does not change the line. */
  lemma MoveKeepsLine<E>(s: State<E>, l: Label<E>)
    requires Enabled(s, l)
    requires l.Pop? || l.Receive? || l.Collect? || l.Take? || l.Evaluate?
             || (l.Send? && l.delivered) || (l.Forward? && |s.pending| < CHANNEL_ROOM)
    ensures Line(Next(s, l)) == Line(s)
  {
    if l.Collect? {
      CollectMoves(s);
    } else if l.Pop? {
      PopMoves(s);
    } else if l.Receive? {
      ReceiveMoves(s);
    } else if l.Send? {
      SendMoves(s);
    } else {
      MainLoopMoves(s, l);
    }
  }

  lemma CutOne<E>(a: seq<Item<E>>, x: Item<E>, b: seq<Item<E>>, produced: seq<E>)
    requires Ascending(a + [x] + b) && Genuine(a + [x] + b, produced)
    ensures Ascending(a + b) && Genuine(a + b, produced)
    ensures multiset(a + [x] + b) == multiset(a + b) + multiset{x}
  {
    var whole, cut := a + [x] + b, a + b;
    forall i | 0 <= i < |cut| ensures cut[i] == whole[if i < |a| then i else i + 1] {}
  }

  lemma DropStep<E>(s: State<E>, l: Label<E>, a: seq<Item<E>>, x: Item<E>, b: seq<Item<E>>)
    requires Inv(s) && Enabled(s, l) && Line(s) == a + [x] + b
    requires Line(Next(s, l)) == a + b && Next(s, l).produced == s.produced
    requires Lost(Next(s, l)) == Lost(s) + multiset{x}
    ensures Inv(Next(s, l))
  {
    CutOne(a, x, b, s.produced);
  }

  lemma AddOne<E>(line: seq<Item<E>>, produced: seq<E>, event: E)
    requires Ascending(line) && Genuine(line, produced)
    ensures Ascending(line + [Item(|produced|, event)])
    ensures Genuine(line, produced + [event]) && Genuine(line + [Item(|produced|, event)], produced + [event])
    ensures multiset(Numbered(produced + [event])) == multiset(Numbered(produced)) + multiset{Item(|produced|, event)}
  {
    assert Numbered(produced + [event]) == Numbered(produced) + [Item(|produced|, event)];
  }

  lemma GrowStep<E>(s: State<E>, t: State<E>, event: E)
    requires Inv(s) && t.produced == s.produced + [event] && Lost(t) == Lost(s)
    requires Line(t) == Line(s) + [Item(|s.produced|, event)]
    ensures Inv(t)
  {
    AddOne(Line(s), s.produced, event);
  }

  lemma PushFits<E>(s: State<E>, event: E)
    requires Inv(s) && |s.queue| < QUEUE_ROOM
    ensures Inv(Next(s, Produce(event, true)))
  {
    var t := Next(s, Produce(event, true));
    assert Line(t) == Line(s) + [Item(|s.produced|, event)];
    GrowStep(s, t, event);
  }

  lemma PushFails<E>(s: State<E>, event: E)
    requires Inv(s)
    ensures Inv(Next(s, Produce(event, false)))
  {
    var t := Next(s, Produce(event, false));
    AddOne(Line(s), s.produced, event);
    assert Line(t) == Line(s);
    assert Lost(t) == Lost(s) + multiset{Item(|s.produced|, event)};
  }

  lemma SendFails<E>(s: State<E>)
    requires Inv(s) && s.sending.Some?
    ensures Inv(Next(s, Send(false)))
  {
    var t, x := Next(s, Send(false)), s.sending.value;
    var a := Behind(s) + (Held(s.receiving) + s.socket);
    assert Line(s) == a + [x] + s.queue;
    assert Line(t) == a + s.queue;
    DropStep(s, Send(false), a, x, s.queue);
  }

  lemma ForwardFails<E>(s: State<E>)
    requires Inv(s) && s.forwarding.Some? && |s.pending| >= CHANNEL_ROOM
    ensures Inv(Next(s, Forward))
  {
    var t, x := Next(s, Forward), s.forwarding.value;
    var a, b := s.evaluated + s.pending, s.collected + Ahead(s);
    assert Ahead(t) == Ahead(s) && Behind(t) == a + s.collected by { assert a + [] == a; }
    assert Line(s) == a + [x] + b;
    assert Line(t) == a + b;
    DropStep(s, Forward, a, x, b);
  }

  lemma MovesLoseNothing<E>(s: State<E>, l: Label<E>)
    requires Enabled(s, l) && !l.Produce? && (l.Send? ==> l.delivered) && (l.Forward? ==> |s.pending| < CHANNEL_ROOM)
    ensures Lost(Next(s, l)) == Lost(s) && Next(s, l).produced == s.produced
  {}

  lemma MoveStep<E>(s: State<E>, l: Label<E>)
    requires Inv(s) && Enabled(s, l) && Line(Next(s, l)) == Line(s)
    requires Lost(Next(s, l)) == Lost(s) && Next(s, l).produced == s.produced
    ensures Inv(Next(s, l))
  {}

  lemma InvStep<E>(s: State<E>, l: Label<E>)
    requires Inv(s) && Enabled(s, l)
    ensures Inv(Next(s, l))
  {
    if l.Produce? {
      if l.accepted {
        PushFits(s, l.event);
      } else {
        PushFails(s, l.event);
      }
    } else if l.Send? && !l.delivered {
      SendFails(s);
    } else if l.Forward? && |s.pending| >= CHANNEL_ROOM {
      ForwardFails(s);
    } else {
      MoveKeepsLine(s, l);
      MovesLoseNothing(s, l);
      MoveStep(s, l);
    }
  }

  lemma {:induction false} InvAlways<E>(tr: seq<State<E>>, ls: seq<Label<E>>, i: nat)
    requires IsRun(tr, ls) && i < |tr|
    ensures Inv(tr[i])
  {
    if i > 0 {
      InvAlways(tr, ls, i - 1);
      assert StepAt(tr, ls, i - 1);
      InvStep(tr[i - 1], ls[i - 1]);
    }
  }

  /** Conservation: in every reachable state each event produced is in exactly one place: evaluated, in flight, or
      lost at the push, at the send or at the forward. */
  lemma Conservation<E>(tr: seq<State<E>>, ls: seq<Label<E>>, i: nat)
    requires IsRun(tr, ls) && i < |tr|
    ensures var s := tr[i];
            && multiset(Numbered(s.produced)) ==
                 multiset(s.evaluated) + multiset(s.pending) + multiset(Held(s.forwarding)) + multiset(s.collected)
                 + multiset(Held(s.receiving)) + multiset(s.socket) + multiset(Held(s.sending)) + multiset(s.queue)
                 + Lost(s)
            && |s.produced| ==
                 |s.evaluated| + |s.pending| + |Held(s.forwarding)| + |s.collected| + |Held(s.receiving)| + |s.socket|
                 + |Held(s.sending)| + |s.queue| + |s.lostAtPush| + |s.lostAtSend| + |s.lostAtForward|
  {
    InvAlways(tr, ls, i);
    var s := tr[i];
    assert |multiset(Numbered(s.produced))| == |s.produced|;
    assert |multiset(Line(s)) + Lost(s)| == |Line(s)| + |Lost(s)|;
  }

  /** What the evaluator sees is an ordered subsequence, without repetition, of what was produced. */
  lemma EvaluatedInOrder<E>(tr: seq<State<E>>, ls: seq<Label<E>>, i: nat)
    requires IsRun(tr, ls) && i < |tr|
    ensures var s := tr[i];
            && (forall a, b :: 0 <= a < b < |s.evaluated| ==> s.evaluated[a].id < s.evaluated[b].id)
            && (forall a :: 0 <= a < |s.evaluated| ==>
                  s.evaluated[a].id < |s.produced| && s.evaluated[a].event == s.produced[s.evaluated[a].id])
  {
    InvAlways(tr, ls, i);
    var s := tr[i];
    assert forall a :: 0 <= a < |s.evaluated| ==> Line(s)[a] == s.evaluated[a];
  }

  /** No stage ever holds more than its room: 4095 items in the ring of 4096 slots, 1000 in each channel. */
  lemma {:induction false} RoomKept<E>(tr: seq<State<E>>, ls: seq<Label<E>>, i: nat)
    requires IsRun(tr, ls) && i < |tr|
    ensures |tr[i].queue| <= 4095 && |tr[i].collected| <= 1000 && |tr[i].pending| <= 1000
  {
    if i > 0 {
      RoomKept(tr, ls, i - 1);
      assert StepAt(tr, ls, i - 1);
    }
  }

  /** A push can be accepted exactly below 4095 items, and the listener waits exactly while its channel holds 1000. */
  lemma RoomExactly<E>(s: State<E>, event: E)
    ensures Enabled(s, Produce(event, true)) <==> |s.queue| < 4095
    ensures Enabled(s, Produce(event, false))
    ensures s.receiving.Some? ==> (Enabled(s, Collect) <==> |s.collected| < 1000)
  {}

  /** Where and when an event is lost: at a refused push, at a failed send, and at a forward to a channel that holds
      1000 events; no other step loses one. */
  lemma LostOnlyThere<E>(tr: seq<State<E>>, ls: seq<Label<E>>, i: nat)
    requires IsRun(tr, ls) && i < |ls|
    ensures |tr[i + 1].lostAtPush| == |tr[i].lostAtPush| + (if ls[i].Produce? && !ls[i].accepted then 1 else 0)
    ensures |tr[i + 1].lostAtSend| == |tr[i].lostAtSend| + (if ls[i].Send? && !ls[i].delivered then 1 else 0)
    ensures |tr[i + 1].lostAtForward| ==
              |tr[i].lostAtForward| + (if ls[i].Forward? && |tr[i].pending| == 1000 then 1 else 0)
    ensures ls[i].Produce? && ls[i].accepted ==> |tr[i].queue| < 4095
  {
    RoomKept(tr, ls, i);
    assert StepAt(tr, ls, i);
  }
}
