/** The same queue under concurrency.  Every atomic load and store of Push and Pop is a step of its own;
    an item is copied into or out of its slot in two steps, and while it is being written the slot may hold
    anything.  Each side may see an old value of the other side's index, never one older than it saw before.
    Push runs in whichever application thread enters the hook, so producers are numbered; the laws hold for
    runs in which their Push calls do not overlap, and `OverlappingPushesLoseAnItem` shows that they must not. */
module RingProtocol {
  import opened ModArith

  datatype ProducerPc<T> =
    | Ready
    | TailLoaded(item: T, tail: nat)
    | RoomSeen(item: T, tail: nat)
    | Writing(item: T, tail: nat)
    | Written(item: T, tail: nat)

  datatype ConsumerPc<T> =
    | Waiting
    | HeadLoaded(head: nat)
    | ItemSeen(head: nat)
    | Copying(head: nat)
    | Copied(head: nat, item: T)

  /** `heads` and `tails` list every value stored in the two atomic indices, the current one last;
      `headView` and `tailView` are the latest positions in them that producer and consumer have seen.
      `pushed` holds the items of the pushes that succeeded, `popped` what the pops returned. */
  datatype State<T> = State(
    buf: seq<T>,
    heads: seq<nat>,
    tails: seq<nat>,
    headView: nat,
    tailView: nat,
    producers: map<nat, ProducerPc<T>>,
    consumer: ConsumerPc<T>,
    pushed: seq<T>,
    popped: seq<T>)

  datatype Label<T> =
    | PushBegin(p: nat, item: T)
    | PushCheck(p: nat, seen: nat)
    | WriteBegin(p: nat, torn: T)
    | WriteEnd(p: nat)
    | PushStore(p: nat)
    | PopBegin
    | PopCheck(seen: nat)
    | CopyBegin
    | CopyEnd
    | PopStore

  function Pc<T>(s: State<T>, p: nat): ProducerPc<T> {
    if p in s.producers then s.producers[p] else Ready
  }

  function SetPc<T>(s: State<T>, p: nat, pc: ProducerPc<T>): State<T> {
    s.(producers := s.producers[p := pc])
  }

  ghost predicate Init<T>(s: State<T>) {
    && |s.buf| > 0
    && s.heads == [0] && s.tails == [0] && s.headView == 0 && s.tailView == 0
    && s.producers == map[] && s.consumer == Waiting
    && s.pushed == [] && s.popped == []
  }

  /** A slot number is inside the buffer; `SlotsInRange` shows that this never blocks a step. */
  predicate InRange<T>(s: State<T>, slot: nat) {
    slot < |s.buf|
  }

  ghost predicate Enabled<T>(s: State<T>, l: Label<T>) {
    && s.buf != [] && s.heads != [] && s.tails != []
    && match l
       case PushBegin(p, _) => Pc(s, p).Ready?
       case PushCheck(p, seen) => Pc(s, p).TailLoaded? && s.headView <= seen < |s.heads|
       case WriteBegin(p, _) => Pc(s, p).RoomSeen? && InRange(s, Pc(s, p).tail)
       case WriteEnd(p) => Pc(s, p).Writing? && InRange(s, Pc(s, p).tail)
       case PushStore(p) => Pc(s, p).Written?
       case PopBegin => s.consumer.Waiting?
       case PopCheck(seen) => s.consumer.HeadLoaded? && s.tailView <= seen < |s.tails|
       case CopyBegin => s.consumer.ItemSeen?
       case CopyEnd => s.consumer.Copying? && InRange(s, s.consumer.head)
       case PopStore => s.consumer.Copied?
  }

  function Next<T>(s: State<T>, l: Label<T>): State<T>
    requires Enabled(s, l)
  {
    var cap := |s.buf|;
    match l
    case PushBegin(p, item) => SetPc(s, p, TailLoaded(item, s.tails[|s.tails| - 1]))
    case PushCheck(p, seen) =>
      var TailLoaded(item, tail) := Pc(s, p);
      SetPc(s.(headView := seen), p, if (tail + 1) % cap == s.heads[seen] then Ready else RoomSeen(item, tail))
    case WriteBegin(p, torn) =>
      var RoomSeen(item, tail) := Pc(s, p);
      SetPc(s.(buf := s.buf[tail := torn]), p, Writing(item, tail))
    case WriteEnd(p) =>
      var Writing(item, tail) := Pc(s, p);
      SetPc(s.(buf := s.buf[tail := item]), p, Written(item, tail))
    case PushStore(p) =>
      var Written(item, tail) := Pc(s, p);
      SetPc(s.(tails := s.tails + [(tail + 1) % cap], pushed := s.pushed + [item]), p, Ready)
    case PopBegin => s.(consumer := HeadLoaded(s.heads[|s.heads| - 1]))
    case PopCheck(seen) =>
      s.(tailView := seen, consumer := if s.consumer.head == s.tails[seen] then Waiting else ItemSeen(s.consumer.head))
    case CopyBegin => s.(consumer := Copying(s.consumer.head))
    case CopyEnd => s.(consumer := Copied(s.consumer.head, s.buf[s.consumer.head]))
    case PopStore =>
      s.(heads := s.heads + [(s.consumer.head + 1) % cap],
         consumer := Waiting,
         popped := s.popped + [s.consumer.item])
  }

  ghost predicate StepAt<T>(tr: seq<State<T>>, ls: seq<Label<T>>, i: nat)
    requires i < |ls| < |tr|
  {
    Enabled(tr[i], ls[i]) && tr[i + 1] == Next(tr[i], ls[i])
  }

  ghost predicate IsRun<T>(tr: seq<State<T>>, ls: seq<Label<T>>) {
    && |tr| == |ls| + 1
    && Init(tr[0])
    && forall i :: 0 <= i < |ls| ==> StepAt(tr, ls, i)
  }

  /** No two producers are inside Push at the same time. */
  ghost predicate Serial<T>(s: State<T>) {
    forall p: nat, q: nat :: !Pc(s, p).Ready? && !Pc(s, q).Ready? ==> p == q
  }

  ghost predicate SerialRun<T>(tr: seq<State<T>>) {
    forall i :: 0 <= i < |tr| ==> Serial(tr[i])
  }

  // ---- the two tests ----

  /** The full test on a view of the other index is exact for that view. */
  lemma FullTest(t: nat, h: nat, c: nat)
    requires c > 0 && h <= t < h + c
    ensures (t % c + 1) % c == h % c <==> t - h == c - 1
  {
    ModAdd(t, 1, c);
    if t - h == c - 1 {
      ModShift(h, c);
    } else {
      ModDistinct(h, t + 1, c);
    }
  }

  lemma EmptyTest(h: nat, t: nat, c: nat)
    requires c > 0 && h <= t < h + c
    ensures h % c == t % c <==> h == t
  {
    if h < t {
      ModDistinct(h, t, c);
    }
  }

  // ---- the invariant ----

  /** Items `popped..pushed` sit in their slots. */
  ghost predicate Stored<T>(s: State<T>)
    requires s.buf != []
  {
    forall i :: |s.popped| <= i < |s.pushed| ==> s.buf[i % |s.buf|] == s.pushed[i]
  }

  ghost predicate Indexed(indices: seq<nat>, count: nat, cap: nat)
    requires cap > 0
  {
    |indices| == count + 1 && forall n :: 0 <= n < |indices| ==> indices[n] == n % cap
  }

  ghost predicate Shared<T>(s: State<T>) {
    && s.buf != []
    && Indexed(s.tails, |s.pushed|, |s.buf|)
    && Indexed(s.heads, |s.popped|, |s.buf|)
    && s.headView <= |s.popped| <= s.tailView <= |s.pushed| < s.headView + |s.buf|
    && s.popped == s.pushed[..|s.popped|]
    && Stored(s)
  }

  ghost predicate ProducerInv<T>(s: State<T>, p: nat)
    requires s.buf != []
  {
    var pc := Pc(s, p);
    && (!pc.Ready? ==> pc.tail == |s.pushed| % |s.buf|)
    && (pc.RoomSeen? || pc.Writing? || pc.Written? ==> |s.pushed| + 1 < s.headView + |s.buf|)
    && (pc.Written? ==> s.buf[pc.tail] == pc.item)
  }

  ghost predicate ConsumerInv<T>(s: State<T>)
    requires s.buf != []
  {
    var pc := s.consumer;
    && (!pc.Waiting? ==> pc.head == |s.popped| % |s.buf|)
    && (pc.ItemSeen? || pc.Copying? || pc.Copied? ==> |s.popped| < s.tailView)
    && (pc.Copied? ==> |s.popped| < |s.pushed| && pc.item == s.pushed[|s.popped|])
  }

  ghost predicate Inv<T>(s: State<T>) {
    Shared(s) && ConsumerInv(s) && forall p: nat :: ProducerInv(s, p)
  }

  /** Writing the slot behind the last item disturbs no unread item. */
  lemma WriteKeepsStored<T>(s: State<T>, x: T)
    requires Shared(s) && |s.pushed| + 1 < s.headView + |s.buf|
    ensures Stored(s.(buf := s.buf[|s.pushed| % |s.buf| := x]))
  {
    var t, c := |s.pushed|, |s.buf|;
    forall i | |s.popped| <= i < t ensures s.buf[t % c := x][i % c] == s.pushed[i] {
      ModDistinct(i, t, c);
    }
  }

  lemma PushSteps<T>(s: State<T>, l: Label<T>)
    requires Inv(s) && Serial(s) && Enabled(s, l) && (l.PushBegin? || l.PushCheck? || l.WriteBegin? || l.WriteEnd?)
    requires Serial(Next(s, l))
    ensures Inv(Next(s, l))
  {
    var u := Next(s, l);
    assert ProducerInv(s, l.p);
    if l.PushCheck? {
      FullTest(|s.pushed|, l.seen, |s.buf|);
    } else if l.WriteBegin? {
      WriteKeepsStored(s, l.torn);
    } else if l.WriteEnd? {
      WriteKeepsStored(s, Pc(s, l.p).item);
    }
    if l.WriteBegin? || l.WriteEnd? {
      UnreadSlotUntouched(s);
    }
    forall p: nat ensures ProducerInv(u, p) {
      assert ProducerInv(s, p);
      assert p != l.p && !Pc(u, l.p).Ready? ==> Pc(u, p).Ready?;
    }
  }

  /** While the consumer holds an item its slot is not the one producers write. */
  lemma UnreadSlotUntouched<T>(s: State<T>)
    requires Shared(s) && |s.pushed| + 1 < s.headView + |s.buf|
    ensures |s.popped| < |s.pushed| ==> |s.popped| % |s.buf| != |s.pushed| % |s.buf|
  {
    if |s.popped| < |s.pushed| {
      ModDistinct(|s.popped|, |s.pushed|, |s.buf|);
    }
  }

  lemma StoreTail<T>(s: State<T>, p: nat)
    requires Inv(s) && Serial(s) && Enabled(s, PushStore(p))
    ensures Inv(Next(s, PushStore(p)))
  {
    var u := Next(s, PushStore(p));
    assert ProducerInv(s, p);
    ModAdd(|s.pushed|, 1, |s.buf|);
    assert u.pushed[..|s.popped|] == s.pushed[..|s.popped|];
    forall q: nat ensures ProducerInv(u, q) {
      assert ProducerInv(s, q);
      assert q != p ==> Pc(u, q).Ready?;
    }
  }

  lemma PopSteps<T>(s: State<T>, l: Label<T>)
    requires Inv(s) && Enabled(s, l) && (l.PopBegin? || l.PopCheck? || l.CopyBegin? || l.CopyEnd?)
    ensures Inv(Next(s, l))
  {
    var u := Next(s, l);
    if l.PopCheck? {
      EmptyTest(|s.popped|, l.seen, |s.buf|);
    }
    forall p: nat ensures ProducerInv(u, p) {
      assert ProducerInv(s, p);
    }
  }

  lemma StoreHead<T>(s: State<T>)
    requires Inv(s) && Enabled(s, PopStore)
    ensures Inv(Next(s, PopStore))
  {
    var u := Next(s, PopStore);
    ModAdd(|s.popped|, 1, |s.buf|);
    assert s.pushed[..|s.popped| + 1] == s.pushed[..|s.popped|] + [s.pushed[|s.popped|]];
    forall p: nat ensures ProducerInv(u, p) {
      assert ProducerInv(s, p);
    }
  }

  lemma InvStep<T>(s: State<T>, l: Label<T>)
    requires Inv(s) && Serial(s) && Enabled(s, l) && Serial(Next(s, l))
    ensures Inv(Next(s, l))
  {
    match l
    case PushStore(p) => StoreTail(s, p);
    case PopStore => StoreHead(s);
    case PopBegin => PopSteps(s, l);
    case PopCheck(_) => PopSteps(s, l);
    case CopyBegin => PopSteps(s, l);
    case CopyEnd => PopSteps(s, l);
    case _ => PushSteps(s, l);
  }

  lemma {:induction false} InvAlways<T>(tr: seq<State<T>>, ls: seq<Label<T>>, i: nat)
    requires IsRun(tr, ls) && SerialRun(tr) && i < |tr|
    ensures Inv(tr[i])
  {
    if i > 0 {
      InvAlways(tr, ls, i - 1);
      assert StepAt(tr, ls, i - 1);
      InvStep(tr[i - 1], ls[i - 1]);
    }
  }

  // ---- the laws ----

  ghost predicate RangeInv<T>(s: State<T>) {
    && s.buf != [] && s.heads != [] && s.tails != []
    && (forall n :: 0 <= n < |s.heads| ==> InRange(s, s.heads[n]))
    && (forall n :: 0 <= n < |s.tails| ==> InRange(s, s.tails[n]))
    && (forall p: nat :: !Pc(s, p).Ready? ==> InRange(s, Pc(s, p).tail))
    && (!s.consumer.Waiting? ==> InRange(s, s.consumer.head))
  }

  lemma RangeStep<T>(s: State<T>, l: Label<T>)
    requires RangeInv(s) && Enabled(s, l)
    ensures RangeInv(Next(s, l))
  {
    var u := Next(s, l);
    assert |u.buf| == |s.buf|;
    forall p: nat | !Pc(u, p).Ready? ensures InRange(u, Pc(u, p).tail) {
      assert Pc(s, p).Ready? || InRange(s, Pc(s, p).tail);
    }
  }

  /** In every run, overlapping pushes included, each side only ever addresses slots of the buffer. */
  lemma {:induction false} SlotsInRange<T>(tr: seq<State<T>>, ls: seq<Label<T>>, i: nat)
    requires IsRun(tr, ls) && i < |tr|
    ensures RangeInv(tr[i])
  {
    if i > 0 {
      SlotsInRange(tr, ls, i - 1);
      assert StepAt(tr, ls, i - 1);
      RangeStep(tr[i - 1], ls[i - 1]);
    }
  }

  /** What a reader of the two indices finds in the buffer now. */
  function Live<T>(s: State<T>): seq<T>
    requires s.buf != [] && s.heads != [] && s.tails != []
  {
    var cap := |s.buf|;
    var head, tail := s.heads[|s.heads| - 1], s.tails[|s.tails| - 1];
    seq((tail + cap - head % cap) % cap, j => s.buf[(head + j) % cap])
  }

  lemma LiveIsUnread<T>(s: State<T>)
    requires Shared(s)
    ensures s.popped + Live(s) == s.pushed
  {
    var h, t, c := |s.popped|, |s.pushed|, |s.buf|;
    ModSmall(h % c, c);
    RingDistance(h, t, c);
    var live := Live(s);
    forall j | 0 <= j < |live| ensures live[j] == s.pushed[h + j] {
      ModAdd(h, j, c);
      assert s.buf[(h + j) % c] == s.pushed[h + j];
    }
    assert live == s.pushed[h..];
  }

  /** In every interleaving, what was popped followed by what the buffer holds is what was pushed, in order. */
  lemma Fifo<T>(tr: seq<State<T>>, ls: seq<Label<T>>, i: nat)
    requires IsRun(tr, ls) && SerialRun(tr) && i < |tr|
    ensures var s := tr[i];
            s.buf != [] && s.heads != [] && s.tails != [] && s.popped + Live(s) == s.pushed
  {
    InvAlways(tr, ls, i);
    LiveIsUnread(tr[i]);
  }

  /** No slot is written while it holds an unread item or is being read. */
  lemma NoRace<T>(tr: seq<State<T>>, ls: seq<Label<T>>, i: nat, p: nat)
    requires IsRun(tr, ls) && SerialRun(tr) && i < |tr| && Pc(tr[i], p).Writing?
    ensures tr[i].buf != []
    ensures forall n :: |tr[i].popped| <= n < |tr[i].pushed| ==> n % |tr[i].buf| != Pc(tr[i], p).tail
    ensures !tr[i].consumer.Waiting? && !tr[i].consumer.HeadLoaded? ==> tr[i].consumer.head != Pc(tr[i], p).tail
  {
    InvAlways(tr, ls, i);
    var s := tr[i];
    assert ProducerInv(s, p);
    forall n | |s.popped| <= n < |s.pushed| ensures n % |s.buf| != Pc(s, p).tail {
      ModDistinct(n, |s.pushed|, |s.buf|);
    }
  }

  /** Push fails exactly when capacity - 1 items are live for the head value it loaded, Pop exactly when
      none is for the tail value it loaded; with the current values these are the numbers actually held. */
  lemma ExactTests<T>(tr: seq<State<T>>, ls: seq<Label<T>>, i: nat)
    requires IsRun(tr, ls) && SerialRun(tr) && i < |ls| && StepAt(tr, ls, i)
    ensures ls[i].PushCheck? ==>
              (Pc(tr[i + 1], ls[i].p).Ready? <==> |tr[i].pushed| - ls[i].seen == |tr[i].buf| - 1)
    ensures ls[i].PushCheck? && ls[i].seen == |tr[i].popped| ==>
              (Pc(tr[i + 1], ls[i].p).Ready? <==> |Live(tr[i])| == |tr[i].buf| - 1)
    ensures ls[i].PopCheck? ==> (tr[i + 1].consumer.Waiting? <==> ls[i].seen == |tr[i].popped|)
    ensures ls[i].PopCheck? && ls[i].seen == |tr[i].pushed| ==> (tr[i + 1].consumer.Waiting? <==> Live(tr[i]) == [])
  {
    InvAlways(tr, ls, i);
    Fifo(tr, ls, i);
    var s, l := tr[i], ls[i];
    assert |s.popped + Live(s)| == |s.popped| + |Live(s)|;
    if l.PushCheck? {
      assert ProducerInv(s, l.p);
      FullTest(|s.pushed|, l.seen, |s.buf|);
    }
    if l.PopCheck? {
      EmptyTest(|s.popped|, l.seen, |s.buf|);
    }
  }

  /** Nothing once pushed or popped is ever revised. */
  lemma {:induction false} HistoryGrows<T>(tr: seq<State<T>>, ls: seq<Label<T>>, i: nat, j: nat)
    requires IsRun(tr, ls) && i <= j < |tr|
    ensures tr[i].pushed <= tr[j].pushed && tr[i].popped <= tr[j].popped
    decreases j
  {
    if i < j {
      HistoryGrows(tr, ls, i, j - 1);
      assert StepAt(tr, ls, j - 1);
    }
  }

  // ---- why pushes must not overlap ----

  lemma Extend<T>(tr: seq<State<T>>, ls: seq<Label<T>>, l: Label<T>) returns (tr': seq<State<T>>, ls': seq<Label<T>>)
    requires IsRun(tr, ls) && Enabled(tr[|ls|], l)
    ensures IsRun(tr', ls') && tr <= tr' && ls <= ls' && tr'[|ls'|] == Next(tr[|ls|], l)
  {
    tr', ls' := tr + [Next(tr[|ls|], l)], ls + [l];
    forall i | 0 <= i < |ls'| ensures StepAt(tr', ls', i) {
      if i < |ls| {
        assert StepAt(tr, ls, i);
        assert tr'[i] == tr[i] && ls'[i] == ls[i] && tr'[i + 1] == tr[i + 1];
      }
    }
  }

  /** Producer `p` has gone from its check, with the current head, to its store; it had loaded `tail`. */
  function AfterPush<T>(s: State<T>, p: nat, item: T, tail: nat): State<T>
    requires tail < |s.buf| && s.heads != []
  {
    s.(buf := s.buf[tail := item], tails := s.tails + [(tail + 1) % |s.buf|], headView := |s.heads| - 1,
       producers := s.producers[p := Ready], pushed := s.pushed + [item])
  }

  ghost predicate CanPush<T>(s: State<T>, p: nat, item: T, tail: nat) {
    && s.heads != [] && s.tails != [] && s.headView < |s.heads| && tail < |s.buf|
    && Pc(s, p) == TailLoaded(item, tail) && (tail + 1) % |s.buf| != s.heads[|s.heads| - 1]
  }

  lemma FinishPush<T>(tr: seq<State<T>>, ls: seq<Label<T>>, p: nat, item: T, tail: nat)
    returns (tr': seq<State<T>>, ls': seq<Label<T>>)
    requires IsRun(tr, ls) && CanPush(tr[|ls|], p, item, tail)
    ensures IsRun(tr', ls') && tr <= tr' && ls <= ls' && tr'[|ls'|] == AfterPush(tr[|ls|], p, item, tail)
  {
    var s := tr[|ls|];
    tr', ls' := Extend(tr, ls, PushCheck(p, |s.heads| - 1));
    tr', ls' := Extend(tr', ls', WriteBegin(p, item));
    tr', ls' := Extend(tr', ls', WriteEnd(p));
    tr', ls' := Extend(tr', ls', PushStore(p));
    var u := tr'[|ls'|];
    assert u.producers == s.producers[p := Ready];
    assert u.buf == s.buf[tail := item];
  }

  /** Fewer than capacity - 1 items are held. */
  ghost predicate HasRoom<T>(s: State<T>) {
    |s.pushed| - |s.popped| < |s.buf| - 1
  }

  /** The state with one more item, as a single push would leave the shared part. */
  function OneMore<T>(s: State<T>, item: T): State<T>
    requires s.buf != []
  {
    s.(buf := s.buf[|s.pushed| % |s.buf| := item], tails := s.tails + [(|s.pushed| + 1) % |s.buf|],
       headView := |s.popped|, pushed := s.pushed + [item])
  }

  lemma OneMoreShared<T>(s: State<T>, item: T)
    requires Shared(s) && HasRoom(s)
    ensures Shared(OneMore(s, item))
  {
    var u, t, c := OneMore(s, item), |s.pushed|, |s.buf|;
    WriteKeepsStored(s.(headView := |s.popped|), item);
    assert u.pushed[..|s.popped|] == s.pushed[..|s.popped|];
    forall i | |u.popped| <= i < |u.pushed| ensures u.buf[i % c] == u.pushed[i] {
      if i < t {
        assert s.buf[t % c := item][i % c] == s.pushed[i];
      }
    }
  }

  lemma SameLive<T>(u: State<T>, v: State<T>)
    requires u.buf == v.buf != [] && u.heads == v.heads != [] && u.tails != [] && v.tails != []
    requires u.tails[|u.tails| - 1] == v.tails[|v.tails| - 1]
    ensures Live(u) == Live(v)
  {}

  /** Two producers load the same tail and run to their stores one after the other. */
  lemma BothStored<T>(s: State<T>, p: nat, q: nat, x: T, y: T, tail: nat)
    requires Shared(s) && HasRoom(s) && p != q && tail == |s.pushed| % |s.buf|
    ensures var v := AfterPush(AfterPush(s, p, x, tail), q, y, tail);
            v.pushed == s.pushed + [x, y] && v.popped == s.popped && v.popped + Live(v) == s.pushed + [y]
  {
    var v, u := AfterPush(AfterPush(s, p, x, tail), q, y, tail), OneMore(s, y);
    OneMoreShared(s, y);
    LiveIsUnread(u);
    ModAdd(|s.pushed|, 1, |s.buf|);
    assert v.buf == u.buf;
    SameLive(u, v);
    assert v.pushed == s.pushed + [x, y];
  }

  lemma BothLoad<T>(tr: seq<State<T>>, ls: seq<Label<T>>, p: nat, q: nat, x: T, y: T)
    returns (tr': seq<State<T>>, ls': seq<Label<T>>)
    requires IsRun(tr, ls) && p != q && Pc(tr[|ls|], p).Ready? && Pc(tr[|ls|], q).Ready?
    requires Shared(tr[|ls|]) && HasRoom(tr[|ls|])
    ensures IsRun(tr', ls') && tr <= tr' && ls <= ls' && Shared(tr'[|ls'|]) && HasRoom(tr'[|ls'|])
    ensures var s, u := tr[|ls|], tr'[|ls'|];
            var tail := |s.pushed| % |s.buf|;
            && u == s.(producers := u.producers)
            && CanPush(u, p, x, tail) && CanPush(AfterPush(u, p, x, tail), q, y, tail)
  {
    var s := tr[|ls|];
    FullTest(|s.pushed|, |s.popped|, |s.buf|);
    tr', ls' := Extend(tr, ls, PushBegin(p, x));
    tr', ls' := Extend(tr', ls', PushBegin(q, y));
  }

  /** From every state of a serial run with room for an item, for any capacity, any two producers outside Push and any
      two items, overlapping pushes lose one: both succeed, and the buffer gains the second item only. */
  lemma OverlappingPushesLoseAnItem<T>(tr: seq<State<T>>, ls: seq<Label<T>>, p: nat, q: nat, x: T, y: T)
    returns (tr': seq<State<T>>, ls': seq<Label<T>>)
    requires IsRun(tr, ls) && SerialRun(tr) && HasRoom(tr[|ls|])
    requires p != q && Pc(tr[|ls|], p).Ready? && Pc(tr[|ls|], q).Ready?
    ensures IsRun(tr', ls') && tr <= tr' && ls <= ls'
    ensures var s, v := tr[|ls|], tr'[|ls'|];
            && v.buf != [] && v.heads != [] && v.tails != []
            && v.pushed == s.pushed + [x, y] && v.popped == s.popped
            && v.popped + Live(v) == s.pushed + [y] != v.pushed
  {
    InvAlways(tr, ls, |ls|);
    var s := tr[|ls|];
    var tail := |s.pushed| % |s.buf|;
    tr', ls' := BothLoad(tr, ls, p, q, x, y);
    BothStored(tr'[|ls'|], p, q, x, y, tail);
    tr', ls' := FinishPush(tr', ls', p, x, tail);
    tr', ls' := FinishPush(tr', ls', q, y, tail);
    assert |s.pushed + [y]| != |s.pushed + [x, y]|;
  }
}
