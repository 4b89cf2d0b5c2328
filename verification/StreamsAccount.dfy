/** Live streams, seen one at a time. */
module StreamsAccount {
  import opened Schema
  import opened Streams

  // How a stream comes about, what a client is sent on it, and when it ends, told of packages/server/src/subscribe.ts
  // stream by stream: without its functions, from the events alone.

  // ---- what one event does to one open stream ----

  /** A read that ends the stream: one that cannot be told, or one error too many in a row. */
  predicate Fatal(c: Config, x: Stream, o: ReadOutcome) {
    o.BadFrame? || ((o.Rejected? || o.Unconvertible?) && Run(x.history + [o]) >= c.maxConsecutiveErrors)
  }

  ghost predicate Closes(c: Config, s: State, id: nat, e: Event)
    requires id < |s.streams|
  {
    var x := s.streams[id];
    match e
    case Subscribes(q) => q.token == x.token && Welcome(c, s, q)
    case TimerFires(k, now, known, _) => k == id && (now - x.startedAt >= c.maxDurationMs || !known)
    case ReadEnds(k, o, _) => k == id && (Fatal(c, x, o) || x.gone)
    case KeepaliveFires(k, now) => k == id && x.gone && now - x.lastWrite >= c.keepaliveMs
    case Aborts(k) => k == id
    case Cancels(k) => k == id
    case ConsumerGone(_) => false
    case ShutsDown => true
  }

  /** What a read is worth telling. */
  function DataOf(o: ReadOutcome): seq<Frame> {
    match o
    case Good => [Snapshot]
    case BadFrame => []
    case _ => [ErrorFrame]
  }

  ghost function Says(c: Config, s: State, id: nat, e: Event): seq<Frame>
    requires id < |s.streams|
  {
    var x := s.streams[id];
    if x.gone then []
    else
      match e
      case Subscribes(_) => if Closes(c, s, id, e) then [Closed(Replaced)] else []
      case TimerFires(_, _, _, _) => if Closes(c, s, id, e) then [Closed(Expired)] else []
      case ReadEnds(k, o, _) =>
        if k != id then []
        else DataOf(o) + if Fatal(c, x, o) then [Closed(Failed)] else []
      case KeepaliveFires(k, now) => if k == id && now - x.lastWrite >= c.keepaliveMs then [KeepAlive] else []
      case ShutsDown => [Closed(ShutDown)]
      case _ => []
  }

  /** What an open stream waits for afterwards, if it is still open. */
  ghost predicate WaitsFor(c: Config, id: nat, e: Event, x: Stream, y: Stream) {
    match e
    case TimerFires(k, now, _, full) =>
      if k != id then SameWait(x, y)
      else if full then AwaitsTimer(x, y, now, x.lastWrite)
      else y.timer == None && y.reading == Some(now) && y.readCount == x.readCount + 1 && y.lastWrite == x.lastWrite
    case ReadEnds(k, _, now) => if k != id then SameWait(x, y) else AwaitsTimer(x, y, now, now)
    case KeepaliveFires(k, now) =>
      if k == id && now - x.lastWrite >= c.keepaliveMs then SameWait(x.(lastWrite := now), y) else SameWait(x, y)
    case _ => SameWait(x, y)
  }

  ghost predicate AwaitsTimer(x: Stream, y: Stream, now: real, wrote: real) {
    && y.timer == Some(now + x.intervalMs as real) && y.reading == None
    && y.readCount == x.readCount && y.lastWrite == wrote
  }

  ghost predicate SameWait(x: Stream, y: Stream) {
    y.timer == x.timer && y.reading == x.reading && y.readCount == x.readCount && y.lastWrite == x.lastWrite
  }

  ghost predicate SameRequest(x: Stream, y: Stream) {
    y.token == x.token && y.identity == x.identity && y.startedAt == x.startedAt && y.intervalMs == x.intervalMs
  }

  function Learned(id: nat, e: Event): seq<ReadOutcome> {
    match e
    case ReadEnds(k, o, _) => if k == id then [o] else []
    case _ => []
  }

  /** x, an open stream, has become y. */
  ghost predicate Becomes(c: Config, s: State, id: nat, e: Event, y: Stream)
    requires id < |s.streams|
  {
    var x := s.streams[id];
    && SameRequest(x, y)
    && (y.closed <==> Closes(c, s, id, e))
    && y.frames == x.frames + Says(c, s, id, e)
    && y.history == x.history + Learned(id, e)
    && (!y.closed ==> WaitsFor(c, id, e, x, y))
    && (x.gone ==> y.gone)
  }

  lemma {:induction false} StoppedEach(s: State, k: nat, id: nat)
    requires k <= |s.streams| && id < |s.streams|
    ensures id < |StopFrom(s, k).streams|
    ensures StopFrom(s, k).streams[id] ==
            if id < k || s.streams[id].closed then s.streams[id] else CloseStream(s.streams[id], Some(ShutDown))
    decreases |s.streams| - k
  {
    if k < |s.streams| { StoppedEach(Finish(s, k, Some(ShutDown)), k + 1, id); }
  }

  lemma SubscribeOnOne(c: Config, s: State, q: Request, id: nat)
    requires Inv(s, c) && id < |s.streams| && !s.streams[id].closed
    ensures var t := Subscribe(c, s, q).0; id < |t.streams| && Becomes(c, s, id, Subscribes(q), t.streams[id])
  {
    SubscribeAnswers(c, s, q);
    if Welcome(c, s, q) {
      StartAddsOne(c, s, q);
      TakeOnOne(s, c, Asked(q), id);
      ReplacedBecomes(c, s, q, id);
    } else {
      SameBecomes(c, s, Subscribes(q), id);
    }
  }

  lemma ReplacedBecomes(c: Config, s: State, q: Request, id: nat)
    requires id < |s.streams| && !s.streams[id].closed && Welcome(c, s, q)
    ensures var x := s.streams[id];
            Becomes(c, s, id, Subscribes(q), if x.token == q.token then CloseStream(x, Some(Replaced)) else x)
  {
  }

  lemma SameBecomes(c: Config, s: State, e: Event, id: nat)
    requires id < |s.streams| && !s.streams[id].closed
    requires match e case Subscribes(q) => !Welcome(c, s, q) case ShutsDown => false case _ => !About(e, id)
    ensures Becomes(c, s, id, e, s.streams[id])
  {
  }

  lemma TakeOnOne(s: State, c: Config, x: Stream, id: nat)
    requires Inv(s, c) && id < |s.streams| && !s.streams[id].closed
    ensures var t := Take(Add(s, x), x.token, |s.streams|);
            id < |t.streams| && t.streams[id] ==
              if s.streams[id].token == x.token then CloseStream(s.streams[id], Some(Replaced)) else s.streams[id]
  {
    assert s.streams[id].token in s.live && s.live[s.streams[id].token] == id;
    DisplaceCommutes(s, c, x);
  }

  lemma TimerOnOne(c: Config, s: State, k: nat, now: real, known: bool, full: bool, id: nat)
    requires Inv(s, c) && id < |s.streams| && !s.streams[id].closed && k < |s.streams| && s.streams[k].timer.Some?
    ensures var t := Tick(c, Disarm(s, k), k, now, known, full);
            id < |t.streams| && Becomes(c, s, id, TimerFires(k, now, known, full), t.streams[id])
  {
    TickIsLocal(c, Disarm(s, k), k, now, known, full);
    assert GoodStream(s.streams[id], c);
    if k != id { SameBecomes(c, s, TimerFires(k, now, known, full), id); }
  }

  // The end of a read, for one stream.

  function Ended(x: Stream, reason: Option<Reason>): Stream {
    if x.closed then x else CloseStream(x, reason)
  }

  function Wrote(x: Stream, frame: Frame, now: real): Stream {
    if x.closed then x
    else if x.gone then CloseStream(x, None) else x.(frames := x.frames + [frame], lastWrite := now)
  }

  function Armed(x: Stream, now: real): Stream {
    if x.closed then x else x.(timer := Some(now + x.intervalMs as real))
  }

  lemma WroteIs(s: State, id: nat, frame: Frame, now: real)
    requires id < |s.streams|
    ensures var t := Write(s, id, frame, now);
            |t.streams| == |s.streams| && t.streams[id] == Wrote(s.streams[id], frame, now)
  {
  }

  lemma ArmedIs(s: State, id: nat, now: real)
    requires id < |s.streams|
    ensures Schedule(s, id, now).streams[id] == Armed(s.streams[id], now)
  {
  }

  lemma EndedIs(s: State, id: nat, reason: Option<Reason>)
    requires id < |s.streams|
    ensures Finish(s, id, reason).streams[id] == Ended(s.streams[id], reason)
  {
  }

  lemma GoodReadOnOne(c: Config, s: State, now: real, id: nat)
    requires Inv(s, c) && id < |s.streams| && !s.streams[id].closed && s.streams[id].reading.Some?
    ensures Becomes(c, s, id, ReadEnds(id, Good, now), Resume(c, s, id, Good, now).streams[id])
  {
    var t := Settled(s, id, Good);
    assert GoodStream(s.streams[id], c);
    WroteIs(t, id, Snapshot, now);
    ArmedIs(Write(t, id, Snapshot, now), id, now);
  }

  lemma BadReadOnOne(c: Config, s: State, now: real, id: nat)
    requires Inv(s, c) && id < |s.streams| && !s.streams[id].closed && s.streams[id].reading.Some?
    ensures Becomes(c, s, id, ReadEnds(id, BadFrame, now), Resume(c, s, id, BadFrame, now).streams[id])
  {
    EndedIs(Settled(s, id, BadFrame), id, Some(Failed));
  }

  lemma ErrorOnOne(c: Config, s: State, o: ReadOutcome, now: real, id: nat)
    requires Inv(s, c) && id < |s.streams| && !s.streams[id].closed && s.streams[id].reading.Some?
    requires o.Rejected? || o.Unconvertible?
    ensures Becomes(c, s, id, ReadEnds(id, o, now), Resume(c, s, id, o, now).streams[id])
  {
    var t := Settled(s, id, o);
    assert GoodStream(s.streams[id], c);
    RunOf(s.streams[id].history, o);
    WroteIs(t, id, ErrorFrame, now);
    ArmedIs(Write(t, id, ErrorFrame, now), id, now);
    EndedIs(Write(t, id, ErrorFrame, now), id, Some(Failed));
    ErrorTold(c, s.streams[id], o, now);
  }

  lemma ErrorTold(c: Config, x: Stream, o: ReadOutcome, now: real)
    requires !x.closed
    ensures (x.frames + [ErrorFrame]) + [Closed(Failed)] == x.frames + ([ErrorFrame] + [Closed(Failed)])
    ensures [ErrorFrame] + [] == [ErrorFrame]
  {
  }

  lemma ReadOnOne(c: Config, s: State, k: nat, o: ReadOutcome, now: real, id: nat)
    requires Inv(s, c) && id < |s.streams| && !s.streams[id].closed && k < |s.streams| && s.streams[k].reading.Some?
    ensures var t := Resume(c, s, k, o, now);
            id < |t.streams| && Becomes(c, s, id, ReadEnds(k, o, now), t.streams[id])
  {
    ResumeIsLocal(c, s, k, o, now);
    if k != id {
      SameBecomes(c, s, ReadEnds(k, o, now), id);
    } else {
      match o {
        case Good => GoodReadOnOne(c, s, now, id);
        case BadFrame => BadReadOnOne(c, s, now, id);
        case _ => ErrorOnOne(c, s, o, now, id);
      }
    }
  }

  lemma KeepaliveOnOne(c: Config, s: State, k: nat, now: real, id: nat)
    requires id < |s.streams| && !s.streams[id].closed && k < |s.streams|
    ensures var t := KeepaliveTick(c, s, k, now);
            id < |t.streams| && Becomes(c, s, id, KeepaliveFires(k, now), t.streams[id])
  {
    if k != id { SameBecomes(c, s, KeepaliveFires(k, now), id); } else { WroteIs(s, id, KeepAlive, now); }
  }

  lemma LeavingOnOne(c: Config, s: State, k: nat, id: nat)
    requires id < |s.streams| && !s.streams[id].closed && k < |s.streams|
    ensures id < |Finish(s, k, None).streams| && Becomes(c, s, id, Aborts(k), Finish(s, k, None).streams[id])
    ensures var t := Finish(MarkGone(s, k), k, None);
            id < |t.streams| && Becomes(c, s, id, Cancels(k), t.streams[id])
    ensures Becomes(c, s, id, ConsumerGone(k), MarkGone(s, k).streams[id])
  {
    if k != id {
      SameBecomes(c, s, Aborts(k), id);
      SameBecomes(c, s, Cancels(k), id);
      SameBecomes(c, s, ConsumerGone(k), id);
      FinishIsLocal(s, k, None);
      FinishIsLocal(MarkGone(s, k), k, None);
    } else {
      EndedIs(s, id, None);
      EndedIs(MarkGone(s, id), id, None);
    }
  }

  lemma ShutdownOnOne(c: Config, s: State, id: nat)
    requires id < |s.streams| && !s.streams[id].closed
    ensures id < |ShutdownAll(s).streams| && Becomes(c, s, id, ShutsDown, ShutdownAll(s).streams[id])
  {
    StoppedEach(s, 0, id);
  }

  /** One event, and any stream that is open when it happens. */
  lemma StepOnOne(c: Config, s: State, e: Event, t: State, id: nat)
    requires Inv(s, c) && Step(c, s, e, t) && id < |s.streams| && !s.streams[id].closed
    ensures id < |t.streams| && Becomes(c, s, id, e, t.streams[id])
  {
    match e {
      case Subscribes(q) => SubscribeOnOne(c, s, q, id);
      case TimerFires(k, now, known, full) => TimerOnOne(c, s, k, now, known, full, id);
      case ReadEnds(k, o, now) => ReadOnOne(c, s, k, o, now, id);
      case KeepaliveFires(k, now) => KeepaliveOnOne(c, s, k, now, id);
      case Aborts(k) => LeavingOnOne(c, s, k, id);
      case Cancels(k) => LeavingOnOne(c, s, k, id);
      case ConsumerGone(k) => LeavingOnOne(c, s, k, id);
      case ShutsDown => ShutdownOnOne(c, s, id);
    }
  }

  // ---- a new stream ----

  /** What a stream is when the request that opened it has been answered. */
  ghost predicate BornOf(c: Config, q: Request, y: Stream) {
    && y.token == q.token && y.identity == q.identity && y.startedAt == q.startedAt && y.intervalMs == q.intervalMs
    && y.history == [] && !y.gone
    && (y.closed <==> q.aborted || q.now - q.startedAt >= c.maxDurationMs || !q.known)
    && y.frames == (if q.aborted then [] else if y.closed then [Opening, Closed(Expired)] else [Opening])
    && (!y.closed ==> y.timer == None && y.reading == Some(q.now) && y.readCount == 1 && y.lastWrite == q.now)
  }

  /** A request opens at most one stream, its own; nothing else opens any. */
  lemma StepOpens(c: Config, s: State, e: Event, t: State)
    requires Inv(s, c) && Step(c, s, e, t)
    ensures if e.Subscribes? && Welcome(c, s, e.q)
            then |t.streams| == |s.streams| + 1 && BornOf(c, e.q, t.streams[|s.streams|])
            else |t.streams| == |s.streams|
  {
    match e {
      case Subscribes(q) =>
        SubscribeAnswers(c, s, q);
        if Welcome(c, s, q) { BornAsAsked(c, s, q); }
      case TimerFires(k, now, known, full) => TickIsLocal(c, Disarm(s, k), k, now, known, full);
      case ReadEnds(k, o, now) => ResumeIsLocal(c, s, k, o, now);
      case ShutsDown => StopFromCloses(s, 0);
      case _ =>
    }
  }

  lemma BornAsAsked(c: Config, s: State, q: Request)
    requires Inv(s, c) && Subscribe(c, s, q).1.Opened?
    ensures |Subscribe(c, s, q).0.streams| == |s.streams| + 1
    ensures BornOf(c, q, Subscribe(c, s, q).0.streams[|s.streams|])
  {
    StartAddsOne(c, s, q);
    TakeKeeps(s, c, Asked(q));
    StartsOne(c, Take(Add(s, Asked(q)), q.token, |s.streams|), q, |s.streams|);
  }

  lemma StartsOne(c: Config, t: State, q: Request, id: nat)
    requires id < |t.streams| && t.streams[id] == Asked(q)
    ensures q.aborted ==> BornOf(c, q, Finish(t, id, None).streams[id])
    ensures !q.aborted ==>
              BornOf(c, q, Tick(c, Keepalive(Write(t, id, Opening, q.now), id), id, q.now, q.known, false).streams[id])
  {
    EndedIs(t, id, None);
    WroteIs(t, id, Opening, q.now);
    EndedIs(Keepalive(Write(t, id, Opening, q.now), id), id, Some(Expired));
    assert [] + [Opening] == [Opening] && [Opening] + [Closed(Expired)] == [Opening, Closed(Expired)];
  }

  /** Stream id was opened by one of the first k events: a request for its token by its identity, to whom the
      token belongs, made when there was room. */
  ghost predicate OpenedBy(r: Trace, c: Config, k: int, x: Stream, id: int, j: int) {
    && |r.states| == |r.events| + 1 && 0 <= j < k <= |r.events|
    && r.events[j].Subscribes? && |r.states[j].streams| == id
    && var q := r.events[j].q;
       && q.token == x.token && q.identity == x.identity && q.owner == Some(x.identity)
       && q.startedAt == x.startedAt && q.intervalMs == x.intervalMs && Welcome(c, r.states[j], q)
  }

  /** A closed stream, and the one event that may be about it. */
  lemma ClosedStays(c: Config, s: State, e: Event, t: State, id: nat)
    requires Inv(s, c) && Step(c, s, e, t) && id < |s.streams| && s.streams[id].closed
    ensures id < |t.streams| && Leaves(s.streams[id], t.streams[id])
  {
    match e {
      case Subscribes(q) => SubscribeKeepsFinal(c, s, q, id);
      case TimerFires(k, now, known, full) =>
        assert GoodStream(s.streams[id], c);
        TickIsLocal(c, Disarm(s, k), k, now, known, full);
      case ReadEnds(k, o, now) => ResumeIsLocal(c, s, k, o, now);
      case KeepaliveFires(k, now) => assert GoodStream(s.streams[id], c);
      case Aborts(k) => FinishIsLocal(s, k, None);
      case Cancels(k) => FinishIsLocal(MarkGone(s, k), k, None);
      case ConsumerGone(k) =>
      case ShutsDown => StopFromKeepsFinal(s, 0, id);
    }
  }

  /** Nothing but who is there and what is awaited can change. */
  ghost predicate Leaves(x: Stream, y: Stream) {
    SameRequest(x, y) && y.closed && y.frames == x.frames && y.history == x.history && (x.gone ==> y.gone)
  }

  lemma {:induction false} EveryStreamWasAskedFor(r: Trace, c: Config, k: nat, id: nat)
    requires IsTrace(r, c) && k <= |r.events| && id < |r.states[k].streams|
    ensures exists j :: OpenedBy(r, c, k, r.states[k].streams[id], id, j)
    decreases k
  {
    if k > 0 {
      EventOpens(r, c, k - 1);
      if id < |r.states[k - 1].streams| {
        EveryStreamWasAskedFor(r, c, k - 1, id);
        var j :| OpenedBy(r, c, k - 1, r.states[k - 1].streams[id], id, j);
        EventKeepsRequest(r, c, k - 1, id);
        assert OpenedBy(r, c, k, r.states[k].streams[id], id, j);
      } else {
        assert OpenedBy(r, c, k, r.states[k].streams[id], id, k - 1);
      }
    }
  }

  lemma EventOpens(r: Trace, c: Config, k: nat)
    requires IsTrace(r, c) && k < |r.events|
    ensures var s, e, t := r.states[k], r.events[k], r.states[k + 1];
            if e.Subscribes? && Welcome(c, s, e.q)
            then |t.streams| == |s.streams| + 1 && BornOf(c, e.q, t.streams[|s.streams|])
            else |t.streams| == |s.streams|
  {
    EveryInterleaving(r, c, k);
    assert Happens(r, c, k);
    StepOpens(c, r.states[k], r.events[k], r.states[k + 1]);
  }

  lemma EventKeepsRequest(r: Trace, c: Config, k: nat, id: nat)
    requires IsTrace(r, c) && k < |r.events| && id < |r.states[k].streams|
    ensures id < |r.states[k + 1].streams| && SameRequest(r.states[k].streams[id], r.states[k + 1].streams[id])
  {
    EveryInterleaving(r, c, k);
    assert Happens(r, c, k);
    StepKeepsRequest(c, r.states[k], r.events[k], r.states[k + 1], id);
  }

  lemma StepKeepsRequest(c: Config, s: State, e: Event, t: State, id: nat)
    requires Inv(s, c) && Step(c, s, e, t) && id < |s.streams|
    ensures id < |t.streams| && SameRequest(s.streams[id], t.streams[id])
  {
    if s.streams[id].closed { ClosedStays(c, s, e, t, id); } else { StepOnOne(c, s, e, t, id); }
  }

  /** In every reachable state no more streams are open than are allowed in all, or to one identity. */
  lemma OpenStreamsAreCapped(r: Trace, c: Config, k: nat, identity: string)
    requires IsTrace(r, c) && k <= |r.events|
    ensures |OpenIds(r.states[k])| <= c.maxTotal && |OpenIdsOf(r.states[k], identity)| <= c.maxPerIdentity
  {
    EveryInterleaving(r, c, k);
    OpenAreLive(r.states[k], c, identity);
  }

  // ---- what a client is sent ----

  /** The data among the frames: snapshots and errors. */
  function Told(frames: seq<Frame>): seq<Frame> {
    if frames == [] then []
    else (if frames[0].Snapshot? || frames[0].ErrorFrame? then [frames[0]] else []) + Told(frames[1..])
  }

  /** What the reads were worth telling, one after the other. */
  function Owed(history: seq<ReadOutcome>): seq<Frame> {
    if history == [] then [] else DataOf(history[0]) + Owed(history[1..])
  }

  ghost predicate OpensOnce(frames: seq<Frame>) {
    forall i | 0 <= i < |frames| :: frames[i].Opening? <==> i == 0
  }

  /** A client that is there has been told of every read that ended, in order; one that has left, of the first
      of them. Whoever was sent anything was sent the opening first. */
  ghost predicate Accounted(x: Stream) {
    && Told(x.frames) <= Owed(x.history)
    && (!x.gone ==> Told(x.frames) == Owed(x.history))
    && OpensOnce(x.frames)
    && (x.frames == [] ==> x.closed)
    && (!x.closed ==> |x.history| + (if x.reading.Some? then 1 else 0) == x.readCount)
  }

  lemma {:induction false} ToldTogether(a: seq<Frame>, b: seq<Frame>)
    ensures Told(a + b) == Told(a) + Told(b)
  {
    if a == [] {
      assert a + b == b;
    } else {
      ToldTogether(a[1..], b);
      OneOff(a, b);
      Regroup(if a[0].Snapshot? || a[0].ErrorFrame? then [a[0]] else [], Told(a[1..]), Told(b));
    }
  }

  lemma OneOff<T>(a: seq<T>, b: seq<T>)
    requires a != []
    ensures a + b != [] && (a + b)[0] == a[0] && (a + b)[1..] == a[1..] + b
  {
  }

  lemma Regroup<T>(a: seq<T>, b: seq<T>, c: seq<T>)
    ensures a + (b + c) == a + b + c
  {
  }

  lemma {:induction false} OwedTogether(a: seq<ReadOutcome>, b: seq<ReadOutcome>)
    ensures Owed(a + b) == Owed(a) + Owed(b)
  {
    if a == [] {
      assert a + b == b;
    } else {
      OwedTogether(a[1..], b);
      OneOff(a, b);
      Regroup(DataOf(a[0]), Owed(a[1..]), Owed(b));
    }
  }

  lemma ToldOne(f: Frame)
    ensures Told([f]) == if f.Snapshot? || f.ErrorFrame? then [f] else []
  {
    assert [f][1..] == [];
  }

  lemma OwedOne(o: ReadOutcome)
    ensures Owed([o]) == DataOf(o) == Told(DataOf(o)) && NoOpening(DataOf(o))
  {
    assert [o][1..] == [];
    ToldOne(Snapshot);
    ToldOne(ErrorFrame);
  }

  /** What is said of a read is what is owed for it, to a client that is there. */
  lemma SaidIsOwed(c: Config, s: State, id: nat, e: Event)
    requires id < |s.streams|
    ensures Told(Says(c, s, id, e)) == if s.streams[id].gone then [] else Owed(Learned(id, e))
    ensures NoOpening(Says(c, s, id, e))
  {
    match e
    case Subscribes(_) => ToldOne(Closed(Replaced));
    case TimerFires(_, _, _, _) => ToldOne(Closed(Expired));
    case ReadEnds(k, o, _) => if k == id { ReadSaid(c, s.streams[id], o); }
    case KeepaliveFires(_, _) => ToldOne(KeepAlive);
    case ShutsDown => ToldOne(Closed(ShutDown));
    case _ =>
  }

  ghost predicate NoOpening(frames: seq<Frame>) {
    forall i | 0 <= i < |frames| :: !frames[i].Opening?
  }

  lemma ReadSaid(c: Config, x: Stream, o: ReadOutcome)
    ensures var said := DataOf(o) + if Fatal(c, x, o) then [Closed(Failed)] else [];
            Told(said) == Owed([o]) && NoOpening(said)
  {
    var last := if Fatal(c, x, o) then [Closed(Failed)] else [];
    OwedOne(o);
    ToldOne(Closed(Failed));
    ToldTogether(DataOf(o), last);
    assert Told(last) == [] && Told(DataOf(o)) + [] == Told(DataOf(o));
  }

  lemma StepAccounts(c: Config, s: State, e: Event, t: State, id: nat)
    requires Inv(s, c) && Step(c, s, e, t) && id < |s.streams| && Accounted(s.streams[id])
    ensures id < |t.streams| && Accounted(t.streams[id])
  {
    if s.streams[id].closed {
      ClosedStays(c, s, e, t, id);
    } else {
      StepOnOne(c, s, e, t, id);
      assert GoodStream(s.streams[id], c);
      OpenAccounts(c, s, e, t.streams[id], id);
    }
  }

  lemma OpenAccounts(c: Config, s: State, e: Event, y: Stream, id: nat)
    requires id < |s.streams| && Enabled(s, e) && Accounted(s.streams[id]) && OpenStream(s.streams[id], c)
    requires Becomes(c, s, id, e, y)
    ensures Accounted(y)
  {
    SaidIsOwed(c, s, id, e);
    FramesAccount(s.streams[id], y, Says(c, s, id, e), Learned(id, e));
    ReadsAccount(c, s, e, y, id);
  }

  lemma FramesAccount(x: Stream, y: Stream, said: seq<Frame>, learned: seq<ReadOutcome>)
    requires Accounted(x) && !x.closed && |learned| <= 1 && NoOpening(said)
    requires y.frames == x.frames + said && y.history == x.history + learned && (x.gone ==> y.gone)
    requires Told(said) == if x.gone then [] else Owed(learned)
    ensures Told(y.frames) <= Owed(y.history) && (!y.gone ==> Told(y.frames) == Owed(y.history))
    ensures OpensOnce(y.frames) && y.frames != []
  {
    ToldTogether(x.frames, said);
    OwedTogether(x.history, learned);
    assert y.frames[0] == x.frames[0];
    Prefixes(Told(x.frames), Owed(x.history), Told(said), Owed(learned));
  }

  lemma Prefixes(a: seq<Frame>, b: seq<Frame>, more: seq<Frame>, owed: seq<Frame>)
    requires a <= b && (more == [] || (a == b && more == owed))
    ensures a + more <= b + owed
  {
    assert a + [] == a;
  }

  lemma ReadsAccount(c: Config, s: State, e: Event, y: Stream, id: nat)
    requires id < |s.streams| && Enabled(s, e) && Accounted(s.streams[id]) && OpenStream(s.streams[id], c)
    requires Becomes(c, s, id, e, y)
    ensures !y.closed ==> |y.history| + (if y.reading.Some? then 1 else 0) == y.readCount
  {
  }

  /** In every reachable state every stream is accounted for. */
  lemma {:induction false} EveryStreamIsAccounted(r: Trace, c: Config, k: nat, id: nat)
    requires IsTrace(r, c) && k <= |r.events| && id < |r.states[k].streams|
    ensures Accounted(r.states[k].streams[id])
    decreases k
  {
    if k > 0 {
      EventOpens(r, c, k - 1);
      if id < |r.states[k - 1].streams| {
        EveryStreamIsAccounted(r, c, k - 1, id);
        EventAccounts(r, c, k - 1, id);
      } else {
        BornAccounted(c, r.events[k - 1].q, r.states[k].streams[id]);
      }
    }
  }

  lemma EventAccounts(r: Trace, c: Config, k: nat, id: nat)
    requires IsTrace(r, c) && k < |r.events| && id < |r.states[k].streams| && Accounted(r.states[k].streams[id])
    ensures id < |r.states[k + 1].streams| && Accounted(r.states[k + 1].streams[id])
  {
    EveryInterleaving(r, c, k);
    assert Happens(r, c, k);
    StepAccounts(c, r.states[k], r.events[k], r.states[k + 1], id);
  }

  lemma BornAccounted(c: Config, q: Request, y: Stream)
    requires BornOf(c, q, y)
    ensures Accounted(y)
  {
    assert [Opening][1..] == [] && [Opening, Closed(Expired)][1..] == [Closed(Expired)];
    ToldOne(Closed(Expired));
  }
}
