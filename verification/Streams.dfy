/** packages/server/src/subscribe.ts: live streams. */
module Streams {
  import opened Schema
  import opened Numbers

  // The registry of live streams and the timer/tick machine behind each of them. A step is what runs
  // between two awaits. A stream is named by the order in which it was started, which is also the order
  // of its handle in the registry's Map.

  datatype Config = Config(
    maxTotal: int,
    maxPerIdentity: int,
    maxConsecutiveErrors: int,
    maxDurationMs: real,
    keepaliveMs: real,
    minIntervalMs: real,
    maxIntervalMs: real,
    defaultIntervalMs: real)
  {
    ghost predicate Valid() {
      && maxTotal >= 1 && maxPerIdentity >= 1 && maxConsecutiveErrors >= 1
      && maxDurationMs > 0.0 && keepaliveMs > 0.0
      && 0.0 < minIntervalMs <= defaultIntervalMs <= maxIntervalMs
    }
  }

  datatype Reason = Expired | Replaced | ShutDown | Failed

  datatype Frame = Opening | KeepAlive | Snapshot | ErrorFrame | Closed(reason: Reason)

  /** How a read that was started can end: the source rejects it; it resolves but its rows do not
      convert; they convert but the protocol refuses the frame; or a snapshot goes out. */
  datatype ReadOutcome = Rejected | Unconvertible | BadFrame | Good

  /** The variables a subscription closes over. `gone` is the consumer having torn the body down, so
      that enqueueing throws. `readCount` and `history` only record what happened. */
  datatype Stream = Stream(
    token: string,
    identity: string,
    startedAt: real,
    intervalMs: int,
    closed: bool,
    timer: Option<real>,
    keepalive: bool,
    lastWrite: real,
    consecutiveErrors: int,
    reading: Option<real>,
    gone: bool,
    frames: seq<Frame>,
    readCount: int,
    history: seq<ReadOutcome>)

  datatype State = State(live: map<string, nat>, streams: seq<Stream>)

  const EMPTY := State(map[], [])

  // ---- pieces of a step ----

  function Put(s: State, id: nat, x: Stream): State
    requires id < |s.streams|
  {
    s.(streams := s.streams[id := x])
  }

  /** Only the handle that is registered may take the token off the registry. */
  function Release(s: State, token: string, id: nat): State {
    if token in s.live && s.live[token] == id then s.(live := s.live - {token}) else s
  }

  function CloseStream(x: Stream, reason: Option<Reason>): Stream {
    x.(frames := x.frames + if reason.Some? && !x.gone then [Closed(reason.value)] else [],
       closed := true, timer := None, keepalive := false)
  }

  function Finish(s: State, id: nat, reason: Option<Reason>): State
    requires id < |s.streams|
  {
    if s.streams[id].closed then s
    else Release(Put(s, id, CloseStream(s.streams[id], reason)), s.streams[id].token, id)
  }

  function Write(s: State, id: nat, frame: Frame, now: real): State
    requires id < |s.streams|
  {
    var x := s.streams[id];
    if x.closed then s
    else if x.gone then Finish(s, id, None)
    else Put(s, id, x.(frames := x.frames + [frame], lastWrite := now))
  }

  function Schedule(s: State, id: nat, now: real): State
    requires id < |s.streams|
  {
    var x := s.streams[id];
    if x.closed then s else Put(s, id, x.(timer := Some(now + x.intervalMs as real)))
  }

  function StartRead(s: State, id: nat, now: real): State
    requires id < |s.streams|
  {
    var x := s.streams[id];
    Put(s, id, x.(reading := Some(now), readCount := x.readCount + 1))
  }

  /** `tick` up to its await. `known` is whether the store still has the token, `full` whether the
      reader has stopped consuming. */
  function Tick(c: Config, s: State, id: nat, now: real, known: bool, full: bool): State
    requires id < |s.streams|
  {
    var x := s.streams[id];
    if x.closed then s
    else if now - x.startedAt >= c.maxDurationMs || !known then Finish(s, id, Some(Expired))
    else if full then Schedule(s, id, now)
    else StartRead(s, id, now)
  }

  function Disarm(s: State, id: nat): State
    requires id < |s.streams|
  {
    Put(s, id, s.streams[id].(timer := None))
  }

  /** The read has settled on a stream that is still open. */
  function Settled(s: State, id: nat, o: ReadOutcome): State
    requires id < |s.streams|
  {
    var x := s.streams[id];
    Put(s, id, x.(reading := None,
                  history := x.history + [o],
                  consecutiveErrors := match o
                                       case Rejected => x.consecutiveErrors + 1
                                       case Unconvertible => 1
                                       case _ => 0))
  }

  function Abandon(s: State, id: nat): State
    requires id < |s.streams|
  {
    Put(s, id, s.streams[id].(reading := None))
  }

  /** `tick` from its await to its end. */
  function Resume(c: Config, s: State, id: nat, o: ReadOutcome, now: real): State
    requires id < |s.streams|
  {
    if s.streams[id].closed then Abandon(s, id)
    else
      var t := Settled(s, id, o);
      match o
      case Good => Schedule(Write(t, id, Snapshot, now), id, now)
      case BadFrame => Finish(t, id, Some(Failed))
      case _ =>
        var u := Write(t, id, ErrorFrame, now);
        if t.streams[id].consecutiveErrors >= c.maxConsecutiveErrors then Finish(u, id, Some(Failed))
        else Schedule(u, id, now)
  }

  function Displace(s: State, token: string): State
    requires token in s.live ==> s.live[token] < |s.streams|
  {
    if token in s.live then Finish(s, s.live[token], Some(Replaced)) else s
  }

  function Take(s: State, token: string, id: nat): State
    requires token in s.live ==> s.live[token] < |s.streams|
  {
    var t := Displace(s, token);
    t.(live := t.live[token := id])
  }

  function Keepalive(s: State, id: nat): State
    requires id < |s.streams|
  {
    Put(s, id, s.streams[id].(keepalive := true))
  }

  function NewStream(token: string, identity: string, startedAt: real, intervalMs: int): Stream {
    Stream(token, identity, startedAt, intervalMs, false, None, false, startedAt, 0, None, false, [], 0, [])
  }

  function Add(s: State, x: Stream): State {
    s.(streams := s.streams + [x])
  }

  /** The `start` callback, which runs inside the ReadableStream constructor. */
  function Start(c: Config, s: State, token: string, id: nat, now: real, aborted: bool, known: bool): State
    requires id < |s.streams| && (token in s.live ==> s.live[token] < |s.streams|)
  {
    var t := Take(s, token, id);
    if aborted then Finish(t, id, None)
    else Tick(c, Keepalive(Write(t, id, Opening, now), id), id, now, known, false)
  }

  function Owned(s: State, identity: string): set<string> {
    set t | t in s.live && s.live[t] < |s.streams| && s.streams[s.live[t]].identity == identity
  }

  datatype Response = Busy503 | TooMany429 | ExpiredStream | Opened(id: nat)

  datatype Request = Request(
    token: string,
    identity: string,
    owner: Option<string>,
    intervalMs: int,
    startedAt: real,
    now: real,
    aborted: bool,
    known: bool)

  /** The admission section: `owner` is the identity of the record the store returned. */
  function Subscribe(c: Config, s: State, q: Request): (State, Response)
    requires q.token in s.live ==> s.live[q.token] < |s.streams|
  {
    if |s.live| >= c.maxTotal then (s, Busy503)
    else if |Owned(s, q.identity)| >= c.maxPerIdentity then (s, TooMany429)
    else if q.owner != Some(q.identity) then (s, ExpiredStream)
    else
      var id := |s.streams|;
      (Start(c, Add(s, NewStream(q.token, q.identity, q.startedAt, q.intervalMs)), q.token, id, q.now, q.aborted,
             q.known),
       Opened(id))
  }

  /** Stops every open stream from the k-th on, in registry order. */
  function StopFrom(s: State, k: nat): (t: State)
    requires k <= |s.streams|
    ensures |t.streams| == |s.streams|
    decreases |s.streams| - k
  {
    if k == |s.streams| then s else StopFrom(Finish(s, k, Some(ShutDown)), k + 1)
  }

  function ShutdownAll(s: State): State {
    StopFrom(s, 0).(live := map[])
  }

  /** The server-side floor and ceiling on the interval a client asks for. */
  function ClampInterval(c: Config, asked: Option<real>): (ms: int)
    ensures ms >= 1
    ensures c.Valid() && c.minIntervalMs >= 1.0 ==> c.minIntervalMs - 0.5 <= ms as real <= c.maxIntervalMs + 0.5
    ensures asked.Some? && 1.0 <= asked.value && c.minIntervalMs <= asked.value <= c.maxIntervalMs ==>
              asked.value - 0.5 < ms as real <= asked.value + 0.5
    ensures asked.None? && c.Valid() && c.minIntervalMs >= 1.0 ==>
              c.defaultIntervalMs - 0.5 < ms as real <= c.defaultIntervalMs + 0.5
  {
    var wanted := asked.GetOr(c.defaultIntervalMs);
    var floored := if wanted < c.minIntervalMs then c.minIntervalMs else wanted;
    var bounded := if floored > c.maxIntervalMs then c.maxIntervalMs else floored;
    var rounded := (bounded + 0.5).Floor;
    if rounded < 1 then 1 else rounded
  }

  // ---- steps ----

  datatype Event =
    | Subscribes(q: Request)
    | TimerFires(id: nat, now: real, known: bool, full: bool)
    | ReadEnds(id: nat, outcome: ReadOutcome, now: real)
    | KeepaliveFires(id: nat, now: real)
    | Aborts(id: nat)
    | Cancels(id: nat)
    | ConsumerGone(id: nat)
    | ShutsDown

  ghost predicate Enabled(s: State, e: Event) {
    match e
    case Subscribes(q) => q.intervalMs >= 1 && q.startedAt <= q.now
    case TimerFires(id, _, _, _) => id < |s.streams| && s.streams[id].timer.Some?
    case ReadEnds(id, _, _) => id < |s.streams| && s.streams[id].reading.Some?
    case KeepaliveFires(id, _) => id < |s.streams| && s.streams[id].keepalive
    case Aborts(id) => id < |s.streams|
    case Cancels(id) => id < |s.streams|
    case ConsumerGone(id) => id < |s.streams|
    case ShutsDown => true
  }

  function MarkGone(s: State, id: nat): State
    requires id < |s.streams|
  {
    Put(s, id, s.streams[id].(gone := true))
  }

  function KeepaliveTick(c: Config, s: State, id: nat, now: real): State
    requires id < |s.streams|
  {
    if now - s.streams[id].lastWrite >= c.keepaliveMs then Write(s, id, KeepAlive, now) else s
  }

  ghost predicate Step(c: Config, s: State, e: Event, t: State) {
    && Enabled(s, e)
    && (forall k | k in s.live :: s.live[k] < |s.streams|)
    && t == match e
            case Subscribes(q) => Subscribe(c, s, q).0
            case TimerFires(id, now, known, full) => Tick(c, Disarm(s, id), id, now, known, full)
            case ReadEnds(id, o, now) => Resume(c, s, id, o, now)
            case KeepaliveFires(id, now) => KeepaliveTick(c, s, id, now)
            case Aborts(id) => Finish(s, id, None)
            case Cancels(id) => Finish(MarkGone(s, id), id, None)
            case ConsumerGone(id) => MarkGone(s, id)
            case ShutsDown => ShutdownAll(s)
  }

  // ---- one stream ----

  /** Rejected reads at the end of the history; a resolved read whose rows do not convert counts one and starts over. */
  function RunUpTo(history: seq<ReadOutcome>, n: nat): nat
    requires n <= |history|
  {
    if n == 0 then 0
    else match history[n - 1]
         case Rejected => RunUpTo(history, n - 1) + 1
         case Unconvertible => 1
         case _ => 0
  }

  function Run(history: seq<ReadOutcome>): nat {
    RunUpTo(history, |history|)
  }

  ghost predicate NoClosedFrame(frames: seq<Frame>) {
    forall i | 0 <= i < |frames| :: !frames[i].Closed?
  }

  /** At most one closed frame, and nothing after it. */
  ghost predicate ClosedLast(frames: seq<Frame>) {
    forall i | 0 <= i < |frames| - 1 :: !frames[i].Closed?
  }

  ghost predicate OpenStream(x: Stream, c: Config) {
    && !x.closed
    && x.timer.Some? == x.reading.None?
    && x.keepalive
    && NoClosedFrame(x.frames)
    && x.consecutiveErrors == Run(x.history) < c.maxConsecutiveErrors
  }

  ghost predicate ClosedStream(x: Stream) {
    x.closed && x.timer.None? && !x.keepalive && ClosedLast(x.frames)
  }

  ghost predicate GoodStream(x: Stream, c: Config) {
    OpenStream(x, c) || ClosedStream(x)
  }

  // ---- the registry ----

  /** The registry holds exactly the started streams that have not closed, one per token. */
  ghost predicate Registry(s: State) {
    && (forall t | t in s.live ::
          s.live[t] < |s.streams| && !s.streams[s.live[t]].closed && s.streams[s.live[t]].token == t)
    && (forall id | 0 <= id < |s.streams| && !s.streams[id].closed ::
          s.streams[id].token in s.live && s.live[s.streams[id].token] == id)
  }

  ghost predicate WithinCaps(s: State, c: Config) {
    |s.live| <= c.maxTotal && forall identity :: |Owned(s, identity)| <= c.maxPerIdentity
  }

  ghost predicate GoodStreams(s: State, c: Config) {
    forall id | 0 <= id < |s.streams| :: GoodStream(s.streams[id], c)
  }

  ghost predicate Inv(s: State, c: Config) {
    c.Valid() && Registry(s) && GoodStreams(s, c) && WithinCaps(s, c)
  }

  /** Everything but stream id is as it should be between steps. */
  ghost predicate Others(s: State, c: Config, id: nat) {
    && c.Valid() && Registry(s) && WithinCaps(s, c) && id < |s.streams|
    && forall k | 0 <= k < |s.streams| && k != id :: GoodStream(s.streams[k], c)
  }

  /** Open, with neither a timer nor a read: a stream in the middle of its own step. */
  ghost predicate Midway(x: Stream) {
    !x.closed && x.timer.None? && x.reading.None? && x.keepalive && NoClosedFrame(x.frames)
        && x.consecutiveErrors == Run(x.history)
  }

  lemma Gather(s: State, c: Config, id: nat)
    requires Others(s, c, id) && GoodStream(s.streams[id], c)
    ensures Inv(s, c)
  {
  }

  /** An update of one stream that leaves its name, owner and openness alone. */
  ghost predicate SameHandle(x: Stream, y: Stream) {
    x.token == y.token && x.identity == y.identity && x.closed == y.closed
  }

  lemma PutKeeps(s: State, c: Config, id: nat, x: Stream)
    requires Others(s, c, id) && SameHandle(s.streams[id], x)
    ensures Others(Put(s, id, x), c, id)
  {
    var t := Put(s, id, x);
    forall identity ensures |Owned(t, identity)| <= c.maxPerIdentity {
      assert Owned(t, identity) == Owned(s, identity);
    }
  }

  lemma Subset<T>(a: set<T>, b: set<T>)
    requires a <= b
    ensures |a| <= |b|
  {
    assert b == a + (b - a);
    assert |b| == |a| + |b - a|;
  }

  lemma CloseRegistered(s: State, c: Config, id: nat, x: Stream)
    requires Others(s, c, id) && !s.streams[id].closed && x.closed
    requires x.token == s.streams[id].token && x.identity == s.streams[id].identity
    ensures var t := Release(Put(s, id, x), x.token, id);
            Registry(t) && WithinCaps(t, c) && t.live == s.live - {x.token}
  {
    var t := Release(Put(s, id, x), x.token, id);
    assert t.live.Keys <= s.live.Keys;
    Subset(t.live.Keys, s.live.Keys);
    assert |t.live| == |t.live.Keys| && |s.live| == |s.live.Keys|;
    forall identity ensures |Owned(t, identity)| <= c.maxPerIdentity {
      assert Owned(t, identity) <= Owned(s, identity);
      Subset(Owned(t, identity), Owned(s, identity));
    }
  }

  /** Closing is clean from anywhere in a step: the handle leaves the registry, the timers are
      cleared, and the closed frame, if any, is the last one. */
  lemma FinishKeeps(s: State, c: Config, id: nat, reason: Option<Reason>)
    requires Others(s, c, id)
    requires if s.streams[id].closed then ClosedStream(s.streams[id]) else NoClosedFrame(s.streams[id].frames)
    ensures Inv(Finish(s, id, reason), c)
    ensures ClosedStream(Finish(s, id, reason).streams[id])
  {
    if !s.streams[id].closed {
      CloseRegistered(s, c, id, CloseStream(s.streams[id], reason));
      assert ClosedStream(CloseStream(s.streams[id], reason));
    }
    Gather(Finish(s, id, reason), c, id);
  }

  lemma WriteKeeps(s: State, c: Config, id: nat, frame: Frame, now: real)
    requires Others(s, c, id) && Midway(s.streams[id]) && !frame.Closed?
    ensures var t := Write(s, id, frame, now);
            && Others(t, c, id)
            && (Midway(t.streams[id]) || ClosedStream(t.streams[id]))
            && t.streams[id].consecutiveErrors == s.streams[id].consecutiveErrors
  {
    var x := s.streams[id];
    if x.gone {
      FinishKeeps(s, c, id, None);
    } else {
      PutKeeps(s, c, id, x.(frames := x.frames + [frame], lastWrite := now));
    }
  }

  /** An update that leaves the stream as it should be between steps. */
  lemma PutSettles(s: State, c: Config, id: nat, x: Stream)
    requires Others(s, c, id) && SameHandle(s.streams[id], x) && GoodStream(x, c)
    ensures Inv(Put(s, id, x), c)
  {
    PutKeeps(s, c, id, x);
    Gather(Put(s, id, x), c, id);
  }

  /** A step that ends with one of a timer and a read leaves an open stream as it should be. */
  lemma StepEnds(x: Stream, c: Config, now: real)
    requires Midway(x) && x.consecutiveErrors < c.maxConsecutiveErrors
    ensures GoodStream(x.(timer := Some(now + x.intervalMs as real)), c)
    ensures GoodStream(x.(reading := Some(now), readCount := x.readCount + 1), c)
  {
  }

  ghost predicate CanEnd(x: Stream, c: Config) {
    (Midway(x) && x.consecutiveErrors < c.maxConsecutiveErrors) || ClosedStream(x)
  }

  lemma ScheduleKeeps(s: State, c: Config, id: nat, now: real)
    requires Others(s, c, id) && CanEnd(s.streams[id], c)
    ensures Inv(Schedule(s, id, now), c)
  {
    var x := s.streams[id];
    if x.closed {
      Gather(s, c, id);
    } else {
      StepEnds(x, c, now);
      PutSettles(s, c, id, x.(timer := Some(now + x.intervalMs as real)));
    }
  }

  lemma TickKeeps(c: Config, s: State, id: nat, now: real, known: bool, full: bool)
    requires Others(s, c, id) && CanEnd(s.streams[id], c)
    ensures Inv(Tick(c, s, id, now, known, full), c)
  {
    var x := s.streams[id];
    if x.closed {
      Gather(s, c, id);
    } else if now - x.startedAt >= c.maxDurationMs || !known {
      FinishKeeps(s, c, id, Some(Expired));
    } else if full {
      ScheduleKeeps(s, c, id, now);
    } else {
      StepEnds(x, c, now);
      PutSettles(s, c, id, x.(reading := Some(now), readCount := x.readCount + 1));
    }
  }

  lemma RunOf(history: seq<ReadOutcome>, o: ReadOutcome)
    ensures Run(history + [o]) == match o case Rejected => Run(history) + 1 case Unconvertible => 1 case _ => 0
  {
    RunOnPrefix(history, o, |history|);
  }

  lemma {:induction false} RunOnPrefix(history: seq<ReadOutcome>, o: ReadOutcome, n: nat)
    requires n <= |history|
    ensures RunUpTo(history + [o], n) == RunUpTo(history, n)
  {
    if n > 0 { RunOnPrefix(history, o, n - 1); }
  }

  lemma SettledKeeps(s: State, c: Config, id: nat, o: ReadOutcome)
    requires Inv(s, c) && id < |s.streams| && s.streams[id].reading.Some? && !s.streams[id].closed
    ensures Others(Settled(s, id, o), c, id) && Midway(Settled(s, id, o).streams[id])
  {
    assert GoodStream(s.streams[id], c);
    RunOf(s.streams[id].history, o);
    PutKeeps(s, c, id, Settled(s, id, o).streams[id]);
  }

  lemma AfterErrorKeeps(t: State, c: Config, id: nat, now: real)
    requires Others(t, c, id) && Midway(t.streams[id])
    ensures var u := Write(t, id, ErrorFrame, now);
            Inv(if t.streams[id].consecutiveErrors >= c.maxConsecutiveErrors then Finish(u, id, Some(Failed))
                else Schedule(u, id, now), c)
  {
    WriteKeeps(t, c, id, ErrorFrame, now);
    var u := Write(t, id, ErrorFrame, now);
    if t.streams[id].consecutiveErrors >= c.maxConsecutiveErrors {
      FinishKeeps(u, c, id, Some(Failed));
    } else {
      ScheduleKeeps(u, c, id, now);
    }
  }

  lemma ResumeKeeps(c: Config, s: State, id: nat, o: ReadOutcome, now: real)
    requires Inv(s, c) && id < |s.streams| && s.streams[id].reading.Some?
    ensures Inv(Resume(c, s, id, o, now), c)
  {
    var x := s.streams[id];
    assert GoodStream(x, c);
    if x.closed {
      PutSettles(s, c, id, x.(reading := None));
    } else {
      var t := Settled(s, id, o);
      SettledKeeps(s, c, id, o);
      match o {
        case Good => WriteKeeps(t, c, id, Snapshot, now); ScheduleKeeps(Write(t, id, Snapshot, now), c, id, now);
        case BadFrame => FinishKeeps(t, c, id, Some(Failed));
        case _ => AfterErrorKeeps(t, c, id, now);
      }
    }
  }

  // ---- admission ----

  lemma DisplaceKeeps(s: State, c: Config, token: string)
    requires Inv(s, c)
    ensures Inv(Displace(s, token), c) && token !in Displace(s, token).live
    ensures Displace(s, token).live == s.live - {token} && |Displace(s, token).streams| == |s.streams|
    ensures forall identity :: Owned(Displace(s, token), identity) <= Owned(s, identity)
  {
    if token in s.live {
      var id := s.live[token];
      assert GoodStream(s.streams[id], c);
      FinishKeeps(s, c, id, Some(Replaced));
      CloseRegistered(s, c, id, CloseStream(s.streams[id], Some(Replaced)));
    }
  }

  /** Displacing first and starting afterwards comes to the same: the new stream plays no part in it. */
  lemma DisplaceCommutes(s: State, c: Config, x: Stream)
    requires Inv(s, c)
    ensures Displace(Add(s, x), x.token) == Add(Displace(s, x.token), x)
  {
    if x.token in s.live {
      var id := s.live[x.token];
      var y := CloseStream(s.streams[id], Some(Replaced));
      assert Put(Add(s, x), id, y) == Add(Put(s, id, y), x);
    }
  }

  function Register(s: State, x: Stream): State {
    State(s.live[x.token := |s.streams|], s.streams + [x])
  }

  lemma OwnedAfterRegister(s: State, x: Stream, identity: string)
    requires x.token !in s.live && forall t | t in s.live :: s.live[t] < |s.streams|
    ensures |Owned(Register(s, x), identity)| <= |Owned(s, identity)| + if identity == x.identity then 1 else 0
  {
    if identity == x.identity {
      assert Owned(Register(s, x), identity) == Owned(s, identity) + {x.token};
    } else {
      assert Owned(Register(s, x), identity) == Owned(s, identity);
    }
  }

  lemma RegisterCaps(s: State, c: Config, x: Stream)
    requires x.token !in s.live && (forall t | t in s.live :: s.live[t] < |s.streams|) && WithinCaps(s, c)
    requires |s.live| < c.maxTotal && |Owned(s, x.identity)| < c.maxPerIdentity
    ensures WithinCaps(Register(s, x), c)
  {
    forall identity ensures |Owned(Register(s, x), identity)| <= c.maxPerIdentity {
      OwnedAfterRegister(s, x, identity);
    }
  }

  lemma RegisterKeeps(s: State, c: Config, x: Stream)
    requires Inv(s, c) && x.token !in s.live && !x.closed
    requires |s.live| < c.maxTotal && |Owned(s, x.identity)| < c.maxPerIdentity
    ensures Others(Register(s, x), c, |s.streams|)
  {
    RegisterCaps(s, c, x);
    var t := Register(s, x);
    assert forall k | 0 <= k < |s.streams| :: t.streams[k] == s.streams[k] && GoodStream(s.streams[k], c);
    assert t.streams[|s.streams|] == x;
  }

  lemma TakeKeeps(s: State, c: Config, x: Stream)
    requires Inv(s, c) && !x.closed
    requires |s.live| < c.maxTotal && |Owned(s, x.identity)| < c.maxPerIdentity
    ensures var t := Take(Add(s, x), x.token, |s.streams|);
            Others(t, c, |s.streams|) && t.streams[|s.streams|] == x
  {
    DisplaceKeeps(s, c, x.token);
    DisplaceCommutes(s, c, x);
    var d := Displace(s, x.token);
    assert |d.live| <= |s.live| by {
      assert |d.live| == |d.live.Keys| && |s.live| == |s.live.Keys|;
      Subset(d.live.Keys, s.live.Keys);
    }
    Subset(Owned(d, x.identity), Owned(s, x.identity));
    RegisterKeeps(d, c, x);
    assert Take(Add(s, x), x.token, |s.streams|) == Register(d, x);
  }

  lemma OpeningKeeps(s: State, c: Config, id: nat, now: real)
    requires Others(s, c, id)
    requires var x := s.streams[id];
             !x.closed && x.timer.None? && x.reading.None? && !x.gone && x.frames == [] && x.history == []
                 && x.consecutiveErrors == 0
    ensures var t := Keepalive(Write(s, id, Opening, now), id);
            Others(t, c, id) && Midway(t.streams[id]) && t.streams[id].consecutiveErrors == 0
  {
    var x := s.streams[id];
    var y := x.(frames := x.frames + [Opening], lastWrite := now);
    PutKeeps(s, c, id, y);
    PutKeeps(Put(s, id, y), c, id, y.(keepalive := true));
  }

  lemma SubscribeKeeps(c: Config, s: State, q: Request)
    requires Inv(s, c)
    ensures Inv(Subscribe(c, s, q).0, c)
  {
    if Subscribe(c, s, q).1.Opened? {
      var x := NewStream(q.token, q.identity, q.startedAt, q.intervalMs);
      var id := |s.streams|;
      TakeKeeps(s, c, x);
      var t := Take(Add(s, x), q.token, id);
      if q.aborted {
        FinishKeeps(t, c, id, None);
      } else {
        OpeningKeeps(t, c, id, q.now);
        TickKeeps(c, Keepalive(Write(t, id, Opening, q.now), id), id, q.now, q.known, false);
      }
    }
  }

  // ---- shutdown ----

  lemma FinishIsLocal(s: State, id: nat, reason: Option<Reason>)
    requires id < |s.streams|
    ensures var t := Finish(s, id, reason);
            && |t.streams| == |s.streams| && t.streams[id].closed
            && forall k | 0 <= k < |s.streams| && k != id :: t.streams[k] == s.streams[k]
  {
  }

  lemma {:induction false} StopFromKeeps(s: State, c: Config, k: nat)
    requires Inv(s, c) && k <= |s.streams|
    ensures Inv(StopFrom(s, k), c)
    decreases |s.streams| - k
  {
    if k < |s.streams| {
      assert GoodStream(s.streams[k], c);
      FinishKeeps(s, c, k, Some(ShutDown));
      FinishIsLocal(s, k, Some(ShutDown));
      StopFromKeeps(Finish(s, k, Some(ShutDown)), c, k + 1);
    }
  }

  lemma {:induction false} StopFromCloses(s: State, k: nat)
    requires k <= |s.streams| && forall j | 0 <= j < k :: s.streams[j].closed
    ensures forall j | 0 <= j < |s.streams| :: StopFrom(s, k).streams[j].closed
    decreases |s.streams| - k
  {
    if k < |s.streams| {
      FinishIsLocal(s, k, Some(ShutDown));
      StopFromCloses(Finish(s, k, Some(ShutDown)), k + 1);
    }
  }

  /** After a shutdown no stream is open and the registry is empty, the final clear having had nothing to do. */
  lemma ShutdownClosesAll(s: State, c: Config)
    requires Inv(s, c)
    ensures var t := ShutdownAll(s);
            Inv(t, c) && t.live == map[] && t == StopFrom(s, 0)
                && forall id | 0 <= id < |t.streams| :: t.streams[id].closed
  {
    StopFromKeeps(s, c, 0);
    StopFromCloses(s, 0);
    assert StopFrom(s, 0).live == map[];
  }

  // ---- every interleaving ----

  lemma StepKeeps(c: Config, s: State, e: Event, t: State)
    requires Inv(s, c) && Step(c, s, e, t)
    ensures Inv(t, c)
  {
    match e {
      case Subscribes(q) => SubscribeKeeps(c, s, q);
      case TimerFires(id, now, known, full) =>
        assert GoodStream(s.streams[id], c);
        PutKeeps(s, c, id, s.streams[id].(timer := None));
        TickKeeps(c, Disarm(s, id), id, now, known, full);
      case ReadEnds(id, o, now) => ResumeKeeps(c, s, id, o, now);
      case KeepaliveFires(id, now) => KeepaliveKeeps(c, s, id, now);
      case Aborts(id) =>
        assert GoodStream(s.streams[id], c);
        FinishKeeps(s, c, id, None);
      case Cancels(id) =>
        assert GoodStream(s.streams[id], c);
        PutKeeps(s, c, id, s.streams[id].(gone := true));
        FinishKeeps(MarkGone(s, id), c, id, None);
      case ConsumerGone(id) =>
        assert GoodStream(s.streams[id], c);
        PutKeeps(s, c, id, s.streams[id].(gone := true));
        Gather(t, c, id);
      case ShutsDown => ShutdownClosesAll(s, c);
    }
  }

  lemma KeepaliveKeeps(c: Config, s: State, id: nat, now: real)
    requires Inv(s, c) && id < |s.streams| && s.streams[id].keepalive
    ensures Inv(KeepaliveTick(c, s, id, now), c)
  {
    var x := s.streams[id];
    assert GoodStream(x, c);
    if now - x.lastWrite >= c.keepaliveMs {
      if x.gone {
        FinishKeeps(s, c, id, None);
      } else {
        PutKeeps(s, c, id, x.(frames := x.frames + [KeepAlive], lastWrite := now));
        Gather(Write(s, id, KeepAlive, now), c, id);
      }
    }
  }

  /** states[k] is what event k finds. */
  datatype Trace = Trace(states: seq<State>, events: seq<Event>)

  /** Event k takes what it finds to what event k + 1 finds. */
  ghost predicate Happens(r: Trace, c: Config, k: int)
    requires |r.states| == |r.events| + 1 && 0 <= k < |r.events|
  {
    Step(c, r.states[k], r.events[k], r.states[k + 1])
  }

  ghost predicate IsTrace(r: Trace, c: Config) {
    && c.Valid()
    && |r.states| == |r.events| + 1
    && r.states[0] == EMPTY
    && forall k | 0 <= k < |r.events| :: Happens(r, c, k)
  }

  /** Under every interleaving of subscriptions, timers, reads, aborts, cancellations, displacement
      and shutdown: the registry is exactly the open streams, one per token, within both caps; an open
      stream has exactly one of a timer and a read; and nothing follows a closed frame. */
  lemma {:induction false} EveryInterleaving(r: Trace, c: Config, k: nat)
    requires IsTrace(r, c) && k <= |r.events|
    ensures Inv(r.states[k], c)
  {
    if k == 0 {
      NothingLive(c);
    } else {
      EveryInterleaving(r, c, k - 1);
      EventKeeps(r, c, k - 1, r.states[k]);
    }
  }

  lemma NothingLive(c: Config)
    requires c.Valid()
    ensures Inv(EMPTY, c)
  {
    assert forall identity :: Owned(EMPTY, identity) == {};
  }

  lemma EventKeeps(r: Trace, c: Config, k: nat, t: State)
    requires IsTrace(r, c) && k < |r.events| && t == r.states[k + 1] && Inv(r.states[k], c)
    ensures Inv(t, c)
  {
    assert Happens(r, c, k);
    StepKeeps(c, r.states[k], r.events[k], r.states[k + 1]);
  }

  // ---- after the close ----

  ghost predicate About(e: Event, id: nat) {
    match e
    case Subscribes(_) => false
    case ShutsDown => false
    case TimerFires(k, _, _, _) => k == id
    case ReadEnds(k, _, _) => k == id
    case KeepaliveFires(k, _) => k == id
    case Aborts(k) => k == id
    case Cancels(k) => k == id
    case ConsumerGone(k) => k == id
  }

  /** Whatever still happens to a closed stream, the registry and every other stream are untouched, so
      a displaced stream that finishes late never removes its replacement. */
  lemma LateEventIsHarmless(c: Config, s: State, e: Event, t: State, id: nat)
    requires Inv(s, c) && Step(c, s, e, t) && id < |s.streams| && s.streams[id].closed && About(e, id)
    ensures t.live == s.live && |t.streams| == |s.streams|
    ensures forall k | 0 <= k < |s.streams| && k != id :: t.streams[k] == s.streams[k]
    ensures e.ReadEnds? || e.Aborts? || e.Cancels? || e.ConsumerGone?
  {
    assert GoodStream(s.streams[id], c);
  }

  /** What can no longer change. */
  ghost predicate Final(x: Stream, y: Stream) {
    x.closed && y.closed && y.frames == x.frames && y.readCount == x.readCount && y.history == x.history
  }

  lemma {:induction false} StopFromKeepsFinal(s: State, k: nat, id: nat)
    requires k <= |s.streams| && id < |s.streams| && s.streams[id].closed
    ensures StopFrom(s, k).streams[id] == s.streams[id]
    decreases |s.streams| - k
  {
    if k < |s.streams| {
      FinishIsLocal(s, k, Some(ShutDown));
      StopFromKeepsFinal(Finish(s, k, Some(ShutDown)), k + 1, id);
    }
  }

  lemma TickIsLocal(c: Config, s: State, id: nat, now: real, known: bool, full: bool)
    requires id < |s.streams|
    ensures var t := Tick(c, s, id, now, known, full);
            |t.streams| == |s.streams| && forall k | 0 <= k < |s.streams| && k != id :: t.streams[k] == s.streams[k]
  {
  }

  lemma TakeKeepsFinal(c: Config, s: State, x: Stream, id: nat)
    requires Inv(s, c) && !x.closed && id < |s.streams| && s.streams[id].closed
    ensures var t := Take(Add(s, x), x.token, |s.streams|);
            |t.streams| == |s.streams| + 1 && t.streams[id] == s.streams[id]
  {
    DisplaceCommutes(s, c, x);
  }

  lemma SubscribeKeepsFinal(c: Config, s: State, q: Request, id: nat)
    requires Inv(s, c) && id < |s.streams| && s.streams[id].closed
    ensures var t := Subscribe(c, s, q).0; id < |t.streams| && t.streams[id] == s.streams[id]
  {
    if Subscribe(c, s, q).1.Opened? {
      TakeKeepsFinal(c, s, NewStream(q.token, q.identity, q.startedAt, q.intervalMs), id);
      if !q.aborted {
        var t := Take(Add(s, NewStream(q.token, q.identity, q.startedAt, q.intervalMs)), q.token, |s.streams|);
        OpeningIsLocal(c, t, |s.streams|, q.now, q.known);
      }
    }
  }

  lemma OpeningIsLocal(c: Config, t: State, id: nat, now: real, known: bool)
    requires id < |t.streams|
    ensures var u := Tick(c, Keepalive(Write(t, id, Opening, now), id), id, now, known, false);
            |u.streams| == |t.streams| && forall k | 0 <= k < |t.streams| && k != id :: u.streams[k] == t.streams[k]
  {
    TickIsLocal(c, Keepalive(Write(t, id, Opening, now), id), id, now, known, false);
  }

  lemma StepKeepsFinal(c: Config, s: State, e: Event, t: State, id: nat)
    requires Inv(s, c) && Step(c, s, e, t) && id < |s.streams| && s.streams[id].closed
    ensures id < |t.streams| && Final(s.streams[id], t.streams[id])
  {
    match e {
      case Subscribes(q) => SubscribeKeepsFinal(c, s, q, id);
      case TimerFires(k, now, known, full) =>
        assert GoodStream(s.streams[id], c);
        TickIsLocal(c, Disarm(s, k), k, now, known, full);
      case ReadEnds(k, o, now) => ResumeIsLocal(c, s, k, o, now);
      case ShutsDown => StopFromKeepsFinal(s, 0, id);
      case _ =>
    }
  }

  lemma ResumeIsLocal(c: Config, s: State, id: nat, o: ReadOutcome, now: real)
    requires id < |s.streams|
    ensures var t := Resume(c, s, id, o, now);
            && |t.streams| == |s.streams|
            && (forall k | 0 <= k < |s.streams| && k != id :: t.streams[k] == s.streams[k])
            && (s.streams[id].closed ==> Final(s.streams[id], t.streams[id]))
  {
    if !s.streams[id].closed {
      var t := Settled(s, id, o);
      assert forall k | 0 <= k < |s.streams| && k != id :: t.streams[k] == s.streams[k];
      var u := Write(t, id, if o.Good? then Snapshot else ErrorFrame, now);
      assert forall k | 0 <= k < |s.streams| && k != id :: u.streams[k] == s.streams[k];
    }
  }

  /** Once closed, a stream sends nothing more and starts no read, in every interleaving. */
  lemma {:induction false} ClosedIsFinal(r: Trace, c: Config, k: nat, m: nat, id: nat)
    requires IsTrace(r, c) && k <= m <= |r.events|
    requires id < |r.states[k].streams| && r.states[k].streams[id].closed
    ensures id < |r.states[m].streams| && Final(r.states[k].streams[id], r.states[m].streams[id])
    decreases m
  {
    if k < m {
      ClosedIsFinal(r, c, k, m - 1, id);
      EventKeepsFinal(r, c, m - 1, id);
    }
  }

  lemma EventKeepsFinal(r: Trace, c: Config, k: nat, id: nat)
    requires IsTrace(r, c) && k < |r.events| && id < |r.states[k].streams| && r.states[k].streams[id].closed
    ensures id < |r.states[k + 1].streams| && Final(r.states[k].streams[id], r.states[k + 1].streams[id])
  {
    EveryInterleaving(r, c, k);
    assert Happens(r, c, k);
    StepKeepsFinal(c, r.states[k], r.events[k], r.states[k + 1], id);
  }

  // ---- who gets a stream ----

  function OpenIds(s: State): set<int> {
    set id | 0 <= id < |s.streams| && !s.streams[id].closed
  }

  function OpenIdsOf(s: State, identity: string): set<int> {
    set id | 0 <= id < |s.streams| && !s.streams[id].closed && s.streams[id].identity == identity
  }

  /** There is room, for anybody and for this identity, and the token is its own. */
  predicate Welcome(c: Config, s: State, q: Request) {
    |OpenIds(s)| < c.maxTotal && |OpenIdsOf(s, q.identity)| < c.maxPerIdentity && q.owner == Some(q.identity)
  }

  lemma {:induction false} OneEach<A, B>(ids: set<A>, names: set<B>, name: A -> B)
    requires forall i | i in ids :: name(i) in names
    requires forall n | n in names :: exists i :: i in ids && name(i) == n
    requires forall i, j | i in ids && j in ids && name(i) == name(j) :: i == j
    ensures |ids| == |names|
    decreases |ids|
  {
    if i :| i in ids {
      OneEach(ids - {i}, names - {name(i)}, name);
      assert ids == (ids - {i}) + {i} && names == (names - {name(i)}) + {name(i)};
    } else {
      assert ids == {} && names == {};
    }
  }

  function TokenOf(s: State): int -> string {
    id => if 0 <= id < |s.streams| then s.streams[id].token else ""
  }

  lemma OpenAreLive(s: State, c: Config, identity: string)
    requires Inv(s, c)
    ensures |OpenIds(s)| == |s.live| && |OpenIdsOf(s, identity)| == |Owned(s, identity)|
  {
    forall t | t in s.live ensures s.live[t] in OpenIds(s) && TokenOf(s)(s.live[t]) == t {}
    OneEach(OpenIds(s), s.live.Keys, TokenOf(s));
    OneEach(OpenIdsOf(s, identity), Owned(s, identity), TokenOf(s));
    assert |s.live| == |s.live.Keys|;
  }

  /** The answer to a request, and that nothing is touched unless a stream is opened. */
  ghost predicate Answers(c: Config, s: State, q: Request, t: State, r: Response) {
    && (r.Busy503? <==> |OpenIds(s)| >= c.maxTotal)
    && (r.TooMany429? <==> |OpenIds(s)| < c.maxTotal && |OpenIdsOf(s, q.identity)| >= c.maxPerIdentity)
    && (r.Opened? <==> Welcome(c, s, q))
    && (r.Opened? ==> r.id == |s.streams| && |t.streams| == |s.streams| + 1)
    && (!r.Opened? ==> t == s)
  }

  lemma SubscribeAnswers(c: Config, s: State, q: Request)
    requires Inv(s, c)
    ensures Answers(c, s, q, Subscribe(c, s, q).0, Subscribe(c, s, q).1)
  {
    OpenAreLive(s, c, q.identity);
    if Subscribe(c, s, q).1.Opened? { StartAddsOne(c, s, q); }
  }

  lemma StartAddsOne(c: Config, s: State, q: Request)
    requires Inv(s, c) && Subscribe(c, s, q).1.Opened?
    ensures |Subscribe(c, s, q).0.streams| == |s.streams| + 1
    ensures forall id | 0 <= id < |s.streams| ::
              Subscribe(c, s, q).0.streams[id] == Take(Add(s, Asked(q)), q.token, |s.streams|).streams[id]
  {
    DisplaceKeeps(s, c, q.token);
    DisplaceCommutes(s, c, Asked(q));
    var t := Take(Add(s, Asked(q)), q.token, |s.streams|);
    if q.aborted {
      FinishIsLocal(t, |s.streams|, None);
    } else {
      OpeningIsLocal(c, t, |s.streams|, q.now, q.known);
    }
  }

  function Asked(q: Request): Stream {
    NewStream(q.token, q.identity, q.startedAt, q.intervalMs)
  }

  // ---- how a run of errors ends ----

  lemma {:induction false} RunOfRejections(history: seq<ReadOutcome>, end: nat, n: nat)
    requires n <= end <= |history| && forall i | end - n <= i < end :: history[i].Rejected?
    ensures RunUpTo(history, end) >= n
  {
    if n > 0 { RunOfRejections(history, end - 1, n - 1); }
  }

  /** A stream whose last maxConsecutiveErrors reads were all rejected is closed. */
  lemma RejectionsClose(s: State, c: Config, id: nat)
    requires Inv(s, c) && id < |s.streams| && c.maxConsecutiveErrors <= |s.streams[id].history|
    requires var h := s.streams[id].history;
             forall i | |h| - c.maxConsecutiveErrors <= i < |h| :: h[i].Rejected?
    ensures s.streams[id].closed
  {
    assert GoodStream(s.streams[id], c);
    RunOfRejections(s.streams[id].history, |s.streams[id].history|, c.maxConsecutiveErrors);
  }

  /** The rejection that completes the run tells the client so: an error frame, then the closed frame. */
  lemma LastRejectionFails(c: Config, s: State, id: nat, now: real)
    requires Inv(s, c) && id < |s.streams| && s.streams[id].reading.Some?
    requires var x := s.streams[id]; !x.closed && !x.gone && x.consecutiveErrors + 1 >= c.maxConsecutiveErrors
    ensures var x, y := s.streams[id], Resume(c, s, id, Rejected, now).streams[id];
            y.closed && y.frames == x.frames + [ErrorFrame, Closed(Failed)]
  {
    var x := s.streams[id];
    assert (x.frames + [ErrorFrame]) + [Closed(Failed)] == x.frames + [ErrorFrame, Closed(Failed)];
  }

  /** A read that resolves to rows that do not convert never adds to a run: it closes the stream
      exactly when a single error is already too many. */
  lemma UnconvertibleDoesNotAccumulate(c: Config, s: State, id: nat, now: real)
    requires Inv(s, c) && id < |s.streams| && s.streams[id].reading.Some? && !s.streams[id].closed
               && !s.streams[id].gone
    ensures Resume(c, s, id, Unconvertible, now).streams[id].closed <==> c.maxConsecutiveErrors == 1
  {
  }

  // ---- how many reads a stream can start ----

  /** Timers do not fire early and a read does not settle before it started. */
  ghost predicate Punctual(s: State, e: Event) {
    match e
    case TimerFires(id, now, _, _) => id < |s.streams| && s.streams[id].timer.Some? && s.streams[id].timer.value <= now
    case ReadEnds(id, _, now) => id < |s.streams| && s.streams[id].reading.Some? && s.streams[id].reading.value <= now
    case _ => true
  }

  function SlotOf(startedAt: real, intervalMs: int, n: int): real {
    startedAt + (n * intervalMs) as real
  }

  /** The earliest instant at which read number n (from zero) can start. */
  function Slot(x: Stream, n: int): real {
    SlotOf(x.startedAt, x.intervalMs, n)
  }

  ghost predicate Paced(x: Stream, c: Config) {
    && x.intervalMs >= 1 && x.readCount >= 0
    && (x.timer.Some? ==> x.timer.value >= Slot(x, x.readCount))
    && (x.reading.Some? ==> x.readCount >= 1 && x.reading.value >= Slot(x, x.readCount - 1))
    && (x.readCount >= 1 ==> Slot(x, x.readCount - 1) < x.startedAt + c.maxDurationMs)
  }

  ghost predicate PacedAll(s: State, c: Config) {
    forall id | 0 <= id < |s.streams| :: Paced(s.streams[id], c)
  }

  lemma NextSlot(x: Stream, n: int)
    ensures Slot(x, n + 1) == Slot(x, n) + x.intervalMs as real
  {
    assert (n + 1) * x.intervalMs == n * x.intervalMs + x.intervalMs;
  }

  lemma PacedAgain(x: Stream, y: Stream, c: Config, now: real)
    requires Paced(x, c) && now >= Slot(x, x.readCount)
    requires y.startedAt == x.startedAt && y.intervalMs == x.intervalMs
    requires if y.readCount == x.readCount then
               && (y.timer == x.timer || y.timer == None || y.timer == Some(now + x.intervalMs as real))
                     && y.reading == x.reading
             else
               && y.readCount == x.readCount + 1 && now - x.startedAt < c.maxDurationMs
               && y.timer == None && y.reading == Some(now)
    ensures Paced(y, c)
  {
    assert Slot(y, x.readCount) == Slot(x, x.readCount);
    assert Slot(y, x.readCount - 1) == Slot(x, x.readCount - 1);
  }

  lemma TickPaces(c: Config, s: State, id: nat, now: real, known: bool, full: bool)
    requires id < |s.streams| && PacedAll(s, c) && now >= Slot(s.streams[id], s.streams[id].readCount)
    requires s.streams[id].timer.None? || s.streams[id].closed
    ensures PacedAll(Tick(c, s, id, now, known, full), c)
  {
    var x := s.streams[id];
    assert Paced(x, c);
    var t := Tick(c, s, id, now, known, full);
    TickIsLocal(c, s, id, now, known, full);
    if !x.closed { PacedAgain(x, t.streams[id], c, now); }
    forall k | 0 <= k < |t.streams| ensures Paced(t.streams[k], c) {
      if k != id { assert Paced(s.streams[k], c); }
    }
  }

  lemma ResumePaces(c: Config, s: State, id: nat, o: ReadOutcome, now: real)
    requires id < |s.streams| && PacedAll(s, c) && s.streams[id].reading.Some? && s.streams[id].reading.value <= now
    requires s.streams[id].timer.Some? ==> s.streams[id].closed
    ensures PacedAll(Resume(c, s, id, o, now), c)
  {
    var x := s.streams[id];
    assert Paced(x, c);
    NextSlot(x, x.readCount - 1);
    var t := Resume(c, s, id, o, now);
    ResumeIsLocal(c, s, id, o, now);
    var y := t.streams[id];
    assert y.startedAt == x.startedAt && y.intervalMs == x.intervalMs && y.readCount == x.readCount && y.reading.None?;
    assert y.timer.Some? ==> y.timer == x.timer || y.timer.value == now + x.intervalMs as real;
    forall k | 0 <= k < |t.streams| ensures Paced(t.streams[k], c) {
      if k != id { assert Paced(s.streams[k], c); }
    }
  }

  lemma {:induction false} StopFromPaces(c: Config, s: State, k: nat)
    requires k <= |s.streams| && PacedAll(s, c)
    ensures PacedAll(StopFrom(s, k), c)
    decreases |s.streams| - k
  {
    if k < |s.streams| {
      FinishPaces(c, s, k, Some(ShutDown));
      StopFromPaces(c, Finish(s, k, Some(ShutDown)), k + 1);
    }
  }

  lemma FinishPaces(c: Config, s: State, id: nat, reason: Option<Reason>)
    requires id < |s.streams| && PacedAll(s, c)
    ensures PacedAll(Finish(s, id, reason), c)
  {
    FinishIsLocal(s, id, reason);
    assert Paced(s.streams[id], c);
    forall k | 0 <= k < |s.streams| ensures Paced(Finish(s, id, reason).streams[k], c) {
      if k != id { assert Paced(s.streams[k], c); }
    }
  }

  lemma PutPaces(c: Config, s: State, id: nat, x: Stream)
    requires id < |s.streams| && PacedAll(s, c) && Paced(x, c)
    ensures PacedAll(Put(s, id, x), c)
  {
  }

  lemma TakePaces(c: Config, s: State, x: Stream)
    requires Inv(s, c) && PacedAll(s, c) && Paced(x, c) && !x.closed
    ensures var t := Take(Add(s, x), x.token, |s.streams|);
            PacedAll(t, c) && |t.streams| == |s.streams| + 1 && t.streams[|s.streams|] == x
  {
    assert PacedAll(Add(s, x), c);
    if x.token in s.live { FinishPaces(c, Add(s, x), s.live[x.token], Some(Replaced)); }
    DisplaceKeeps(s, c, x.token);
    DisplaceCommutes(s, c, x);
  }

  lemma OpeningPaces(c: Config, s: State, id: nat, x: Stream, now: real, known: bool)
    requires id < |s.streams| && PacedAll(s, c) && s.streams[id] == x && Paced(x, c) && x.startedAt <= now
    requires !x.closed && !x.gone && x.readCount == 0 && x.timer.None?
    ensures PacedAll(Tick(c, Keepalive(Write(s, id, Opening, now), id), id, now, known, false), c)
  {
    var y := x.(frames := x.frames + [Opening], lastWrite := now);
    var z := y.(keepalive := true);
    assert Slot(x, 0) == x.startedAt;
    PacedAgain(x, y, c, now);
    PacedAgain(x, z, c, now);
    PutPaces(c, s, id, y);
    PutPaces(c, Put(s, id, y), id, z);
    TickPaces(c, Put(Put(s, id, y), id, z), id, now, known, false);
  }

  lemma SubscribePaces(c: Config, s: State, q: Request)
    requires Inv(s, c) && PacedAll(s, c) && q.intervalMs >= 1 && q.startedAt <= q.now
    ensures PacedAll(Subscribe(c, s, q).0, c)
  {
    if Subscribe(c, s, q).1.Opened? {
      var x := NewStream(q.token, q.identity, q.startedAt, q.intervalMs);
      var id := |s.streams|;
      TakePaces(c, s, x);
      var t := Take(Add(s, x), q.token, id);
      if q.aborted {
        FinishPaces(c, t, id, None);
      } else {
        OpeningPaces(c, t, id, x, q.now, q.known);
      }
    }
  }

  lemma StepPaces(c: Config, s: State, e: Event, t: State)
    requires Inv(s, c) && PacedAll(s, c) && Step(c, s, e, t) && Punctual(s, e)
    ensures PacedAll(t, c)
  {
    match e {
      case Subscribes(q) => SubscribePaces(c, s, q);
      case TimerFires(id, now, known, full) => TimerPaces(c, s, id, now, known, full);
      case ReadEnds(id, o, now) =>
        assert GoodStream(s.streams[id], c);
        ResumePaces(c, s, id, o, now);
      case KeepaliveFires(id, now) => KeepalivePaces(c, s, id, now);
      case Aborts(id) => FinishPaces(c, s, id, None);
      case Cancels(id) =>
        GonePaces(c, s, id);
        FinishPaces(c, MarkGone(s, id), id, None);
      case ConsumerGone(id) => GonePaces(c, s, id);
      case ShutsDown => StopFromPaces(c, s, 0);
    }
  }

  lemma TimerPaces(c: Config, s: State, id: nat, now: real, known: bool, full: bool)
    requires Inv(s, c) && PacedAll(s, c) && id < |s.streams| && s.streams[id].timer.Some?
               && s.streams[id].timer.value <= now
    ensures PacedAll(Tick(c, Disarm(s, id), id, now, known, full), c)
  {
    assert Paced(s.streams[id], c);
    PutPaces(c, s, id, s.streams[id].(timer := None));
    TickPaces(c, Disarm(s, id), id, now, known, full);
  }

  lemma KeepalivePaces(c: Config, s: State, id: nat, now: real)
    requires PacedAll(s, c) && id < |s.streams|
    ensures PacedAll(KeepaliveTick(c, s, id, now), c)
  {
    assert Paced(s.streams[id], c);
    if s.streams[id].gone { FinishPaces(c, s, id, None); }
    PutPaces(c, s, id, s.streams[id].(frames := s.streams[id].frames + [KeepAlive], lastWrite := now));
  }

  lemma GonePaces(c: Config, s: State, id: nat)
    requires PacedAll(s, c) && id < |s.streams|
    ensures PacedAll(MarkGone(s, id), c)
  {
    assert Paced(s.streams[id], c);
    PutPaces(c, s, id, s.streams[id].(gone := true));
  }

  lemma {:induction false} EveryTracePaces(r: Trace, c: Config, k: nat)
    requires IsTrace(r, c) && k <= |r.events|
    requires forall j | 0 <= j < k :: Punctual(r.states[j], r.events[j])
    ensures PacedAll(r.states[k], c)
  {
    if k > 0 {
      EveryTracePaces(r, c, k - 1);
      EventPaces(r, c, k - 1);
    }
  }

  lemma EventPaces(r: Trace, c: Config, k: nat)
    requires IsTrace(r, c) && k < |r.events| && Punctual(r.states[k], r.events[k]) && PacedAll(r.states[k], c)
    ensures PacedAll(r.states[k + 1], c)
  {
    EveryInterleaving(r, c, k);
    assert Happens(r, c, k);
    StepPaces(c, r.states[k], r.events[k], r.states[k + 1]);
  }

  /** With timers that never fire early, a stream starts at most ceil(maxDurationMs / intervalMs) reads. */
  lemma ReadsAreBounded(r: Trace, c: Config, k: nat, id: nat)
    requires IsTrace(r, c) && k <= |r.events| && id < |r.states[k].streams|
    requires forall j | 0 <= j < k :: Punctual(r.states[j], r.events[j])
    ensures var x := r.states[k].streams[id];
            x.intervalMs >= 1 && x.readCount <= Ceil(c.maxDurationMs / x.intervalMs as real)
  {
    EveryTracePaces(r, c, k);
    var x := r.states[k].streams[id];
    assert Paced(x, c);
    if x.readCount >= 1 { SlotsFit(x.readCount - 1, x.intervalMs, c.maxDurationMs); }
  }

  lemma SlotsFit(n: int, interval: int, most: real)
    requires n >= 0 && interval >= 1 && (n * interval) as real < most
    ensures (n as real) < most / interval as real
  {
    var i := interval as real;
    assert (n * interval) as real == n as real * i;
    assert most / i * i == most;
    if n as real >= most / i { Scaled(most / i, n as real, i); }
  }

  // ---- the server's live part ----

  lemma OneTaken(mine: set<string>, rest: set<string>, t: string)
    requires t in rest
    ensures |mine - (rest - {t})| == |mine - rest| + if t in mine then 1 else 0
  {
    var before, after := mine - rest, mine - (rest - {t});
    if t in mine { assert after == before + {t}; } else { assert after == before; }
  }

  lemma OwnedAt(s: State, identity: string, t: string)
    requires forall t | t in s.live :: s.live[t] < |s.streams|
    requires t in s.live
    ensures t in Owned(s, identity) <==> s.streams[s.live[t]].identity == identity
  {
  }

  /** `live` is the registry's Map of handles, and `streams` the closure variables of every subscription. */
  class Hub {
    const config: Config
    var live: map<string, nat>
    var streams: seq<Stream>

    ghost function Model(): State
      reads this
    {
      State(live, streams)
    }

    constructor (config: Config)
      requires config.Valid()
      ensures this.config == config && Model() == EMPTY && Inv(Model(), config)
    {
      this.config, live, streams := config, map[], [];
      new;
      assert forall identity :: Owned(EMPTY, identity) == {};
    }

    method CountFor(identity: string) returns (count: nat)
      requires forall t | t in live :: live[t] < |streams|
      ensures count == |Owned(Model(), identity)|
    {
      count := 0;
      var rest := live.Keys;
      ghost var mine := Owned(Model(), identity);
      while rest != {}
        invariant rest <= live.Keys && count == |mine - rest|
      {
        var t :| t in rest;
        OwnedAt(Model(), identity, t);
        OneTaken(mine, rest, t);
        if streams[live[t]].identity == identity { count := count + 1; }
        rest := rest - {t};
      }
      assert mine - {} == mine;
    }

    method ReleaseHandle(token: string, id: nat)
      modifies this`live
      ensures Model() == Release(old(Model()), token, id)
    {
      if token in live && live[token] == id { live := live - {token}; }
    }

    method FinishStream(id: nat, reason: Option<Reason>)
      requires id < |streams|
      modifies this
      ensures Model() == Finish(old(Model()), id, reason)
    {
      var x := streams[id];
      if x.closed { return; }
      assert x.frames + [] == x.frames;
      if reason.Some? && !x.gone { x := x.(frames := x.frames + [Closed(reason.value)]); }
      x := x.(closed := true, timer := None, keepalive := false);
      streams := streams[id := x];
      ReleaseHandle(x.token, id);
    }

    method WriteFrame(id: nat, frame: Frame, now: real)
      requires id < |streams|
      modifies this
      ensures Model() == Write(old(Model()), id, frame, now)
    {
      if streams[id].closed { return; }
      if streams[id].gone {
        FinishStream(id, None);
      } else {
        streams := streams[id := streams[id].(frames := streams[id].frames + [frame], lastWrite := now)];
      }
    }

    method ScheduleTick(id: nat, now: real)
      requires id < |streams|
      modifies this`streams
      ensures Model() == Schedule(old(Model()), id, now)
    {
      if streams[id].closed { return; }
      streams := streams[id := streams[id].(timer := Some(now + streams[id].intervalMs as real))];
    }

    method OnTick(id: nat, now: real, known: bool, full: bool)
      requires id < |streams|
      modifies this
      ensures Model() == Tick(config, old(Model()), id, now, known, full)
    {
      if streams[id].closed { return; }
      if now - streams[id].startedAt >= config.maxDurationMs { FinishStream(id, Some(Expired)); return; }
      if !known { FinishStream(id, Some(Expired)); return; }
      if full { ScheduleTick(id, now); return; }
      streams := streams[id := streams[id].(reading := Some(now), readCount := streams[id].readCount + 1)];
    }

    /** The timer of a stream runs out: what is left of it is a tick. */
    method OnTimer(id: nat, now: real, known: bool, full: bool)
      requires Inv(Model(), config) && Enabled(Model(), TimerFires(id, now, known, full))
      modifies this
      ensures Step(config, old(Model()), TimerFires(id, now, known, full), Model()) && Inv(Model(), config)
    {
      ghost var t := Tick(config, Disarm(Model(), id), id, now, known, full);
      StepKeeps(config, Model(), TimerFires(id, now, known, full), t);
      streams := streams[id := streams[id].(timer := None)];
      OnTick(id, now, known, full);
    }

    method OnKeepalive(id: nat, now: real)
      requires Inv(Model(), config) && Enabled(Model(), KeepaliveFires(id, now))
      modifies this
      ensures Step(config, old(Model()), KeepaliveFires(id, now), Model()) && Inv(Model(), config)
    {
      StepKeeps(config, Model(), KeepaliveFires(id, now), KeepaliveTick(config, Model(), id, now));
      if now - streams[id].lastWrite >= config.keepaliveMs { WriteFrame(id, KeepAlive, now); }
    }

    method OnAbort(id: nat)
      requires Inv(Model(), config) && Enabled(Model(), Aborts(id))
      modifies this
      ensures Step(config, old(Model()), Aborts(id), Model()) && Inv(Model(), config)
    {
      StepKeeps(config, Model(), Aborts(id), Finish(Model(), id, None));
      FinishStream(id, None);
    }

    /** The consumer cancels: from then on enqueueing throws. */
    method OnCancel(id: nat)
      requires Inv(Model(), config) && Enabled(Model(), Cancels(id))
      modifies this
      ensures Step(config, old(Model()), Cancels(id), Model()) && Inv(Model(), config)
    {
      StepKeeps(config, Model(), Cancels(id), Finish(MarkGone(Model(), id), id, None));
      streams := streams[id := streams[id].(gone := true)];
      FinishStream(id, None);
    }

    method RecordRead(id: nat, o: ReadOutcome)
      requires id < |streams|
      modifies this`streams
      ensures Model() == Settled(old(Model()), id, o)
    {
      var x := streams[id].(reading := None, history := streams[id].history + [o]);
      if !o.Rejected? { x := x.(consecutiveErrors := 0); }
      if o.Rejected? || o.Unconvertible? { x := x.(consecutiveErrors := x.consecutiveErrors + 1); }
      streams := streams[id := x];
    }

    method OnRead(id: nat, o: ReadOutcome, now: real)
      requires id < |streams|
      modifies this
      ensures Model() == Resume(config, old(Model()), id, o, now)
    {
      if streams[id].closed {
        streams := streams[id := streams[id].(reading := None)];
        return;
      }
      RecordRead(id, o);
      var errors := streams[id].consecutiveErrors;
      match o
      case Good =>
        WriteFrame(id, Snapshot, now);
        ScheduleTick(id, now);
      case BadFrame =>
        FinishStream(id, Some(Failed));
      case _ =>
        WriteFrame(id, ErrorFrame, now);
        if errors >= config.maxConsecutiveErrors { FinishStream(id, Some(Failed)); return; }
        ScheduleTick(id, now);
    }

    method TakeToken(token: string, id: nat)
      requires token in live ==> live[token] < |streams|
      modifies this
      ensures Model() == Take(old(Model()), token, id)
    {
      if token in live { FinishStream(live[token], Some(Replaced)); }
      live := live[token := id];
    }

    method HandleSubscribe(q: Request) returns (r: Response)
      requires Inv(Model(), config) && Enabled(Model(), Subscribes(q))
      modifies this
      ensures (Model(), r) == Subscribe(config, old(Model()), q) && Inv(Model(), config)
      ensures Answers(config, old(Model()), q, Model(), r)
    {
      SubscribeKeeps(config, Model(), q);
      SubscribeAnswers(config, Model(), q);
      if |live| >= config.maxTotal { return Busy503; }
      var count := CountFor(q.identity);
      if count >= config.maxPerIdentity { return TooMany429; }
      if q.owner != Some(q.identity) { return ExpiredStream; }
      var id := |streams|;
      streams := streams + [NewStream(q.token, q.identity, q.startedAt, q.intervalMs)];
      OnStart(q.token, id, q.now, q.aborted, q.known);
      return Opened(id);
    }

    /** The `start` callback. */
    method OnStart(token: string, id: nat, now: real, aborted: bool, known: bool)
      requires id < |streams| && (token in live ==> live[token] < |streams|)
      modifies this
      ensures Model() == Start(config, old(Model()), token, id, now, aborted, known)
    {
      TakeToken(token, id);
      if aborted {
        FinishStream(id, None);
      } else {
        WriteFrame(id, Opening, now);
        streams := streams[id := streams[id].(keepalive := true)];
        OnTick(id, now, known, false);
      }
    }

    method Shutdown()
      requires Inv(Model(), config)
      modifies this
      ensures Model() == ShutdownAll(old(Model())) && Inv(Model(), config)
      ensures live == map[] && forall id | 0 <= id < |streams| :: streams[id].closed
    {
      ShutdownClosesAll(Model(), config);
      var k := 0;
      while k < |streams|
        invariant k <= |streams|
        invariant StopFrom(Model(), k) == StopFrom(old(Model()), 0)
      {
        FinishStream(k, Some(ShutDown));
        k := k + 1;
      }
      live := map[];
    }
  }
}
