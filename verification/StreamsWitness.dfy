/** A stream that fails and goes on. */
module StreamsWitness {
  import opened Schema
  import opened Streams

  // One stream of packages/server/src/subscribe.ts, whose reads resolve to rows that do not
  // convert. The limit is two errors in a row, and there are two; the error count, which every read that
  // resolves sets back, never gets beyond one.

  const TOKEN := "token"
  const CALLER := "caller"

  function Asked(): Request {
    Request(TOKEN, CALLER, Some(CALLER), 1, 0.0, 0.0, false, true)
  }

  /** The stream after n of its reads have ended, with the next one waiting for its timer. */
  function Waiting(n: nat, frames: seq<Frame>, history: seq<ReadOutcome>, at: real): Stream {
    var errors := if n == 0 then 0 else 1;
    Stream(TOKEN, CALLER, 0.0, 1, false, Some(at + 1.0), true, at, errors, None, false, frames, n, history)
  }

  function Reading(x: Stream, now: real): Stream {
    x.(timer := None, reading := Some(now), readCount := x.readCount + 1)
  }

  function Only(x: Stream): State {
    State(map[TOKEN := 0], [x])
  }

  function Started(): Stream {
    Reading(Waiting(0, [Opening], [], 0.0), 0.0)
  }

  lemma SubscribeStarts(c: Config)
    requires c.Valid()
    ensures Subscribe(c, EMPTY, Asked()) == (Only(Started()), Opened(0))
  {
    assert Owned(EMPTY, CALLER) == {};
    var x := NewStream(TOKEN, CALLER, 0.0, 1);
    assert Add(EMPTY, x).streams == [x];
    var taken := Take(Add(EMPTY, x), TOKEN, 0);
    assert taken == Only(x);
    assert x.frames + [Opening] == [Opening]
        && taken.streams[0 := x.(frames := [Opening])] == [x.(frames := [Opening])];
    var begun := x.(frames := [Opening]);
    assert Write(taken, 0, Opening, 0.0) == Only(begun);
    assert Keepalive(Only(begun), 0) == Only(begun.(keepalive := true));
    assert StartRead(Only(begun.(keepalive := true)), 0, 0.0) == Only(Started());
  }

  /** A read that does not convert leaves the stream open, its error count at one, and the timer set. */
  lemma UnconvertibleGoesOn(c: Config, n: nat, frames: seq<Frame>, history: seq<ReadOutcome>, now: real)
    requires c.Valid() && c.maxConsecutiveErrors >= 2
    ensures Resume(c, Only(Reading(Waiting(n, frames, history, now), now)), 0, Unconvertible, now) ==
            Only(Waiting(n + 1, frames + [ErrorFrame], history + [Unconvertible], now))
  {
  }

  lemma TimerReads(c: Config, x: Stream, now: real)
    requires !x.closed && x.timer.Some? && now - x.startedAt < c.maxDurationMs
    ensures Tick(c, Disarm(Only(x), 0), 0, now, true, false) == Only(Reading(x, now))
  {
  }

  function Twice(): Trace {
    var a := Started();
    var b := Waiting(1, [Opening, ErrorFrame], [Unconvertible], 0.0);
    var d := Waiting(2, [Opening, ErrorFrame, ErrorFrame], [Unconvertible, Unconvertible], 1.0);
    Trace([EMPTY, Only(a), Only(b), Only(Reading(b, 1.0)), Only(d)],
          [Subscribes(Asked()), ReadEnds(0, Unconvertible, 0.0), TimerFires(0, 1.0, true, false),
           ReadEnds(0, Unconvertible, 1.0)])
  }

  /** Where two errors in a row are one too many, two reads in a row that do not convert leave the stream open. */
  lemma TwoInARowStayOpen(c: Config)
    requires c.Valid() && c.maxConsecutiveErrors == 2 && c.maxDurationMs > 1.0
    ensures IsTrace(Twice(), c)
    ensures var x := Twice().states[4].streams[0];
            !x.closed && x.history == [Unconvertible, Unconvertible] && x.consecutiveErrors == 1
  {
    var r := Twice();
    SubscribeStarts(c);
    UnconvertibleGoesOn(c, 0, [Opening], [], 0.0);
    UnconvertibleGoesOn(c, 1, [Opening, ErrorFrame], [Unconvertible], 1.0);
    TimerReads(c, Waiting(1, [Opening, ErrorFrame], [Unconvertible], 0.0), 1.0);
    assert [Opening] + [ErrorFrame] == [Opening, ErrorFrame] && [] + [Unconvertible] == [Unconvertible];
    assert [Opening, ErrorFrame] + [ErrorFrame] == [Opening, ErrorFrame, ErrorFrame];
    assert [Unconvertible] + [Unconvertible] == [Unconvertible, Unconvertible];
    assert Step(c, r.states[0], r.events[0], r.states[1]);
    assert Step(c, r.states[1], r.events[1], r.states[2]);
    assert Step(c, r.states[2], r.events[2], r.states[3]);
    assert Step(c, r.states[3], r.events[3], r.states[4]);
  }
}
