/** Two runs of the limiter. */
module LimiterWitness {
  import opened Limiter

  // Of packages/server/src/limits.ts, for every setting of the limits in question, from the empty limiter:
  // runs in which it turns callers away for good.

  function FirstSeen(l: Limits, i: string): State {
    State(map[i := 0], [FreshEntry(l, 0.0)], 0, [])
  }

  function First(l: Limits, i: string): (State, Outcome)
    requires l.questionsPerMinute > 0.0
  {
    Decide(FirstSeen(l, i), l, 0, 0.0)
  }

  lemma FirstIsSeen(l: Limits, i: string)
    requires l.Valid()
    ensures SeenAs(EMPTY, l, i, 0.0, FirstSeen(l, i)) && EntryOf(EMPTY, i) == 0
  {
    var track := Track(EMPTY, i, FreshEntry(l, 0.0));
    assert track == FirstSeen(l, i);
    assert track.entries.Keys == {i};
    assert |track.entries| == 1;
  }

  function OneCall(l: Limits, i: string): Run
    requires l.questionsPerMinute > 0.0
  {
    Run([EMPTY, First(l, i).0], [AdmitAt(i, 0.0)], [FirstSeen(l, i)], [Admitted(First(l, i).1)])
  }

  lemma OneCallIsRun(l: Limits, i: string)
    requires l.Valid()
    ensures IsRun(OneCall(l, i), l)
  {
    FirstIsSeen(l, i);
  }

  lemma RefilledAtOnce(l: Limits)
    requires l.Valid()
    ensures Refill(FreshEntry(l, 0.0), l, 0.0) == FreshEntry(l, 0.0)
  {
    assert Earned(0.0, l) == 0.0;
  }

  // ---- a limiter that is full of callers at work ----

  /** With room for one identity and that one at work, the next identity is off the map as soon as it is on:
      whatever it is charged with is forgotten. */
  lemma FullAndBusyForgets(l: Limits, i: string, j: string, t: State)
    requires l.Valid() && l.maxTrackedIdentities == 1 && l.burst >= 1.0 && i != j
    requires SeenAs(OneCall(l, i).states[1], l, j, 0.0, t)
    ensures IsRun(OneCall(l, i), l) && OneCall(l, i).answers[0].outcome.Granted?
    ensures j !in t.entries
  {
    OneCallIsRun(l, i);
    RefilledAtOnce(l);
    var s := OneCall(l, i).states[1];
    EveryRunKeeps(OneCall(l, i), l, 1);
    assert s.entries == map[i := 0] && s.pool[0].inFlight == 1;
    assert s.entries.Keys == {i};
    assert |s.entries| == 1;
    NewIdentityIsKept(s, l, j, 0.0, t);
  }

  // ---- a bucket that holds less than one token ----

  /** How long the first refusal says to wait. */
  function Advertised(l: Limits): real
    requires l.questionsPerMinute > 0.0
  {
    TokenWait(l.burst, l) as real * 1000.0
  }

  function SecondSeen(l: Limits, i: string, now: real): State
    requires l.questionsPerMinute > 0.0
  {
    var s := First(l, i).0;
    s.(pool := [s.pool[0].(seenAt := now)])
  }

  function TwoCalls(l: Limits, i: string, now: real): Run
    requires l.questionsPerMinute > 0.0
  {
    var second := Decide(SecondSeen(l, i, now), l, 0, now);
    Run([EMPTY, First(l, i).0, second.0], [AdmitAt(i, 0.0), AdmitAt(i, now)], [FirstSeen(l, i), SecondSeen(l, i, now)],
        [Admitted(First(l, i).1), Admitted(second.1)])
  }

  /** With a burst under one a caller is refused for want of a token, and again after the advertised wait, and
      however much longer it waits. */
  lemma SmallBurstNeverAdmits(l: Limits, i: string, now: real)
    requires l.Valid() && l.burst < 1.0 && now >= Advertised(l)
    ensures var r := TwoCalls(l, i, now);
            && IsRun(r, l)
            && r.answers[0] == Admitted(Refused(NoTokens, TokenWait(l.burst, l)))
            && r.answers[1].outcome.Refused? && r.answers[1].outcome.why == NoTokens
  {
    RefilledAtOnce(l);
    FirstIsSeen(l, i);
    assert Advertised(l) >= 0.0;
    var s := First(l, i).0;
    assert s == FirstSeen(l, i);
    assert SecondSeen(l, i, now) == WithEntry(s, 0, s.pool[0].(seenAt := now));
    SecondRefused(l, i, now);
    TwoCallsRun(l, i, now);
  }

  lemma SecondRefused(l: Limits, i: string, now: real)
    requires l.Valid() && l.burst < 1.0 && now >= 0.0 && First(l, i).0 == FirstSeen(l, i)
    ensures var o := Decide(SecondSeen(l, i, now), l, 0, now).1; o.Refused? && o.why == NoTokens
  {
  }

  lemma TwoCallsRun(l: Limits, i: string, now: real)
    requires l.Valid() && now >= 0.0 && SeenAs(EMPTY, l, i, 0.0, FirstSeen(l, i)) && EntryOf(EMPTY, i) == 0
    requires First(l, i).0 == FirstSeen(l, i)
    ensures IsRun(TwoCalls(l, i, now), l)
  {
    var r := TwoCalls(l, i, now);
    assert SeenAs(r.states[1], l, i, now, r.seen[1]);
    forall j, k | 0 <= j <= k < 2 ensures InTime(r.ops, j, k) {}
  }
}
