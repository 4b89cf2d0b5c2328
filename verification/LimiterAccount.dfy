/** The limiter, told by its answers. */
module LimiterAccount {
  import opened Schema
  import opened Limiter

  // What a run of packages/server/src/limits.ts answers, in terms of the calls before: which admissions were
  // granted and not released, which strikes were made, and when.

  // ---- which entry a call is about ----

  /** Call j of the run looked entry e up. */
  predicate Names(r: Run, j: int, e: nat)
    requires Lengths(r) && 0 <= j < |r.ops|
  {
    !r.ops[j].ReleaseAt? && EntryOf(r.states[j], r.ops[j].identity) == e
  }

  predicate StrikesOn(r: Run, j: int, e: nat)
    requires Lengths(r) && 0 <= j < |r.ops|
  {
    r.ops[j].StrikeAt? && Names(r, j, e)
  }

  predicate Trips(r: Run, j: int, e: nat)
    requires Lengths(r) && 0 <= j < |r.ops|
  {
    StrikesOn(r, j, e) && r.answers[j] == StrikeAnswer(true)
  }

  ghost predicate OnlyUnder(s: State, e: nat, name: string) {
    forall i | i in s.entries && s.entries[i] == e :: i == name
  }

  lemma {:induction false} MapsBack(r: Run, l: Limits, identity: string, a: nat, b: nat)
    requires IsRun(r, l) && a <= b <= |r.ops|
    requires identity in r.states[b].entries && r.states[b].entries[identity] < |r.states[a].pool|
    ensures SameEntry(r.states[a], r.states[b], identity)
    decreases b
  {
    if a < b {
      PoolGrows(r, l, a, b - 1);
      CallMaps(r, l, b - 1);
      MapsBack(r, l, identity, a, b - 1);
    }
  }

  /** The entry a call looks up exists afterwards, and is on the map, if at all, under the name it was looked up by. */
  lemma NamedEntry(r: Run, l: Limits, j: nat, e: nat)
    requires IsRun(r, l) && j < |r.ops| && Names(r, j, e)
    ensures e < |r.states[j + 1].pool|
    ensures OnlyUnder(r.states[j + 1], e, r.ops[j].identity)
  {
    CallFinds(r, l, j);
    assert Call(r, l, j);
    NextNames(r.states[j], l, r.ops[j], r.seen[j], r.answers[j], r.states[j + 1]);
  }

  lemma NextNames(s: State, l: Limits, op: Op, seen: State, a: Answer, t: State)
    requires Inv(s, l, op.now) && Next(s, l, op, seen, a, t) && !op.ReleaseAt?
    ensures EntryOf(s, op.identity) < |t.pool|
    ensures OnlyUnder(t, EntryOf(s, op.identity), op.identity)
    ensures op.identity in t.entries ==> t.entries[op.identity] == EntryOf(s, op.identity)
  {
    SeenNames(s, l, op.identity, op.now, seen);
    if op.AdmitAt? { DecideMaps(seen, l, EntryOf(s, op.identity), op.now); }
  }

  lemma SeenNames(s: State, l: Limits, identity: string, now: real, t: State)
    requires Inv(s, l, now) && SeenAs(s, l, identity, now, t)
    ensures EntryOf(s, identity) < |t.pool|
    ensures OnlyUnder(t, EntryOf(s, identity), identity)
    ensures identity in t.entries ==> t.entries[identity] == EntryOf(s, identity)
  {
    forall i | i in t.entries && t.entries[i] == EntryOf(s, identity) ensures i == identity {
      if identity in s.entries { assert Apart(s.entries, i, identity); }
    }
  }

  /** Two calls that find an entry under two names did not find the same one. */
  lemma SameNameLater(r: Run, l: Limits, j: nat, m: nat, e: nat)
    requires IsRun(r, l) && j < m < |r.ops| && Names(r, j, e) && Names(r, m, e)
    requires r.ops[m].identity in r.states[m].entries
    ensures r.ops[m].identity == r.ops[j].identity
  {
    NamedEntry(r, l, j, e);
    MapsBack(r, l, r.ops[m].identity, j + 1, m);
  }

  // ---- a strike that trips blocks ----

  lemma TrippedSets(s: State, l: Limits, op: Op, seen: State, a: Answer, t: State)
    requires Inv(s, l, op.now) && Next(s, l, op, seen, a, t) && op.StrikeAt? && a == StrikeAnswer(true)
    ensures var e := EntryOf(s, op.identity); e < |t.pool| && t.pool[e].blockedUntil == op.now + l.blockMs
  {
  }

  /** If a strike trips and its identity is on the map afterwards, every admission of it that is asked for
      less than blockMs later is refused for the cooldown, whatever else is called in between. */
  lemma TrippedBlocks(r: Run, l: Limits, k: nat, m: nat)
    requires IsRun(r, l) && k < m < |r.ops|
    requires r.ops[k].StrikeAt? && r.answers[k] == StrikeAnswer(true) && r.ops[k].identity in r.states[k + 1].entries
    requires r.ops[m].AdmitAt? && r.ops[m].identity == r.ops[k].identity && r.ops[m].now < r.ops[k].now + l.blockMs
    ensures r.answers[m].Admitted? && r.answers[m].outcome.Refused? && r.answers[m].outcome.why.Cooldown?
  {
    var i := r.ops[k].identity;
    CallFinds(r, l, k);
    assert Call(r, l, k);
    TrippedSets(r.states[k], l, r.ops[k], r.seen[k], r.answers[k], r.states[k + 1]);
    NextNames(r.states[k], l, r.ops[k], r.seen[k], r.answers[k], r.states[k + 1]);
    forall j | k + 1 <= j < m + 1 ensures r.ops[j].now < r.ops[k].now + l.blockMs { assert InTime(r.ops, j, m); }
    CooldownRunsItsCourse(r, l, i, k + 1, m + 1);
  }

  /** What may set a cooldown. */
  lemma NextBlocks(s: State, l: Limits, op: Op, seen: State, a: Answer, t: State, e: nat)
    requires Inv(s, l, op.now) && Next(s, l, op, seen, a, t) && e < |t.pool|
    ensures || (e < |s.pool| && t.pool[e].blockedUntil == s.pool[e].blockedUntil)
            || t.pool[e].blockedUntil == 0.0
            || (op.StrikeAt? && EntryOf(s, op.identity) == e && a == StrikeAnswer(true)
                && t.pool[e].blockedUntil == op.now + l.blockMs)
  {
  }

  ghost predicate BlockedBy(r: Run, l: Limits, e: nat, k: nat, until: real, j: int)
    requires Lengths(r) && k <= |r.ops|
  {
    0 <= j < k && Trips(r, j, e) && until == r.ops[j].now + l.blockMs
  }

  lemma {:induction false} BlockHasCause(r: Run, l: Limits, e: nat, k: nat)
    requires IsRun(r, l) && k <= |r.ops| && e < |r.states[k].pool|
    ensures r.states[k].pool[e].blockedUntil == 0.0
            || exists j :: BlockedBy(r, l, e, k, r.states[k].pool[e].blockedUntil, j)
    decreases k
  {
    if k > 0 {
      var n, until := k - 1, r.states[k].pool[e].blockedUntil;
      CallFinds(r, l, n);
      assert Call(r, l, n);
      NextBlocks(r.states[n], l, r.ops[n], r.seen[n], r.answers[n], r.states[k], e);
      if e < |r.states[n].pool| && until == r.states[n].pool[e].blockedUntil {
        BlockHasCause(r, l, e, n);
        if j :| BlockedBy(r, l, e, n, until, j) { assert BlockedBy(r, l, e, k, until, j); }
      } else if until != 0.0 {
        assert BlockedBy(r, l, e, k, until, n);
      }
    }
  }

  /** An admission is refused for a cooldown only if a strike of the same identity tripped less than blockMs
      before. */
  lemma CooldownHasCause(r: Run, l: Limits, m: nat) returns (j: nat)
    requires IsRun(r, l) && m < |r.ops| && r.ops[m].AdmitAt?
    requires r.answers[m].Admitted? && r.answers[m].outcome.Refused? && r.answers[m].outcome.why.Cooldown?
    ensures j < m && r.ops[j].StrikeAt? && r.ops[j].identity == r.ops[m].identity
    ensures r.answers[j] == StrikeAnswer(true) && r.ops[m].now < r.ops[j].now + l.blockMs
  {
    var e := EntryOf(r.states[m], r.ops[m].identity);
    CallFinds(r, l, m);
    assert Call(r, l, m);
    CoolingFrom(r.states[m], l, r.ops[m].identity, r.ops[m].now, r.seen[m]);
    BlockHasCause(r, l, e, m);
    j :| BlockedBy(r, l, e, m, r.states[m].pool[e].blockedUntil, j);
    SameNameLater(r, l, j, m, e);
  }

  lemma CoolingFrom(s: State, l: Limits, identity: string, now: real, seen: State)
    requires Inv(s, l, now) && SeenAs(s, l, identity, now, seen) && EntryOf(s, identity) < |seen.pool|
    requires seen.pool[EntryOf(s, identity)].blockedUntil > now
    ensures identity in s.entries && EntryOf(s, identity) < |s.pool|
    ensures s.pool[EntryOf(s, identity)].blockedUntil == seen.pool[EntryOf(s, identity)].blockedUntil > 0.0
  {
  }

  // ---- when a strike trips ----

  /** No strike on e has tripped from call j to call k - 1. */
  ghost predicate Untripped(r: Run, e: nat, j: int, k: int)
    requires Lengths(r) && 0 <= j <= k <= |r.ops|
  {
    forall m | j <= m < k :: !Trips(r, m, e)
  }

  /** The strikes on e before call k that count at an instant: inside the window, and not wiped by a trip. */
  ghost function Counting(r: Run, l: Limits, e: nat, k: int, now: real): set<int>
    requires Lengths(r) && 0 <= k <= |r.ops|
  {
    set j | 0 <= j < k && StrikesOn(r, j, e) && now - r.ops[j].now < l.strikeWindowMs && Untripped(r, e, j, k)
  }

  lemma CountingWithout(r: Run, l: Limits, e: nat, k: nat, now: real)
    requires Lengths(r) && k < |r.ops| && !StrikesOn(r, k, e)
    ensures Counting(r, l, e, k + 1, now) == Counting(r, l, e, k, now)
  {
    assert forall j | 0 <= j <= k :: Untripped(r, e, j, k + 1) <==> Untripped(r, e, j, k);
  }

  lemma CountingWith(r: Run, l: Limits, e: nat, k: nat, now: real)
    requires Lengths(r) && k < |r.ops| && StrikesOn(r, k, e)
    ensures Trips(r, k, e) ==> Counting(r, l, e, k + 1, now) == {}
    ensures !Trips(r, k, e) ==>
              Counting(r, l, e, k + 1, now) ==
              Counting(r, l, e, k, now) + if now - r.ops[k].now < l.strikeWindowMs then {k as int} else {}
    ensures k as int !in Counting(r, l, e, k, now)
  {
    if Trips(r, k, e) {
      var after := k + 1;
      forall j | 0 <= j <= k ensures !Untripped(r, e, j, after) {}
    } else {
      assert forall j | 0 <= j <= k :: Untripped(r, e, j, k + 1) <==> Untripped(r, e, j, k);
    }
  }

  /** The list an entry carries is as long as there are strikes that count. */
  lemma {:induction false} ListCounts(r: Run, l: Limits, e: nat, k: nat, now: real)
    requires IsRun(r, l) && k <= |r.ops| && ClockAt(r, k) <= now
    ensures |Recent(StrikesOf(r.states[k], e), l, now)| == |Counting(r, l, e, k, now)|
    decreases k
  {
    if k > 0 {
      var n := k - 1;
      ClockRuns(r, l, n);
      ListCounts(r, l, e, n, now);
      CallStrikes(r, l, n, e);
      if StrikesOn(r, n, e) {
        CountingWith(r, l, e, n, now);
        RecentAfterStrike(StrikesOf(r.states[n], e), l, r.ops[n].now, now);
      } else {
        CountingWithout(r, l, e, n, now);
      }
    }
  }

  lemma RecentAfterStrike(strikes: seq<real>, l: Limits, t: real, now: real)
    requires t <= now && l.Valid()
    ensures var (list, tripped) := StrikeList(strikes, l, t);
            Recent(list, l, now) ==
              if tripped then [] else Recent(strikes, l, now) + if now - t < l.strikeWindowMs then [t] else []
  {
    RecentOfRecent(strikes, l, t, now);
    RecentAppend(Recent(strikes, l, t), t, l, now);
  }

  /** A strike trips if and only if, with it, securityStrikes strikes on its entry count. */
  lemma TripsOnCount(r: Run, l: Limits, k: nat)
    requires IsRun(r, l) && k < |r.ops| && r.ops[k].StrikeAt?
    ensures var e := EntryOf(r.states[k], r.ops[k].identity);
            r.answers[k] == StrikeAnswer(|Counting(r, l, e, k, r.ops[k].now)| + 1 >= l.securityStrikes)
  {
    var e := EntryOf(r.states[k], r.ops[k].identity);
    ClockRuns(r, l, k);
    CallStrikes(r, l, k, e);
    ListCounts(r, l, e, k, r.ops[k].now);
  }

  // ---- when an admission is granted ----

  /** The answer to an admission, from the grants that are not released and from what the bucket holds. */
  lemma AdmissionDecided(s: State, l: Limits, i: string, now: real, seen: State, o: Outcome, t: State)
    requires Inv(s, l, now) && Next(s, l, AdmitAt(i, now), seen, Admitted(o), t)
    ensures var e := EntryOf(s, i);
            var cooling := e < |s.pool| && s.pool[e].blockedUntil > now;
            var busy := OpenAll(s.grants) >= l.maxConcurrent;
            var own := OpenOf(s.grants, e) >= l.maxConcurrentPerIdentity;
            var broke := Credit(s, l, e, now) < 1.0;
            && (o.Granted? <==> !cooling && !busy && !own && !broke)
            && (o.Refused? ==>
                  o.why == if cooling then Cooldown else if busy then Busy else if own then OwnLimit else NoTokens)
            && (o.Granted? ==> o.grant == |s.grants| && t.grants == s.grants + [Grant(e, false)])
            && (o.Refused? ==> t.grants == s.grants)
  {
    SeenConserves(s, l, i, now, seen, EntryOf(s, i));
    SeenKeeps(s, l, i, now, seen);
  }

  // ---- no shorter wait would do ----

  /** What a bucket earns in less than a second short of the advertised wait is not enough. */
  lemma ShortWaitEarnsLess(tokens: real, l: Limits, waited: real)
    requires l.Valid() && tokens < 1.0 && 0.0 <= waited < (TokenWait(tokens, l) - 1) as real * 1000.0
    ensures tokens + Earned(waited, l) < 1.0
  {
    var x := (1.0 - tokens) * 60_000.0 / l.questionsPerMinute;
    assert waited < x;
    var short := x - waited;
    assert short * l.questionsPerMinute > 0.0;
    assert waited * l.questionsPerMinute == x * l.questionsPerMinute - short * l.questionsPerMinute;
    assert x * l.questionsPerMinute == (1.0 - tokens) * 60_000.0;
  }

  lemma WaitedLess(entry: Entry, l: Limits, now: real, later: real)
    requires l.Valid() && entry.tokens < 1.0 && entry.refilledAt == now <= later
    requires later < now + (TokenWait(entry.tokens, l) - 1) as real * 1000.0
    ensures Refill(entry, l, later).tokens < 1.0
  {
    ShortWaitEarnsLess(entry.tokens, l, later - now);
    assert Max(0.0, later - now) == later - now;
  }

  lemma NotGrantedWithout(s: State, l: Limits, e: nat, now: real)
    requires l.Valid() && e < |s.pool| && Refill(s.pool[e], l, now).tokens < 1.0
    ensures !Decide(s, l, e, now).1.Granted?
  {
  }

  lemma RefusedRefills(s: State, l: Limits, e: nat, now: real)
    requires l.Valid() && e < |s.pool|
    ensures var (t, o) := Decide(s, l, e, now);
            o.Refused? && o.why.NoTokens? ==>
              var refilled := Refill(s.pool[e], l, now);
              && refilled.tokens < 1.0 && o.retryAfterSec == TokenWait(refilled.tokens, l)
              && t == WithEntry(s, e, refilled)
  {
  }

  /** After a refusal for want of tokens, and with no call in between, no admission is granted a whole second or more
      before the advertised time. */
  lemma TokensNotSooner(s: State, l: Limits, identity: string, now: real, seen: State, t: State, o: Outcome,
                        later: real, seen': State)
    requires Inv(s, l, now) && SeenAs(s, l, identity, now, seen) && EntryOf(s, identity) < |seen.pool|
    requires (t, o) == Decide(seen, l, EntryOf(s, identity), now)
    requires o.Refused? && o.why.NoTokens? && now <= later < now + (o.retryAfterSec - 1) as real * 1000.0
    requires SeenAs(t, l, identity, later, seen') && EntryOf(t, identity) < |seen'.pool|
    ensures !Decide(seen', l, EntryOf(t, identity), later).1.Granted?
  {
    var e := EntryOf(s, identity);
    var refilled := Refill(seen.pool[e], l, now);
    RefusedRefills(seen, l, e, now);
    if identity in t.entries {
      SeenNames(s, l, identity, now, seen);
      WaitedLess(refilled.(seenAt := later), l, now, later);
    } else {
      NoBucketHolds(s, l, identity, now, seen, later);
    }
    NotGrantedWithout(seen', l, EntryOf(t, identity), later);
  }

  /** Whoever is dropped at birth for want of room was refused for a burst of less than one. */
  lemma NoBucketHolds(s: State, l: Limits, identity: string, now: real, seen: State, later: real)
    requires Inv(s, l, now) && SeenAs(s, l, identity, now, seen) && EntryOf(s, identity) < |seen.pool|
    requires identity !in seen.entries && Refill(seen.pool[EntryOf(s, identity)], l, now).tokens < 1.0
    ensures Refill(FreshEntry(l, later), l, later).tokens < 1.0
  {
    FreshHoldsBurst(l, now);
    FreshHoldsBurst(l, later);
  }

  /** Nor is a cooldown over a whole second or more before the advertised time. */
  lemma CooldownNotSooner(s: State, l: Limits, identity: string, now: real, seen: State, t: State, o: Outcome,
                          later: real, seen': State)
    requires Inv(s, l, now) && SeenAs(s, l, identity, now, seen) && EntryOf(s, identity) < |seen.pool|
    requires (t, o) == Decide(seen, l, EntryOf(s, identity), now)
    requires o.Refused? && o.why.Cooldown? && now <= later <= now + (o.retryAfterSec - 1) as real * 1000.0
    requires SeenAs(t, l, identity, later, seen') && EntryOf(t, identity) < |seen'.pool|
    ensures var again := Decide(seen', l, EntryOf(t, identity), later).1; again.Refused? && again.why.Cooldown?
  {
    assert t == seen && identity in s.entries && t.entries[identity] == s.entries[identity];
  }

  // ---- when an entry was last seen ----

  ghost predicate LastNamed(r: Run, e: nat, k: int, at: real, j: int)
    requires Lengths(r) && 0 <= k <= |r.ops|
  {
    0 <= j < k && Names(r, j, e) && r.ops[j].now == at && forall m | j < m < k :: !Names(r, m, e)
  }

  lemma NextSees(s: State, l: Limits, op: Op, seen: State, a: Answer, t: State, e: nat)
    requires Inv(s, l, op.now) && Next(s, l, op, seen, a, t) && e < |t.pool|
    ensures if !op.ReleaseAt? && EntryOf(s, op.identity) == e then t.pool[e].seenAt == op.now
            else e < |s.pool| && t.pool[e].seenAt == s.pool[e].seenAt
  {
  }

  /** What a sweep goes by is when an identity last asked or struck. */
  lemma {:induction false} SeenWhenLastNamed(r: Run, l: Limits, e: nat, k: nat)
    requires IsRun(r, l) && k <= |r.ops| && e < |r.states[k].pool|
    ensures exists j :: LastNamed(r, e, k, r.states[k].pool[e].seenAt, j)
    decreases k
  {
    if k > 0 {
      var n, at := k - 1, r.states[k].pool[e].seenAt;
      CallFinds(r, l, n);
      assert Call(r, l, n);
      NextSees(r.states[n], l, r.ops[n], r.seen[n], r.answers[n], r.states[k], e);
      if Names(r, n, e) {
        assert LastNamed(r, e, k, at, n);
      } else {
        SeenWhenLastNamed(r, l, e, n);
        var j :| LastNamed(r, e, n, at, j);
        assert LastNamed(r, e, k, at, j);
      }
    }
  }

  // ---- who is not dropped ----

  /** An identity with a grant that is not released stays on the map, whoever else arrives. */
  lemma BusyStaysOnMap(s: State, l: Limits, op: Op, seen: State, a: Answer, t: State, identity: string)
    requires Inv(s, l, op.now) && Next(s, l, op, seen, a, t)
    requires identity in s.entries && OpenOf(s.grants, s.entries[identity]) > 0
    ensures SameEntry(s, t, identity)
  {
    var e := s.entries[identity];
    assert s.pool[e].inFlight == OpenOf(s.grants, e);
    match op {
      case AdmitAt(i, now) =>
        BusyStaysSeen(s, l, i, now, seen, identity);
        DecideMaps(seen, l, EntryOf(s, i), now);
      case StrikeAt(i, now) => BusyStaysSeen(s, l, i, now, seen, identity);
      case ReleaseAt(g, now) =>
    }
  }

  lemma BusyStaysSeen(s: State, l: Limits, i: string, now: real, t: State, identity: string)
    requires Inv(s, l, now) && SeenAs(s, l, i, now, t)
    requires identity in s.entries && s.entries[identity] < |s.pool| && s.pool[s.entries[identity]].inFlight > 0
    ensures SameEntry(s, t, identity)
  {
    if i !in s.entries { assert !Idle(Track(s, i, FreshEntry(l, now)), identity, now); }
  }
}
