/** packages/server/src/limits.ts: the rate limiter. */
module Limiter {
  import opened Schema
  import opened Numbers

  // A release closure keeps hold of the entry it was granted on even after that entry has left the map,
  // so an entry has an identity of its own here: its index in `pool`. Indices grow with creation, which
  // is the map's insertion order.

  datatype Limits = Limits(
    maxConcurrentPerIdentity: int,
    maxConcurrent: int,
    questionsPerMinute: real,
    burst: real,
    securityStrikes: int,
    strikeWindowMs: real,
    blockMs: real,
    maxTrackedIdentities: int)
  {
    ghost predicate Valid() {
      && maxConcurrentPerIdentity >= 1 && maxConcurrent >= 1 && securityStrikes >= 1 && maxTrackedIdentities >= 1
      && questionsPerMinute > 0.0 && burst > 0.0 && strikeWindowMs > 0.0 && blockMs > 0.0
    }
  }

  datatype Entry = Entry(
    tokens: real,
    refilledAt: real,
    inFlight: int,
    strikes: seq<real>,
    blockedUntil: real,
    seenAt: real)

  datatype Grant = Grant(entry: nat, released: bool)

  datatype State = State(entries: map<string, nat>, pool: seq<Entry>, inFlight: int, grants: seq<Grant>)

  datatype Refusal = Cooldown | Busy | OwnLimit | NoTokens {
    function Status(): int { if Busy? then 503 else 429 }
  }

  datatype Outcome = Granted(grant: nat) | Refused(why: Refusal, retryAfterSec: int)

  const EMPTY := State(map[], [], 0, [])

  // ---- arithmetic ----

  function Min(a: real, b: real): real { if a <= b then a else b }

  function Max(a: real, b: real): real { if a <= b then b else a }

  /** Tokens earned in a stretch of time. */
  function Earned(elapsedMs: real, l: Limits): real {
    elapsedMs * l.questionsPerMinute / 60_000.0
  }

  lemma EarnedAdds(a: real, b: real, l: Limits)
    ensures Earned(a + b, l) == Earned(a, l) + Earned(b, l)
  {
    assert (a + b) * l.questionsPerMinute == a * l.questionsPerMinute + b * l.questionsPerMinute;
  }

  lemma EarnedPositive(a: real, l: Limits)
    requires a >= 0.0 && l.questionsPerMinute > 0.0
    ensures Earned(a, l) >= 0.0
  {
    assert a * l.questionsPerMinute >= 0.0;
  }

  // ---- sweeping ----

  predicate Apart(entries: map<string, nat>, i: string, j: string) {
    i in entries && j in entries && i != j ==> entries[i] != entries[j]
  }

  /** Distinct identities have distinct entries, and entries and grants name existing objects. */
  ghost predicate Shape(s: State) {
    && (forall i | i in s.entries :: s.entries[i] < |s.pool|)
    && (forall i, j :: Apart(s.entries, i, j))
    && (forall g | 0 <= g < |s.grants| :: s.grants[g].entry < |s.pool|)
  }

  predicate Idle(s: State, i: string, now: real) {
    && i in s.entries && s.entries[i] < |s.pool|
    && s.pool[s.entries[i]].inFlight == 0
    && s.pool[s.entries[i]].blockedUntil <= now
  }

  /** Seen longer ago, or as long ago and inserted earlier: the order of a stable sort by `seenAt`. */
  predicate Before(s: State, i: string, j: string)
    requires i in s.entries && s.entries[i] < |s.pool| && j in s.entries && s.entries[j] < |s.pool|
  {
    var a, b := s.entries[i], s.entries[j];
    s.pool[a].seenAt < s.pool[b].seenAt || (s.pool[a].seenAt == s.pool[b].seenAt && a < b)
  }

  ghost predicate IsVictim(s: State, i: string, now: real) {
    Idle(s, i, now) && forall j | j != i && Idle(s, j, now) :: Before(s, i, j)
  }

  ghost predicate FirstAmong(s: State, i: string, among: set<string>, now: real) {
    i in among && Idle(s, i, now) && forall j | j in among && j != i && Idle(s, j, now) :: Before(s, i, j)
  }

  function Forget(s: State, i: string): State {
    s.(entries := s.entries - {i})
  }

  /** A sweep only takes identities off the map. */
  ghost predicate Narrows(s: State, t: State) {
    && t.pool == s.pool && t.inFlight == s.inFlight && t.grants == s.grants
    && t.entries.Keys <= s.entries.Keys
    && forall i | i in t.entries :: t.entries[i] == s.entries[i]
  }

  ghost predicate RightlyDropped(s: State, i: string, t: State, now: real) {
    Idle(s, i, now) && forall j | j in t.entries && Idle(s, j, now) :: Before(s, i, j)
  }

  /** `target` identities are dropped, or as many as are idle; each was idle and unblocked, and seen
      before every idle identity that stays. */
  ghost predicate SweptBy(s: State, t: State, target: int, now: real) {
    && Narrows(s, t)
    && (forall i | i in s.entries && i !in t.entries :: RightlyDropped(s, i, t, now))
    && |t.entries| >= |s.entries| - AtLeastZero(target)
    && (|t.entries| > |s.entries| - AtLeastZero(target) ==> forall i :: !Idle(t, i, now))
  }

  ghost predicate Swept(s: State, t: State, l: Limits, now: real) {
    SweptBy(s, t, |s.entries| - l.maxTrackedIdentities, now)
  }

  /** Taking identities off the map, or putting one on for a new entry, keeps entries apart. */
  lemma NarrowedShape(s: State, t: State)
    requires Shape(s) && Narrows(s, t)
    ensures Shape(t)
  {
    forall i, j ensures Apart(t.entries, i, j) { assert Apart(s.entries, i, j); }
  }

  lemma TrackedShape(s: State, identity: string, entry: Entry)
    requires Shape(s) && identity !in s.entries
    ensures Shape(Track(s, identity, entry))
  {
    forall i, j ensures Apart(Track(s, identity, entry).entries, i, j) { assert Apart(s.entries, i, j); }
  }

  lemma MapSizes(a: map<string, nat>, b: map<string, nat>)
    ensures a.Keys <= b.Keys ==> |a| <= |b|
    ensures a.Keys <= b.Keys && |a| >= |b| ==> a.Keys == b.Keys
  {
    assert |a| == |a.Keys| && |b| == |b.Keys|;
    if a.Keys <= b.Keys { if a.Keys != b.Keys { ProperSubset(a.Keys, b.Keys); } }
  }

  lemma ProperSubset(a: set<string>, b: set<string>)
    requires a < b
    ensures |a| < |b|
  {
    assert b == a + (b - a);
    assert |b| == |a| + |b - a|;
    assert b - a != {};
  }

  /** Those conditions leave no choice. */
  lemma SweepIsDetermined(s: State, t: State, u: State, target: int, now: real)
    requires Shape(s) && SweptBy(s, t, target, now) && SweptBy(s, u, target, now)
    ensures t == u
  {
    SweepKeepsNoMore(s, t, u, target, now);
    SweepKeepsNoMore(s, u, t, target, now);
    assert t.entries == u.entries;
  }

  lemma SweepKeepsNoMore(s: State, t: State, u: State, target: int, now: real)
    requires Shape(s) && SweptBy(s, t, target, now) && SweptBy(s, u, target, now)
    ensures t.entries.Keys <= u.entries.Keys
  {
    MapSizes(u.entries, t.entries);
    forall i | i in t.entries ensures i in u.entries {
      if i !in u.entries {
        assert RightlyDropped(s, i, u, now);
        assert Idle(t, i, now);
      }
    }
  }

  // ---- the operations ----

  function FreshEntry(l: Limits, now: real): Entry {
    Entry(l.burst, now, 0, [], 0.0, now)
  }

  function WithEntry(s: State, e: nat, entry: Entry): State
    requires e < |s.pool|
  {
    s.(pool := s.pool[e := entry])
  }

  function Track(s: State, identity: string, entry: Entry): State {
    s.(entries := s.entries[identity := |s.pool|], pool := s.pool + [entry])
  }

  /** t is the state after `entryFor`. */
  ghost predicate SeenAs(s: State, l: Limits, identity: string, now: real, t: State) {
    if identity in s.entries then
      s.entries[identity] < |s.pool| && t ==
          WithEntry(s, s.entries[identity], s.pool[s.entries[identity]].(seenAt := now))
    else Swept(Track(s, identity, FreshEntry(l, now)), t, l, now)
  }

  /** The entry `entryFor` returns, which a sweep may already have dropped from the map. */
  function EntryOf(s: State, identity: string): nat {
    if identity in s.entries then s.entries[identity] else |s.pool|
  }

  function Refill(entry: Entry, l: Limits, now: real): Entry {
    var elapsed := Max(0.0, now - entry.refilledAt);
    entry.(tokens := Min(l.burst, entry.tokens + Earned(elapsed, l)), refilledAt := now)
  }

  function TokenWait(tokens: real, l: Limits): int
    requires l.questionsPerMinute > 0.0
  {
    var n := Ceil((1.0 - tokens) * 60_000.0 / l.questionsPerMinute / 1000.0);
    if n < 1 then 1 else n
  }

  function Charge(s: State, e: nat, refilled: Entry): State
    requires e < |s.pool|
  {
    WithEntry(s, e, refilled.(tokens := refilled.tokens - 1.0, inFlight := refilled.inFlight + 1))
      .(inFlight := s.inFlight + 1, grants := s.grants + [Grant(e, false)])
  }

  /** `admit` once the entry is known. */
  function Decide(s: State, l: Limits, e: nat, now: real): (State, Outcome)
    requires e < |s.pool| && l.questionsPerMinute > 0.0
  {
    var entry := s.pool[e];
    if entry.blockedUntil > now then (s, Refused(Cooldown, Ceil((entry.blockedUntil - now) / 1000.0)))
    else if s.inFlight >= l.maxConcurrent then (s, Refused(Busy, 1))
    else if entry.inFlight >= l.maxConcurrentPerIdentity then (s, Refused(OwnLimit, 1))
    else
      var refilled := Refill(entry, l, now);
      if refilled.tokens < 1.0 then (WithEntry(s, e, refilled), Refused(NoTokens, TokenWait(refilled.tokens, l)))
      else (Charge(s, e, refilled), Granted(|s.grants|))
  }

  function Release(s: State, g: nat): State
    requires g < |s.grants| && s.grants[g].entry < |s.pool|
  {
    if s.grants[g].released then s
    else
      var e := s.grants[g].entry;
      var entry := s.pool[e];
      WithEntry(s, e, entry.(inFlight := AtLeastZero(entry.inFlight - 1)))
        .(inFlight := AtLeastZero(s.inFlight - 1), grants := s.grants[g := Grant(e, true)])
  }

  /** Of the first n strikes, those still in the window. */
  function RecentOf(strikes: seq<real>, l: Limits, now: real, n: nat): seq<real>
    requires n <= |strikes|
  {
    if n == 0 then []
    else RecentOf(strikes, l, now, n - 1) + if now - strikes[n - 1] < l.strikeWindowMs then [strikes[n - 1]] else []
  }

  function Recent(strikes: seq<real>, l: Limits, now: real): seq<real> {
    RecentOf(strikes, l, now, |strikes|)
  }

  /** The strike list afterwards, and whether this strike started a cooldown. */
  function StrikeList(strikes: seq<real>, l: Limits, now: real): (seq<real>, bool) {
    var pruned := Recent(strikes, l, now) + [now];
    if |pruned| < l.securityStrikes then (pruned, false) else ([], true)
  }

  function Struck(entry: Entry, l: Limits, now: real): (Entry, bool) {
    var (strikes, tripped) := StrikeList(entry.strikes, l, now);
    (entry.(strikes := strikes, blockedUntil := if tripped then now + l.blockMs else entry.blockedUntil), tripped)
  }

  function StrikeEntry(s: State, l: Limits, e: nat, now: real): (State, bool)
    requires e < |s.pool|
  {
    (WithEntry(s, e, Struck(s.pool[e], l, now).0), Struck(s.pool[e], l, now).1)
  }

  // ---- the books ----

  /** How many of the first n grants are on entry e, and how many of those are not released. */
  function TotalUpTo(grants: seq<Grant>, e: nat, n: nat): nat
    requires n <= |grants|
  {
    if n == 0 then 0 else TotalUpTo(grants, e, n - 1) + if grants[n - 1].entry == e then 1 else 0
  }

  function OpenUpTo(grants: seq<Grant>, e: nat, n: nat): nat
    requires n <= |grants|
  {
    if n == 0 then 0 else OpenUpTo(grants, e, n - 1) + if grants[n - 1].entry == e && !grants[n - 1].released then 1
        else 0
  }

  function OpenAllUpTo(grants: seq<Grant>, n: nat): nat
    requires n <= |grants|
  {
    if n == 0 then 0 else OpenAllUpTo(grants, n - 1) + if grants[n - 1].released then 0 else 1
  }

  /** Grants of entry e that were ever handed out. */
  function TotalOf(grants: seq<Grant>, e: nat): nat {
    TotalUpTo(grants, e, |grants|)
  }

  /** Grants of entry e that are not released. */
  function OpenOf(grants: seq<Grant>, e: nat): nat {
    OpenUpTo(grants, e, |grants|)
  }

  function OpenAll(grants: seq<Grant>): nat {
    OpenAllUpTo(grants, |grants|)
  }

  lemma {:induction false} ReleaseCountsUpTo(grants: seq<Grant>, g: nat, e: nat, n: nat)
    requires g < |grants| && !grants[g].released && n <= |grants|
    ensures var after := grants[g := Grant(grants[g].entry, true)];
            && OpenAllUpTo(after, n) == OpenAllUpTo(grants, n) - (if g < n then 1 else 0)
            && OpenUpTo(after, e, n) == OpenUpTo(grants, e, n) - (if g < n && grants[g].entry == e then 1 else 0)
            && TotalUpTo(after, e, n) == TotalUpTo(grants, e, n)
  {
    if n > 0 { ReleaseCountsUpTo(grants, g, e, n - 1); }
  }

  lemma ReleaseCounts(grants: seq<Grant>, g: nat, e: nat)
    requires g < |grants| && !grants[g].released
    ensures var after := grants[g := Grant(grants[g].entry, true)];
            && OpenAll(after) == OpenAll(grants) - 1
            && OpenOf(after, e) == OpenOf(grants, e) - (if grants[g].entry == e then 1 else 0)
            && TotalOf(after, e) == TotalOf(grants, e)
  {
    ReleaseCountsUpTo(grants, g, e, |grants|);
  }

  lemma {:induction false} CountsOnPrefix(grants: seq<Grant>, more: Grant, d: nat, n: nat)
    requires n <= |grants|
    ensures OpenAllUpTo(grants + [more], n) == OpenAllUpTo(grants, n)
    ensures OpenUpTo(grants + [more], d, n) == OpenUpTo(grants, d, n)
    ensures TotalUpTo(grants + [more], d, n) == TotalUpTo(grants, d, n)
  {
    if n > 0 { CountsOnPrefix(grants, more, d, n - 1); }
  }

  lemma GrantCounts(grants: seq<Grant>, e: nat, d: nat)
    ensures var after := grants + [Grant(e, false)];
            && OpenAll(after) == OpenAll(grants) + 1
            && OpenOf(after, d) == OpenOf(grants, d) + (if d == e then 1 else 0)
            && TotalOf(after, d) == TotalOf(grants, d) + (if d == e then 1 else 0)
  {
    CountsOnPrefix(grants, Grant(e, false), d, |grants|);
  }

  lemma NoGrantsYet(grants: seq<Grant>, e: nat)
    requires forall g | 0 <= g < |grants| :: grants[g].entry != e
    ensures OpenOf(grants, e) == 0 && TotalOf(grants, e) == 0
  {
    NoneUpTo(grants, e, |grants|);
  }

  lemma {:induction false} NoneUpTo(grants: seq<Grant>, e: nat, n: nat)
    requires n <= |grants| && forall g | 0 <= g < |grants| :: grants[g].entry != e
    ensures OpenUpTo(grants, e, n) == 0 && TotalUpTo(grants, e, n) == 0
  {
    if n > 0 { NoneUpTo(grants, e, n - 1); }
  }

  ghost predicate Sane(entry: Entry, l: Limits, clock: real) {
    && 0.0 <= entry.tokens <= l.burst
    && 0 <= entry.inFlight <= l.maxConcurrentPerIdentity
    && entry.refilledAt <= clock && entry.seenAt <= clock
    && entry.blockedUntil <= clock + l.blockMs
  }

  ghost predicate Books(s: State) {
    && s.inFlight == OpenAll(s.grants)
    && forall e | 0 <= e < |s.pool| :: s.pool[e].inFlight == OpenOf(s.grants, e)
  }

  ghost predicate SaneAll(s: State, l: Limits, clock: real) {
    forall e | 0 <= e < |s.pool| :: Sane(s.pool[e], l, clock)
  }

  /** What holds between any two calls. */
  ghost predicate Inv(s: State, l: Limits, clock: real) {
    && l.Valid() && 0.0 <= clock
    && Shape(s)
    && Books(s)
    && SaneAll(s, l, clock)
    && s.inFlight <= l.maxConcurrent
    && |s.entries| <= l.maxTrackedIdentities
  }

  lemma TimePassesInv(s: State, l: Limits, clock: real, now: real)
    requires Inv(s, l, clock) && clock <= now
    ensures Inv(s, l, now)
  {
    forall e | 0 <= e < |s.pool| ensures Sane(s.pool[e], l, now) { assert Sane(s.pool[e], l, clock); }
  }

  lemma TrackKeepsBooks(s: State, l: Limits, identity: string, now: real)
    requires Inv(s, l, now) && identity !in s.entries
    ensures var t := Track(s, identity, FreshEntry(l, now));
            Shape(t) && Books(t) && SaneAll(t, l, now) && |t.entries| == |s.entries| + 1 && Idle(t, identity, now)
  {
    var t := Track(s, identity, FreshEntry(l, now));
    NoGrantsYet(s.grants, |s.pool|);
    TrackedShape(s, identity, FreshEntry(l, now));
    assert t.entries.Keys == s.entries.Keys + {identity};
    assert |t.entries| == |t.entries.Keys| && |s.entries| == |s.entries.Keys|;
    forall e | 0 <= e < |t.pool| ensures Sane(t.pool[e], l, now) && t.pool[e].inFlight == OpenOf(t.grants, e) {
      if e < |s.pool| { assert Sane(s.pool[e], l, now) && t.pool[e] == s.pool[e]; }
    }
  }

  /** Changing one entry without touching what it has in flight. */
  lemma WithEntryKeeps(s: State, l: Limits, e: nat, entry: Entry, now: real)
    requires Inv(s, l, now) && e < |s.pool|
    requires Sane(entry, l, now) && entry.inFlight == s.pool[e].inFlight
    ensures Inv(WithEntry(s, e, entry), l, now)
  {
    var t := WithEntry(s, e, entry);
    forall d | 0 <= d < |t.pool| ensures Sane(t.pool[d], l, now) && t.pool[d].inFlight == OpenOf(t.grants, d) {
      assert Sane(s.pool[d], l, now);
    }
  }

  lemma SweepKeepsBooks(u: State, l: Limits, identity: string, now: real, t: State)
    requires l.Valid() && 0.0 <= now && Shape(u) && Books(u) && SaneAll(u, l, now)
    requires u.inFlight <= l.maxConcurrent && |u.entries| <= l.maxTrackedIdentities + 1
    requires Idle(u, identity, now) && Swept(u, t, l, now)
    ensures Inv(t, l, now)
  {
    NarrowedShape(u, t);
    if |t.entries| > l.maxTrackedIdentities {
      MapSizes(t.entries, u.entries);
      assert identity in t.entries ==> Idle(t, identity, now);
    }
  }

  /** A new identity that finds the map full makes room, at worst by being dropped again itself. */
  lemma SeenKeeps(s: State, l: Limits, identity: string, now: real, t: State)
    requires Inv(s, l, now) && SeenAs(s, l, identity, now, t)
    ensures Inv(t, l, now) && EntryOf(s, identity) < |t.pool|
  {
    if identity in s.entries {
      var e := s.entries[identity];
      assert Sane(s.pool[e], l, now);
      WithEntryKeeps(s, l, e, s.pool[e].(seenAt := now), now);
    } else {
      TrackKeepsBooks(s, l, identity, now);
      SweepKeepsBooks(Track(s, identity, FreshEntry(l, now)), l, identity, now, t);
    }
  }

  lemma DecideKeeps(s: State, l: Limits, e: nat, now: real)
    requires Inv(s, l, now) && e < |s.pool|
    ensures Inv(Decide(s, l, e, now).0, l, now)
  {
    var entry := s.pool[e];
    assert Sane(entry, l, now);
    EarnedPositive(now - entry.refilledAt, l);
    var refilled := Refill(entry, l, now);
    assert Sane(refilled, l, now);
    WithEntryKeeps(s, l, e, refilled, now);
    if Decide(s, l, e, now).1.Granted? {
      var t := Charge(s, e, refilled);
      GrantCounts(s.grants, e, e);
      forall d | 0 <= d < |t.pool| ensures Sane(t.pool[d], l, now) && t.pool[d].inFlight == OpenOf(t.grants, d) {
        assert Sane(s.pool[d], l, now);
        GrantCounts(s.grants, e, d);
      }
    }
  }

  lemma {:induction false} OpenHasGrant(grants: seq<Grant>, g: nat, n: nat)
    requires g < n <= |grants| && !grants[g].released
    ensures OpenUpTo(grants, grants[g].entry, n) >= 1 && OpenAllUpTo(grants, n) >= 1
  {
    if g < n - 1 { OpenHasGrant(grants, g, n - 1); }
  }

  lemma OpenEntryHasGrant(grants: seq<Grant>, g: nat)
    requires g < |grants| && !grants[g].released
    ensures OpenOf(grants, grants[g].entry) >= 1 && OpenAll(grants) >= 1
  {
    OpenHasGrant(grants, g, |grants|);
  }

  /** A release takes back exactly one grant; the floor at zero in the source is never reached. */
  lemma ReleaseKeeps(s: State, l: Limits, g: nat, now: real)
    requires Inv(s, l, now) && g < |s.grants|
    ensures Inv(Release(s, g), l, now)
    ensures !s.grants[g].released ==> Release(s, g).inFlight == s.inFlight - 1
    ensures Release(Release(s, g), g) == Release(s, g)
  {
    if !s.grants[g].released {
      var t := Release(s, g);
      OpenEntryHasGrant(s.grants, g);
      ReleaseCounts(s.grants, g, 0);
      forall d | 0 <= d < |t.pool| ensures Sane(t.pool[d], l, now) && t.pool[d].inFlight == OpenOf(t.grants, d) {
        assert Sane(s.pool[d], l, now);
        ReleaseCounts(s.grants, g, d);
      }
    }
  }

  lemma StrikeKeeps(s: State, l: Limits, e: nat, now: real)
    requires Inv(s, l, now) && e < |s.pool|
    ensures Inv(StrikeEntry(s, l, e, now).0, l, now)
  {
    assert Sane(s.pool[e], l, now);
    WithEntryKeeps(s, l, e, Struck(s.pool[e], l, now).0, now);
  }

  // ---- runs ----

  datatype Op =
    | AdmitAt(identity: string, now: real)
    | StrikeAt(identity: string, now: real)
    | ReleaseAt(g: nat, now: real)

  datatype Answer = Admitted(outcome: Outcome) | StrikeAnswer(tripped: bool) | Released

  /** A call that takes s to t; `seen` is the state between finding the entry and deciding. */
  ghost predicate Next(s: State, l: Limits, op: Op, seen: State, a: Answer, t: State) {
    match op
    case AdmitAt(i, now) =>
      && l.Valid() && SeenAs(s, l, i, now, seen) && EntryOf(s, i) < |seen.pool|
      && (t, a) == (Decide(seen, l, EntryOf(s, i), now).0, Admitted(Decide(seen, l, EntryOf(s, i), now).1))
    case StrikeAt(i, now) =>
      && SeenAs(s, l, i, now, seen) && EntryOf(s, i) < |seen.pool|
      && (t, a) == (StrikeEntry(seen, l, EntryOf(s, i), now).0,
                    StrikeAnswer(StrikeEntry(seen, l, EntryOf(s, i), now).1))
    case ReleaseAt(g, _) =>
      seen == s && g < |s.grants| && s.grants[g].entry < |s.pool| && a == Released && t == Release(s, g)
  }

  /** A run of calls in any order with a clock that does not go back: states[k] is what call k finds. */
  datatype Run = Run(states: seq<State>, ops: seq<Op>, seen: seq<State>, answers: seq<Answer>)

  ghost predicate Lengths(r: Run) {
    |r.states| == |r.ops| + 1 && |r.answers| == |r.seen| == |r.ops|
  }

  /** Call k is a step from what it finds to what call k + 1 finds. */
  ghost predicate Call(r: Run, l: Limits, k: int)
    requires Lengths(r) && 0 <= k < |r.ops|
  {
    0.0 <= r.ops[k].now && Next(r.states[k], l, r.ops[k], r.seen[k], r.answers[k], r.states[k + 1])
  }

  predicate InTime(ops: seq<Op>, j: int, k: int)
    requires 0 <= j < |ops| && 0 <= k < |ops|
  {
    ops[j].now <= ops[k].now
  }

  ghost predicate IsRun(r: Run, l: Limits) {
    && l.Valid() && Lengths(r) && r.states[0] == EMPTY
    && (forall k | 0 <= k < |r.ops| :: Call(r, l, k))
    && (forall j, k | 0 <= j <= k < |r.ops| :: InTime(r.ops, j, k))
  }

  function ClockAt(r: Run, k: nat): real
    requires k <= |r.ops|
  {
    if k == 0 then 0.0 else r.ops[k - 1].now
  }

  lemma NextKeeps(s: State, l: Limits, op: Op, seen: State, a: Answer, t: State)
    requires Inv(s, l, op.now) && Next(s, l, op, seen, a, t)
    ensures Inv(seen, l, op.now) && Inv(t, l, op.now)
  {
    match op {
      case AdmitAt(i, now) => SeenKeeps(s, l, i, now, seen); DecideKeeps(seen, l, EntryOf(s, i), now);
      case StrikeAt(i, now) => SeenKeeps(s, l, i, now, seen); StrikeKeeps(seen, l, EntryOf(s, i), now);
      case ReleaseAt(g, now) => ReleaseKeeps(s, l, g, now);
    }
  }

  /** In every run: active() is the number of unreleased grants and stays within maxConcurrent, an
      entry's count is its own unreleased grants, and the map stays within maxTrackedIdentities. */
  lemma {:induction false} EveryRunKeeps(r: Run, l: Limits, k: nat)
    requires IsRun(r, l) && k <= |r.ops|
    ensures Inv(r.states[k], l, ClockAt(r, k))
    decreases k, 0
  {
    if k > 0 {
      CallFinds(r, l, k - 1);
      CallKeeps(r, l, k - 1);
    }
  }

  lemma {:induction false} CallFinds(r: Run, l: Limits, k: nat)
    requires IsRun(r, l) && k < |r.ops|
    ensures Inv(r.states[k], l, r.ops[k].now)
    decreases k, 1
  {
    EveryRunKeeps(r, l, k);
    ClockRuns(r, l, k);
    TimePassesInv(r.states[k], l, ClockAt(r, k), r.ops[k].now);
  }

  lemma ClockRuns(r: Run, l: Limits, k: nat)
    requires IsRun(r, l) && k < |r.ops|
    ensures ClockAt(r, k) <= r.ops[k].now
  {
    assert Call(r, l, k);
    if k > 0 { assert InTime(r.ops, k - 1, k); }
  }

  lemma CallKeeps(r: Run, l: Limits, k: nat)
    requires IsRun(r, l) && k < |r.ops| && Inv(r.states[k], l, r.ops[k].now)
    ensures Inv(r.states[k + 1], l, r.ops[k].now)
  {
    assert Call(r, l, k);
    NextKeeps(r.states[k], l, r.ops[k], r.seen[k], r.answers[k], r.states[k + 1]);
  }

  // ---- the admission rate ----

  /** What the bucket would hold if it were refilled now; a bucket not yet created would be full. */
  function Credit(s: State, l: Limits, e: nat, now: real): real {
    if e < |s.pool| then Refill(s.pool[e], l, now).tokens else l.burst
  }

  lemma EarnedNothing(l: Limits)
    ensures Earned(0.0, l) == 0.0
  {
  }

  lemma EarnedSpan(a: real, b: real, c: real, l: Limits)
    ensures Earned(c - a, l) == Earned(b - a, l) + Earned(c - b, l)
  {
    EarnedAdds(b - a, c - b, l);
    assert (b - a) + (c - b) == c - a;
  }

  lemma RefillGrows(entry: Entry, l: Limits, p: real, now: real)
    requires l.Valid() && p <= now && Sane(entry, l, p)
    ensures Refill(entry, l, now).tokens <= Refill(entry, l, p).tokens + Earned(now - p, l)
  {
    EarnedPositive(now - p, l);
    EarnedSpan(entry.refilledAt, p, now, l);
  }

  lemma RefillTwice(entry: Entry, l: Limits, now: real)
    requires Sane(entry, l, now) && l.Valid()
    ensures Refill(Refill(entry, l, now), l, now).tokens == Refill(entry, l, now).tokens
    ensures 0.0 <= Refill(entry, l, now).tokens <= l.burst
  {
    EarnedNothing(l);
    EarnedPositive(now - entry.refilledAt, l);
    assert Max(0.0, now - now) == 0.0;
  }

  /** Deciding spends exactly the credit of what it grants. */
  lemma DecideConserves(s: State, l: Limits, e: nat, d: nat, now: real)
    requires Inv(s, l, now) && e < |s.pool|
    ensures Funds(Decide(s, l, e, now).0, l, d, now) == Funds(s, l, d, now)
  {
    assert Sane(s.pool[e], l, now);
    RefillTwice(s.pool[e], l, now);
    GrantCounts(s.grants, e, d);
    var charged := Refill(s.pool[e], l, now).(tokens := Refill(s.pool[e], l, now).tokens - 1.0,
                                              inFlight := s.pool[e].inFlight + 1);
    assert Refill(charged, l, now).tokens == Min(l.burst, charged.tokens) by {
      EarnedNothing(l);
      assert Max(0.0, now - now) == 0.0;
    }
  }

  lemma SeenConserves(s: State, l: Limits, identity: string, now: real, t: State, d: nat)
    requires Inv(s, l, now) && SeenAs(s, l, identity, now, t)
    ensures t.grants == s.grants && Credit(t, l, d, now) == Credit(s, l, d, now)
  {
    if identity !in s.entries && d == |s.pool| {
      EarnedNothing(l);
      assert Max(0.0, now - now) == 0.0;
    }
  }

  lemma OtherwiseConserves(s: State, t: State, l: Limits, d: nat, now: real)
    requires |t.pool| == |s.pool|
    requires d < |s.pool| ==> t.pool[d].tokens == s.pool[d].tokens && t.pool[d].refilledAt == s.pool[d].refilledAt
    ensures Credit(t, l, d, now) == Credit(s, l, d, now)
  {
  }

  ghost function Funds(s: State, l: Limits, d: nat, now: real): real {
    TotalOf(s.grants, d) as real + Credit(s, l, d, now)
  }

  lemma StrikeConserves(s: State, l: Limits, e: nat, d: nat, now: real)
    requires e < |s.pool|
    ensures Funds(StrikeEntry(s, l, e, now).0, l, d, now) == Funds(s, l, d, now)
  {
    OtherwiseConserves(s, StrikeEntry(s, l, e, now).0, l, d, now);
  }

  lemma ReleaseConserves(s: State, l: Limits, g: nat, d: nat, now: real)
    requires g < |s.grants| && s.grants[g].entry < |s.pool|
    ensures Funds(Release(s, g), l, d, now) == Funds(s, l, d, now)
  {
    if !s.grants[g].released { ReleaseCounts(s.grants, g, d); }
    OtherwiseConserves(s, Release(s, g), l, d, now);
  }

  lemma NextConserves(s: State, l: Limits, op: Op, seen: State, a: Answer, t: State, d: nat)
    requires Inv(s, l, op.now) && Next(s, l, op, seen, a, t)
    ensures Funds(t, l, d, op.now) == Funds(s, l, d, op.now)
  {
    NextKeeps(s, l, op, seen, a, t);
    match op {
      case AdmitAt(i, now) => SeenConserves(s, l, i, now, seen, d); DecideConserves(seen, l, EntryOf(s, i), d, now);
      case StrikeAt(i, now) => SeenConserves(s, l, i, now, seen, d); StrikeConserves(seen, l, EntryOf(s, i), d, now);
      case ReleaseAt(g, now) => ReleaseConserves(s, l, g, d, now);
    }
  }

  lemma CreditGrows(s: State, l: Limits, e: nat, p: real, now: real)
    requires Inv(s, l, p) && p <= now
    ensures Credit(s, l, e, now) <= Credit(s, l, e, p) + Earned(now - p, l)
  {
    EarnedPositive(now - p, l);
    if e < |s.pool| { RefillGrows(s.pool[e], l, p, now); }
  }

  lemma CreditBounds(s: State, l: Limits, e: nat, now: real)
    requires Inv(s, l, now)
    ensures 0.0 <= Credit(s, l, e, now) <= l.burst
  {
    if e < |s.pool| {
      assert Sane(s.pool[e], l, now);
      RefillTwice(s.pool[e], l, now);
    }
  }

  lemma CallKeepsFunds(r: Run, l: Limits, k: nat, e: nat)
    requires IsRun(r, l) && k < |r.ops| && Inv(r.states[k], l, r.ops[k].now)
    ensures Funds(r.states[k + 1], l, e, r.ops[k].now) == Funds(r.states[k], l, e, r.ops[k].now)
  {
    assert Call(r, l, k);
    NextConserves(r.states[k], l, r.ops[k], r.seen[k], r.answers[k], r.states[k + 1], e);
  }

  lemma CallConserves(r: Run, l: Limits, k: nat, e: nat)
    requires IsRun(r, l) && k < |r.ops|
    ensures Funds(r.states[k + 1], l, e, r.ops[k].now) == Funds(r.states[k], l, e, r.ops[k].now)
    ensures Funds(r.states[k], l, e, r.ops[k].now) <= TotalOf(r.states[k].grants, e) as real + l.burst
    ensures k > 0 ==> Funds(r.states[k], l, e, r.ops[k].now) <=
                      Funds(r.states[k], l, e, r.ops[k - 1].now) + Earned(r.ops[k].now - r.ops[k - 1].now, l)
  {
    CallFinds(r, l, k);
    CallKeepsFunds(r, l, k, e);
    CreditBounds(r.states[k], l, e, r.ops[k].now);
    if k > 0 {
      EveryRunKeeps(r, l, k);
      ClockRuns(r, l, k);
      CreditGrows(r.states[k], l, e, r.ops[k - 1].now, r.ops[k].now);
    }
  }

  lemma {:induction false} CreditConserved(r: Run, l: Limits, a: nat, b: nat, e: nat)
    requires IsRun(r, l) && a < b <= |r.ops|
    ensures Funds(r.states[b], l, e, r.ops[b - 1].now) <=
            TotalOf(r.states[a].grants, e) as real + l.burst + Earned(r.ops[b - 1].now - r.ops[a].now, l)
    decreases b
  {
    var k := b - 1;
    CallConserves(r, l, k, e);
    if k == a {
      EarnedNothing(l);
    } else {
      CreditConserved(r, l, a, k, e);
      EarnedSpan(r.ops[a].now, r.ops[k - 1].now, r.ops[k].now, l);
    }
  }

  /** The calls a..b-1 of any run grant an entry at most burst + T * questionsPerMinute / 60000
      times, T being the milliseconds between the first of them and the last. */
  lemma AdmissionRate(r: Run, l: Limits, a: nat, b: nat, e: nat)
    requires IsRun(r, l) && a < b <= |r.ops|
    ensures (TotalOf(r.states[b].grants, e) - TotalOf(r.states[a].grants, e)) as real <=
            l.burst + (r.ops[b - 1].now - r.ops[a].now) * l.questionsPerMinute / 60_000.0
  {
    CreditConserved(r, l, a, b, e);
    EveryRunKeeps(r, l, b);
    CreditBounds(r.states[b], l, e, r.ops[b - 1].now);
  }

  // ---- an identity that stays on the map ----

  lemma SeenMaps(s: State, l: Limits, identity: string, now: real, t: State)
    requires SeenAs(s, l, identity, now, t)
    ensures |s.pool| <= |t.pool|
    ensures forall i | i in t.entries && t.entries[i] < |s.pool| :: i in s.entries && s.entries[i] == t.entries[i]
  {
  }

  lemma DecideMaps(s: State, l: Limits, e: nat, now: real)
    requires l.Valid() && e < |s.pool|
    ensures Decide(s, l, e, now).0.entries == s.entries && |Decide(s, l, e, now).0.pool| == |s.pool|
  {
  }

  /** An entry is only ever on the map under the identity it was created for, and never returns to it. */
  lemma NextMaps(s: State, l: Limits, op: Op, seen: State, a: Answer, t: State)
    requires Inv(s, l, op.now) && Next(s, l, op, seen, a, t)
    ensures |s.pool| <= |t.pool|
    ensures forall i | i in t.entries && t.entries[i] < |s.pool| :: i in s.entries && s.entries[i] == t.entries[i]
  {
    match op
    case AdmitAt(i, now) => SeenMaps(s, l, i, now, seen); DecideMaps(seen, l, EntryOf(s, i), now);
    case StrikeAt(i, now) => SeenMaps(s, l, i, now, seen);
    case ReleaseAt(g, _) =>
  }

  predicate IsGranted(op: Op, a: Answer, identity: string) {
    op.AdmitAt? && op.identity == identity && a.Admitted? && a.outcome.Granted?
  }

  /** How many of the calls a..b-1 admitted the identity. */
  function AdmissionsOf(r: Run, identity: string, a: nat, b: nat): nat
    requires a <= b <= |r.ops| == |r.answers|
    decreases b
  {
    if a == b then 0
    else AdmissionsOf(r, identity, a, b - 1) + if IsGranted(r.ops[b - 1], r.answers[b - 1], identity) then 1 else 0
  }

  lemma NextCounts(s: State, l: Limits, op: Op, seen: State, a: Answer, t: State, identity: string)
    requires Inv(s, l, op.now) && Next(s, l, op, seen, a, t) && identity in s.entries
    ensures TotalOf(t.grants, s.entries[identity]) >=
            TotalOf(s.grants, s.entries[identity]) + if IsGranted(op, a, identity) then 1 else 0
  {
    var d := s.entries[identity];
    match op {
      case AdmitAt(i, now) => SeenConserves(s, l, i, now, seen, d); GrantCounts(s.grants, EntryOf(s, i), d);
      case StrikeAt(i, now) => SeenConserves(s, l, i, now, seen, d);
      case ReleaseAt(g, now) => if !s.grants[g].released { ReleaseCounts(s.grants, g, d); }
    }
  }

  lemma CallMaps(r: Run, l: Limits, k: nat)
    requires IsRun(r, l) && k < |r.ops|
    ensures |r.states[k].pool| <= |r.states[k + 1].pool|
    ensures forall i | i in r.states[k + 1].entries && r.states[k + 1].entries[i] < |r.states[k].pool| ::
              i in r.states[k].entries && r.states[k].entries[i] == r.states[k + 1].entries[i]
  {
    CallFinds(r, l, k);
    assert Call(r, l, k);
    NextMaps(r.states[k], l, r.ops[k], r.seen[k], r.answers[k], r.states[k + 1]);
  }

  lemma {:induction false} PoolGrows(r: Run, l: Limits, a: nat, b: nat)
    requires IsRun(r, l) && a <= b <= |r.ops|
    ensures |r.states[a].pool| <= |r.states[b].pool|
    decreases b
  {
    if a < b {
      CallMaps(r, l, b - 1);
      PoolGrows(r, l, a, b - 1);
    }
  }

  ghost predicate SameEntry(s: State, t: State, identity: string) {
    identity in s.entries && identity in t.entries && s.entries[identity] == t.entries[identity]
  }

  lemma CallAdds(r: Run, l: Limits, identity: string, k: nat)
    requires IsRun(r, l) && k < |r.ops| && identity in r.states[k].entries
    ensures TotalOf(r.states[k + 1].grants, r.states[k].entries[identity]) >=
            TotalOf(r.states[k].grants, r.states[k].entries[identity]) +
            if IsGranted(r.ops[k], r.answers[k], identity) then 1 else 0
  {
    CallFinds(r, l, k);
    assert Call(r, l, k);
    NextCounts(r.states[k], l, r.ops[k], r.seen[k], r.answers[k], r.states[k + 1], identity);
  }

  lemma CallCounts(r: Run, l: Limits, identity: string, a: nat, k: nat)
    requires IsRun(r, l) && a <= k < |r.ops| && SameEntry(r.states[a], r.states[k + 1], identity)
    ensures SameEntry(r.states[a], r.states[k], identity)
    ensures TotalOf(r.states[k + 1].grants, r.states[a].entries[identity]) >=
            TotalOf(r.states[k].grants, r.states[a].entries[identity]) +
            if IsGranted(r.ops[k], r.answers[k], identity) then 1 else 0
  {
    EveryRunKeeps(r, l, a);
    PoolGrows(r, l, a, k);
    CallMaps(r, l, k);
    CallAdds(r, l, identity, k);
  }

  lemma {:induction false} TrackedThroughout(r: Run, l: Limits, identity: string, a: nat, b: nat)
    requires IsRun(r, l) && a <= b <= |r.ops| && SameEntry(r.states[a], r.states[b], identity)
    ensures TotalOf(r.states[b].grants, r.states[a].entries[identity]) >=
            TotalOf(r.states[a].grants, r.states[a].entries[identity]) + AdmissionsOf(r, identity, a, b)
    decreases b
  {
    if a < b {
      CallCounts(r, l, identity, a, b - 1);
      TrackedThroughout(r, l, identity, a, b - 1);
    }
  }

  /** An identity that is on the map with the same entry before call a and after call b-1 is admitted
      at most burst + T * questionsPerMinute / 60000 times by the calls between. */
  lemma TrackedIdentityRate(r: Run, l: Limits, identity: string, a: nat, b: nat)
    requires IsRun(r, l) && a < b <= |r.ops| && SameEntry(r.states[a], r.states[b], identity)
    ensures AdmissionsOf(r, identity, a, b) as real <=
            l.burst + (r.ops[b - 1].now - r.ops[a].now) * l.questionsPerMinute / 60_000.0
  {
    TrackedThroughout(r, l, identity, a, b);
    AdmissionRate(r, l, a, b, r.states[a].entries[identity]);
  }

  // ---- cooldowns ----

  ghost predicate Cooling(s: State, identity: string, until: real) {
    identity in s.entries && s.entries[identity] < |s.pool| && s.pool[s.entries[identity]].blockedUntil >= until
  }

  lemma SeenStaysCooling(s: State, l: Limits, i: string, now: real, t: State, identity: string, until: real)
    requires Inv(s, l, now) && SeenAs(s, l, i, now, t)
    requires Cooling(s, identity, until) && now < until
    ensures Cooling(t, identity, until) && t.entries[identity] == s.entries[identity]
  {
    if i !in s.entries { assert !Idle(Track(s, i, FreshEntry(l, now)), identity, now); }
  }

  lemma NextStaysCooling(s: State, l: Limits, op: Op, seen: State, a: Answer, t: State, identity: string, until: real)
    requires Inv(s, l, op.now) && Next(s, l, op, seen, a, t)
    requires Cooling(s, identity, until) && op.now < until <= op.now + l.blockMs
    ensures Cooling(t, identity, until)
    ensures op.AdmitAt? && op.identity == identity ==> a.Admitted? && a.outcome.Refused? && a.outcome.why.Cooldown?
  {
    match op {
      case AdmitAt(i, now) => SeenStaysCooling(s, l, i, now, seen, identity, until);
      case StrikeAt(i, now) => SeenStaysCooling(s, l, i, now, seen, identity, until);
      case ReleaseAt(g, now) =>
    }
  }

  ghost predicate RefusedByCooldown(r: Run, identity: string, a: nat, b: nat)
    requires b <= |r.ops| == |r.answers|
  {
    forall k | a <= k < b && r.ops[k].AdmitAt? && r.ops[k].identity == identity ::
      r.answers[k].Admitted? && r.answers[k].outcome.Refused? && r.answers[k].outcome.why.Cooldown?
  }

  lemma CallStaysCooling(r: Run, l: Limits, identity: string, k: nat, until: real)
    requires IsRun(r, l) && k < |r.ops|
    requires Cooling(r.states[k], identity, until) && r.ops[k].now < until <= r.ops[k].now + l.blockMs
    ensures Cooling(r.states[k + 1], identity, until)
    ensures r.ops[k].AdmitAt? && r.ops[k].identity == identity ==>
              r.answers[k].Admitted? && r.answers[k].outcome.Refused? && r.answers[k].outcome.why.Cooldown?
  {
    CallFinds(r, l, k);
    assert Call(r, l, k);
    NextStaysCooling(r.states[k], l, r.ops[k], r.seen[k], r.answers[k], r.states[k + 1], identity, until);
  }

  lemma {:induction false} ClockGrows(r: Run, l: Limits, a: nat, k: nat)
    requires IsRun(r, l) && a <= k < |r.ops|
    ensures ClockAt(r, a) <= r.ops[k].now
  {
    ClockRuns(r, l, a);
    assert InTime(r.ops, a, k);
  }

  /** A cooldown on a tracked identity runs its course: until it ends the identity stays on the map,
      the cooldown is not shortened, and every admission is refused, whatever else is called. */
  lemma {:induction false} CooldownRunsItsCourse(r: Run, l: Limits, identity: string, a: nat, b: nat)
    requires IsRun(r, l) && a <= b <= |r.ops|
    requires identity in r.states[a].entries && r.states[a].entries[identity] < |r.states[a].pool|
    requires forall k | a <= k < b :: r.ops[k].now < r.states[a].pool[r.states[a].entries[identity]].blockedUntil
    ensures Cooling(r.states[b], identity, r.states[a].pool[r.states[a].entries[identity]].blockedUntil)
    ensures RefusedByCooldown(r, identity, a, b)
    decreases b
  {
    if a < b {
      var k := b - 1;
      var until := r.states[a].pool[r.states[a].entries[identity]].blockedUntil;
      CooldownRunsItsCourse(r, l, identity, a, k);
      EveryRunKeeps(r, l, a);
      assert Sane(r.states[a].pool[r.states[a].entries[identity]], l, ClockAt(r, a));
      ClockGrows(r, l, a, k);
      CallStaysCooling(r, l, identity, k, until);
    }
  }

  // ---- what to wait for ----

  lemma WaitEarns(tokens: real, l: Limits, waited: real)
    requires l.Valid() && tokens < 1.0 && waited >= TokenWait(tokens, l) as real * 1000.0
    ensures tokens + Earned(waited, l) >= 1.0
  {
    var x := (1.0 - tokens) * 60_000.0 / l.questionsPerMinute;
    assert waited >= x;
    Scaled(x, waited, l.questionsPerMinute);
    assert x * l.questionsPerMinute == (1.0 - tokens) * 60_000.0;
  }

  /** The entry the next call will find holds a whole token by then, if a bucket can hold one. */
  lemma WaitedEntry(entry: Entry, l: Limits, now: real, later: real)
    requires l.Valid() && entry.tokens < 1.0 && entry.refilledAt == now
    requires later >= now + TokenWait(entry.tokens, l) as real * 1000.0
    ensures Refill(entry, l, later).tokens >= 1.0 <==> l.burst >= 1.0
  {
    WaitEarns(entry.tokens, l, later - now);
    assert Max(0.0, later - now) == later - now;
  }

  lemma FreshHoldsBurst(l: Limits, now: real)
    requires l.Valid()
    ensures Refill(FreshEntry(l, now), l, now).tokens == l.burst
  {
    EarnedNothing(l);
    assert Max(0.0, now - now) == 0.0;
  }

  /** Decide grants when nothing but the tokens was in the way, and they no longer are. */
  lemma OnlyTokensMissing(s: State, l: Limits, e: nat, now: real)
    requires l.Valid() && e < |s.pool|
    requires s.pool[e].blockedUntil <= now && s.inFlight < l.maxConcurrent
               && s.pool[e].inFlight < l.maxConcurrentPerIdentity
    ensures Decide(s, l, e, now).1.Granted? <==> Refill(s.pool[e], l, now).tokens >= 1.0
  {
  }

  /** After a refusal for want of tokens, and with no call in between, waiting the advertised seconds
      is enough exactly when the bucket can hold a whole token. */
  lemma WaitingClearsTokens(s: State, l: Limits, identity: string, now: real, seen: State, t: State, o: Outcome,
                            later: real, seen': State)
    requires Inv(s, l, now) && SeenAs(s, l, identity, now, seen) && EntryOf(s, identity) < |seen.pool|
    requires (t, o) == Decide(seen, l, EntryOf(s, identity), now)
    requires o.Refused? && o.why.NoTokens? && later >= now + o.retryAfterSec as real * 1000.0
    requires SeenAs(t, l, identity, later, seen') && EntryOf(t, identity) < |seen'.pool|
    ensures Decide(seen', l, EntryOf(t, identity), later).1.Granted? <==> l.burst >= 1.0
  {
    var e := EntryOf(s, identity);
    var refilled := Refill(seen.pool[e], l, now);
    assert t == WithEntry(seen, e, refilled);
    OnlyTokensMissing(seen', l, EntryOf(t, identity), later);
    if identity in t.entries {
      assert t.entries[identity] == e;
      WaitedEntry(refilled.(seenAt := later), l, now, later);
    } else {
      FreshHoldsBurst(l, later);
    }
  }

  /** After a cooldown refusal, and with no call in between, waiting the advertised seconds ends the cooldown. */
  lemma WaitingClearsCooldown(s: State, l: Limits, identity: string, now: real, seen: State, t: State, o: Outcome,
                              later: real, seen': State)
    requires Inv(s, l, now) && SeenAs(s, l, identity, now, seen) && EntryOf(s, identity) < |seen.pool|
    requires (t, o) == Decide(seen, l, EntryOf(s, identity), now)
    requires o.Refused? && o.why.Cooldown? && later >= now + o.retryAfterSec as real * 1000.0
    requires SeenAs(t, l, identity, later, seen') && EntryOf(t, identity) < |seen'.pool|
    ensures var again := Decide(seen', l, EntryOf(t, identity), later).1;
            again.Refused? ==> !again.why.Cooldown?
  {
    assert t == seen;
    if identity in s.entries {
      assert t.entries[identity] == s.entries[identity];
    }
  }

  // ---- strikes ----

  /** The decision over every strike since the last cooldown, nothing pruned. */
  function FullStrike(history: seq<real>, l: Limits, now: real): (seq<real>, bool) {
    if |Recent(history, l, now)| + 1 < l.securityStrikes then (history + [now], false) else ([], true)
  }

  function PrunedDecisions(strikes: seq<real>, l: Limits, times: seq<real>): seq<bool>
    decreases times
  {
    if times == [] then []
    else [StrikeList(strikes, l, times[0]).1] + PrunedDecisions(StrikeList(strikes, l, times[0]).0, l, times[1..])
  }

  function FullDecisions(history: seq<real>, l: Limits, times: seq<real>): seq<bool>
    decreases times
  {
    if times == [] then []
    else [FullStrike(history, l, times[0]).1] + FullDecisions(FullStrike(history, l, times[0]).0, l, times[1..])
  }

  lemma {:induction false} RecentOnPrefix(strikes: seq<real>, more: real, l: Limits, now: real, n: nat)
    requires n <= |strikes|
    ensures RecentOf(strikes + [more], l, now, n) == RecentOf(strikes, l, now, n)
  {
    if n > 0 { RecentOnPrefix(strikes, more, l, now, n - 1); }
  }

  lemma RecentAppend(strikes: seq<real>, more: real, l: Limits, now: real)
    ensures Recent(strikes + [more], l, now) == Recent(strikes, l, now) + if now - more < l.strikeWindowMs
              then [more] else []
  {
    RecentOnPrefix(strikes, more, l, now, |strikes|);
  }

  lemma {:induction false} RecentOfRecentUpTo(strikes: seq<real>, l: Limits, t: real, now: real, n: nat)
    requires t <= now && n <= |strikes|
    ensures Recent(RecentOf(strikes, l, t, n), l, now) == RecentOf(strikes, l, now, n)
  {
    if n > 0 {
      var r := RecentOf(strikes, l, t, n - 1);
      RecentOfRecentUpTo(strikes, l, t, now, n - 1);
      if t - strikes[n - 1] < l.strikeWindowMs {
        RecentAppend(r, strikes[n - 1], l, now);
      } else {
        assert r + [] == r;
      }
    }
  }

  lemma RecentOfRecent(strikes: seq<real>, l: Limits, t: real, now: real)
    requires t <= now
    ensures Recent(Recent(strikes, l, t), l, now) == Recent(strikes, l, now)
  {
    RecentOfRecentUpTo(strikes, l, t, now, |strikes|);
  }

  lemma RecentWithLast(strikes: seq<real>, l: Limits, now: real)
    requires l.strikeWindowMs > 0.0
    ensures Recent(strikes + [now], l, now) == Recent(strikes, l, now) + [now]
  {
    RecentAppend(strikes, now, l, now);
  }

  /** Forgetting strikes that have left the window never changes a later decision. */
  lemma {:induction false} PruningDecidesAlike(history: seq<real>, pruned: seq<real>, l: Limits, t: real,
                                               times: seq<real>)
    requires l.strikeWindowMs > 0.0 && Recent(pruned, l, t) == Recent(history, l, t)
    requires forall i | 0 <= i < |times| :: t <= times[i]
    requires forall i, j | 0 <= i < j < |times| :: times[i] <= times[j]
    ensures PrunedDecisions(pruned, l, times) == FullDecisions(history, l, times)
    decreases times
  {
    if times != [] {
      var now := times[0];
      OneStrikeAlike(history, pruned, l, t, now);
      PruningDecidesAlike(FullStrike(history, l, now).0, StrikeList(pruned, l, now).0, l, now, times[1..]);
    }
  }

  /** A strike acts on the entry's own list, and nothing but a strike changes any list. */
  lemma StrikesOnlyByStrike(s: State, l: Limits, op: Op, seen: State, a: Answer, t: State, e: nat)
    requires Inv(s, l, op.now) && Next(s, l, op, seen, a, t) && e < |s.pool|
    ensures e < |t.pool|
    ensures !(op.StrikeAt? && EntryOf(s, op.identity) == e) ==> t.pool[e].strikes == s.pool[e].strikes
    ensures op.StrikeAt? && EntryOf(s, op.identity) == e ==>
              a.StrikeAnswer? && (t.pool[e].strikes, a.tripped) == StrikeList(s.pool[e].strikes, l, op.now)
  {
    match op
    case AdmitAt(i, now) => SeenKeepsStrikes(s, l, i, now, seen, e); DecideKeepsStrikes(seen, l, EntryOf(s, i), now, e);
    case StrikeAt(i, now) => SeenKeepsStrikes(s, l, i, now, seen, e);
    case ReleaseAt(g, _) =>
  }

  lemma SeenKeepsStrikes(s: State, l: Limits, identity: string, now: real, t: State, e: nat)
    requires SeenAs(s, l, identity, now, t) && e < |s.pool|
    ensures e < |t.pool| && t.pool[e].strikes == s.pool[e].strikes
  {
  }

  lemma DecideKeepsStrikes(s: State, l: Limits, d: nat, now: real, e: nat)
    requires l.Valid() && d < |s.pool| && e < |s.pool|
    ensures e < |Decide(s, l, d, now).0.pool| && Decide(s, l, d, now).0.pool[e].strikes == s.pool[e].strikes
  {
  }

  /** The strikes on record for entry e, none before it exists. */
  function StrikesOf(s: State, e: nat): seq<real> {
    if e < |s.pool| then s.pool[e].strikes else []
  }

  /** Every strike on entry e in the first k calls of a run, since the last that started a cooldown, with nothing
      pruned. */
  ghost function History(r: Run, l: Limits, e: nat, k: nat): seq<real>
    requires Lengths(r) && k <= |r.ops|
  {
    if k == 0 then []
    else
      var before, op := History(r, l, e, k - 1), r.ops[k - 1];
      if op.StrikeAt? && EntryOf(r.states[k - 1], op.identity) == e then FullStrike(before, l, op.now).0 else before
  }

  lemma NewEntryIsUnstruck(s: State, l: Limits, identity: string, now: real, t: State)
    requires SeenAs(s, l, identity, now, t) && identity !in s.entries
    ensures |t.pool| == |s.pool| + 1 && t.pool[|s.pool|].strikes == []
  {
  }

  /** The same for entries that the call creates, and for those still to come. */
  lemma StrikesFollow(s: State, l: Limits, op: Op, seen: State, a: Answer, t: State, e: nat)
    requires Inv(s, l, op.now) && Next(s, l, op, seen, a, t)
    ensures !(op.StrikeAt? && EntryOf(s, op.identity) == e) ==> StrikesOf(t, e) == StrikesOf(s, e)
    ensures op.StrikeAt? && EntryOf(s, op.identity) == e ==>
              a.StrikeAnswer? && (StrikesOf(t, e), a.tripped) == StrikeList(StrikesOf(s, e), l, op.now)
  {
    if e < |s.pool| {
      StrikesOnlyByStrike(s, l, op, seen, a, t, e);
    } else {
      match op
      case AdmitAt(i, now) => NewUnlessKnown(s, l, i, now, seen);
      case StrikeAt(i, now) => NewUnlessKnown(s, l, i, now, seen);
      case ReleaseAt(g, _) =>
    }
  }

  lemma NewUnlessKnown(s: State, l: Limits, identity: string, now: real, t: State)
    requires SeenAs(s, l, identity, now, t)
    ensures identity in s.entries ==> |t.pool| == |s.pool|
    ensures identity !in s.entries ==> |t.pool| == |s.pool| + 1 && t.pool[|s.pool|].strikes == []
  {
    if identity !in s.entries { NewEntryIsUnstruck(s, l, identity, now, t); }
  }

  /** One strike on two lists that agree about the window decides alike and leaves two that agree. */
  lemma OneStrikeAlike(history: seq<real>, pruned: seq<real>, l: Limits, t: real, now: real)
    requires l.strikeWindowMs > 0.0 && t <= now && Recent(pruned, l, t) == Recent(history, l, t)
    ensures StrikeList(pruned, l, now).1 == FullStrike(history, l, now).1
    ensures Recent(StrikeList(pruned, l, now).0, l, now) == Recent(FullStrike(history, l, now).0, l, now)
    ensures Recent(pruned, l, now) == Recent(history, l, now)
  {
    RecentOfRecent(pruned, l, t, now);
    RecentOfRecent(history, l, t, now);
    RecentOfRecent(pruned, l, now, now);
    RecentWithLast(Recent(pruned, l, now), l, now);
    RecentWithLast(history, l, now);
  }

  lemma CallStrikes(r: Run, l: Limits, k: nat, e: nat)
    requires IsRun(r, l) && k < |r.ops|
    ensures var s, t, op := r.states[k], r.states[k + 1], r.ops[k];
            && (!(op.StrikeAt? && EntryOf(s, op.identity) == e) ==> StrikesOf(t, e) == StrikesOf(s, e))
            && (op.StrikeAt? && EntryOf(s, op.identity) == e ==>
                  r.answers[k].StrikeAnswer?
                  && (StrikesOf(t, e), r.answers[k].tripped) == StrikeList(StrikesOf(s, e), l, op.now))
  {
    CallFinds(r, l, k);
    assert Call(r, l, k);
    StrikesFollow(r.states[k], l, r.ops[k], r.seen[k], r.answers[k], r.states[k + 1], e);
  }

  lemma {:induction false} HistoryAgrees(r: Run, l: Limits, e: nat, k: nat)
    requires IsRun(r, l) && k <= |r.ops|
    ensures Recent(StrikesOf(r.states[k], e), l, ClockAt(r, k)) == Recent(History(r, l, e, k), l, ClockAt(r, k))
    decreases k
  {
    if k > 0 {
      HistoryAgrees(r, l, e, k - 1);
      CallStrikes(r, l, k - 1, e);
      ClockRuns(r, l, k - 1);
      OneStrikeAlike(History(r, l, e, k - 1), StrikesOf(r.states[k - 1], e), l, ClockAt(r, k - 1), r.ops[k - 1].now);
    }
  }

  /** In every run, whether a strike starts a cooldown is what the full history of its entry says. */
  lemma StrikesFollowHistory(r: Run, l: Limits, k: nat)
    requires IsRun(r, l) && k < |r.ops| && r.ops[k].StrikeAt?
    ensures var e := EntryOf(r.states[k], r.ops[k].identity);
            r.answers[k] == StrikeAnswer(FullStrike(History(r, l, e, k), l, r.ops[k].now).1)
  {
    var e := EntryOf(r.states[k], r.ops[k].identity);
    HistoryAgrees(r, l, e, k);
    CallStrikes(r, l, k, e);
    ClockRuns(r, l, k);
    OneStrikeAlike(History(r, l, e, k), StrikesOf(r.states[k], e), l, ClockAt(r, k), r.ops[k].now);
  }

  // ---- an identity that is dropped as it arrives ----

  /** A new identity is kept exactly when there was room, or some other identity was idle. Otherwise
      its entry is off the map from the start, and its limits apply to that one call only. */
  lemma NewIdentityIsKept(s: State, l: Limits, identity: string, now: real, t: State)
    requires Inv(s, l, now) && identity !in s.entries && SeenAs(s, l, identity, now, t)
    ensures identity in t.entries <==> |s.entries| < l.maxTrackedIdentities || exists i :: Idle(s, i, now)
  {
    var u := Track(s, identity, FreshEntry(l, now));
    TrackKeepsBooks(s, l, identity, now);
    assert forall i :: Idle(s, i, now) ==> Idle(u, i, now);
    if |s.entries| == l.maxTrackedIdentities {
      if identity in t.entries {
        assert Idle(t, identity, now);
        var i := OneDropped(u.entries, t.entries);
        assert RightlyDropped(u, i, t, now);
        assert Idle(s, i, now);
      } else if i :| Idle(s, i, now) {
        assert RightlyDropped(u, identity, t, now);
        assert i !in t.entries by {
          assert Sane(s.pool[s.entries[i]], l, now);
          assert !Before(u, identity, i);
        }
        TwoDropped(u.entries, t.entries, i, identity);
      }
    } else {
      MapSizes(t.entries, u.entries);
    }
  }

  lemma OneDropped(a: map<string, nat>, b: map<string, nat>) returns (i: string)
    requires b.Keys <= a.Keys && |b| < |a|
    ensures i in a && i !in b
  {
    assert a.Keys != b.Keys by { assert |a| == |a.Keys| && |b| == |b.Keys|; }
    i :| i in a.Keys && i !in b.Keys;
  }

  lemma TwoDropped(a: map<string, nat>, b: map<string, nat>, i: string, j: string)
    requires b.Keys <= a.Keys && i in a && j in a && i !in b && j !in b && i != j
    ensures |b| <= |a| - 2
  {
    var c := a - {i};
    assert c.Keys == a.Keys - {i};
    assert |c| == |c.Keys| && |a| == |a.Keys| && |b| == |b.Keys|;
    ProperSubset(b.Keys, c.Keys);
  }

  // ---- the limiter object ----

  lemma DropOneMore(s: State, t: State, n: nat, v: string, now: real)
    requires Shape(s) && SweptBy(s, t, n, now) && |t.entries| == |s.entries| - n && IsVictim(t, v, now)
    ensures SweptBy(s, Forget(t, v), n + 1, now)
    ensures |Forget(t, v).entries| == |s.entries| - (n + 1)
  {
    var u := Forget(t, v);
    assert u.entries.Keys == t.entries.Keys - {v};
    assert |u.entries| == |u.entries.Keys| && |t.entries| == |t.entries.Keys|;
    forall i | i in s.entries && i !in u.entries ensures RightlyDropped(s, i, u, now) {
      if i == v {
        assert forall j | j in u.entries && Idle(s, j, now) :: Idle(t, j, now) && Before(t, v, j);
      } else {
        assert RightlyDropped(s, i, t, now);
      }
    }
  }

  class Limiter {
    const limits: Limits
    var entries: map<string, nat>
    var pool: seq<Entry>
    var inFlight: int
    var grants: seq<Grant>

    ghost function Model(): State
      reads this
    {
      State(entries, pool, inFlight, grants)
    }

    constructor (limits: Limits)
      requires limits.Valid()
      ensures this.limits == limits && Model() == EMPTY && Inv(Model(), limits, 0.0)
    {
      this.limits := limits;
      entries, pool, inFlight, grants := map[], [], 0, [];
    }

    method LeastRecentIdle(now: real) returns (found: Option<string>)
      requires Shape(Model())
      ensures found.None? ==> forall i :: !Idle(Model(), i, now)
      ensures found.Some? ==> IsVictim(Model(), found.value, now)
    {
      found := None;
      var rest := entries.Keys;
      while rest != {}
        invariant rest <= entries.Keys
        invariant found.None? ==> forall i :: Idle(Model(), i, now) ==> i in rest
        invariant found.Some? ==> FirstAmong(Model(), found.value, entries.Keys - rest, now)
      {
        var i :| i in rest;
        var e := entries[i];
        if pool[e].inFlight == 0 && pool[e].blockedUntil <= now {
          if found.None? {
            found := Some(i);
          } else {
            var f := entries[found.value];
            assert Apart(entries, i, found.value);
            if pool[e].seenAt < pool[f].seenAt || (pool[e].seenAt == pool[f].seenAt && e < f) { found := Some(i); }
          }
        }
        rest := rest - {i};
      }
    }

    method SweepMap(now: real)
      requires Shape(Model())
      modifies this`entries
      ensures Shape(Model()) && Swept(old(Model()), Model(), limits, now)
    {
      var target := |entries| - limits.maxTrackedIdentities;
      var dropped := 0;
      while dropped < target
        invariant 0 <= dropped && (dropped <= target || dropped == 0)
        invariant Shape(Model()) && SweptBy(old(Model()), Model(), dropped, now)
        invariant |entries| == |old(entries)| - dropped
      {
        var v := LeastRecentIdle(now);
        if v.None? { break; }
        DropOneMore(old(Model()), Model(), dropped, v.value, now);
        entries := entries - {v.value};
        dropped := dropped + 1;
        NarrowedShape(old(Model()), Model());
      }
    }

    method EntryFor(identity: string, now: real) returns (e: nat)
      requires Shape(Model())
      modifies this`entries, this`pool
      ensures SeenAs(old(Model()), limits, identity, now, Model()) && Shape(Model())
      ensures e == EntryOf(old(Model()), identity) && e < |pool|
    {
      if identity in entries {
        e := entries[identity];
        pool := pool[e := pool[e].(seenAt := now)];
        return;
      }
      e := |pool|;
      pool := pool + [Entry(limits.burst, now, 0, [], 0.0, now)];
      entries := entries[identity := e];
      assert Model() == Track(old(Model()), identity, FreshEntry(limits, now));
      TrackedShape(old(Model()), identity, FreshEntry(limits, now));
      SweepMap(now);
    }

    /** The part of `admit` that follows `entryFor`. */
    method DecideOn(e: nat, now: real) returns (outcome: Outcome)
      requires limits.Valid() && e < |pool|
      modifies this`pool, this`inFlight, this`grants
      ensures (Model(), outcome) == Decide(old(Model()), limits, e, now)
    {
      var entry := pool[e];
      if entry.blockedUntil > now {
        return Refused(Cooldown, Ceil((entry.blockedUntil - now) / 1000.0));
      }
      if inFlight >= limits.maxConcurrent { return Refused(Busy, 1); }
      if entry.inFlight >= limits.maxConcurrentPerIdentity { return Refused(OwnLimit, 1); }
      entry := Refill(entry, limits, now);
      pool := pool[e := entry];
      if entry.tokens < 1.0 { return Refused(NoTokens, TokenWait(entry.tokens, limits)); }
      pool := pool[e := entry.(tokens := entry.tokens - 1.0, inFlight := entry.inFlight + 1)];
      inFlight := inFlight + 1;
      grants := grants + [Grant(e, false)];
      outcome := Granted(|grants| - 1);
      assert Model() == Charge(old(Model()), e, entry);
    }

    /** The grant in an outcome stands for the release closure: `Release` below is what it does. */
    method Admit(identity: string, now: real) returns (outcome: Outcome, ghost seen: State)
      requires Inv(Model(), limits, now)
      modifies this
      ensures Inv(Model(), limits, now)
      ensures Next(old(Model()), limits, AdmitAt(identity, now), seen, Admitted(outcome), Model())
    {
      var e := EntryFor(identity, now);
      seen := Model();
      SeenKeeps(old(Model()), limits, identity, now, seen);
      DecideKeeps(seen, limits, e, now);
      outcome := DecideOn(e, now);
    }

    method Release(g: nat, ghost now: real)
      requires Inv(Model(), limits, now) && g < |grants|
      modifies this`pool, this`inFlight, this`grants
      ensures Inv(Model(), limits, now)
      ensures Next(old(Model()), limits, ReleaseAt(g, now), old(Model()), Released, Model())
    {
      ReleaseKeeps(Model(), limits, g, now);
      if grants[g].released { return; }
      var e := grants[g].entry;
      grants := grants[g := Grant(e, true)];
      pool := pool[e := pool[e].(inFlight := AtLeastZero(pool[e].inFlight - 1))];
      inFlight := AtLeastZero(inFlight - 1);
    }

    method Strike(identity: string, now: real) returns (tripped: bool, ghost seen: State)
      requires Inv(Model(), limits, now)
      modifies this`entries, this`pool
      ensures Inv(Model(), limits, now)
      ensures Next(old(Model()), limits, StrikeAt(identity, now), seen, StrikeAnswer(tripped), Model())
    {
      var e := EntryFor(identity, now);
      seen := Model();
      SeenKeeps(old(Model()), limits, identity, now, seen);
      StrikeKeeps(seen, limits, e, now);
      tripped := StrikeOn(e, now);
    }

    /** The part of `strike` that follows `entryFor`. */
    method StrikeOn(e: nat, now: real) returns (tripped: bool)
      requires e < |pool|
      modifies this`pool
      ensures (Model(), tripped) == StrikeEntry(old(Model()), limits, e, now)
    {
      var strikes := Recent(pool[e].strikes, limits, now) + [now];
      if |strikes| < limits.securityStrikes {
        pool := pool[e := pool[e].(strikes := strikes)];
        return false;
      }
      pool := pool[e := pool[e].(strikes := [], blockedUntil := now + limits.blockMs)];
      return true;
    }

    function Active(): int
      reads this
    {
      inFlight
    }
  }
}
