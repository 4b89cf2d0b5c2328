/** What the token store keeps. */
module StreamStoreAccount {
  import opened Schema
  import opened StreamStore

  // The operations of packages/server/src/store.ts, from the records themselves.

  ghost predicate PartAt(part: Records, rs: Records, at: seq<int>) {
    && |at| == |part|
    && (forall i | 0 <= i < |at| :: 0 <= at[i] < |rs| && part[i] == rs[at[i]])
    && (forall i, j | 0 <= i < j < |at| :: at[i] < at[j])
  }

  /** What is live is what expires later, in its order. */
  lemma {:induction false} LiveKeepsOrder(rs: Records, now: real) returns (at: seq<int>)
    ensures PartAt(Live(rs, now), rs, at)
    ensures forall i | 0 <= i < |rs| :: i in at <==> rs[i].expiresAt > now
  {
    at := [];
    if rs != [] {
      var n := |rs| - 1;
      var front := rs[..n];
      LiveLast(rs, now);
      at := LiveKeepsOrder(front, now);
      OneMorePart(Live(front, now), front, at, rs, rs[n].expiresAt > now);
      if rs[n].expiresAt > now { at := at + [n]; }
      forall i | 0 <= i < n ensures rs[i] == front[i] {}
    }
  }

  lemma OneMorePart(part: Records, front: Records, at: seq<int>, rs: Records, more: bool)
    requires rs != [] && front == rs[..|rs| - 1] && PartAt(part, front, at)
    ensures if more then PartAt(part + [rs[|rs| - 1]], rs, at + [|rs| - 1]) else PartAt(part, rs, at)
  {
  }

  /** The places at which an identity's records stand. */
  function PlacesOf(rs: Records, identity: string): set<int> {
    set i | 0 <= i < |rs| && rs[i].identity == identity
  }

  lemma {:induction false} MineCounts(rs: Records, identity: string)
    ensures |Mine(rs, identity)| == |PlacesOf(rs, identity)|
  {
    if rs == [] {
      assert PlacesOf(rs, identity) == {};
    } else {
      var n := |rs| - 1;
      MineLast(rs, identity);
      MineCounts(rs[..n], identity);
      LastPlace(rs, rs[..n], identity);
    }
  }

  lemma LastPlace(rs: Records, front: Records, identity: string)
    requires rs != [] && front == rs[..|rs| - 1]
    ensures var last := if rs[|rs| - 1].identity == identity then 1 else 0;
            |PlacesOf(rs, identity)| == |PlacesOf(front, identity)| + last
  {
    var n: int := |rs| - 1;
    assert forall i | 0 <= i < n :: front[i] == rs[i];
    assert PlacesOf(rs, identity) == PlacesOf(front, identity) + if rs[n].identity == identity then {n} else {};
  }

  /** A token is found exactly when a record has it. */
  lemma {:induction false} FindMeans(rs: Records, token: string, r: Record)
    requires Distinct(rs)
    ensures Find(rs, token) == Some(r) <==> r in rs && r.token == token
  {
    if rs != [] {
      assert Distinct(rs[1..]);
      FindMeans(rs[1..], token, r);
      assert forall o | o in rs[1..] :: o.token != rs[0].token;
    }
  }

  /** A get answers the record with that token, unless it has expired. */
  lemma GetMeans(rs: Records, token: string, now: real, r: Record)
    requires Distinct(rs)
    ensures AfterGet(rs, token, now).1 == Some(r) <==> r in rs && r.token == token && r.expiresAt > now
  {
    FindMeans(rs, token, r);
    if Find(rs, token).Some? { FindMeans(rs, token, Find(rs, token).value); }
  }

  /** One record taken out of its place. */
  ghost predicate Without(rs: Records, v: Record, kept: Records, i: int) {
    0 <= i < |rs| && rs[i] == v && kept == rs[..i] + rs[i + 1..]
  }

  lemma {:induction false} RemoveTakesOne(rs: Records, i: nat)
    requires Distinct(rs) && i < |rs|
    ensures Remove(rs, rs[i].token) == rs[..i] + rs[i + 1..]
  {
    if i == 0 {
      RemoveNone(rs[1..], rs[0].token);
    } else {
      assert Distinct(rs[1..]) && rs[1..][i - 1] == rs[i];
      RemoveTakesOne(rs[1..], i - 1);
      assert rs[..i] == [rs[0]] + rs[1..][..i - 1] && rs[1..][i..] == rs[i + 1..];
    }
  }

  lemma {:induction false} RemoveNone(rs: Records, token: string)
    requires forall o | o in rs :: o.token != token
    ensures Remove(rs, token) == rs
  {
    if rs != [] { RemoveNone(rs[1..], token); }
  }

  /** Of the identity's records: none was issued before it, and those issued with it stand behind it. */
  ghost predicate OldestOf(rs: Records, identity: string, i: int) {
    && 0 <= i < |rs| && rs[i].identity == identity
    && forall j | 0 <= j < |rs| && rs[j].identity == identity ::
         rs[i].issuedAt < rs[j].issuedAt || (rs[i].issuedAt == rs[j].issuedAt && i <= j)
  }

  lemma {:induction false} OldestStands(rs: Records, identity: string) returns (i: int)
    requires Mine(rs, identity) != []
    ensures OldestOf(rs, identity, i) && rs[i] == Oldest(Mine(rs, identity))
  {
    var mine := Mine(rs, identity);
    if rs[0].identity != identity {
      i := OldestStands(rs[1..], identity);
      i := i + 1;
      assert forall j | 1 <= j < |rs| :: rs[j] == rs[1..][j - 1];
    } else if Mine(rs[1..], identity) == [] {
      i := 0;
      NoneMine(rs[1..], identity);
      assert forall j | 1 <= j < |rs| :: rs[j] == rs[1..][j - 1];
    } else {
      var k := OldestStands(rs[1..], identity);
      assert mine[1..] == Mine(rs[1..], identity);
      i := if rs[0].issuedAt <= rs[1..][k].issuedAt then 0 else k + 1;
      assert forall j | 1 <= j < |rs| :: rs[j] == rs[1..][j - 1];
    }
  }

  lemma {:induction false} NoneMine(rs: Records, identity: string)
    requires Mine(rs, identity) == []
    ensures forall j | 0 <= j < |rs| :: rs[j].identity != identity
  {
    if rs != [] {
      NoneMine(rs[1..], identity);
      assert forall j | 1 <= j < |rs| :: rs[j] == rs[1..][j - 1];
    }
  }

  lemma {:induction false} EvictedFromFront(rs: Records, limits: Limits)
    requires limits.maxTotal >= 1
    ensures EvictTotal(rs, limits) == if |rs| < limits.maxTotal then rs else rs[|rs| - (limits.maxTotal - 1)..]
    decreases |rs|
  {
    if |rs| >= limits.maxTotal { EvictedFromFront(rs[1..], limits); }
  }

  /** A record with a new token goes last; with a known one, into its place. */
  ghost predicate PutInto(kept: Records, r: Record, after: Records) {
    if forall o | o in kept :: o.token != r.token then after == kept + [r]
    else exists i | 0 <= i < |kept| :: kept[i].token == r.token && after == kept[i := r]
  }

  lemma {:induction false} PutLast(rs: Records, r: Record)
    requires forall o | o in rs :: o.token != r.token
    ensures Put(rs, r) == rs + [r]
  {
    if rs != [] {
      PutLast(rs[1..], r);
      assert rs == [rs[0]] + rs[1..];
    }
  }

  lemma {:induction false} PutAt(rs: Records, r: Record, i: nat)
    requires i < |rs| && rs[i].token == r.token && forall j | 0 <= j < i :: rs[j].token != r.token
    ensures Put(rs, r) == rs[i := r]
  {
    if i > 0 {
      PutAt(rs[1..], r, i - 1);
      assert rs[i := r] == [rs[0]] + rs[1..][i - 1 := r];
    }
  }

  lemma PutGoesInto(rs: Records, r: Record)
    requires Distinct(rs)
    ensures PutInto(rs, r, Put(rs, r))
  {
    if o :| o in rs && o.token == r.token {
      var i :| 0 <= i < |rs| && rs[i] == o;
      PutAt(rs, r, i);
    } else {
      PutLast(rs, r);
    }
  }

  /** Whose turn it is when the identity has all it may have: its oldest. */
  ghost predicate MakesRoomOf(live: Records, limits: Limits, identity: string, kept: Records) {
    if |PlacesOf(live, identity)| < limits.maxPerIdentity then kept == live
    else exists i :: OldestOf(live, identity, i) && Without(live, live[i], kept, i)
  }

  /** After a token is issued: of what is live, less the identity's oldest when it has all it may have, the last
      maxTotal - 1 stay, and the new record is put with them. */
  lemma IssueKeeps(rs: Records, limits: Limits, r: Record) returns (kept: Records)
    requires Distinct(rs) && limits.maxTotal >= 1 && limits.maxPerIdentity >= 1
    ensures MakesRoomOf(Live(rs, r.issuedAt), limits, r.identity, kept)
    ensures var stay := if |kept| < limits.maxTotal then kept else kept[|kept| - (limits.maxTotal - 1)..];
            PutInto(stay, r, AfterIssue(rs, limits, r))
  {
    var live := Live(rs, r.issuedAt);
    LiveDistinct(rs, r.issuedAt);
    MineCounts(live, r.identity);
    kept := EvictOwn(live, limits, r.identity);
    if |Mine(live, r.identity)| >= limits.maxPerIdentity {
      var i := OldestStands(live, r.identity);
      RemoveTakesOne(live, i);
      assert Without(live, live[i], kept, i);
    }
    EvictedFromFront(kept, limits);
    KeptAreDistinct(live, limits, r);
    PutGoesInto(EvictTotal(kept, limits), r);
  }

  lemma KeptAreDistinct(live: Records, limits: Limits, r: Record)
    requires Distinct(live)
    ensures Distinct(EvictTotal(EvictOwn(live, limits, r.identity), limits))
  {
    if Mine(live, r.identity) != [] { RemoveDistinct(live, Oldest(Mine(live, r.identity)).token); }
    EvictTotalDistinct(EvictOwn(live, limits, r.identity), limits);
  }
}
