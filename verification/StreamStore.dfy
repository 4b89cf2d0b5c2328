/** packages/server/src/store.ts: the in-memory token store. */
module StreamStore {
  import opened Schema

  // A JavaScript Map keeps insertion order, and the eviction loops depend on it, so the records are a
  // sequence with distinct tokens.

  datatype Record = Record(token: string, identity: string, query: string, issuedAt: real, expiresAt: real)

  datatype Limits = Limits(maxTotal: nat, maxPerIdentity: nat)

  type Records = seq<Record>

  // ---- lookups and removals on an ordered map ----

  function Find(rs: Records, token: string): Option<Record> {
    if rs == [] then None
    else if rs[0].token == token then Some(rs[0])
    else Find(rs[1..], token)
  }

  function Remove(rs: Records, token: string): Records {
    if rs == [] then []
    else if rs[0].token == token then Remove(rs[1..], token)
    else [rs[0]] + Remove(rs[1..], token)
  }

  /** Map.set: a new token goes last, a known one keeps its place. */
  function Put(rs: Records, r: Record): Records {
    if rs == [] then [r]
    else if rs[0].token == r.token then [r] + rs[1..]
    else [rs[0]] + Put(rs[1..], r)
  }

  /** The records that have not expired. */
  function Live(rs: Records, now: real): Records {
    if rs == [] then []
    else if rs[0].expiresAt <= now then Live(rs[1..], now)
    else [rs[0]] + Live(rs[1..], now)
  }

  function Mine(rs: Records, identity: string): Records {
    if rs == [] then []
    else if rs[0].identity == identity then [rs[0]] + Mine(rs[1..], identity)
    else Mine(rs[1..], identity)
  }

  /** The earliest issued, and of those the first inserted: the head of a stable sort. */
  function Oldest(rs: Records): (r: Record)
    requires rs != []
    ensures r in rs && forall o | o in rs :: r.issuedAt <= o.issuedAt
  {
    if |rs| == 1 then rs[0]
    else
      var r := Oldest(rs[1..]);
      if rs[0].issuedAt <= r.issuedAt then rs[0] else r
  }

  // ---- the operations ----

  function EvictOwn(rs: Records, limits: Limits, identity: string): Records {
    var mine := Mine(rs, identity);
    if |mine| >= limits.maxPerIdentity && mine != [] then Remove(rs, Oldest(mine).token) else rs
  }

  /** Drops from the front until there is room. */
  function EvictTotal(rs: Records, limits: Limits): Records {
    if |rs| >= limits.maxTotal && rs != [] then EvictTotal(rs[1..], limits) else rs
  }

  function Admit(rs: Records, limits: Limits, r: Record): Records {
    Put(EvictTotal(EvictOwn(rs, limits, r.identity), limits), r)
  }

  function AfterIssue(rs: Records, limits: Limits, r: Record): Records {
    Admit(Live(rs, r.issuedAt), limits, r)
  }

  function AfterGet(rs: Records, token: string, now: real): (Records, Option<Record>) {
    match Find(rs, token)
    case None => (rs, None)
    case Some(r) => if r.expiresAt <= now then (Remove(rs, token), None) else (rs, Some(r))
  }

  // ---- the store itself ----

  ghost predicate Distinct(rs: Records) {
    forall i, j | 0 <= i < j < |rs| :: rs[i].token != rs[j].token
  }

  class MemoryStreamStore {
    const limits: Limits
    var records: Records

    ghost predicate Valid()
      reads this
    {
      Distinct(records)
    }

    constructor (limits: Limits)
      ensures Valid() && records == [] && this.limits == limits
    {
      this.limits, records := limits, [];
    }

    method Drop(now: real)
      requires Valid()
      modifies this`records
      ensures Valid() && records == Live(old(records), now)
    {
      var kept: Records := [];
      for i := 0 to |records|
        invariant records == old(records)
        invariant kept == Live(records[..i], now)
      {
        LiveLast(records[..i + 1], now);
        assert records[..i + 1][..i] == records[..i];
        if !(records[i].expiresAt <= now) { kept := kept + [records[i]]; }
      }
      assert records[..|records|] == records;
      LiveDistinct(records, now);
      records := kept;
    }

    method Issue(r: Record)
      requires Valid()
      modifies this`records
      ensures Valid() && records == AfterIssue(old(records), limits, r)
    {
      Drop(r.issuedAt);
      var mine := Mine(records, r.identity);
      if |mine| >= limits.maxPerIdentity {
        if mine != [] {
          RemoveDistinct(records, Oldest(mine).token);
          records := Remove(records, Oldest(mine).token);
        }
      }
      ghost var evicted := records;
      while |records| >= limits.maxTotal
        invariant Valid()
        invariant EvictTotal(records, limits) == EvictTotal(evicted, limits)
      {
        if records == [] { break; }
        records := records[1..];
      }
      PutDistinct(records, r);
      records := Put(records, r);
    }

    method Get(token: string, now: real) returns (found: Option<Record>)
      requires Valid()
      modifies this`records
      ensures Valid() && (records, found) == AfterGet(old(records), token, now)
    {
      found := Find(records, token);
      if found.Some? && found.value.expiresAt <= now {
        RemoveDistinct(records, token);
        records, found := Remove(records, token), None;
      }
    }

    method Revoke(token: string)
      requires Valid()
      modifies this`records
      ensures Valid() && records == Remove(old(records), token)
    {
      RemoveDistinct(records, token);
      records := Remove(records, token);
    }

    method CountFor(identity: string, now: real) returns (count: nat)
      requires Valid()
      modifies this`records
      ensures Valid() && records == Live(old(records), now)
      ensures count == |Mine(records, identity)|
    {
      Drop(now);
      count := 0;
      for i := 0 to |records|
        invariant Valid() && records == Live(old(records), now)
        invariant count == |Mine(records[..i], identity)|
      {
        MineLast(records[..i + 1], identity);
        assert records[..i + 1][..i] == records[..i];
        if records[i].identity == identity { count := count + 1; }
      }
      assert records[..|records|] == records;
    }
  }

  // ---- facts about the ordered map ----

  lemma {:induction false} LiveLast(rs: Records, now: real)
    requires rs != []
    ensures var n := |rs| - 1;
            Live(rs, now) == Live(rs[..n], now) + if rs[n].expiresAt <= now then [] else [rs[n]]
  {
    if |rs| > 1 {
      LiveLast(rs[1..], now);
      assert rs[1..][..|rs| - 2] == rs[..|rs| - 1][1..];
    }
  }

  lemma {:induction false} MineLast(rs: Records, identity: string)
    requires rs != []
    ensures var n := |rs| - 1;
            Mine(rs, identity) == Mine(rs[..n], identity) + if rs[n].identity == identity then [rs[n]] else []
  {
    if |rs| > 1 {
      MineLast(rs[1..], identity);
      assert rs[1..][..|rs| - 2] == rs[..|rs| - 1][1..];
    }
  }

  lemma {:induction false} LiveIsPart(rs: Records, now: real)
    ensures forall r :: r in Live(rs, now) <==> r in rs && r.expiresAt > now
    ensures |Live(rs, now)| <= |rs|
  {
    if rs != [] { LiveIsPart(rs[1..], now); }
  }

  lemma {:induction false} LiveDistinct(rs: Records, now: real)
    requires Distinct(rs)
    ensures Distinct(Live(rs, now))
  {
    if rs != [] {
      LiveDistinct(rs[1..], now);
      LiveIsPart(rs[1..], now);
      assert forall r | r in rs[1..] :: r.token != rs[0].token;
    }
  }

  lemma {:induction false} RemoveIsPart(rs: Records, token: string)
    ensures forall r :: r in Remove(rs, token) <==> r in rs && r.token != token
  {
    if rs != [] { RemoveIsPart(rs[1..], token); }
  }

  lemma {:induction false} RemoveDistinct(rs: Records, token: string)
    requires Distinct(rs)
    ensures Distinct(Remove(rs, token))
  {
    if rs != [] {
      RemoveDistinct(rs[1..], token);
      RemoveIsPart(rs[1..], token);
      assert forall r | r in rs[1..] :: r.token != rs[0].token;
    }
  }

  lemma {:induction false} PutIsPart(rs: Records, r: Record)
    ensures r in Put(rs, r) && forall o | o in Put(rs, r) :: o == r || o in rs
    ensures |rs| <= |Put(rs, r)| <= |rs| + 1
    ensures forall identity :: |Mine(Put(rs, r), identity)| <= |Mine(rs, identity)| + if identity == r.identity
              then 1 else 0
  {
    if rs != [] {
      PutIsPart(rs[1..], r);
      if rs[0].token == r.token { assert ([r] + rs[1..])[1..] == rs[1..]; }
    }
  }

  lemma {:induction false} PutDistinct(rs: Records, r: Record)
    requires Distinct(rs)
    ensures Distinct(Put(rs, r))
  {
    if rs != [] {
      assert Distinct(rs[1..]);
      if rs[0].token != r.token {
        PutDistinct(rs[1..], r);
        PutIsPart(rs[1..], r);
        assert forall o | o in rs[1..] :: o.token != rs[0].token;
      }
    }
  }

  // ---- lazy expiry against eager expiry ----

  /** What a client of the store can do. Issuing happens at the record's own issue time. */
  datatype Op =
    | OpIssue(r: Record)
    | OpGet(token: string, now: real)
    | OpCount(identity: string, now: real)
    | OpRevoke(token: string, now: real)
    | OpSweep(now: real)
  {
    function At(): real {
      match this
      case OpIssue(r) => r.issuedAt
      case _ => now
    }
  }

  datatype Answer = Done | Found(found: Option<Record>) | Count(count: nat)

  /** The store as written: an expired record stays until something happens to look at it. */
  function LazyStep(rs: Records, limits: Limits, op: Op): (Records, Answer) {
    match op
    case OpIssue(r) => (AfterIssue(rs, limits, r), Done)
    case OpGet(token, now) => var (rs', found) := AfterGet(rs, token, now); (rs', Found(found))
    case OpCount(identity, now) => (Live(rs, now), Count(|Mine(Live(rs, now), identity)|))
    case OpRevoke(token, now) => (Remove(rs, token), Done)
    case OpSweep(now) => (Live(rs, now), Done)
  }

  /** A store from which a record disappears the instant it expires: it never has to check. */
  function EagerStep(rs: Records, limits: Limits, op: Op): (Records, Answer) {
    match op
    case OpIssue(r) => (Admit(rs, limits, r), Done)
    case OpGet(token, now) => (rs, Found(Find(rs, token)))
    case OpCount(identity, now) => (rs, Count(|Mine(rs, identity)|))
    case OpRevoke(token, now) => (Remove(rs, token), Done)
    case OpSweep(now) => (rs, Done)
  }

  function LazyRun(rs: Records, limits: Limits, ops: seq<Op>): (Records, seq<Answer>)
    decreases ops
  {
    if ops == [] then (rs, [])
    else
      var (rs', a) := LazyStep(rs, limits, ops[0]);
      var (end, answers) := LazyRun(rs', limits, ops[1..]);
      (end, [a] + answers)
  }

  /** Time passes before every operation, and takes the expired records with it. */
  function EagerRun(rs: Records, limits: Limits, ops: seq<Op>): (Records, seq<Answer>)
    decreases ops
  {
    if ops == [] then (rs, [])
    else
      var (rs', a) := EagerStep(Live(rs, ops[0].At()), limits, ops[0]);
      var (end, answers) := EagerRun(rs', limits, ops[1..]);
      (end, [a] + answers)
  }

  ghost predicate ClockFrom(t: real, ops: seq<Op>) {
    && (forall i | 0 <= i < |ops| :: t <= ops[i].At())
    && (forall i, j | 0 <= i < j < |ops| :: ops[i].At() <= ops[j].At())
  }

  lemma {:induction false} LiveLive(rs: Records, t: real, now: real)
    requires t <= now
    ensures Live(Live(rs, t), now) == Live(rs, now)
  {
    if rs != [] {
      LiveLive(rs[1..], t, now);
      if rs[0].expiresAt > t { assert ([rs[0]] + Live(rs[1..], t))[1..] == Live(rs[1..], t); }
    }
  }

  lemma {:induction false} LiveRemove(rs: Records, token: string, now: real)
    ensures Live(Remove(rs, token), now) == Remove(Live(rs, now), token)
  {
    if rs != [] {
      LiveRemove(rs[1..], token, now);
      assert ([rs[0]] + Remove(rs[1..], token))[1..] == Remove(rs[1..], token);
      assert ([rs[0]] + Live(rs[1..], now))[1..] == Live(rs[1..], now);
    }
  }

  lemma {:induction false} FindLive(rs: Records, token: string, now: real)
    requires Distinct(rs)
    ensures Find(Live(rs, now), token) ==
            match Find(rs, token)
            case None => None
            case Some(r) => if r.expiresAt <= now then None else Some(r)
  {
    if rs != [] {
      FindLive(rs[1..], token, now);
      assert ([rs[0]] + Live(rs[1..], now))[1..] == Live(rs[1..], now);
      if rs[0].token == token {
        LiveIsPart(rs[1..], now);
        assert forall r | r in Live(rs[1..], now) :: r.token != token;
        FindAbsent(Live(rs[1..], now), token);
      }
    }
  }

  lemma {:induction false} FindAbsent(rs: Records, token: string)
    requires forall r | r in rs :: r.token != token
    ensures Find(rs, token).None?
  {
    if rs != [] { FindAbsent(rs[1..], token); }
  }

  lemma {:induction false} RemoveExpired(rs: Records, token: string, now: real)
    requires Distinct(rs) && Find(rs, token).Some? && Find(rs, token).value.expiresAt <= now
    ensures Live(Remove(rs, token), now) == Live(rs, now)
  {
    FindLive(rs, token, now);
    LiveRemove(rs, token, now);
    RemoveUnknown(Live(rs, now), token);
  }

  lemma {:induction false} RemoveUnknown(rs: Records, token: string)
    requires Find(rs, token).None?
    ensures Remove(rs, token) == rs
  {
    if rs != [] { RemoveUnknown(rs[1..], token); }
  }

  /** One operation: same answer, and the same records once the expired ones are disregarded. */
  lemma StepRefines(lazy: Records, eager: Records, t: real, limits: Limits, op: Op)
    requires Distinct(lazy) && eager == Live(lazy, t) && t <= op.At()
    ensures var l, e := LazyStep(lazy, limits, op), EagerStep(Live(eager, op.At()), limits, op);
            && l.1 == e.1
            && Live(l.0, op.At()) == Live(e.0, op.At())
            && Distinct(l.0)
            && (op.OpIssue? ==> l.0 == e.0)
  {
    var now := op.At();
    LiveLive(lazy, t, now);
    LiveLive(lazy, now, now);
    LiveDistinct(lazy, now);
    match op {
      case OpIssue(r) => AdmitDistinct(Live(lazy, now), limits, r);
      case OpGet(token, _) =>
        FindLive(lazy, token, now);
        RemoveDistinct(lazy, token);
        if Find(lazy, token).Some? && Find(lazy, token).value.expiresAt <= now { RemoveExpired(lazy, token, now); }
      case OpCount(_, _) =>
      case OpRevoke(token, _) =>
        LiveRemove(lazy, token, now);
        LiveRemove(Live(lazy, now), token, now);
        RemoveDistinct(lazy, token);
      case OpSweep(_) =>
    }
  }

  lemma AdmitDistinct(rs: Records, limits: Limits, r: Record)
    requires Distinct(rs)
    ensures Distinct(Admit(rs, limits, r))
  {
    if Mine(rs, r.identity) != [] { RemoveDistinct(rs, Oldest(Mine(rs, r.identity)).token); }
    EvictTotalDistinct(EvictOwn(rs, limits, r.identity), limits);
    PutDistinct(EvictTotal(EvictOwn(rs, limits, r.identity), limits), r);
  }

  lemma {:induction false} EvictTotalDistinct(rs: Records, limits: Limits)
    requires Distinct(rs)
    ensures Distinct(EvictTotal(rs, limits))
  {
    if |rs| >= limits.maxTotal && rs != [] { EvictTotalDistinct(rs[1..], limits); }
  }

  /** Over any run with a clock that does not go back, the two stores answer alike throughout. */
  lemma {:induction false} LazyRefinesEager(lazy: Records, eager: Records, t: real, limits: Limits, ops: seq<Op>)
    requires Distinct(lazy) && ClockFrom(t, ops)
    requires Live(eager, t) == Live(lazy, t)
    ensures LazyRun(lazy, limits, ops).1 == EagerRun(eager, limits, ops).1
    ensures Distinct(LazyRun(lazy, limits, ops).0)
    ensures var end := if ops == [] then t else ops[|ops| - 1].At();
            Live(LazyRun(lazy, limits, ops).0, end) == Live(EagerRun(eager, limits, ops).0, end)
    decreases ops
  {
    if ops != [] {
      var now := ops[0].At();
      LiveLive(eager, t, now);
      LiveLive(lazy, t, now);
      assert Live(eager, now) == Live(Live(lazy, t), now);
      LiveLive(Live(lazy, t), now, now);
      StepRefines(lazy, Live(lazy, t), t, limits, ops[0]);
      LiveLive(lazy, now, now);
      LazyRefinesEager(LazyStep(lazy, limits, ops[0]).0, EagerStep(Live(eager, now), limits, ops[0]).0, now, limits,
                       ops[1..]);
    }
  }

  // ---- the bounds ----

  ghost predicate Bounded(rs: Records, limits: Limits) {
    |rs| <= limits.maxTotal && forall identity :: |Mine(rs, identity)| <= limits.maxPerIdentity
  }

  lemma {:induction false} MineOfPart(rs: Records, identity: string)
    ensures |Mine(rs, identity)| <= |rs|
    ensures forall r :: r in Mine(rs, identity) <==> r in rs && r.identity == identity
  {
    if rs != [] { MineOfPart(rs[1..], identity); }
  }

  lemma {:induction false} MineOfRemoved(rs: Records, token: string, identity: string)
    ensures |Remove(rs, token)| <= |rs|
    ensures |Mine(Remove(rs, token), identity)| <= |Mine(rs, identity)|
    ensures (exists r :: r in rs && r.token == token && r.identity == identity) ==>
              |Mine(Remove(rs, token), identity)| < |Mine(rs, identity)|
  {
    if rs != [] {
      MineOfRemoved(rs[1..], token, identity);
      assert ([rs[0]] + Remove(rs[1..], token))[1..] == Remove(rs[1..], token);
    }
  }

  lemma {:induction false} MineOfLive(rs: Records, now: real, identity: string)
    ensures |Mine(Live(rs, now), identity)| <= |Mine(rs, identity)|
  {
    if rs != [] {
      MineOfLive(rs[1..], now, identity);
      assert ([rs[0]] + Live(rs[1..], now))[1..] == Live(rs[1..], now);
    }
  }

  lemma {:induction false} EvictTotalMakesRoom(rs: Records, limits: Limits)
    requires limits.maxTotal >= 1
    ensures |EvictTotal(rs, limits)| < limits.maxTotal
    ensures forall identity :: |Mine(EvictTotal(rs, limits), identity)| <= |Mine(rs, identity)|
  {
    if |rs| >= limits.maxTotal { EvictTotalMakesRoom(rs[1..], limits); }
  }

  /** With caps of at least one, every operation keeps the number of records, in all and per identity, within them. */
  lemma StepStaysBounded(rs: Records, limits: Limits, op: Op)
    requires limits.maxTotal >= 1 && limits.maxPerIdentity >= 1
    requires Bounded(rs, limits)
    ensures Bounded(LazyStep(rs, limits, op).0, limits)
  {
    match op {
      case OpIssue(r) =>
        LiveIsPart(rs, r.issuedAt);
        forall identity ensures |Mine(Live(rs, r.issuedAt), identity)| <= limits.maxPerIdentity {
          MineOfLive(rs, r.issuedAt, identity);
        }
        AdmitStaysBounded(Live(rs, r.issuedAt), limits, r);
      case OpGet(token, _) => RemoveStaysBounded(rs, limits, token);
      case OpRevoke(token, _) => RemoveStaysBounded(rs, limits, token);
      case _ =>
        LiveIsPart(rs, op.now);
        forall identity ensures |Mine(Live(rs, op.now), identity)| <= limits.maxPerIdentity {
          MineOfLive(rs, op.now, identity);
        }
    }
  }

  lemma RemoveStaysBounded(rs: Records, limits: Limits, token: string)
    requires Bounded(rs, limits)
    ensures Bounded(Remove(rs, token), limits)
  {
    MineOfRemoved(rs, token, "");
    forall identity ensures |Mine(Remove(rs, token), identity)| <= limits.maxPerIdentity {
      MineOfRemoved(rs, token, identity);
    }
  }

  lemma AdmitStaysBounded(rs: Records, limits: Limits, r: Record)
    requires limits.maxTotal >= 1 && limits.maxPerIdentity >= 1
    requires Bounded(rs, limits)
    ensures Bounded(Admit(rs, limits, r), limits)
  {
    var mine := Mine(rs, r.identity);
    var own := EvictOwn(rs, limits, r.identity);
    MineOfPart(rs, r.identity);
    if |mine| >= limits.maxPerIdentity { MineOfRemoved(rs, Oldest(mine).token, r.identity); }
    assert |Mine(own, r.identity)| < limits.maxPerIdentity;
    forall identity ensures |Mine(own, identity)| <= |Mine(rs, identity)| {
      if mine != [] { MineOfRemoved(rs, Oldest(mine).token, identity); }
    }
    EvictTotalMakesRoom(own, limits);
    PutIsPart(EvictTotal(own, limits), r);
  }

  lemma {:induction false} RunStaysBounded(rs: Records, limits: Limits, ops: seq<Op>)
    requires limits.maxTotal >= 1 && limits.maxPerIdentity >= 1
    requires Bounded(rs, limits)
    ensures Bounded(LazyRun(rs, limits, ops).0, limits)
    decreases ops
  {
    if ops != [] {
      StepStaysBounded(rs, limits, ops[0]);
      RunStaysBounded(LazyStep(rs, limits, ops[0]).0, limits, ops[1..]);
    }
  }

  /** From the empty store: the answers of every run are those of the eager store, and neither cap is ever passed. */
  lemma EveryRun(limits: Limits, t: real, ops: seq<Op>)
    requires limits.maxTotal >= 1 && limits.maxPerIdentity >= 1 && ClockFrom(t, ops)
    ensures LazyRun([], limits, ops).1 == EagerRun([], limits, ops).1
    ensures Bounded(LazyRun([], limits, ops).0, limits)
  {
    LazyRefinesEager([], [], t, limits, ops);
    RunStaysBounded([], limits, ops);
  }
}
