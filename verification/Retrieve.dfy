/** packages/core/src/plan/retrieve.ts and render.ts: the tables a model is shown. */
module Retrieve {
  import opened Framing
  import opened Schema
  import opened Terms
  import opened Numbers
  import opened Ranking

  // The layout of one table, the comparison of names that ends a ranking's ties and the order of a set's
  // members are parameters.

  // ---- rendering ----

  datatype Env = Env(
    norm: Normaliser,
    renderTable: (TableInfo, seq<ForeignKey>) -> string,
    order: Order,
    inOrder: set<string> -> seq<string>)

  /** Sorting only reorders, and listing a set lists each member once. */
  ghost predicate Sound(env: Env) {
    && env.order.Sorts()
    && (forall s, k :: k in env.inOrder(s) <==> k in s)
    && (forall s, i, j | 0 <= i < j < |env.inOrder(s)| :: env.inOrder(s)[i] != env.inOrder(s)[j])
  }

  /** The foreign keys drawn under a table: its own, to a table that is also shown. */
  function Outbound(t: TableInfo, fks: seq<ForeignKey>, present: set<string>): seq<ForeignKey> {
    if fks == [] then []
    else (if fks[0].source.schema == t.schema && fks[0].source.table == t.name && EndKey(fks[0].target) in present
          then [fks[0]] else []) + Outbound(t, fks[1..], present)
  }

  function RenderEach(ts: seq<TableInfo>, fks: seq<ForeignKey>, present: set<string>, env: Env): string {
    if ts == [] then ""
    else if |ts| == 1 then env.renderTable(ts[0], Outbound(ts[0], fks, present))
    else env.renderTable(ts[0], Outbound(ts[0], fks, present)) + "\n\n" + RenderEach(ts[1..], fks, present, env)
  }

  function RenderSchema(ts: seq<TableInfo>, fks: seq<ForeignKey>, env: Env): string {
    RenderEach(ts, fks, KeySet(ts), env)
  }

  // ---- links ----

  /** Both directions of every foreign key between two different tables. */
  function LinkSet(fks: seq<ForeignKey>): set<(string, string)> {
    if fks == [] then {}
    else
      var fk := fks[|fks| - 1];
      var a, b := EndKey(fk.source), EndKey(fk.target);
      LinkSet(fks[..|fks| - 1]) + if a == b then {} else {(a, b), (b, a)}
  }

  function SetIn(m: map<string, set<string>>, x: string): set<string> {
    if x in m then m[x] else {}
  }

  ghost predicate Adjacency(m: map<string, set<string>>, links: set<(string, string)>) {
    forall x, y :: y in SetIn(m, x) <==> (x, y) in links
  }

  /** One pass over the foreign keys counts their ends and notes who is linked to whom. */
  method Links(fks: seq<ForeignKey>) returns (degrees: map<string, int>, m: map<string, set<string>>)
    ensures degrees == Degrees(fks)
    ensures Adjacency(m, LinkSet(fks))
  {
    degrees, m := map[], map[];
    for i := 0 to |fks|
      invariant degrees == Degrees(fks[..i])
      invariant Adjacency(m, LinkSet(fks[..i]))
    {
      var a, b := EndKey(fks[i].source), EndKey(fks[i].target);
      assert fks[..i + 1][..i] == fks[..i];
      AddLink(m, LinkSet(fks[..i]), a, b);
      degrees := CountEnd(CountEnd(degrees, a), b);
      if a == b { continue; }
      m := m[a := SetIn(m, a) + {b}];
      m := m[b := SetIn(m, b) + {a}];
    }
    assert fks[..|fks|] == fks;
  }

  lemma AddLink(m: map<string, set<string>>, links: set<(string, string)>, a: string, b: string)
    requires Adjacency(m, links)
    ensures a != b ==> var once := m[a := SetIn(m, a) + {b}];
                       Adjacency(once[b := SetIn(once, b) + {a}], links + {(a, b), (b, a)})
    ensures Adjacency(m, links + {})
  {
    var once := m[a := SetIn(m, a) + {b}];
    var twice := once[b := SetIn(once, b) + {a}];
    if a != b {
      forall x, y ensures y in SetIn(twice, x) <==> (x, y) in links + {(a, b), (b, a)} {
        assert y in SetIn(m, x) <==> (x, y) in links;
      }
    }
  }

  // ---- following links outwards ----

  /** What the expansion starts from: the tables that exist, the keys already queued, and the keys whose links
      are followed first. */
  datatype Seeds = Seeds(links: set<(string, string)>, known: set<string>, direct: set<string>, roots: set<string>)

  ghost function Fresh(s: Seeds, queued: set<string>, froms: set<string>): set<string> {
    set to | to in s.known && to !in queued && exists x :: x in froms && (x, to) in s.links
  }

  ghost function Level(s: Seeds, n: nat): set<string>
    decreases n, 0
  {
    if n == 0 then s.roots else Fresh(s, Queued(s, n - 1), Level(s, n - 1))
  }

  ghost function Queued(s: Seeds, n: nat): set<string>
    decreases n, 1
  {
    if n == 0 then s.direct else Queued(s, n - 1) + Level(s, n)
  }

  /** t is reached from a root in exactly k links, through tables that exist and did not match by themselves. */
  ghost predicate Reached(s: Seeds, t: string, k: nat)
    decreases k
  {
    if k == 0 then t in s.roots
    else t in s.known && t !in s.direct && exists x :: Reached(s, x, k - 1) && (x, t) in s.links
  }

  lemma {:induction false} QueuedGrows(s: Seeds, m: nat, n: nat)
    requires m <= n
    ensures Queued(s, m) <= Queued(s, n) && s.direct <= Queued(s, n)
    decreases n
  {
    if m < n { QueuedGrows(s, m, n - 1); } else if n > 0 { QueuedGrows(s, 0, n - 1); }
  }

  lemma {:induction false} LevelIsReached(s: Seeds, n: nat, t: string)
    requires t in Level(s, n)
    ensures Reached(s, t, n)
  {
    if n > 0 {
      var x :| x in Level(s, n - 1) && (x, t) in s.links;
      LevelIsReached(s, n - 1, x);
      QueuedGrows(s, 0, n - 1);
    }
  }

  lemma {:induction false} QueuedHasLevel(s: Seeds, n: nat, t: string) returns (k: nat)
    requires t in Queued(s, n) && t !in s.direct
    ensures 1 <= k <= n && t in Level(s, k)
  {
    if t in Level(s, n) && n > 0 { k := n; } else { k := QueuedHasLevel(s, n - 1, t); }
  }

  lemma {:induction false} ReachedIsQueued(s: Seeds, t: string, k: nat)
    requires s.roots <= s.direct && k >= 1 && Reached(s, t, k)
    ensures t in Queued(s, k)
    decreases k
  {
    var x :| Reached(s, x, k - 1) && (x, t) in s.links;
    var j: nat := 0;
    if k > 1 {
      ReachedIsQueued(s, x, k - 1);
      j := QueuedHasLevel(s, k - 1, x);
    }
    assert x in Level(s, j);
    if t !in Queued(s, j) { assert t in Level(s, j + 1); }
    assert t in Queued(s, j + 1);
    QueuedGrows(s, j + 1, k);
  }

  ghost predicate ReachedWithin(s: Seeds, t: string, n: nat) {
    exists k: nat :: 1 <= k <= n && Reached(s, t, k)
  }

  /** After n hops, exactly the direct tables and those within n such links of a root are queued. */
  lemma QueuedMeans(s: Seeds, n: nat, t: string)
    requires s.roots <= s.direct
    ensures t in Queued(s, n) <==> t in s.direct || ReachedWithin(s, t, n)
  {
    QueuedGrows(s, 0, n);
    if t in Queued(s, n) && t !in s.direct {
      var k := QueuedHasLevel(s, n, t);
      LevelIsReached(s, k, t);
      assert ReachedWithin(s, t, n);
    }
    if ReachedWithin(s, t, n) {
      var k: nat :| 1 <= k <= n && Reached(s, t, k);
      ReachedIsQueued(s, t, k);
      QueuedGrows(s, k, n);
    }
  }

  /** Table by key; of two tables with one key the later stands. */
  function ByEnd(ts: seq<TableInfo>): (m: map<string, TableInfo>)
    ensures m.Keys == KeySet(ts)
    ensures forall k | k in m :: m[k] in ts && KeyOf(m[k]) == k
  {
    if ts == [] then map[]
    else
      var t := ts[|ts| - 1];
      assert ts == ts[..|ts| - 1] + [t];
      ByEnd(ts[..|ts| - 1])[KeyOf(t) := t]
  }

  /** slice(0, n), which counts a negative n from the end. */
  function Slice(ts: seq<TableInfo>, n: int): seq<TableInfo> {
    if n >= |ts| then ts else if n >= 0 then ts[..n] else if |ts| + n > 0 then ts[..|ts| + n] else []
  }

  function Keys(ts: seq<TableInfo>): (ks: seq<string>)
    ensures |ks| == |ts| && forall i | 0 <= i < |ks| :: ks[i] == KeyOf(ts[i])
  {
    seq(|ts|, i requires 0 <= i < |ts| => KeyOf(ts[i]))
  }

  function Members(ks: seq<string>): set<string> {
    set k | k in ks
  }

  /** The queue while links are followed: the direct tables, then tables that are each new, and nothing else
      queued. */
  ghost predicate GoodQueue(order: seq<TableInfo>, direct: seq<TableInfo>, all: seq<TableInfo>, queued: set<string>) {
    && direct <= order
    && KeySet(order) == queued
    && (forall t | t in order :: t in all || t in direct)
    && (forall i, j | 0 <= i < j < |order| && |direct| <= j :: KeyOf(order[i]) != KeyOf(order[j]))
  }

  function Gain(nbrs: seq<string>, known: set<string>, queued: set<string>): set<string> {
    set to | to in nbrs && to in known && to !in queued
  }

  lemma QueueOne(order: seq<TableInfo>, direct: seq<TableInfo>, all: seq<TableInfo>, queued: set<string>, t: TableInfo)
    requires GoodQueue(order, direct, all, queued) && KeyOf(t) !in queued && t in all
    ensures GoodQueue(order + [t], direct, all, queued + {KeyOf(t)})
  {
    var after := order + [t];
    assert forall i | 0 <= i < |order| :: KeyOf(order[i]) in KeySet(order);
    assert KeySet(after) == queued + {KeyOf(t)} by {
      assert forall u :: u in after <==> u in order || u == t;
    }
  }

  lemma GainStep(nbrs: seq<string>, j: nat, known: set<string>, queued: set<string>)
    requires j < |nbrs|
    ensures Gain(nbrs[..j + 1], known, queued) ==
            Gain(nbrs[..j], known, queued) + if nbrs[j] in known && nbrs[j] !in queued then {nbrs[j]} else {}
  {
    assert forall k :: k in nbrs[..j + 1] <==> k in nbrs[..j] || k == nbrs[j];
  }

  lemma MembersStep(ks: seq<string>, k: string)
    ensures Members(ks + [k]) == Members(ks) + {k}
  {
    assert forall x :: x in ks + [k] <==> x in ks || x == k;
  }

  /** Tables are added at the end, and none of those that were queued. */
  ghost predicate Appends(before: seq<TableInfo>, after: seq<TableInfo>, queued: set<string>) {
    before <= after && forall i | |before| <= i < |after| :: KeyOf(after[i]) !in queued
  }

  ghost predicate UnderItsKey(byEnd: map<string, TableInfo>) {
    forall k | k in byEnd :: KeyOf(byEnd[k]) == k
  }

  /** What is within m links comes before what is not, for every m up to n. */
  ghost predicate NearFirst(order: seq<TableInfo>, s: Seeds, n: int) {
    forall m: nat, i, j | m <= n && 0 <= i < j < |order| && KeyOf(order[j]) in Queued(s, m) ::
      KeyOf(order[i]) in Queued(s, m)
  }

  lemma FartherLast(before: seq<TableInfo>, after: seq<TableInfo>, s: Seeds, hop: nat)
    requires NearFirst(before, s, hop) && Appends(before, after, Queued(s, hop))
    requires forall t | t in after :: KeyOf(t) in Queued(s, hop + 1)
    ensures NearFirst(after, s, hop + 1)
  {
    forall m: nat, i, j | m <= hop + 1 && 0 <= i < j < |after| && KeyOf(after[j]) in Queued(s, m)
      ensures KeyOf(after[i]) in Queued(s, m)
    {
      if m <= hop {
        QueuedGrows(s, m, hop);
        assert after[j] == before[j] && after[i] == before[i];
      } else {
        assert after[i] in after;
      }
    }
  }

  type QueueState = (seq<TableInfo>, set<string>) -> bool

  /** Queueing a known table that is not queued keeps the queue good. */
  ghost predicate Extends(good: QueueState, byEnd: map<string, TableInfo>) {
    forall order, queued, to | good(order, queued) && to in byEnd && to !in queued ::
      good(order + [byEnd[to]], queued + {to})
  }

  ghost predicate HoldsQueued(good: QueueState) {
    forall order, queued | good(order, queued) :: forall t | t in order :: KeyOf(t) in queued
  }

  method FollowOne(nbrs: seq<string>, byEnd: map<string, TableInfo>, queued0: set<string>, order0: seq<TableInfo>,
                   next0: seq<string>, ghost good: QueueState)
      returns (queued: set<string>, order: seq<TableInfo>, next: seq<string>)
    requires Extends(good, byEnd) && good(order0, queued0) && UnderItsKey(byEnd)
    ensures queued == queued0 + Gain(nbrs, byEnd.Keys, queued0) && good(order, queued)
    ensures Members(next) == Members(next0) + Gain(nbrs, byEnd.Keys, queued0)
    ensures Appends(order0, order, queued0)
  {
    queued, order, next := queued0, order0, next0;
    for j := 0 to |nbrs|
      invariant good(order, queued) && Appends(order0, order, queued0)
      invariant queued == queued0 + Gain(nbrs[..j], byEnd.Keys, queued0)
      invariant Members(next) == Members(next0) + Gain(nbrs[..j], byEnd.Keys, queued0)
    {
      var to := nbrs[j];
      GainStep(nbrs, j, byEnd.Keys, queued0);
      if to in queued { continue; }
      if to in byEnd {
        MembersStep(next, to);
        queued, order, next := queued + {to}, order + [byEnd[to]], next + [to];
      }
    }
    assert nbrs[..|nbrs|] == nbrs;
  }

  lemma FreshStep(s: Seeds, queued: set<string>, froms: set<string>, x: string, nbrs: seq<string>)
    requires forall y :: y in nbrs <==> (x, y) in s.links
    ensures Fresh(s, queued, froms + {x}) ==
            Fresh(s, queued, froms) + Gain(nbrs, s.known, queued + Fresh(s, queued, froms))
  {
  }

  method FollowLevel(frontier: seq<string>, neighbours: map<string, set<string>>, byEnd: map<string, TableInfo>,
                     env: Env,
                     queued0: set<string>, order0: seq<TableInfo>, ghost s: Seeds, ghost good: QueueState)
      returns (queued: set<string>, order: seq<TableInfo>, next: seq<string>)
    requires Sound(env) && Adjacency(neighbours, s.links) && s.known == byEnd.Keys
    requires Extends(good, byEnd) && good(order0, queued0) && UnderItsKey(byEnd)
    ensures Members(next) == Fresh(s, queued0, Members(frontier))
    ensures queued == queued0 + Members(next) && good(order, queued)
    ensures Appends(order0, order, queued0)
  {
    queued, order, next := queued0, order0, [];
    for i := 0 to |frontier|
      invariant good(order, queued) && Appends(order0, order, queued0)
      invariant Members(next) == Fresh(s, queued0, Members(frontier[..i]))
      invariant queued == queued0 + Members(next)
    {
      var nbrs := env.inOrder(SetIn(neighbours, frontier[i]));
      FreshStep(s, queued0, Members(frontier[..i]), frontier[i], nbrs);
      MembersPrefix(frontier, i);
      queued, order, next := FollowOne(nbrs, byEnd, queued, order, next, good);
    }
    assert frontier[..|frontier|] == frontier;
  }

  lemma MembersPrefix(ks: seq<string>, i: nat)
    requires i < |ks|
    ensures Members(ks[..i + 1]) == Members(ks[..i]) + {ks[i]}
  {
    assert ks[..i + 1] == ks[..i] + [ks[i]];
    MembersStep(ks[..i], ks[i]);
  }

  function SeedsOf(fks: seq<ForeignKey>, all: seq<TableInfo>, direct: seq<TableInfo>, maxTables: int): Seeds {
    Seeds(LinkSet(fks), KeySet(all), KeySet(direct), KeySet(Slice(direct, maxTables)))
  }

  /** What has been reached after so many hops, and where the next hop starts. */
  ghost predicate AtHop(s: Seeds, hop: nat, order: seq<TableInfo>, queued: set<string>, frontier: seq<string>) {
    NearFirst(order, s, hop) && queued == Queued(s, hop) && Members(frontier) == Level(s, hop)
  }

  method FollowHop(frontier: seq<string>, queued0: set<string>, order0: seq<TableInfo>,
                   neighbours: map<string, set<string>>, byEnd: map<string, TableInfo>, env: Env,
                   ghost hop: nat, ghost s: Seeds, ghost good: QueueState)
      returns (queued: set<string>, order: seq<TableInfo>, next: seq<string>)
    requires Sound(env) && Adjacency(neighbours, s.links) && s.known == byEnd.Keys
    requires Extends(good, byEnd) && good(order0, queued0) && UnderItsKey(byEnd) && HoldsQueued(good)
    requires AtHop(s, hop, order0, queued0, frontier)
    ensures good(order, queued) && AtHop(s, hop + 1, order, queued, next)
  {
    NextLevel(s, hop);
    queued, order, next := FollowLevel(frontier, neighbours, byEnd, env, queued0, order0, s, good);
    FartherLast(order0, order, s, hop);
  }

  method FollowHops(frontier0: seq<string>, queued0: set<string>, order0: seq<TableInfo>,
                    neighbours: map<string, set<string>>, byEnd: map<string, TableInfo>, linkDepth: int, env: Env,
                    ghost s: Seeds, ghost good: QueueState)
      returns (order: seq<TableInfo>)
    requires Sound(env) && Adjacency(neighbours, s.links) && s.known == byEnd.Keys
    requires Extends(good, byEnd) && good(order0, queued0) && UnderItsKey(byEnd) && HoldsQueued(good)
    requires queued0 == Queued(s, 0) && Members(frontier0) == Level(s, 0)
    ensures good(order, Queued(s, AtLeastZero(linkDepth))) && NearFirst(order, s, AtLeastZero(linkDepth))
  {
    order := order0;
    var queued, frontier := queued0, frontier0;
    var hop := 0;
    while hop < linkDepth
      invariant 0 <= hop && (hop <= linkDepth || hop == 0)
      invariant good(order, queued) && AtHop(s, hop, order, queued, frontier)
    {
      queued, order, frontier := FollowHop(frontier, queued, order, neighbours, byEnd, env, hop, s, good);
      hop := hop + 1;
    }
  }

  lemma QueueExtends(direct: seq<TableInfo>, all: seq<TableInfo>, good: QueueState)
    requires forall order, queued :: good(order, queued) <==> GoodQueue(order, direct, all, queued)
    ensures Extends(good, ByEnd(all))
  {
    forall order, queued, to | good(order, queued) && to in ByEnd(all) && to !in queued
      ensures good(order + [ByEnd(all)[to]], queued + {to})
    {
      assert GoodQueue(order + [ByEnd(all)[to]], direct, all, queued + {to}) by {
        QueueKnown(order, direct, all, queued, to);
      }
    }
  }

  lemma QueueKnown(order: seq<TableInfo>, direct: seq<TableInfo>, all: seq<TableInfo>, queued: set<string>, to: string)
    requires GoodQueue(order, direct, all, queued) && to in ByEnd(all) && to !in queued
    ensures GoodQueue(order + [ByEnd(all)[to]], direct, all, queued + {to})
  {
    QueueOne(order, direct, all, queued, ByEnd(all)[to]);
  }

  method FollowLinks(direct: seq<TableInfo>, all: seq<TableInfo>, neighbours: map<string, set<string>>,
                     maxTables: int, linkDepth: int, env: Env, ghost fks: seq<ForeignKey>)
      returns (order: seq<TableInfo>)
    requires Sound(env) && Adjacency(neighbours, LinkSet(fks))
    ensures GoodQueue(order, direct, all, Queued(SeedsOf(fks, all, direct, maxTables), AtLeastZero(linkDepth)))
    ensures NearFirst(order, SeedsOf(fks, all, direct, maxTables), AtLeastZero(linkDepth))
  {
    KeysAreKeySet(direct);
    KeysAreKeySet(Slice(direct, maxTables));
    ghost var good := (order: seq<TableInfo>, queued: set<string>) => GoodQueue(order, direct, all, queued);
    QueueExtends(direct, all, good);
    order := FollowHops(Keys(Slice(direct, maxTables)), Members(Keys(direct)), direct, neighbours, ByEnd(all),
                        linkDepth, env,
                        SeedsOf(fks, all, direct, maxTables), good);
  }

  lemma NextLevel(s: Seeds, hop: nat)
    ensures Level(s, hop + 1) == Fresh(s, Queued(s, hop), Level(s, hop))
    ensures Queued(s, hop + 1) == Queued(s, hop) + Level(s, hop + 1)
  {
  }

  lemma KeysAreKeySet(ts: seq<TableInfo>)
    ensures Members(Keys(ts)) == KeySet(ts)
  {
    forall k | k in KeySet(ts) ensures k in Keys(ts) {
      var t :| t in ts && KeyOf(t) == k;
      var i :| 0 <= i < |ts| && ts[i] == t;
      assert Keys(ts)[i] == k;
    }
    forall k | k in Keys(ts) ensures k in KeySet(ts) {
      var i :| 0 <= i < |ts| && Keys(ts)[i] == k;
      assert ts[i] in ts;
    }
  }

  // ---- the budget ----

  /** The two caps of a selection, and what its rendering depends on. */
  datatype Limits = Limits(maxTables: int, maxTokens: int)

  function Tokens(ts: seq<TableInfo>, fks: seq<ForeignKey>, env: Env): int {
    EstimateTokens(RenderSchema(ts, fks, env))
  }

  /** Takes each table in turn unless the list is full or it would not fit; the first always fits. */
  function Choose(order: seq<TableInfo>, fks: seq<ForeignKey>, limits: Limits, env: Env): seq<TableInfo> {
    if order == [] then []
    else
      var chosen, t := Choose(order[..|order| - 1], fks, limits, env), order[|order| - 1];
      if |chosen| < limits.maxTables && (chosen == [] || Tokens(chosen + [t], fks, env) <= limits.maxTokens)
      then chosen + [t] else chosen
  }

  method Budget(order: seq<TableInfo>, fks: seq<ForeignKey>, limits: Limits, env: Env)
      returns (chosen: seq<TableInfo>, sql: string, omitted: nat)
    ensures chosen == Choose(order, fks, limits, env)
    ensures sql == RenderSchema(chosen, fks, env)
    ensures |chosen| + omitted == |order|
  {
    chosen, sql, omitted := [], "", 0;
    for i := 0 to |order|
      invariant chosen == Choose(order[..i], fks, limits, env)
      invariant sql == RenderSchema(chosen, fks, env)
      invariant |chosen| + omitted == i
    {
      assert order[..i + 1][..i] == order[..i];
      if |chosen| >= limits.maxTables { omitted := omitted + 1; continue; }
      var rendered := RenderSchema(chosen + [order[i]], fks, env);
      if EstimateTokens(rendered) > limits.maxTokens && |chosen| > 0 { omitted := omitted + 1; continue; }
      chosen, sql := chosen + [order[i]], rendered;
    }
    assert order[..|order|] == order;
  }

  ghost predicate SubsequenceAt(xs: seq<TableInfo>, ys: seq<TableInfo>, at: seq<int>) {
    && |at| == |xs|
    && (forall i | 0 <= i < |at| :: 0 <= at[i] < |ys| && ys[at[i]] == xs[i])
    && (forall i, j | 0 <= i < j < |at| :: at[i] < at[j])
  }

  lemma {:induction false} ChooseIsSubsequence(order: seq<TableInfo>, fks: seq<ForeignKey>, limits: Limits, env: Env)
      returns (at: seq<int>)
    ensures var chosen := Choose(order, fks, limits, env);
            && SubsequenceAt(chosen, order, at)
            && |chosen| <= AtLeastZero(limits.maxTables)
            && (|chosen| >= 2 ==> Tokens(chosen, fks, env) <= limits.maxTokens)
            && (limits.maxTables >= 1 && order != [] ==> chosen != [])
            && (chosen != [] ==> order != [] && chosen[0] == order[0])
  {
    at := [];
    if order != [] {
      var n := |order| - 1;
      at := ChooseIsSubsequence(order[..n], fks, limits, env);
      var chosen := Choose(order[..n], fks, limits, env);
      assert forall i | 0 <= i < |at| :: order[at[i]] == order[..n][at[i]];
      if Choose(order, fks, limits, env) != chosen {
        at := at + [n];
      }
    }
  }

  // ---- the selection ----

  datatype Request = Request(
    tables: seq<TableInfo>,
    foreignKeys: seq<ForeignKey>,
    question: string,
    limits: Limits,
    linkDepth: int)

  datatype Selection = Selection(
    tables: seq<TableInfo>,
    foreignKeys: seq<ForeignKey>,
    sql: string,
    estimatedTokens: int,
    matched: bool,
    considered: nat,
    omitted: nat)

  function Between(fks: seq<ForeignKey>, present: set<string>): seq<ForeignKey> {
    if fks == [] then []
    else
      (if EndKey(fks[0].source) in present && EndKey(fks[0].target) in present then [fks[0]] else [])
      + Between(fks[1..], present)
  }

  function RankedFor(a: Request, env: Env): seq<Scored> {
    RankedTables(a.tables, a.foreignKeys, a.question, env.norm, env.order)
  }

  /** Where the expansion starts, and which keys it has queued in the end. */
  function SeedsFor(a: Request, env: Env): Seeds {
    SeedsOf(a.foreignKeys, a.tables, DirectOf(RankedFor(a, env)), a.limits.maxTables)
  }

  ghost function QueuedFor(a: Request, env: Env): set<string> {
    Queued(SeedsFor(a, env), AtLeastZero(a.linkDepth))
  }

  /** r is the selection from the queue `order`. */
  ghost predicate SelectedFrom(r: Selection, order: seq<TableInfo>, a: Request, env: Env) {
    && GoodQueue(order, DirectOf(RankedFor(a, env)), a.tables, QueuedFor(a, env))
    && NearFirst(order, SeedsFor(a, env), AtLeastZero(a.linkDepth))
    && r.tables == Choose(order, a.foreignKeys, a.limits, env)
    && r.sql == RenderSchema(r.tables, a.foreignKeys, env) && r.estimatedTokens == EstimateTokens(r.sql)
    && |r.tables| + r.omitted == |order| && r.considered == |a.tables|
    && r.foreignKeys == Between(a.foreignKeys, KeySet(r.tables))
    && r.matched == Matched(RankedFor(a, env))
  }

  ghost predicate IsSelection(r: Selection, a: Request, env: Env) {
    exists order :: SelectedFrom(r, order, a, env)
  }

  method SelectTables(a: Request, env: Env) returns (r: Selection)
    requires Sound(env)
    ensures IsSelection(r, a, env)
  {
    var asked := Unique(env.norm(a.question));
    var degrees, neighbours := Links(a.foreignKeys);
    var scored: seq<Scored> := [];
    for i := 0 to |a.tables|
      invariant scored == ScoreAll(a.tables[..i], asked, env.norm)
    {
      var score := ScoreTable(a.tables[i], asked, env.norm);
      scored := scored + [Scored(a.tables[i], score)];
    }
    assert a.tables[..|a.tables|] == a.tables;
    var ranked := env.order.rank(scored, degrees);
    var matched := Matched(ranked);
    var direct := if matched then Positive(ranked) else TablesOf(ranked);
    var order := FollowLinks(direct, a.tables, neighbours, a.limits.maxTables, a.linkDepth, env, a.foreignKeys);
    var chosen, sql, omitted := Budget(order, a.foreignKeys, a.limits, env);
    r := Selection(chosen, Between(a.foreignKeys, KeySet(chosen)), sql, EstimateTokens(sql), matched, |a.tables|,
                   omitted);
    assert SelectedFrom(r, order, a, env);
  }

  // ---- what a selection is ----

  /** Everything drawn, table by table. */
  function Drawn(ts: seq<TableInfo>, fks: seq<ForeignKey>, present: set<string>): seq<ForeignKey> {
    if ts == [] then [] else Outbound(ts[0], fks, present) + Drawn(ts[1..], fks, present)
  }

  lemma OutboundSplits(t: TableInfo, fk: ForeignKey, fks: seq<ForeignKey>, present: set<string>)
    ensures Outbound(t, [fk] + fks, present) == Outbound(t, [fk], present) + Outbound(t, fks, present)
  {
    assert ([fk] + fks)[1..] == fks && [fk][1..] == [];
  }

  lemma {:induction false} DrawnSplits(ts: seq<TableInfo>, fk: ForeignKey, fks: seq<ForeignKey>, present: set<string>)
    ensures multiset(Drawn(ts, [fk] + fks, present)) ==
              multiset(Drawn(ts, [fk], present)) + multiset(Drawn(ts, fks, present))
  {
    if ts != [] {
      DrawnSplits(ts[1..], fk, fks, present);
      OutboundSplits(ts[0], fk, fks, present);
      Interleave(Outbound(ts[0], [fk], present), Outbound(ts[0], fks, present), Drawn(ts[1..], [fk], present),
                 Drawn(ts[1..], fks, present), Drawn(ts[1..], [fk] + fks, present));
    }
  }

  lemma Interleave<T>(a: seq<T>, b: seq<T>, x: seq<T>, y: seq<T>, xy: seq<T>)
    requires multiset(xy) == multiset(x) + multiset(y)
    ensures multiset((a + b) + xy) == multiset(a + x) + multiset(b + y)
  {
  }

  lemma HeadKeyOnce(ts: seq<TableInfo>)
    requires ts != [] && DistinctKeys(ts)
    ensures DistinctKeys(ts[1..]) && KeyOf(ts[0]) !in KeySet(ts[1..])
    ensures KeySet(ts) == KeySet(ts[1..]) + {KeyOf(ts[0])}
  {
    assert forall i | 0 <= i < |ts[1..]| :: ts[1..][i] == ts[i + 1];
    assert forall t :: t in ts <==> t == ts[0] || t in ts[1..];
  }

  lemma OutboundOne(t: TableInfo, fk: ForeignKey, present: set<string>)
    ensures Outbound(t, [fk], present) ==
            if fk.source.schema == t.schema && fk.source.table == t.name && EndKey(fk.target) in present then [fk]
                else []
  {
    assert [fk][1..] == [];
    assert Outbound(t, [], present) == [];
  }

  lemma {:induction false} DrawnOnce(ts: seq<TableInfo>, fk: ForeignKey, present: set<string>)
    requires DistinctKeys(ts)
    ensures Drawn(ts, [fk], present) == if EndKey(fk.source) in KeySet(ts) && EndKey(fk.target) in present then [fk]
              else []
  {
    if ts != [] {
      HeadKeyOnce(ts);
      DrawnOnce(ts[1..], fk, present);
      OutboundOne(ts[0], fk, present);
      if EndKey(fk.source) == KeyOf(ts[0]) {
        TableKeyInjective(fk.source.schema, fk.source.table, ts[0].schema, ts[0].name);
      }
    }
  }

  /** The foreign keys returned are exactly those drawn, each once. */
  lemma {:induction false} DrawnIsBetween(ts: seq<TableInfo>, fks: seq<ForeignKey>)
    requires DistinctKeys(ts)
    ensures multiset(Drawn(ts, fks, KeySet(ts))) == multiset(Between(fks, KeySet(ts)))
  {
    if fks == [] {
      NothingDrawn(ts, KeySet(ts));
    } else {
      DrawnIsBetween(ts, fks[1..]);
      DrawnSplits(ts, fks[0], fks[1..], KeySet(ts));
      DrawnOnce(ts, fks[0], KeySet(ts));
      assert fks == [fks[0]] + fks[1..];
    }
  }

  lemma {:induction false} NothingDrawn(ts: seq<TableInfo>, present: set<string>)
    ensures Drawn(ts, [], present) == []
  {
    if ts != [] { NothingDrawn(ts[1..], present); }
  }

  /** t is direct, or within linkDepth links of one of the first maxTables direct ones. */
  ghost predicate Near(t: TableInfo, a: Request, env: Env) {
    var s := SeedsFor(a, env);
    KeyOf(t) in s.direct || ReachedWithin(s, KeyOf(t), AtLeastZero(a.linkDepth))
  }

  /** A selection: at most maxTables tables of the schema, the foremost first, within the token budget from the
      second on and never nothing from something, each near; and, where the schema lists each table once, all
      different, none lost without being counted, and the foreign keys returned those the SQL shows. */
  lemma SelectionMeans(r: Selection, a: Request, env: Env)
    requires Sound(env) && IsSelection(r, a, env)
    ensures |r.tables| <= AtLeastZero(a.limits.maxTables)
    ensures |r.tables| >= 2 ==> r.estimatedTokens <= a.limits.maxTokens
    ensures a.limits.maxTables >= 1 && a.tables != [] ==> r.tables != []
    ensures forall t | t in r.tables :: t in a.tables && Near(t, a, env)
    ensures r.matched <==> exists t :: t in a.tables && Relevance(t, a.question, env.norm) > 0
    ensures r.tables != [] ==> Foremost(r.tables[0], a.tables, a.foreignKeys, a.question, env.norm)
    ensures DistinctKeys(a.tables) ==>
              && DistinctKeys(r.tables)
              && |r.tables| + r.omitted == |QueuedFor(a, env)|
              && multiset(r.foreignKeys) == multiset(Drawn(r.tables, a.foreignKeys, KeySet(r.tables)))
  {
    var order :| SelectedFrom(r, order, a, env);
    DirectIsBest(a.tables, a.foreignKeys, a.question, env.norm, env.order);
    var at := ChooseIsSubsequence(order, a.foreignKeys, a.limits, env);
    QueueIsReached(order, a, env);
    FirstIsDirect(order, a, env);
    forall t | t in r.tables ensures t in order {
      var i :| 0 <= i < |r.tables| && r.tables[i] == t;
      assert order[at[i]] == t;
    }
    if DistinctKeys(a.tables) {
      QueueIsDistinct(order, a, env);
      DistinctParts(r.tables, order, at);
      DrawnIsBetween(r.tables, a.foreignKeys);
    }
  }

  lemma FirstIsDirect(order: seq<TableInfo>, a: Request, env: Env)
    requires Sound(env) && DirectOf(RankedFor(a, env)) <= order && forall t | t in order :: t in a.tables
    ensures order == [] <==> a.tables == []
    ensures order != [] ==> Foremost(order[0], a.tables, a.foreignKeys, a.question, env.norm)
  {
    var direct := DirectOf(RankedFor(a, env));
    DirectIsBest(a.tables, a.foreignKeys, a.question, env.norm, env.order);
    if order != [] { assert order[0] in a.tables; }
    if a.tables != [] { assert order[0] == direct[0]; }
  }

  lemma DistinctParts(xs: seq<TableInfo>, ys: seq<TableInfo>, at: seq<int>)
    requires SubsequenceAt(xs, ys, at) && DistinctKeys(ys)
    ensures DistinctKeys(xs)
  {
    forall i, j | 0 <= i < j < |xs| ensures KeyOf(xs[i]) != KeyOf(xs[j]) {
      assert at[i] < at[j] && ys[at[i]] == xs[i] && ys[at[j]] == xs[j];
    }
  }

  lemma QueueIsDistinct(order: seq<TableInfo>, a: Request, env: Env)
    requires Sound(env) && DistinctKeys(a.tables)
    requires GoodQueue(order, DirectOf(RankedFor(a, env)), a.tables, QueuedFor(a, env))
    ensures DistinctKeys(order) && |order| == |QueuedFor(a, env)|
  {
    var direct := DirectOf(RankedFor(a, env));
    DirectTables(a.tables, a.foreignKeys, a.question, env.norm, env.order);
    forall i, j | 0 <= i < j < |order| ensures KeyOf(order[i]) != KeyOf(order[j]) {
      if j < |direct| { assert order[i] == direct[i] && order[j] == direct[j]; }
    }
    DistinctCount(order);
  }

  lemma {:induction false} DistinctCount(ts: seq<TableInfo>)
    requires DistinctKeys(ts)
    ensures |KeySet(ts)| == |ts|
  {
    if ts != [] {
      HeadKeyOnce(ts);
      DistinctCount(ts[1..]);
    }
  }

  lemma QueueIsReached(order: seq<TableInfo>, a: Request, env: Env)
    requires Sound(env) && GoodQueue(order, DirectOf(RankedFor(a, env)), a.tables, QueuedFor(a, env))
    ensures forall t | t in order :: t in a.tables && Near(t, a, env)
  {
    DirectIsBest(a.tables, a.foreignKeys, a.question, env.norm, env.order);
    RootsAreDirect(a.foreignKeys, a.tables, DirectOf(RankedFor(a, env)), a.limits.maxTables);
    forall t | t in order ensures t in a.tables && Near(t, a, env) {
      assert KeyOf(t) in KeySet(order);
      QueuedMeans(SeedsFor(a, env), AtLeastZero(a.linkDepth), KeyOf(t));
    }
  }

  lemma RootsAreDirect(fks: seq<ForeignKey>, all: seq<TableInfo>, direct: seq<TableInfo>, maxTables: int)
    ensures SeedsOf(fks, all, direct, maxTables).roots <= SeedsOf(fks, all, direct, maxTables).direct
  {
    assert forall t | t in Slice(direct, maxTables) :: t in direct;
  }
}
