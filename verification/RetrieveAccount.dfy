/** Why each table is shown or left out. */
module RetrieveAccount {
  import opened Schema
  import opened Framing
  import opened Terms
  import opened Text
  import opened Numbers
  import opened Ranking
  import opened Retrieve

  // The selection of packages/core/src/plan/retrieve.ts, from the queue of tables and the text they make.

  // ---- the text ----

  lemma {:induction false} MeasureAdds(a: string, b: string, width: char -> nat)
    ensures Measure(a + b, width) == Measure(a, width) + Measure(b, width)
  {
    if a == [] {
      assert a + b == b;
    } else {
      MeasureAdds(a[1..], b, width);
      assert (a + b)[1..] == a[1..] + b;
    }
  }

  function Drawings(ts: seq<TableInfo>, fks: seq<ForeignKey>, present: set<string>, env: Env): (texts: seq<string>)
    ensures |texts| == |ts|
    ensures forall i | 0 <= i < |ts| :: texts[i] == env.renderTable(ts[i], Outbound(ts[i], fks, present))
  {
    seq(|ts|, i requires 0 <= i < |ts| => env.renderTable(ts[i], Outbound(ts[i], fks, present)))
  }

  lemma {:induction false} EachIsJoined(ts: seq<TableInfo>, fks: seq<ForeignKey>, present: set<string>, env: Env)
    ensures RenderEach(ts, fks, present, env) == Join(Drawings(ts, fks, present, env), "\n\n")
  {
    if |ts| > 1 {
      EachIsJoined(ts[1..], fks, present, env);
      assert Drawings(ts, fks, present, env)[1..] == Drawings(ts[1..], fks, present, env);
    }
  }

  lemma {:induction false} OutboundMeans(t: TableInfo, fks: seq<ForeignKey>, present: set<string>, fk: ForeignKey)
    ensures fk in Outbound(t, fks, present) <==>
            fk in fks && fk.source.schema == t.schema && fk.source.table == t.name
            && TableKey(fk.target.schema, fk.target.table) in present
  {
    if fks != [] {
      OutboundMeans(t, fks[1..], present, fk);
      assert fk in fks <==> fk == fks[0] || fk in fks[1..];
    }
  }

  /** The text of a selection: every table once, in order, with the foreign keys it has to tables shown. */
  lemma RenderedIsJoin(ts: seq<TableInfo>, fks: seq<ForeignKey>, env: Env)
    ensures RenderSchema(ts, fks, env) == Join(Drawings(ts, fks, KeySet(ts), env), "\n\n")
    ensures forall i, fk | 0 <= i < |ts| ::
              fk in Outbound(ts[i], fks, KeySet(ts)) <==> DrawnUnder(ts[i], ts, fks, fk)
  {
    EachIsJoined(ts, fks, KeySet(ts), env);
    forall i, fk | 0 <= i < |ts|
      ensures fk in Outbound(ts[i], fks, KeySet(ts)) <==> DrawnUnder(ts[i], ts, fks, fk)
    {
      OutboundMeans(ts[i], fks, KeySet(ts), fk);
      KeyAmong(ts, fk.target);
    }
  }

  /** The foreign key starts at the table and leads to one that is shown. */
  ghost predicate DrawnUnder(t: TableInfo, ts: seq<TableInfo>, fks: seq<ForeignKey>, fk: ForeignKey) {
    && fk in fks && fk.source.schema == t.schema && fk.source.table == t.name
    && exists u :: u in ts && u.schema == fk.target.schema && u.name == fk.target.table
  }

  lemma KeyAmong(ts: seq<TableInfo>, e: ForeignKeyEnd)
    ensures TableKey(e.schema, e.table) in KeySet(ts) <==>
            exists u :: u in ts && u.schema == e.schema && u.name == e.table
  {
    if u :| u in ts && KeyOf(u) == TableKey(e.schema, e.table) {
      TableKeyInjective(u.schema, u.name, e.schema, e.table);
    }
    if u :| u in ts && u.schema == e.schema && u.name == e.table { assert KeyOf(u) in KeySet(ts); }
  }

  /** The foreign keys returned are those of the schema whose two ends are both shown. */
  lemma {:induction false} BetweenMeans(fks: seq<ForeignKey>, present: set<string>, fk: ForeignKey)
    ensures fk in Between(fks, present) <==>
            fk in fks && TableKey(fk.source.schema, fk.source.table) in present
            && TableKey(fk.target.schema, fk.target.table) in present
  {
    if fks != [] {
      BetweenMeans(fks[1..], present, fk);
      assert fk in fks <==> fk == fks[0] || fk in fks[1..];
    }
  }

  // ---- what is left out ----

  /** The rendering of these tables takes more than four characters a token. */
  predicate TooLong(ts: seq<TableInfo>, fks: seq<ForeignKey>, limits: Limits, env: Env) {
    Utf16Length(RenderSchema(ts, fks, env)) > 4 * limits.maxTokens
  }

  /** The first c of the chosen positions come before i, the others after it. */
  ghost predicate Splits(at: seq<int>, c: int, i: int) {
    && 0 <= c <= |at|
    && (forall j | 0 <= j < c :: at[j] < i)
    && (forall j | c <= j < |at| :: at[j] > i)
  }

  /** No room is left after c tables were chosen, or none for this one. */
  predicate NoRoom(chosen: seq<TableInfo>, c: int, t: TableInfo, fks: seq<ForeignKey>, limits: Limits, env: Env)
    requires 0 <= c <= |chosen|
  {
    c >= limits.maxTables || (c >= 1 && TooLong(chosen[..c] + [t], fks, limits, env))
  }

  /** The chosen tables stand at `at`: each had room when its turn came, and each other table had none. */
  ghost predicate ChosenForRoom(chosen: seq<TableInfo>, order: seq<TableInfo>, at: seq<int>, fks: seq<ForeignKey>,
                                limits: Limits, env: Env) {
    && SubsequenceAt(chosen, order, at)
    && (forall j | 0 <= j < |at| :: !NoRoom(chosen, j, chosen[j], fks, limits, env))
    && (forall i, c | 0 <= i < |order| && Splits(at, c, i) :: NoRoom(chosen, c, order[i], fks, limits, env))
  }

  lemma {:induction false} SplitAt(at: seq<int>, i: int) returns (c: int)
    requires i !in at && forall j, k | 0 <= j < k < |at| :: at[j] < at[k]
    ensures Splits(at, c, i)
  {
    if at == [] {
      c := 0;
    } else {
      var n := |at| - 1;
      assert at[n] in at && forall j | 0 <= j < n :: at[..n][j] == at[j];
      assert i !in at[..n];
      c := SplitAt(at[..n], i);
      if at[n] < i { c := n + 1; }
    }
  }

  lemma {:induction false} ChoiceHasRoom(order: seq<TableInfo>, fks: seq<ForeignKey>, limits: Limits, env: Env)
      returns (at: seq<int>)
    ensures ChosenForRoom(Choose(order, fks, limits, env), order, at, fks, limits, env)
  {
    at := [];
    if order != [] {
      var n := |order| - 1;
      at := ChoiceHasRoom(order[..n], fks, limits, env);
      at := NextHasRoom(order, fks, limits, env, at);
    }
  }

  lemma NextHasRoom(order: seq<TableInfo>, fks: seq<ForeignKey>, limits: Limits, env: Env, before: seq<int>)
      returns (at: seq<int>)
    requires order != []
    requires var front := order[..|order| - 1];
             ChosenForRoom(Choose(front, fks, limits, env), front, before, fks, limits, env)
    ensures ChosenForRoom(Choose(order, fks, limits, env), order, at, fks, limits, env)
  {
    var n := |order| - 1;
    var chosen, t := Choose(order[..n], fks, limits, env), order[n];
    at := before;
    assert chosen[..|chosen|] == chosen;
    assert NoRoom(chosen, |chosen|, t, fks, limits, env) <==> Choose(order, fks, limits, env) == chosen by {
      assert |chosen + [t]| == |chosen| + 1;
    }
    if NoRoom(chosen, |chosen|, t, fks, limits, env) {
      PassedOver(chosen, order, at, fks, limits, env);
    } else {
      TakenIn(chosen, order, at, fks, limits, env);
      at := at + [n];
    }
  }

  lemma PassedOver(chosen: seq<TableInfo>, order: seq<TableInfo>, at: seq<int>, fks: seq<ForeignKey>, limits: Limits,
                   env: Env)
    requires order != [] && ChosenForRoom(chosen, order[..|order| - 1], at, fks, limits, env)
    requires NoRoom(chosen, |chosen|, order[|order| - 1], fks, limits, env)
    ensures ChosenForRoom(chosen, order, at, fks, limits, env)
  {
    var n := |order| - 1;
    var front := order[..n];
    assert SubsequenceAt(chosen, order, at) by { assert forall j | 0 <= j < |at| :: front[at[j]] == order[at[j]]; }
    forall i, c | 0 <= i < |order| && Splits(at, c, i) ensures NoRoom(chosen, c, order[i], fks, limits, env) {
      if i < n {
        assert front[i] == order[i] && NoRoom(chosen, c, front[i], fks, limits, env);
      } else {
        AllBefore(at, n, c);
      }
    }
  }

  lemma AllBefore(at: seq<int>, n: int, c: int)
    requires Splits(at, c, n) && forall j | 0 <= j < |at| :: at[j] < n
    ensures c == |at|
  {
    if at != [] {
      var k := |at| - 1;
      assert at[k] < n;
    }
  }

  lemma TakenIn(chosen: seq<TableInfo>, order: seq<TableInfo>, at: seq<int>, fks: seq<ForeignKey>, limits: Limits,
                env: Env)
    requires order != [] && ChosenForRoom(chosen, order[..|order| - 1], at, fks, limits, env)
    requires !NoRoom(chosen, |chosen|, order[|order| - 1], fks, limits, env)
    ensures ChosenForRoom(chosen + [order[|order| - 1]], order, at + [|order| - 1], fks, limits, env)
  {
    var n := |order| - 1;
    var after, at' := chosen + [order[n]], at + [n];
    TakenLast(chosen, order, at);
    assert forall c | 0 <= c <= |chosen| :: after[..c] == chosen[..c];
    forall j | 0 <= j < |at'| ensures !NoRoom(after, j, after[j], fks, limits, env) {
      if j < |at| { assert !NoRoom(chosen, j, chosen[j], fks, limits, env); }
    }
    forall i, c | 0 <= i < |order| && Splits(at', c, i) ensures NoRoom(after, c, order[i], fks, limits, env) {
      SplitsBefore(at, n, c, i);
      assert order[..n][i] == order[i] && NoRoom(chosen, c, order[..n][i], fks, limits, env);
    }
  }

  lemma TakenLast(chosen: seq<TableInfo>, order: seq<TableInfo>, at: seq<int>)
    requires order != [] && SubsequenceAt(chosen, order[..|order| - 1], at)
    ensures SubsequenceAt(chosen + [order[|order| - 1]], order, at + [|order| - 1])
  {
  }

  lemma SplitsBefore(at: seq<int>, n: int, c: int, i: int)
    requires Splits(at + [n], c, i) && i <= n
    ensures i < n && Splits(at, c, i)
  {
    var at' := at + [n];
    assert at'[|at|] == n;
    assert forall j | 0 <= j < |at| :: at'[j] == at[j];
  }

  /** Of any selection: the tables chosen from its queue, and why each was chosen or left out. */
  lemma SelectionIsFull(r: Selection, order: seq<TableInfo>, a: Request, env: Env) returns (at: seq<int>)
    requires SelectedFrom(r, order, a, env)
    ensures ChosenForRoom(r.tables, order, at, a.foreignKeys, a.limits, env)
    ensures r.omitted == |order| - |r.tables|
    ensures 4 * (r.estimatedTokens - 1) < Utf16Length(r.sql) <= 4 * r.estimatedTokens
    ensures forall i | 0 <= i < |order| && i !in at ::
              exists c :: Splits(at, c, i) && NoRoom(r.tables, c, order[i], a.foreignKeys, a.limits, env)
  {
    at := ChoiceHasRoom(order, a.foreignKeys, a.limits, env);
    forall i | 0 <= i < |order| && i !in at
      ensures exists c :: Splits(at, c, i) && NoRoom(r.tables, c, order[i], a.foreignKeys, a.limits, env)
    {
      var c := SplitAt(at, i);
    }
  }

  // ---- when everything fits ----

  /** A table with more foreign keys drawn under it takes no less text. */
  ghost predicate Grows(fks: seq<ForeignKey>, env: Env) {
    forall t: TableInfo, x: set<string>, y: set<string> | x <= y ::
      Utf16Length(env.renderTable(t, Outbound(t, fks, x))) <= Utf16Length(env.renderTable(t, Outbound(t, fks, y)))
  }

  lemma {:induction false} ShorterFront(ts: seq<TableInfo>, n: nat, fks: seq<ForeignKey>, x: set<string>,
                                        y: set<string>, env: Env)
    requires n <= |ts| && x <= y && Grows(fks, env)
    ensures Utf16Length(RenderEach(ts[..n], fks, x, env)) <= Utf16Length(RenderEach(ts, fks, y, env))
    decreases n
  {
    if n == 0 {
      assert ts[..0] == [];
    } else {
      assert ts[..n][1..] == ts[1..][..n - 1] && ts[..n][0] == ts[0];
      ShorterFront(ts[1..], n - 1, fks, x, y, env);
      EachLength(ts[..n], fks, x, env);
      EachLength(ts, fks, y, env);
    }
  }

  lemma EachLength(ts: seq<TableInfo>, fks: seq<ForeignKey>, x: set<string>, env: Env)
    requires ts != []
    ensures Utf16Length(RenderEach(ts, fks, x, env)) ==
            Utf16Length(env.renderTable(ts[0], Outbound(ts[0], fks, x)))
            + if |ts| == 1 then 0 else Utf16Length("\n\n") + Utf16Length(RenderEach(ts[1..], fks, x, env))
  {
    if |ts| > 1 {
      var one := env.renderTable(ts[0], Outbound(ts[0], fks, x));
      MeasureAdds(one, "\n\n", Utf16Width);
      MeasureAdds(one + "\n\n", RenderEach(ts[1..], fks, x, env), Utf16Width);
    }
  }

  lemma FrontFits(ts: seq<TableInfo>, n: nat, fks: seq<ForeignKey>, limits: Limits, env: Env)
    requires n <= |ts| && Grows(fks, env) && !TooLong(ts, fks, limits, env)
    ensures !TooLong(ts[..n], fks, limits, env)
  {
    assert KeySet(ts[..n]) <= KeySet(ts) by { assert forall t | t in ts[..n] :: t in ts; }
    ShorterFront(ts, n, fks, KeySet(ts[..n]), KeySet(ts), env);
  }

  /** When the whole queue keeps to both caps, nothing is omitted. */
  lemma WholeQueueShown(r: Selection, order: seq<TableInfo>, a: Request, env: Env)
    requires SelectedFrom(r, order, a, env) && Grows(a.foreignKeys, env)
    requires |order| <= a.limits.maxTables && !TooLong(order, a.foreignKeys, a.limits, env)
    ensures r.omitted == 0 && r.tables == order
  {
    var at := SelectionIsFull(r, order, a, env);
    IncreasingFits(at, |order|);
    forall n | 0 <= n < |order| && Opens(r.tables, order, at, n) ensures Opens(r.tables, order, at, n + 1) {
      FrontFits(order, n + 1, a.foreignKeys, a.limits, env);
      OneMoreChosen(r.tables, order, at, n, a.foreignKeys, a.limits, env);
    }
    AllOpen(r.tables, order, at, |order|);
    assert order[..|order|] == order && r.tables[..|order|] == r.tables;
  }

  /** The first n tables of the queue are the first n chosen. */
  ghost predicate Opens(chosen: seq<TableInfo>, order: seq<TableInfo>, at: seq<int>, n: int) {
    && 0 <= n <= |at| && n <= |chosen| && n <= |order|
    && (forall j | 0 <= j < n :: at[j] == j) && chosen[..n] == order[..n]
  }

  lemma {:induction false} AllOpen(chosen: seq<TableInfo>, order: seq<TableInfo>, at: seq<int>, n: nat)
    requires n <= |order|
    requires forall m | 0 <= m < |order| && Opens(chosen, order, at, m) :: Opens(chosen, order, at, m + 1)
    ensures Opens(chosen, order, at, n)
  {
    if n > 0 { AllOpen(chosen, order, at, n - 1); }
  }

  lemma OneMoreChosen(chosen: seq<TableInfo>, order: seq<TableInfo>, at: seq<int>, n: nat, fks: seq<ForeignKey>,
                      limits: Limits, env: Env)
    requires ChosenForRoom(chosen, order, at, fks, limits, env) && n < |order| <= limits.maxTables
    requires Opens(chosen, order, at, n)
    requires !TooLong(order[..n + 1], fks, limits, env)
    ensures Opens(chosen, order, at, n + 1)
  {
    assert chosen[..n] + [order[n]] == order[..n + 1];
    assert !NoRoom(chosen, n, order[n], fks, limits, env);
    assert !Splits(at, n, n);
    NextIsTaken(at, n);
    assert chosen[n] == order[at[n]];
    OneLonger(chosen, order, n);
  }

  lemma NextIsTaken(at: seq<int>, n: nat)
    requires n <= |at| && (forall j | 0 <= j < n :: at[j] == j) && !Splits(at, n, n)
    requires (forall j | 0 <= j < |at| :: 0 <= at[j]) && forall j, k | 0 <= j < k < |at| :: at[j] < at[k]
    ensures n < |at| && at[n] == n
  {
    var j :| n <= j < |at| && at[j] <= n;
    assert at[n] <= at[j];
    assert n > 0 ==> at[n - 1] < at[n];
  }

  lemma OneLonger(xs: seq<TableInfo>, ys: seq<TableInfo>, n: nat)
    requires n < |xs| && n < |ys| && xs[..n] == ys[..n] && xs[n] == ys[n]
    ensures xs[..n + 1] == ys[..n + 1]
  {
    assert xs[..n + 1] == xs[..n] + [xs[n]] && ys[..n + 1] == ys[..n] + [ys[n]];
  }

  lemma {:induction false} IncreasingFits(at: seq<int>, n: nat)
    requires (forall i | 0 <= i < |at| :: 0 <= at[i] < n) && forall i, j | 0 <= i < j < |at| :: at[i] < at[j]
    ensures |at| <= n
  {
    if at != [] {
      var last := |at| - 1;
      assert forall i | 0 <= i < last :: at[..last][i] == at[i];
      IncreasingFits(at[..last], at[last]);
    }
  }

  // ---- which tables are in the queue ----

  ghost predicate Linked(fks: seq<ForeignKey>, x: string, y: string) {
    x != y && exists fk :: fk in fks && JoinedBy(fk, x, y)
  }

  predicate JoinedBy(fk: ForeignKey, x: string, y: string) {
    (EndKey(fk.source) == x && EndKey(fk.target) == y) || (EndKey(fk.source) == y && EndKey(fk.target) == x)
  }

  /** Links are the foreign keys between two tables, either way. */
  lemma {:induction false} LinksAreForeignKeys(fks: seq<ForeignKey>, x: string, y: string)
    ensures (x, y) in LinkSet(fks) <==> Linked(fks, x, y)
  {
    if fks != [] {
      var front, last := fks[..|fks| - 1], fks[|fks| - 1];
      LinksAreForeignKeys(front, x, y);
      LinkedByLast(fks, front, last, x, y);
    }
  }

  lemma LinkedByLast(fks: seq<ForeignKey>, front: seq<ForeignKey>, last: ForeignKey, x: string, y: string)
    requires fks == front + [last]
    ensures Linked(fks, x, y) <==> Linked(front, x, y) || (x != y && JoinedBy(last, x, y))
  {
    if fk :| fk in fks && JoinedBy(fk, x, y) { assert fk in front || fk == last; }
    if fk :| fk in front && JoinedBy(fk, x, y) { assert fk in fks; }
    assert last in fks;
  }

  /** One of the tables the expansion starts from: among the first maxTables of the direct ones, a negative cap
      counting from the end. */
  ghost predicate Root(direct: seq<TableInfo>, maxTables: int, x: string) {
    exists i | 0 <= i < |direct| ::
      KeyOf(direct[i]) == x && i < if maxTables >= 0 then maxTables else |direct| + maxTables
  }

  lemma RootsAre(direct: seq<TableInfo>, maxTables: int, x: string)
    ensures x in KeySet(Slice(direct, maxTables)) <==> Root(direct, maxTables, x)
  {
    var front := Slice(direct, maxTables);
    if x in KeySet(front) {
      var t :| t in front && KeyOf(t) == x;
      var i :| 0 <= i < |front| && front[i] == t;
      assert direct[i] == t;
    }
    if i :| 0 <= i < |direct| && KeyOf(direct[i]) == x
            && i < if maxTables >= 0 then maxTables else |direct| + maxTables {
      assert front[i] == direct[i] && front[i] in front;
    }
  }

  /** A link to a table of the schema that is not direct. */
  ghost predicate Leads(fks: seq<ForeignKey>, all: seq<TableInfo>, direct: seq<TableInfo>, x: string, y: string) {
    Linked(fks, x, y) && (exists t :: t in all && KeyOf(t) == y) && forall t | t in direct :: KeyOf(t) != y
  }

  /** A way from table to table. */
  datatype Way = At(x: string) | On(before: Way, to: string) {
    function End(): string {
      match this
      case At(x) => x
      case On(_, y) => y
    }

    function Links(): nat {
      match this
      case At(_) => 0
      case On(before, _) => before.Links() + 1
    }
  }

  /** It starts at a root and goes on link by link through tables of the schema that are not direct. */
  ghost predicate Goes(w: Way, fks: seq<ForeignKey>, all: seq<TableInfo>, direct: seq<TableInfo>, maxTables: int) {
    match w
    case At(x) => Root(direct, maxTables, x)
    case On(before, y) => Goes(before, fks, all, direct, maxTables) && Leads(fks, all, direct, before.End(), y)
  }

  predicate Onward(s: Seeds, x: string, y: string) {
    y in s.known && y !in s.direct && (x, y) in s.links
  }

  /** What the expansion starts from and goes by is that. */
  ghost predicate Matches(s: Seeds, fks: seq<ForeignKey>, all: seq<TableInfo>, direct: seq<TableInfo>, maxTables: int) {
    && (forall x :: x in s.roots <==> Root(direct, maxTables, x))
    && (forall x, y :: Onward(s, x, y) <==> Leads(fks, all, direct, x, y))
  }

  lemma SeedsMatch(fks: seq<ForeignKey>, all: seq<TableInfo>, direct: seq<TableInfo>, maxTables: int)
    ensures Matches(SeedsOf(fks, all, direct, maxTables), fks, all, direct, maxTables)
  {
    var s := SeedsOf(fks, all, direct, maxTables);
    forall x ensures x in s.roots <==> Root(direct, maxTables, x) { RootsAre(direct, maxTables, x); }
    forall x, y ensures Onward(s, x, y) <==> Leads(fks, all, direct, x, y) { LinksAreForeignKeys(fks, x, y); }
  }

  lemma ReachedFrom(s: Seeds, y: string, k: nat) returns (x: string)
    requires k > 0 && Reached(s, y, k)
    ensures Reached(s, x, k - 1) && Onward(s, x, y)
  {
    x :| Reached(s, x, k - 1) && (x, y) in s.links;
  }

  lemma ReachedNext(s: Seeds, x: string, y: string, k: nat)
    requires Reached(s, x, k) && Onward(s, x, y)
    ensures Reached(s, y, k + 1)
  {
    assert Reached(s, x, k + 1 - 1);
  }

  lemma {:induction false} ReachedByWay(s: Seeds, fks: seq<ForeignKey>, all: seq<TableInfo>, direct: seq<TableInfo>,
                                        maxTables: int, y: string, k: nat) returns (w: Way)
    requires Matches(s, fks, all, direct, maxTables) && Reached(s, y, k)
    ensures Goes(w, fks, all, direct, maxTables) && w.Links() == k && w.End() == y
    decreases k
  {
    if k == 0 {
      w := At(y);
    } else {
      var x := ReachedFrom(s, y, k);
      var before := ReachedByWay(s, fks, all, direct, maxTables, x, k - 1);
      w := On(before, y);
    }
  }

  lemma {:induction false} WayReaches(s: Seeds, fks: seq<ForeignKey>, all: seq<TableInfo>, direct: seq<TableInfo>,
                                      maxTables: int, w: Way)
    requires Matches(s, fks, all, direct, maxTables) && Goes(w, fks, all, direct, maxTables)
    ensures Reached(s, w.End(), w.Links())
    decreases w
  {
    match w
    case At(x) =>
    case On(before, y) =>
      WayReaches(s, fks, all, direct, maxTables, before);
      ReachedNext(s, before.End(), y, before.Links());
  }

  /** A way of at most m links leads from a root to y. */
  ghost predicate WithinLinks(a: Request, direct: seq<TableInfo>, y: string, m: int, w: Way) {
    Goes(w, a.foreignKeys, a.tables, direct, a.limits.maxTables) && 1 <= w.Links() <= m && w.End() == y
  }

  /** Direct, or at the end of such a way. */
  ghost predicate Close(a: Request, env: Env, y: string, m: int) {
    var direct := DirectOf(RankedFor(a, env));
    (exists t :: t in direct && KeyOf(t) == y) || exists w :: WithinLinks(a, direct, y, m, w)
  }

  lemma QueuedAreClose(a: Request, env: Env, y: string, m: nat)
    ensures y in Queued(SeedsFor(a, env), m) <==> Close(a, env, y, m)
  {
    var direct := DirectOf(RankedFor(a, env));
    RootsAreDirect(a.foreignKeys, a.tables, direct, a.limits.maxTables);
    QueuedMeans(SeedsFor(a, env), m, y);
    SeedsMatch(a.foreignKeys, a.tables, direct, a.limits.maxTables);
    WithinByWays(SeedsFor(a, env), a, direct, y, m);
  }

  lemma WithinByWays(s: Seeds, a: Request, direct: seq<TableInfo>, y: string, m: nat)
    requires Matches(s, a.foreignKeys, a.tables, direct, a.limits.maxTables)
    ensures ReachedWithin(s, y, m) <==> exists w :: WithinLinks(a, direct, y, m, w)
  {
    if k: nat :| 1 <= k <= m && Reached(s, y, k) {
      var w := ReachedByWay(s, a.foreignKeys, a.tables, direct, a.limits.maxTables, y, k);
      assert WithinLinks(a, direct, y, m, w);
    }
    if w :| WithinLinks(a, direct, y, m, w) {
      WayReaches(s, a.foreignKeys, a.tables, direct, a.limits.maxTables, w);
    }
  }

  /** The queue a selection is made from: the direct tables first, as they are ranked, and behind them each other
      table within linkDepth links, once, the nearer ones first. */
  lemma QueueIsNearestFirst(r: Selection, order: seq<TableInfo>, a: Request, env: Env)
    requires SelectedFrom(r, order, a, env)
    ensures DirectOf(RankedFor(a, env)) <= order
    ensures forall y :: (exists t :: t in order && KeyOf(t) == y) <==> Close(a, env, y, AtLeastZero(a.linkDepth))
    ensures forall m: nat, i, j |
              m <= AtLeastZero(a.linkDepth) && 0 <= i < j < |order| && Close(a, env, KeyOf(order[j]), m) ::
              Close(a, env, KeyOf(order[i]), m)
  {
    forall y ensures (exists t :: t in order && KeyOf(t) == y) <==> Close(a, env, y, AtLeastZero(a.linkDepth)) {
      QueuedAreClose(a, env, y, AtLeastZero(a.linkDepth));
      assert y in KeySet(order) <==> exists t :: t in order && KeyOf(t) == y;
    }
    forall m: nat, i, j |
      m <= AtLeastZero(a.linkDepth) && 0 <= i < j < |order| && Close(a, env, KeyOf(order[j]), m)
      ensures Close(a, env, KeyOf(order[i]), m)
    {
      QueuedAreClose(a, env, KeyOf(order[j]), m);
      QueuedAreClose(a, env, KeyOf(order[i]), m);
    }
  }

  // ---- how tables are ranked ----

  ghost predicate InColumn(t: TableInfo, w: string, norm: Normaliser) {
    exists c :: c in t.columns && w in norm(c.name)
  }

  ghost predicate InColumnComment(t: TableInfo, w: string, norm: Normaliser) {
    exists c :: c in t.columns && c.comment.Some? && w in norm(c.comment.value)
  }

  lemma {:induction false} ColumnWords(cs: seq<ColumnInfo>, w: string, norm: Normaliser)
    ensures w in ColumnNames(cs, norm) <==> exists c :: c in cs && w in norm(c.name)
    ensures w in ColumnComments(cs, norm) <==> exists c :: c in cs && c.comment.Some? && w in norm(c.comment.value)
  {
    if cs != [] {
      ColumnWords(cs[1..], w, norm);
      assert forall c :: c in cs <==> c == cs[0] || c in cs[1..];
    }
  }

  /** A word counts for the best of the places it occurs in, and for nothing when it occurs in none. */
  lemma WeightIsBest(t: TableInfo, w: string, norm: Normaliser)
    ensures var x := Weight(t, w, norm);
            var inName := w in norm(t.name);
            var inComment := t.comment.Some? && w in norm(t.comment.value);
            && (inName ==> x >= 10) && (InColumn(t, w, norm) ==> x >= 3)
            && (inComment ==> x >= 2) && (InColumnComment(t, w, norm) ==> x >= 1)
            && (|| (x == 10 && inName) || (x == 3 && InColumn(t, w, norm))
                || (x == 2 && inComment) || (x == 1 && InColumnComment(t, w, norm)) || x == 0)
  {
    ColumnWords(t.columns, w, norm);
  }

  predicate Distinct(ws: seq<string>) {
    forall i, j | 0 <= i < j < |ws| :: ws[i] != ws[j]
  }

  function Sum(t: TableInfo, ws: seq<string>, norm: Normaliser): int {
    if ws == [] then 0 else Weight(t, ws[0], norm) + Sum(t, ws[1..], norm)
  }

  lemma {:induction false} SumAdds(t: TableInfo, a: seq<string>, b: seq<string>, norm: Normaliser)
    ensures Sum(t, a + b, norm) == Sum(t, a, norm) + Sum(t, b, norm)
  {
    if a == [] {
      assert a + b == b;
    } else {
      SumAdds(t, a[1..], b, norm);
      assert (a + b)[1..] == a[1..] + b;
    }
  }

  lemma {:induction false} ScoreIsSum(t: TableInfo, asked: seq<string>, norm: Normaliser)
    ensures Score(t, asked, norm) == Sum(t, asked, norm)
  {
    if asked != [] {
      var front, last := asked[..|asked| - 1], asked[|asked| - 1];
      ScoreIsSum(t, front, norm);
      SumAdds(t, front, [last], norm);
      assert asked == front + [last] && [last][1..] == [];
    }
  }

  lemma {:induction false} SameMembersSameSum(t: TableInfo, a: seq<string>, b: seq<string>, norm: Normaliser)
    requires Distinct(a) && Distinct(b) && forall w :: w in a <==> w in b
    ensures Sum(t, a, norm) == Sum(t, b, norm)
  {
    assert b == [] || b[0] in b;
    if a != [] {
      assert a[0] in b;
      var i :| 0 <= i < |b| && b[i] == a[0];
      var rest := b[..i] + b[i + 1..];
      WithoutOne(a, b, i, rest);
      SameMembersSameSum(t, a[1..], rest, norm);
      SumAdds(t, b[..i], b[i..], norm);
      SumAdds(t, b[..i], b[i + 1..], norm);
      assert b == b[..i] + b[i..] && b[i..][1..] == b[i + 1..];
    }
  }

  lemma WithoutOne(a: seq<string>, b: seq<string>, i: nat, rest: seq<string>)
    requires Distinct(a) && Distinct(b) && a != [] && (forall w :: w in a <==> w in b)
    requires i < |b| && b[i] == a[0] && rest == b[..i] + b[i + 1..]
    ensures Distinct(a[1..]) && Distinct(rest) && forall w :: w in a[1..] <==> w in rest
  {
    assert b == b[..i] + [b[i]] + b[i + 1..] && a == [a[0]] + a[1..];
    forall w ensures w in a[1..] <==> w in a && w != a[0] {
      if w in a[1..] {
        var j :| 0 <= j < |a| - 1 && a[1..][j] == w;
        assert a[j + 1] == w;
      }
    }
    forall w ensures w in rest <==> w in b && w != b[i] {
      if w in rest {
        var j :| 0 <= j < |rest| && rest[j] == w;
        assert b[if j < i then j else j + 1] == w;
      }
    }
  }

  lemma {:induction false} UniqueIsDistinct(ws: seq<string>)
    ensures Distinct(Unique(ws)) && forall w :: w in Unique(ws) <==> w in ws
  {
    if ws != [] {
      var front, last := ws[..|ws| - 1], ws[|ws| - 1];
      UniqueIsDistinct(front);
      assert forall w :: w in ws <==> w in front || w == last by { assert ws == front + [last]; }
    }
  }

  /** A table is as relevant as the words of the question, each once and in whatever order, weigh together. */
  lemma RelevanceIsSum(t: TableInfo, question: string, norm: Normaliser, ws: seq<string>)
    requires Distinct(ws) && forall w :: w in ws <==> w in norm(question)
    ensures Relevance(t, question, norm) == Sum(t, ws, norm)
  {
    UniqueIsDistinct(norm(question));
    ScoreIsSum(t, Unique(norm(question)), norm);
    SameMembersSameSum(t, Unique(norm(question)), ws, norm);
  }

  /** x may come before y: it is more relevant; or as relevant and more connected; or that too, and by name. */
  ghost predicate MayPrecede(x: TableInfo, y: TableInfo, a: Request, env: Env) {
    var r, s := Relevance(x, a.question, env.norm), Relevance(y, a.question, env.norm);
    var d, e := Degree(a.foreignKeys, KeyOf(x)), Degree(a.foreignKeys, KeyOf(y));
    r > s || (r == s && d > e) || (r == s && d == e && env.order.compare(KeyOf(x), KeyOf(y)) <= 0)
  }

  /** The direct tables come in that order. */
  lemma DirectInOrder(a: Request, env: Env)
    requires env.order.Sorts()
    ensures var direct := DirectOf(RankedFor(a, env));
            forall i, j | 0 <= i < j < |direct| :: MayPrecede(direct[i], direct[j], a, env)
  {
    var ranked, direct := RankedFor(a, env), DirectOf(RankedFor(a, env));
    RankedAreListed(a.tables, a.foreignKeys, a.question, env.norm, env.order);
    var degrees := Degrees(a.foreignKeys);
    forall i, j | 0 <= i < j < |ranked| ensures ranked[i].score >= ranked[j].score {
      assert env.order.NotAfter(ranked[i], ranked[j], degrees);
    }
    var n := PositiveIsPrefix(ranked);
    var m := if Matched(ranked) then n else |ranked|;
    assert ranked[..|ranked|] == ranked;
    assert direct == TablesOf(ranked[..m]);
    forall i, j | 0 <= i < j < |direct| ensures MayPrecede(direct[i], direct[j], a, env) {
      assert env.order.NotAfter(ranked[i], ranked[j], degrees);
      DegreesCount(a.foreignKeys, KeyOf(direct[i]));
      DegreesCount(a.foreignKeys, KeyOf(direct[j]));
    }
  }
}
