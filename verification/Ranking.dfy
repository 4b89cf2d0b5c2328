/** packages/core/src/plan/retrieve.ts: which tables match a question, and which of them best. */
module Ranking {
  import opened Framing
  import opened Schema
  import opened Terms

  // ---- table keys (render.ts) ----

  /** Length-prefixed, so that a schema and a table name cannot run into each other. */
  function TableKey(schema: string, name: string): string {
    Framed(schema, Framed(name, ""))
  }

  lemma TableKeyInjective(s: string, n: string, s': string, n': string)
    requires TableKey(s, n) == TableKey(s', n')
    ensures s == s' && n == n'
  {
    FramedInjective(s, Framed(n, ""), s', Framed(n', ""));
    FramedInjective(n, "", n', "");
  }

  function KeyOf(t: TableInfo): string {
    TableKey(t.schema, t.name)
  }

  function KeySet(ts: seq<TableInfo>): set<string> {
    set t | t in ts :: KeyOf(t)
  }

  ghost predicate DistinctKeys(ts: seq<TableInfo>) {
    forall i, j | 0 <= i < j < |ts| :: KeyOf(ts[i]) != KeyOf(ts[j])
  }

  // ---- scoring ----

  datatype Scored = Scored(table: TableInfo, score: int)

  function ColumnNames(cs: seq<ColumnInfo>, norm: Normaliser): seq<string> {
    if cs == [] then [] else norm(cs[0].name) + ColumnNames(cs[1..], norm)
  }

  function ColumnComments(cs: seq<ColumnInfo>, norm: Normaliser): seq<string> {
    if cs == [] then []
    else (if cs[0].comment.Some? then norm(cs[0].comment.value) else []) + ColumnComments(cs[1..], norm)
  }

  /** The best place a word occurs in: the table's name, a column's name, the table's comment, a column's comment. */
  function Weight(t: TableInfo, w: string, norm: Normaliser): int {
    if w in norm(t.name) then 10
    else if w in ColumnNames(t.columns, norm) then 3
    else if t.comment.Some? && w in norm(t.comment.value) then 2
    else if w in ColumnComments(t.columns, norm) then 1
    else 0
  }

  function WeightIn(m: map<string, int>, w: string): int {
    if w in m then m[w] else 0
  }

  method Bump(weights: map<string, int>, words: seq<string>, weight: int) returns (after: map<string, int>)
    requires weight > 0
    ensures forall w :: WeightIn(after, w) ==
              if w in words && WeightIn(weights, w) < weight then weight else WeightIn(weights, w)
  {
    after := weights;
    for i := 0 to |words|
      invariant forall w :: WeightIn(after, w) ==
                  if w in words[..i] && WeightIn(weights, w) < weight then weight else WeightIn(weights, w)
    {
      assert words[..i + 1] == words[..i] + [words[i]];
      if WeightIn(after, words[i]) < weight { after := after[words[i] := weight]; }
    }
    assert words[..|words|] == words;
  }

  method Index(t: TableInfo, norm: Normaliser) returns (weights: map<string, int>)
    ensures forall w :: WeightIn(weights, w) == Weight(t, w, norm)
  {
    weights := map[];
    weights := Bump(weights, norm(t.name), 10);
    weights := Bump(weights, ColumnNames(t.columns, norm), 3);
    if t.comment.Some? { weights := Bump(weights, norm(t.comment.value), 2); }
    weights := Bump(weights, ColumnComments(t.columns, norm), 1);
  }

  function Unique(ws: seq<string>): seq<string> {
    if ws == [] then []
    else
      var front := Unique(ws[..|ws| - 1]);
      if ws[|ws| - 1] in front then front else front + [ws[|ws| - 1]]
  }

  function Score(t: TableInfo, asked: seq<string>, norm: Normaliser): int {
    if asked == [] then 0 else Score(t, asked[..|asked| - 1], norm) + Weight(t, asked[|asked| - 1], norm)
  }

  method ScoreTable(t: TableInfo, asked: seq<string>, norm: Normaliser) returns (score: int)
    ensures score == Score(t, asked, norm)
  {
    var weights := Index(t, norm);
    score := 0;
    for i := 0 to |asked|
      invariant score == Score(t, asked[..i], norm)
    {
      assert asked[..i + 1][..i] == asked[..i];
      score := score + WeightIn(weights, asked[i]);
    }
    assert asked[..|asked|] == asked;
  }

  function ScoreAll(ts: seq<TableInfo>, asked: seq<string>, norm: Normaliser): (ss: seq<Scored>)
    ensures |ss| == |ts|
  {
    seq(|ts|, i requires 0 <= i < |ts| => Scored(ts[i], Score(ts[i], asked, norm)))
  }

  function Positive(ss: seq<Scored>): seq<TableInfo> {
    if ss == [] then [] else (if ss[0].score > 0 then [ss[0].table] else []) + Positive(ss[1..])
  }

  function TablesOf(ss: seq<Scored>): (ts: seq<TableInfo>)
    ensures |ts| == |ss|
  {
    seq(|ss|, i requires 0 <= i < |ss| => ss[i].table)
  }

  predicate Matched(ss: seq<Scored>) {
    exists i | 0 <= i < |ss| :: ss[i].score > 0
  }

  // ---- how connected a table is ----

  function EndKey(e: ForeignKeyEnd): string {
    TableKey(e.schema, e.table)
  }

  /** How many ends of foreign keys are at k. */
  function Degree(fks: seq<ForeignKey>, k: string): nat {
    if fks == [] then 0
    else
      var fk := fks[|fks| - 1];
      Degree(fks[..|fks| - 1], k) + (if EndKey(fk.source) == k then 1 else 0)
          + (if EndKey(fk.target) == k then 1 else 0)
  }

  function DegreeIn(degrees: map<string, int>, k: string): int {
    if k in degrees then degrees[k] else 0
  }

  /** What the sort of the ranking is given: the degrees as they were counted. */
  function Degrees(fks: seq<ForeignKey>): map<string, int> {
    if fks == [] then map[]
    else
      var before, fk := Degrees(fks[..|fks| - 1]), fks[|fks| - 1];
      CountEnd(CountEnd(before, EndKey(fk.source)), EndKey(fk.target))
  }

  function CountEnd(degrees: map<string, int>, k: string): map<string, int> {
    degrees[k := DegreeIn(degrees, k) + 1]
  }

  lemma {:induction false} DegreesCount(fks: seq<ForeignKey>, k: string)
    ensures DegreeIn(Degrees(fks), k) == Degree(fks, k)
  {
    if fks != [] { DegreesCount(fks[..|fks| - 1], k); }
  }

  // ---- ranking ----

  /** The ranking's sort, given the degrees, and the comparison of names it falls back on. */
  datatype Order = Order(
    rank: (seq<Scored>, map<string, int>) -> seq<Scored>,
    compare: (string, string) -> int)
  {
    /** By relevance, then by how connected a table is, then by name. */
    predicate NotAfter(x: Scored, y: Scored, degrees: map<string, int>) {
      var d, e := DegreeIn(degrees, KeyOf(x.table)), DegreeIn(degrees, KeyOf(y.table));
      || x.score > y.score
      || (x.score == y.score && d > e)
      || (x.score == y.score && d == e && compare(KeyOf(x.table), KeyOf(y.table)) <= 0)
    }

    ghost predicate Ranked(ss: seq<Scored>, degrees: map<string, int>) {
      forall i, j | 0 <= i < j < |ss| :: NotAfter(ss[i], ss[j], degrees)
    }

    /** A sort only reorders, and leaves nothing out of order. */
    ghost predicate Sorts() {
      forall ss, degrees :: multiset(rank(ss, degrees)) == multiset(ss) && Ranked(rank(ss, degrees), degrees)
    }
  }

  /** What a table scores on a question. */
  function Relevance(t: TableInfo, question: string, norm: Normaliser): int {
    Score(t, Unique(norm(question)), norm)
  }

  function RankedTables(ts: seq<TableInfo>, fks: seq<ForeignKey>, question: string, norm: Normaliser,
                        order: Order): seq<Scored> {
    order.rank(ScoreAll(ts, Unique(norm(question)), norm), Degrees(fks))
  }

  /** The tables that match the question, best first; all of them when none does. */
  function DirectOf(ranked: seq<Scored>): seq<TableInfo> {
    if Matched(ranked) then Positive(ranked) else TablesOf(ranked)
  }

  /** No table comes before t: none is more relevant, and of those as relevant none is more connected. */
  ghost predicate Foremost(t: TableInfo, ts: seq<TableInfo>, fks: seq<ForeignKey>, question: string, norm: Normaliser) {
    forall u | u in ts ::
      || Relevance(u, question, norm) < Relevance(t, question, norm)
      || (Relevance(u, question, norm) == Relevance(t, question, norm)
          && Degree(fks, KeyOf(u)) <= Degree(fks, KeyOf(t)))
  }

  /** ranked holds the tables of ts, and each with what rel gives it. */
  ghost predicate Lists(ranked: seq<Scored>, ts: seq<TableInfo>, rel: TableInfo -> int) {
    && |ranked| == |ts|
    && (forall i | 0 <= i < |ranked| :: ranked[i].table in ts && ranked[i].score == rel(ranked[i].table))
    && forall t | t in ts :: Scored(t, rel(t)) in ranked
  }

  lemma PermutedLists(ranked: seq<Scored>, ts: seq<TableInfo>, rel: TableInfo -> int)
    requires multiset(ranked) == multiset(seq(|ts|, i requires 0 <= i < |ts| => Scored(ts[i], rel(ts[i]))))
    ensures Lists(ranked, ts, rel)
  {
    var scored := seq(|ts|, i requires 0 <= i < |ts| => Scored(ts[i], rel(ts[i])));
    assert |multiset(ranked)| == |ranked| && |multiset(scored)| == |scored|;
    forall i | 0 <= i < |ranked| ensures ranked[i].table in ts && ranked[i].score == rel(ranked[i].table) {
      assert ranked[i] in multiset(ranked);
      assert ranked[i] in scored;
    }
    forall t | t in ts ensures Scored(t, rel(t)) in ranked {
      var j :| 0 <= j < |ts| && ts[j] == t;
      assert scored[j] in multiset(scored);
    }
  }

  lemma RankedAreListed(ts: seq<TableInfo>, fks: seq<ForeignKey>, question: string, norm: Normaliser, order: Order)
    requires order.Sorts()
    ensures Lists(RankedTables(ts, fks, question, norm, order), ts, t => Relevance(t, question, norm))
    ensures order.Ranked(RankedTables(ts, fks, question, norm, order), Degrees(fks))
  {
    var rel := t => Relevance(t, question, norm);
    assert ScoreAll(ts, Unique(norm(question)), norm) ==
        seq(|ts|, i requires 0 <= i < |ts| => Scored(ts[i], rel(ts[i])));
    PermutedLists(RankedTables(ts, fks, question, norm, order), ts, rel);
  }

  ghost predicate DistinctScored(ss: seq<Scored>) {
    forall i, j | 0 <= i < j < |ss| :: KeyOf(ss[i].table) != KeyOf(ss[j].table)
  }

  lemma {:induction false} OneInFront<T>(s: seq<T>, x: T) returns (p: int)
    requires multiset(s)[x] >= 1
    ensures 0 <= p < |s| && s[p] == x && multiset(s[p + 1..])[x] >= multiset(s)[x] - 1
  {
    if s[0] == x {
      p := 0;
      assert s == [s[0]] + s[1..];
    } else {
      assert s == [s[0]] + s[1..];
      var q := OneInFront(s[1..], x);
      p := q + 1;
      assert s[1..][q + 1..] == s[p + 1..];
    }
  }

  lemma TwoPlaces<T>(s: seq<T>, x: T) returns (p: int, q: int)
    requires multiset(s)[x] >= 2
    ensures 0 <= p < q < |s| && s[p] == s[q] == x
  {
    p := OneInFront(s, x);
    var r := OneInFront(s[p + 1..], x);
    q := p + 1 + r;
  }

  lemma TwiceInSequence(b: seq<Scored>, i: nat, j: nat)
    requires i < j < |b| && b[i] == b[j]
    ensures multiset(b)[b[i]] >= 2
  {
    assert b == b[..i] + [b[i]] + b[i + 1..j] + [b[i]] + b[j + 1..];
  }

  lemma PermutedStaysDistinct(a: seq<Scored>, b: seq<Scored>)
    requires multiset(a) == multiset(b) && DistinctScored(a)
    ensures DistinctScored(b)
  {
    forall i, j | 0 <= i < j < |b| ensures KeyOf(b[i].table) != KeyOf(b[j].table) {
      if b[i] == b[j] {
        TwiceInSequence(b, i, j);
        var p, q := TwoPlaces(a, b[i]);
      } else {
        assert b[i] in multiset(b) && b[j] in multiset(b);
        var p :| 0 <= p < |a| && a[p] == b[i];
        var q :| 0 <= q < |a| && a[q] == b[j];
      }
    }
  }

  lemma {:induction false} PositiveIsPart(ss: seq<Scored>)
    ensures forall t | t in Positive(ss) :: exists i | 0 <= i < |ss| :: ss[i].table == t
    ensures DistinctScored(ss) ==> DistinctKeys(Positive(ss))
  {
    if ss != [] {
      PositiveIsPart(ss[1..]);
      forall t | t in Positive(ss) ensures exists i | 0 <= i < |ss| :: ss[i].table == t {
        if t in Positive(ss[1..]) {
          var i :| 0 <= i < |ss[1..]| && ss[1..][i].table == t;
          assert ss[i + 1].table == t;
        } else {
          assert ss[0].table == t;
        }
      }
      if DistinctScored(ss) {
        assert DistinctScored(ss[1..]) by { assert forall i | 0 <= i < |ss[1..]| :: ss[1..][i] == ss[i + 1]; }
        forall t | t in Positive(ss[1..]) ensures KeyOf(t) != KeyOf(ss[0].table) {
          var i :| 0 <= i < |ss[1..]| && ss[1..][i].table == t;
          assert ss[i + 1].table == t;
        }
      }
    }
  }

  /** In a ranked list the matching tables come first. */
  lemma {:induction false} PositiveIsPrefix(ss: seq<Scored>) returns (k: nat)
    requires forall i, j | 0 <= i < j < |ss| :: ss[i].score >= ss[j].score
    ensures k <= |ss| && Positive(ss) == TablesOf(ss[..k])
    ensures forall i | 0 <= i < |ss| :: ss[i].score > 0 <==> i < k
  {
    k := 0;
    if ss != [] {
      var n := PositiveIsPrefix(ss[1..]);
      if ss[0].score > 0 {
        k := n + 1;
        assert [ss[0].table] + TablesOf(ss[1..][..n]) == TablesOf(ss[..k]);
      } else {
        assert forall i | 0 <= i < |ss| :: ss[i].score <= 0;
        assert forall i | 0 <= i < |ss| - 1 :: ss[1..][i] == ss[i + 1];
        assert n == 0;
      }
      forall i | 0 <= i < |ss| ensures ss[i].score > 0 <==> i < k {
        if i > 0 { assert ss[1..][i - 1] == ss[i]; }
      }
    }
  }

  /** In a list ranked by score the direct tables are those that score, or all when none does; they open with
      what the list opens with. */
  lemma DirectMembers(ranked: seq<Scored>, ts: seq<TableInfo>, rel: TableInfo -> int)
    requires Lists(ranked, ts, rel) && forall i, j | 0 <= i < j < |ranked| :: ranked[i].score >= ranked[j].score
    ensures Matched(ranked) <==> exists t :: t in ts && rel(t) > 0
    ensures forall t :: t in DirectOf(ranked) <==> t in ts && (Matched(ranked) ==> rel(t) > 0)
    ensures ranked != [] ==> DirectOf(ranked) != [] && DirectOf(ranked)[0] == ranked[0].table
  {
    var k := PositiveIsPrefix(ranked);
    var n := if Matched(ranked) then k else |ranked|;
    if Matched(ranked) {
      var i :| 0 <= i < |ranked| && ranked[i].score > 0;
      assert rel(ranked[i].table) > 0;
    }
    assert ranked[..|ranked|] == ranked;
    assert DirectOf(ranked) == TablesOf(ranked[..n]);
    forall t ensures t in DirectOf(ranked) <==> t in ts && (Matched(ranked) ==> rel(t) > 0) {
      PrefixHolds(ranked, n, ts, rel, t);
    }
  }

  lemma PrefixHolds(ranked: seq<Scored>, n: nat, ts: seq<TableInfo>, rel: TableInfo -> int, t: TableInfo)
    requires Lists(ranked, ts, rel) && n <= |ranked|
    requires forall i | 0 <= i < |ranked| :: i < n <==> (Matched(ranked) ==> ranked[i].score > 0)
    ensures t in TablesOf(ranked[..n]) <==> t in ts && (Matched(ranked) ==> rel(t) > 0)
  {
    if t in TablesOf(ranked[..n]) {
      var i :| 0 <= i < n && TablesOf(ranked[..n])[i] == t;
      assert ranked[i].table == t;
    }
    if t in ts && (Matched(ranked) ==> rel(t) > 0) {
      var i :| 0 <= i < |ranked| && ranked[i] == Scored(t, rel(t));
      assert TablesOf(ranked[..n])[i] == t;
    }
  }

  lemma DirectStaysDistinct(scored: seq<Scored>, ranked: seq<Scored>)
    requires multiset(ranked) == multiset(scored) && DistinctScored(scored)
    ensures DistinctKeys(DirectOf(ranked))
  {
    PermutedStaysDistinct(scored, ranked);
    PositiveIsPart(ranked);
  }

  /** The direct tables are listed once each if the schema does. */
  lemma DirectTables(ts: seq<TableInfo>, fks: seq<ForeignKey>, question: string, norm: Normaliser, order: Order)
    requires order.Sorts() && DistinctKeys(ts)
    ensures DistinctKeys(DirectOf(RankedTables(ts, fks, question, norm, order)))
  {
    var scored := ScoreAll(ts, Unique(norm(question)), norm);
    assert forall i | 0 <= i < |ts| :: scored[i].table == ts[i];
    DirectStaysDistinct(scored, RankedTables(ts, fks, question, norm, order));
  }

  /** Matching is scoring at all; the direct tables are then those that score, and otherwise all; and the
      first of them is foremost: the best match, or the hub of a schema in which nothing matches. */
  lemma DirectIsBest(ts: seq<TableInfo>, fks: seq<ForeignKey>, question: string, norm: Normaliser, order: Order)
    requires order.Sorts()
    ensures var ranked := RankedTables(ts, fks, question, norm, order);
            && (Matched(ranked) <==> exists t :: t in ts && Relevance(t, question, norm) > 0)
            && (forall t :: t in DirectOf(ranked) <==>
                t in ts && (Matched(ranked) ==> Relevance(t, question, norm) > 0))
            && (ts != [] ==> DirectOf(ranked) != [] && Foremost(DirectOf(ranked)[0], ts, fks, question, norm))
  {
    var ranked := RankedTables(ts, fks, question, norm, order);
    RankedAreListed(ts, fks, question, norm, order);
    DirectMembers(ranked, ts, t => Relevance(t, question, norm));
    if ts != [] { FirstIsForemost(ranked, ts, fks, question, norm, order); }
  }

  lemma FirstIsForemost(ranked: seq<Scored>, ts: seq<TableInfo>, fks: seq<ForeignKey>, question: string,
                        norm: Normaliser,
                        order: Order)
    requires order.Ranked(ranked, Degrees(fks)) && Lists(ranked, ts, t => Relevance(t, question, norm)) && ranked != []
    ensures Foremost(ranked[0].table, ts, fks, question, norm)
  {
    DegreesCount(fks, KeyOf(ranked[0].table));
    forall t | t in ts
      ensures || Relevance(t, question, norm) < Relevance(ranked[0].table, question, norm)
              || (Relevance(t, question, norm) == Relevance(ranked[0].table, question, norm)
                  && Degree(fks, KeyOf(t)) <= Degree(fks, KeyOf(ranked[0].table)))
    {
      DegreesCount(fks, KeyOf(t));
      var i :| 0 <= i < |ranked| && ranked[i] == Scored(t, Relevance(t, question, norm));
      assert i > 0 ==> order.NotAfter(ranked[0], ranked[i], Degrees(fks));
    }
  }
}
