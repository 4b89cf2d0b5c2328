/** packages/core/src/store/key.ts: what is hashed, and what equal keys imply. */
module CacheKey {
  import opened Framing
  import opened Schema
  import opened Text

  // The hash and the question normaliser are foreign: they are parameters here.

  const CACHE_KEY_VERSION: nat := 1
  const DEFAULT_PLANNER_VERSION := "v1"

  type Fields = seq<(string, string)>

  // ---- lists ----

  function Items(values: seq<string>): (ps: Fields)
    ensures |ps| == |values| && forall i | 0 <= i < |ps| :: ps[i] == ("i", values[i])
  {
    seq(|values|, i requires 0 <= i < |values| => ("i", values[i]))
  }

  /** The value of a list part: every element is length-prefixed in its turn. */
  function ListValue(values: seq<string>): string {
    Parts(Items(values))
  }

  lemma ListInjective(xs: seq<string>, ys: seq<string>)
    requires ListValue(xs) == ListValue(ys)
    ensures xs == ys
  {
    PartsInjective(Items(xs), Items(ys));
    assert |xs| == |ys|;
    forall i | 0 <= i < |xs| ensures xs[i] == ys[i] {
      assert Items(xs)[i] == Items(ys)[i];
    }
  }

  // ---- the glossary ----

  function RefText(r: GlossaryRef): string {
    r.schema.GetOr("") + "." + r.table + "(" + Join(r.columns.GetOr([]), ",") + ")"
  }

  function RefTexts(refs: seq<GlossaryRef>): (texts: seq<string>)
    ensures |texts| == |refs|
  {
    seq(|refs|, i requires 0 <= i < |refs| => RefText(refs[i]))
  }

  /** What an entry contributes: an absent definition or expression is the empty one. */
  datatype EntryShape = EntryShape(
    term: string,
    synonyms: seq<string>,
    definition: string,
    sql: string,
    refs: seq<string>)

  function ShapeOfEntry(e: GlossaryEntry): EntryShape {
    EntryShape(e.term, e.synonyms.GetOr([]), e.definition.GetOr(""), e.sql.GetOr(""), RefTexts(e.refs.GetOr([])))
  }

  function ShapeOfEntries(es: seq<GlossaryEntry>): seq<EntryShape> {
    seq(|es|, i requires 0 <= i < |es| => ShapeOfEntry(es[i]))
  }

  function ShapeOfGlossary(g: Option<seq<GlossaryEntry>>): Option<seq<EntryShape>> {
    match g
    case None => None
    case Some(es) => Some(ShapeOfEntries(es))
  }

  function EntryParts(e: GlossaryEntry): (ps: Fields)
    ensures |ps| == 5 && Labelled(ps)
  {
    [("term", e.term),
     ("syn", ListValue(e.synonyms.GetOr([]))),
     ("def", e.definition.GetOr("")),
     ("sql", e.sql.GetOr("")),
     ("refs", ListValue(RefTexts(e.refs.GetOr([]))))]
  }

  lemma EntryPartsInjective(d: GlossaryEntry, e: GlossaryEntry)
    ensures EntryParts(d) == EntryParts(e) <==> ShapeOfEntry(d) == ShapeOfEntry(e)
  {
    if EntryParts(d) == EntryParts(e) {
      var p, q := EntryParts(d), EntryParts(e);
      assert p[0].1 == q[0].1 && p[1].1 == q[1].1 && p[2].1 == q[2].1 && p[3].1 == q[3].1 && p[4].1 == q[4].1;
      ListInjective(d.synonyms.GetOr([]), e.synonyms.GetOr([]));
      ListInjective(RefTexts(d.refs.GetOr([])), RefTexts(e.refs.GetOr([])));
    }
  }

  function EntriesParts(es: seq<GlossaryEntry>): (ps: Fields)
    ensures Labelled(ps) && |ps| == 5 * |es|
  {
    if es == [] then [] else EntryParts(es[0]) + EntriesParts(es[1..])
  }

  lemma SameHeadSameTail<T>(a: seq<T>, x: seq<T>, b: seq<T>, y: seq<T>)
    requires |a| == |b|
    ensures a + x == b + y <==> a == b && x == y
  {
    if a + x == b + y {
      assert a == (a + x)[..|a|] && x == (a + x)[|a|..];
      assert b == (b + y)[..|b|] && y == (b + y)[|b|..];
    }
  }

  lemma ShapeOfFirst(es: seq<GlossaryEntry>)
    requires es != []
    ensures ShapeOfEntries(es) == [ShapeOfEntry(es[0])] + ShapeOfEntries(es[1..])
  {
  }

  /** Two texts that decide their heads and their tails decide the whole. */
  lemma BothDecide(p: Fields, ps: Fields, q: Fields, qs: Fields, a: EntryShape, as': seq<EntryShape>, b: EntryShape,
                   bs: seq<EntryShape>)
    requires |p| == |q| && (p == q <==> a == b) && (ps == qs <==> as' == bs)
    ensures p + ps == q + qs <==> [a] + as' == [b] + bs
  {
    SameHeadSameTail(p, ps, q, qs);
    SameHeadSameTail([a], as', [b], bs);
  }

  lemma {:induction false} EntriesPartsInjective(ds: seq<GlossaryEntry>, es: seq<GlossaryEntry>)
    ensures EntriesParts(ds) == EntriesParts(es) <==> ShapeOfEntries(ds) == ShapeOfEntries(es)
  {
    if ds != [] && es != [] {
      EntryPartsInjective(ds[0], es[0]);
      EntriesPartsInjective(ds[1..], es[1..]);
      BothDecide(EntryParts(ds[0]), EntriesParts(ds[1..]), EntryParts(es[0]), EntriesParts(es[1..]),
                 ShapeOfEntry(ds[0]), ShapeOfEntries(ds[1..]), ShapeOfEntry(es[0]), ShapeOfEntries(es[1..]));
      ShapeOfFirst(ds);
      ShapeOfFirst(es);
    } else {
      assert |EntriesParts(ds)| == 5 * |ds| && |EntriesParts(es)| == 5 * |es|;
      assert |ShapeOfEntries(ds)| == |ds| && |ShapeOfEntries(es)| == |es|;
    }
  }

  function GlossaryFields(g: Option<seq<GlossaryEntry>>): (ps: Fields)
    ensures Labelled(ps)
  {
    match g
    case None => [("glossary", "")]
    case Some(es) => EntriesParts(es)
  }

  function GlossaryPreimage(g: Option<seq<GlossaryEntry>>): string {
    Parts(GlossaryFields(g))
  }

  /** Two glossaries are hashed from the same text exactly when they have the same shape. */
  lemma GlossaryPreimageUnique(g: Option<seq<GlossaryEntry>>, h: Option<seq<GlossaryEntry>>)
    ensures GlossaryPreimage(g) == GlossaryPreimage(h) <==> ShapeOfGlossary(g) == ShapeOfGlossary(h)
  {
    if GlossaryPreimage(g) == GlossaryPreimage(h) {
      PartsInjective(GlossaryFields(g), GlossaryFields(h));
    }
    match (g, h) {
      case (Some(ds), Some(es)) => EntriesPartsInjective(ds, es);
      case (Some(ds), None) => NoEntryOpensWithGlossary(ds);
      case (None, Some(es)) => NoEntryOpensWithGlossary(es);
      case (None, None) =>
    }
  }

  lemma NoEntryOpensWithGlossary(es: seq<GlossaryEntry>)
    ensures GlossaryFields(Some(es)) != GlossaryFields(None)
  {
    if es != [] {
      assert EntriesParts(es)[0] == EntryParts(es[0])[0];
    }
  }

  /** Below a part the separators are plain: a comma inside a column name is not told from two columns. */
  lemma RefTextCollides()
    ensures var one := GlossaryRef(None, "t", Some(["a,b"]));
            var two := GlossaryRef(None, "t", Some(["a", "b"]));
            one != two && RefText(one) == RefText(two)
  {
    var two := GlossaryRef(None, "t", Some(["a", "b"]));
    assert Join(two.columns.value[1..], ",") == "b";
    assert Join(two.columns.value, ",") == "a" + "," + "b";
    assert GlossaryRef(None, "t", Some(["a,b"])).columns.value[0] != two.columns.value[0];
  }

  /** No name in it holds one of the separators. */
  ghost predicate PlainRef(r: GlossaryRef) {
    && PlainName(r.schema.GetOr("")) && PlainName(r.table)
    && forall c | c in r.columns.GetOr([]) :: PlainName(c)
  }

  predicate PlainName(s: string) {
    '.' !in s && '(' !in s && ',' !in s && ')' !in s
  }

  /** Alike but for what is absent: no schema is the empty one, and no column list, an empty one and a list
      of one empty name are the same. */
  predicate SameRef(r: GlossaryRef, s: GlossaryRef) {
    && r.schema.GetOr("") == s.schema.GetOr("") && r.table == s.table
    && var a, b := r.columns.GetOr([]), s.columns.GetOr([]);
       a == b || a + b == [""]
  }

  /** References without separators in their names share a text exactly when they are alike. */
  lemma RefTextUnique(r: GlossaryRef, s: GlossaryRef)
    requires PlainRef(r) && PlainRef(s)
    ensures RefText(r) == RefText(s) <==> SameRef(r, s)
  {
    var a, b := r.columns.GetOr([]), s.columns.GetOr([]);
    JoinInjective(a, b, ',');
    if RefText(r) == RefText(s) {
      RefParts(r);
      RefParts(s);
      SeparatedHead(r.schema.GetOr(""), r.table + ['('] + (Join(a, ",") + ")"),
                    s.schema.GetOr(""), s.table + ['('] + (Join(b, ",") + ")"), '.');
      SeparatedHead(r.table, Join(a, ",") + ")", s.table, Join(b, ",") + ")", '(');
      SameHeadSameLast(Join(a, ","), Join(b, ","));
    }
  }

  lemma RefParts(r: GlossaryRef)
    ensures RefText(r) == r.schema.GetOr("") + ['.'] + (r.table + ['('] + (Join(r.columns.GetOr([]), ",") + ")"))
  {
  }

  lemma SameHeadSameLast(x: string, y: string)
    requires x + ")" == y + ")"
    ensures x == y
  {
    assert x == (x + ")")[..|x|] && y == (y + ")")[..|y|];
  }

  ghost predicate PlainEntry(e: GlossaryEntry) {
    forall r | r in e.refs.GetOr([]) :: PlainRef(r)
  }

  /** Two entries that say the same: what is absent is empty, and references are alike one by one. */
  ghost predicate SameEntry(d: GlossaryEntry, e: GlossaryEntry) {
    && d.term == e.term && d.synonyms.GetOr([]) == e.synonyms.GetOr([])
    && d.definition.GetOr("") == e.definition.GetOr("") && d.sql.GetOr("") == e.sql.GetOr("")
    && var p, q := d.refs.GetOr([]), e.refs.GetOr([]);
       |p| == |q| && forall i | 0 <= i < |p| :: SameRef(p[i], q[i])
  }

  ghost predicate SameGlossary(g: Option<seq<GlossaryEntry>>, h: Option<seq<GlossaryEntry>>) {
    match (g, h)
    case (Some(ds), Some(es)) => |ds| == |es| && forall i | 0 <= i < |ds| :: SameEntry(ds[i], es[i])
    case (None, None) => true
    case _ => false
  }

  lemma SameEntrySameShape(d: GlossaryEntry, e: GlossaryEntry)
    requires PlainEntry(d) && PlainEntry(e)
    ensures ShapeOfEntry(d) == ShapeOfEntry(e) <==> SameEntry(d, e)
  {
    var p, q := d.refs.GetOr([]), e.refs.GetOr([]);
    forall i | 0 <= i < |p| && i < |q| ensures RefTexts(p)[i] == RefTexts(q)[i] <==> SameRef(p[i], q[i]) {
      assert p[i] in p && q[i] in q;
      RefTextUnique(p[i], q[i]);
    }
    if SameEntry(d, e) { assert RefTexts(p) == RefTexts(q); }
  }

  /** Where no reference holds a separator, two glossaries are hashed from the same text exactly when they
      say the same, entry by entry. */
  lemma PlainGlossariesUnique(g: Option<seq<GlossaryEntry>>, h: Option<seq<GlossaryEntry>>)
    requires forall e | e in g.GetOr([]) || e in h.GetOr([]) :: PlainEntry(e)
    ensures GlossaryPreimage(g) == GlossaryPreimage(h) <==> SameGlossary(g, h)
  {
    GlossaryPreimageUnique(g, h);
    match (g, h) {
      case (Some(ds), Some(es)) =>
        var a, b := ShapeOfEntries(ds), ShapeOfEntries(es);
        forall i | 0 <= i < |ds| && i < |es| ensures a[i] == b[i] <==> SameEntry(ds[i], es[i]) {
          assert ds[i] in ds && es[i] in es;
          SameEntrySameShape(ds[i], es[i]);
        }
        if SameGlossary(g, h) { assert a == b; }
      case _ =>
    }
  }

  // ---- the schema ----

  function ColumnText(c: ColumnInfo): string {
    c.name + "|" + c.dataType + "|" + (if c.nullable then "null" else "notnull") + "|" + c.comment.GetOr("")
  }

  function ColumnTexts(cs: seq<ColumnInfo>): (texts: seq<string>)
    ensures |texts| == |cs|
  {
    seq(|cs|, i requires 0 <= i < |cs| => ColumnText(cs[i]))
  }

  datatype TableShape = TableShape(
    name: string,
    kind: string,
    comment: string,
    primaryKey: seq<string>,
    columns: seq<string>)

  function ShapeOfTable(t: TableInfo): TableShape {
    TableShape(t.schema + "." + t.name, t.kind, t.comment.GetOr(""), t.primaryKey, ColumnTexts(t.columns))
  }

  function ShapeOfTables(ts: seq<TableInfo>): (shapes: seq<TableShape>)
    ensures |shapes| == |ts|
  {
    seq(|ts|, i requires 0 <= i < |ts| => ShapeOfTable(ts[i]))
  }

  function ColumnParts(texts: seq<string>): (ps: Fields)
    ensures |ps| == |texts| && forall i | 0 <= i < |ps| :: ps[i] == ("col", texts[i])
  {
    seq(|texts|, i requires 0 <= i < |texts| => ("col", texts[i]))
  }

  function TableHead(t: TableShape): (ps: Fields)
    ensures |ps| == 4 && Labelled(ps)
  {
    [("tbl", t.name), ("kind", t.kind), ("tcomment", t.comment), ("pk", ListValue(t.primaryKey))]
  }

  function TablesParts(ts: seq<TableShape>): (ps: Fields)
    ensures Labelled(ps)
    ensures ts != [] ==> ps != [] && ps[0].0 == "tbl"
  {
    if ts == [] then []
    else TableHead(ts[0]) + ColumnParts(ts[0].columns) + TablesParts(ts[1..])
  }

  /** The fields hashed for the tables in digest order and the sorted foreign key shapes. */
  function SchemaFields(ordered: seq<TableInfo>, links: seq<string>): (ps: Fields)
    ensures Labelled(ps)
  {
    TablesParts(ShapeOfTables(ordered)) + [("fk", ListValue(links))]
  }

  function SchemaPreimage(ordered: seq<TableInfo>, links: seq<string>): string {
    Parts(SchemaFields(ordered, links))
  }

  /** A run of column parts stops at the first part of another kind, so its length is determined. */
  lemma {:induction false} ColumnRunEnds(cs: seq<string>, x: Fields, ds: seq<string>, y: Fields)
    requires ColumnParts(cs) + x == ColumnParts(ds) + y
    requires x != [] && x[0].0 != "col" && y != [] && y[0].0 != "col"
    ensures cs == ds && x == y
  {
    var s, t := ColumnParts(cs) + x, ColumnParts(ds) + y;
    assert s[|cs|] == x[0] && t[|ds|] == y[0];
    assert forall i | 0 <= i < |cs| :: s[i] == ("col", cs[i]);
    assert forall i | 0 <= i < |ds| :: t[i] == ("col", ds[i]);
    assert |cs| == |ds|;
    assert x == s[|cs|..] && y == t[|ds|..];
    forall i | 0 <= i < |cs| ensures cs[i] == ds[i] {
      assert s[i] == t[i];
    }
  }

  lemma TableHeadInjective(a: TableShape, b: TableShape)
    requires TableHead(a) == TableHead(b) && a.columns == b.columns
    ensures a == b
  {
    var p, q := TableHead(a), TableHead(b);
    assert p[0].1 == q[0].1 && p[1].1 == q[1].1 && p[2].1 == q[2].1 && p[3].1 == q[3].1;
    ListInjective(a.primaryKey, b.primaryKey);
  }

  /** The parts of the tables, with what follows them. */
  function TablesThen(ts: seq<TableShape>, last: string): (ps: Fields)
    ensures ps != [] && (ps[0].0 == "tbl" || ps[0].0 == "fk")
  {
    TablesParts(ts) + [("fk", last)]
  }

  lemma TablesThenSplits(ts: seq<TableShape>, last: string)
    requires ts != []
    ensures TablesThen(ts, last) == TableHead(ts[0]) + (ColumnParts(ts[0].columns) + TablesThen(ts[1..], last))
  {
  }

  lemma FirstTableDetermined(a: TableShape, x: Fields, b: TableShape, y: Fields)
    requires TableHead(a) + (ColumnParts(a.columns) + x) == TableHead(b) + (ColumnParts(b.columns) + y)
    requires x != [] && (x[0].0 == "tbl" || x[0].0 == "fk") && y != [] && (y[0].0 == "tbl" || y[0].0 == "fk")
    ensures a == b && x == y
  {
    SameHeadSameTail(TableHead(a), ColumnParts(a.columns) + x, TableHead(b), ColumnParts(b.columns) + y);
    LabelsDiffer();
    ColumnRunEnds(a.columns, x, b.columns, y);
    TableHeadInjective(a, b);
  }

  lemma EndOfTables(ss: seq<TableShape>, x: string, ts: seq<TableShape>, y: string)
    requires (ss == [] || ts == []) && TablesThen(ss, x) == TablesThen(ts, y)
    ensures ss == ts && x == y
  {
    LabelsDiffer();
    assert TablesThen(ss, x)[0] == TablesThen(ts, y)[0];
  }

  lemma {:induction false} TablesPartsInjective(ss: seq<TableShape>, x: string, ts: seq<TableShape>, y: string)
    requires TablesThen(ss, x) == TablesThen(ts, y)
    ensures ss == ts && x == y
  {
    if ss == [] || ts == [] {
      EndOfTables(ss, x, ts, y);
    } else {
      TablesThenSplits(ss, x);
      TablesThenSplits(ts, y);
      FirstTableDetermined(ss[0], TablesThen(ss[1..], x), ts[0], TablesThen(ts[1..], y));
      TablesPartsInjective(ss[1..], x, ts[1..], y);
      assert ss == [ss[0]] + ss[1..] && ts == [ts[0]] + ts[1..];
    }
  }

  lemma LabelsDiffer()
    ensures "tbl" != "col" && "fk" != "col" && "fk" != "tbl"
  {
    assert "tbl"[0] != "col"[0] && "fk"[0] != "col"[0] && "fk"[0] != "tbl"[0];
  }

  /** The schema preimage determines every part of every table, in order, and every link. */
  lemma SchemaPreimageUnique(ss: seq<TableInfo>, xs: seq<string>, ts: seq<TableInfo>, ys: seq<string>)
    ensures SchemaPreimage(ss, xs) == SchemaPreimage(ts, ys) <==> ShapeOfTables(ss) == ShapeOfTables(ts) && xs == ys
  {
    if SchemaPreimage(ss, xs) == SchemaPreimage(ts, ys) {
      PartsInjective(SchemaFields(ss, xs), SchemaFields(ts, ys));
      TablesPartsInjective(ShapeOfTables(ss), ListValue(xs), ShapeOfTables(ts), ListValue(ys));
      ListInjective(xs, ys);
    }
  }

  // ---- the order in which a catalog lists things ----

  function EndText(e: ForeignKeyEnd): string {
    e.schema + "." + e.table + "(" + Join(e.columns, ",") + ")"
  }

  function LinkText(fk: ForeignKey): string {
    EndText(fk.source) + "->" + EndText(fk.target)
  }

  function LinkTexts(fks: seq<ForeignKey>): seq<string> {
    seq(|fks|, i requires 0 <= i < |fks| => LinkText(fks[i]))
  }

  function QualifiedName(t: TableInfo): string {
    t.schema + "." + t.name
  }

  /** The two sorts of the digest and the orders they go by: localeCompare, which may hold two different
      names for equal, and the plain order of strings, which does not. */
  datatype Sorts = Sorts(
    compare: (string, string) -> int,
    lessOrEqual: (string, string) -> bool,
    byName: seq<TableInfo> -> seq<TableInfo>,
    ascending: seq<string> -> seq<string>)
  {
    predicate NotAfter(t: TableInfo, u: TableInfo) {
      compare(QualifiedName(t), QualifiedName(u)) <= 0
    }

    ghost predicate Lawful() {
      && (forall x, y :: lessOrEqual(x, y) && lessOrEqual(y, x) ==> x == y)
      && (forall ts :: Permuted(ts, byName(ts)) && SortedBy(byName(ts), NotAfter))
      && (forall xs :: Permuted(xs, ascending(xs)) && SortedBy(ascending(xs), lessOrEqual))
    }
  }

  ghost predicate Permuted<T>(s: seq<T>, t: seq<T>) {
    multiset(s) == multiset(t)
  }

  predicate SortedBy<T(!new)>(s: seq<T>, le: (T, T) -> bool) {
    forall i, j | 0 <= i < j < |s| :: le(s[i], s[j])
  }

  /** Where the order tells any two elements apart, there is one way to sort them. */
  lemma {:induction false} SortedOnce<T(!new)>(s: seq<T>, t: seq<T>, le: (T, T) -> bool)
    requires Permuted(s, t) && SortedBy(s, le) && SortedBy(t, le)
    requires forall x, y | x in s && y in s :: le(x, y) && le(y, x) ==> x == y
    ensures s == t
  {
    assert |multiset(s)| == |s| && |multiset(t)| == |t|;
    if s != [] {
      SameLeast(s, t, le);
      TailPermuted(s, t);
      SortedOnce(s[1..], t[1..], le);
      assert s == [s[0]] + s[1..] && t == [t[0]] + t[1..];
    }
  }

  lemma SameLeast<T(!new)>(s: seq<T>, t: seq<T>, le: (T, T) -> bool)
    requires Permuted(s, t) && SortedBy(s, le) && SortedBy(t, le) && s != [] && t != []
    requires forall x, y | x in s && y in s :: le(x, y) && le(y, x) ==> x == y
    ensures s[0] == t[0]
  {
    assert s[0] in multiset(t) && t[0] in multiset(s);
    var p, q :| 0 <= p < |t| && t[p] == s[0] && 0 <= q < |s| && s[q] == t[0];
  }

  lemma TailPermuted<T>(s: seq<T>, t: seq<T>)
    requires Permuted(s, t) && s != [] && t != [] && s[0] == t[0]
    ensures Permuted(s[1..], t[1..])
  {
    assert s == [s[0]] + s[1..] && t == [t[0]] + t[1..];
    assert multiset(s[1..]) == multiset(s) - multiset{s[0]};
    assert multiset(t[1..]) == multiset(t) - multiset{t[0]};
  }

  function SchemaText(ts: seq<TableInfo>, fks: seq<ForeignKey>, sorts: Sorts): string {
    SchemaPreimage(sorts.byName(ts), sorts.ascending(LinkTexts(fks)))
  }

  lemma SortedLinksUnique(xs: seq<string>, ys: seq<string>, sorts: Sorts)
    requires sorts.Lawful()
    ensures sorts.ascending(xs) == sorts.ascending(ys) <==> Permuted(xs, ys)
  {
    var a, b := sorts.ascending(xs), sorts.ascending(ys);
    assert Permuted(xs, a) && Permuted(ys, b);
    if Permuted(xs, ys) { SortedOnce(a, b, sorts.lessOrEqual); }
  }

  /** Two catalogs are hashed from the same text exactly when their tables, sorted, have the same parts and
      they have the same links, in whatever order and as often. */
  lemma SchemaTextUnique(ts: seq<TableInfo>, fks: seq<ForeignKey>, us: seq<TableInfo>, gks: seq<ForeignKey>,
                         sorts: Sorts)
    requires sorts.Lawful()
    ensures SchemaText(ts, fks, sorts) == SchemaText(us, gks, sorts) <==>
            && ShapeOfTables(sorts.byName(ts)) == ShapeOfTables(sorts.byName(us))
            && Permuted(LinkTexts(fks), LinkTexts(gks))
  {
    SchemaPreimageUnique(sorts.byName(ts), sorts.ascending(LinkTexts(fks)), sorts.byName(us),
                         sorts.ascending(LinkTexts(gks)));
    SortedLinksUnique(LinkTexts(fks), LinkTexts(gks), sorts);
  }

  /** The order in which a catalog lists its tables and links does not reach the digest, as long as no two
      of its tables go by names that compare equal. */
  lemma ListingOrderDoesNotMatter(ts: seq<TableInfo>, fks: seq<ForeignKey>, us: seq<TableInfo>, gks: seq<ForeignKey>,
                                  sorts: Sorts)
    requires sorts.Lawful() && Permuted(ts, us) && Permuted(LinkTexts(fks), LinkTexts(gks))
    requires forall t, u | t in ts && u in ts :: sorts.NotAfter(t, u) && sorts.NotAfter(u, t) ==> t == u
    ensures SchemaText(ts, fks, sorts) == SchemaText(us, gks, sorts)
  {
    var a, b := sorts.byName(ts), sorts.byName(us);
    assert Permuted(ts, a) && Permuted(us, b);
    forall t | t in a ensures t in ts { assert t in multiset(a); }
    SortedOnce(a, b, sorts.NotAfter);
    SortedLinksUnique(LinkTexts(fks), LinkTexts(gks), sorts);
  }

  // ---- the key ----

  datatype Input = Input(
    question: string,
    tables: seq<TableInfo>,
    foreignKeys: seq<ForeignKey>,
    glossary: Option<seq<GlossaryEntry>>,
    plannerVersion: Option<string>,
    maxRows: Option<int>,
    guidance: Option<string>)

  datatype Key = Key(key: string, question: string, schemaDigest: string, glossaryDigest: string,
                     plannerVersion: string)

  function IntText(n: int): string {
    if n < 0 then "-" + Decimal(-n) else Decimal(n)
  }

  lemma IntTextInjective(m: int, n: int)
    requires IntText(m) == IntText(n)
    ensures m == n
  {
    if m < 0 && n < 0 {
      assert Decimal(-m) == IntText(m)[1..] == IntText(n)[1..] == Decimal(-n);
      DecimalInjective(-m, -n);
    } else if m >= 0 && n >= 0 {
      DecimalInjective(m, n);
    }
  }

  function RowsText(maxRows: Option<int>): string {
    match maxRows
    case None => ""
    case Some(n) => IntText(n)
  }

  function KeyFields(question: string, schema: string, glossary: string, planner: string,
                     maxRows: Option<int>, guidance: Option<string>): (ps: Fields)
    ensures |ps| == 7 && Labelled(ps)
  {
    [("v", Decimal(CACHE_KEY_VERSION)),
     ("q", question),
     ("schema", schema),
     ("glossary", glossary),
     ("planner", planner),
     ("maxRows", RowsText(maxRows)),
     ("guidance", guidance.GetOr(""))]
  }

  function Preimage(k: Key, i: Input): string {
    Parts(KeyFields(k.question, k.schemaDigest, k.glossaryDigest, k.plannerVersion, i.maxRows, i.guidance))
  }

  /** Everything but the final hash. The source throws when nothing of the question is left. */
  function Compute(i: Input, sorts: Sorts, normalize: string -> string, hash: string -> string): Result<Key, string> {
    var question := normalize(i.question);
    if question == [] then Err("cache key needs a question")
    else
      var draft := Key("", question, hash(SchemaText(i.tables, i.foreignKeys, sorts)),
                       hash(GlossaryPreimage(i.glossary)),
                       i.plannerVersion.GetOr(DEFAULT_PLANNER_VERSION));
      Ok(draft.(key := hash(Preimage(draft, i))))
  }

  lemma KeyFieldsInjective(q: string, s: string, g: string, p: string, r: Option<int>, d: Option<string>,
                           q': string, s': string, g': string, p': string, r': Option<int>, d': Option<string>)
    requires Parts(KeyFields(q, s, g, p, r, d)) == Parts(KeyFields(q', s', g', p', r', d'))
    ensures q == q' && s == s' && g == g' && p == p' && r == r' && d.GetOr("") == d'.GetOr("")
  {
    var a, b := KeyFields(q, s, g, p, r, d), KeyFields(q', s', g', p', r', d');
    PartsInjective(a, b);
    assert a[1].1 == b[1].1 && a[2].1 == b[2].1 && a[3].1 == b[3].1 && a[4].1 == b[4].1 && a[5].1 == b[5].1
        && a[6].1 == b[6].1;
    match (r, r') {
      case (Some(m), Some(n)) => IntTextInjective(m, n);
      case _ =>
    }
  }

  /** The bytes that are hashed determine the question, both digests, the planner version, the row
      cap and the guidance, with a missing guidance read as the empty one. */
  lemma PreimageDecodes(k: Key, i: Input, l: Key, j: Input)
    ensures Utf8(Preimage(k, i)) == Utf8(Preimage(l, j)) <==>
            && k.question == l.question
            && k.schemaDigest == l.schemaDigest
            && k.glossaryDigest == l.glossaryDigest
            && k.plannerVersion == l.plannerVersion
            && i.maxRows == j.maxRows
            && i.guidance.GetOr("") == j.guidance.GetOr("")
  {
    if Utf8(Preimage(k, i)) == Utf8(Preimage(l, j)) {
      Utf8Injective(Preimage(k, i), Preimage(l, j));
      KeyFieldsInjective(k.question, k.schemaDigest, k.glossaryDigest, k.plannerVersion, i.maxRows, i.guidance,
                         l.question, l.schemaDigest, l.glossaryDigest, l.plannerVersion, j.maxRows, j.guidance);
    }
  }

  ghost predicate NoCollision(hash: string -> string, x: string, y: string) {
    hash(x) == hash(y) ==> x == y
  }

  /** When the hash does not collide on the three pairs of texts involved, equal keys mean the same
      question over the same sorted tables and the same links, the same glossary, planner, cap and guidance;
      and always conversely. */
  lemma EqualKeys(i: Input, j: Input, sorts: Sorts, normalize: string -> string, hash: string -> string)
    requires sorts.Lawful()
    requires Compute(i, sorts, normalize, hash).Ok? && Compute(j, sorts, normalize, hash).Ok?
    requires NoCollision(hash, SchemaText(i.tables, i.foreignKeys, sorts), SchemaText(j.tables, j.foreignKeys, sorts))
    requires NoCollision(hash, GlossaryPreimage(i.glossary), GlossaryPreimage(j.glossary))
    requires NoCollision(hash, Preimage(Compute(i, sorts, normalize, hash).value, i),
                         Preimage(Compute(j, sorts, normalize, hash).value, j))
    ensures Compute(i, sorts, normalize, hash).value.key == Compute(j, sorts, normalize, hash).value.key <==>
            && normalize(i.question) == normalize(j.question)
            && ShapeOfTables(sorts.byName(i.tables)) == ShapeOfTables(sorts.byName(j.tables))
            && Permuted(LinkTexts(i.foreignKeys), LinkTexts(j.foreignKeys))
            && ShapeOfGlossary(i.glossary) == ShapeOfGlossary(j.glossary)
            && i.plannerVersion.GetOr(DEFAULT_PLANNER_VERSION) == j.plannerVersion.GetOr(DEFAULT_PLANNER_VERSION)
            && i.maxRows == j.maxRows
            && i.guidance.GetOr("") == j.guidance.GetOr("")
    ensures (forall e | e in i.glossary.GetOr([]) || e in j.glossary.GetOr([]) :: PlainEntry(e)) ==>
              (ShapeOfGlossary(i.glossary) == ShapeOfGlossary(j.glossary) <==> SameGlossary(i.glossary, j.glossary))
  {
    PreimageDecodes(Compute(i, sorts, normalize, hash).value, i, Compute(j, sorts, normalize, hash).value, j);
    SchemaTextUnique(i.tables, i.foreignKeys, j.tables, j.foreignKeys, sorts);
    GlossaryPreimageUnique(i.glossary, j.glossary);
    if forall e | e in i.glossary.GetOr([]) || e in j.glossary.GetOr([]) :: PlainEntry(e) {
      PlainGlossariesUnique(i.glossary, j.glossary);
    }
  }
}
