/** What equal keys say of two catalogs. */
module CacheKeyAccount {
  import opened Framing
  import opened Schema
  import opened Text
  import opened CacheKey

  // The shapes that packages/core/src/store/key.ts hashes, taken apart: where no name holds a separator, two
  // catalogs share a digest exactly when they are alike in every respect that is hashed.

  // ---- columns and tables ----

  predicate PlainColumn(c: ColumnInfo) {
    '|' !in c.name && '|' !in c.dataType
  }

  predicate SameColumn(c: ColumnInfo, d: ColumnInfo) {
    && c.name == d.name && c.dataType == d.dataType && c.nullable == d.nullable
    && c.comment.GetOr("") == d.comment.GetOr("")
  }

  function NullText(c: ColumnInfo): string {
    if c.nullable then "null" else "notnull"
  }

  lemma ColumnTextParts(c: ColumnInfo)
    ensures ColumnText(c) ==
            c.name + ['|'] + (c.dataType + ['|'] + (NullText(c) + ['|'] + c.comment.GetOr("")))
  {
  }

  lemma NullTextIsPlain(c: ColumnInfo, d: ColumnInfo)
    ensures '|' !in NullText(c) && (NullText(c) == NullText(d) <==> c.nullable == d.nullable)
  {
    assert |"null"| == 4 && |"notnull"| == 7;
  }

  lemma ColumnTextUnique(c: ColumnInfo, d: ColumnInfo)
    requires PlainColumn(c) && PlainColumn(d)
    ensures ColumnText(c) == ColumnText(d) <==> SameColumn(c, d)
  {
    ColumnTextParts(c);
    ColumnTextParts(d);
    NullTextIsPlain(c, d);
    NullTextIsPlain(d, c);
    if ColumnText(c) == ColumnText(d) {
      var x, y := NullText(c) + ['|'] + c.comment.GetOr(""), NullText(d) + ['|'] + d.comment.GetOr("");
      SeparatedHead(c.name, c.dataType + ['|'] + x, d.name, d.dataType + ['|'] + y, '|');
      SeparatedHead(c.dataType, x, d.dataType, y, '|');
      SeparatedHead(NullText(c), c.comment.GetOr(""), NullText(d), d.comment.GetOr(""), '|');
    }
  }

  ghost predicate PlainTable(t: TableInfo) {
    '.' !in t.schema && forall c | c in t.columns :: PlainColumn(c)
  }

  /** Alike but for an absent comment, which is an empty one. */
  ghost predicate SameTable(t: TableInfo, u: TableInfo) {
    && t.schema == u.schema && t.name == u.name && t.kind == u.kind && t.comment.GetOr("") == u.comment.GetOr("")
    && t.primaryKey == u.primaryKey && |t.columns| == |u.columns|
    && forall i | 0 <= i < |t.columns| :: SameColumn(t.columns[i], u.columns[i])
  }

  lemma QualifiedOnce(t: TableInfo, u: TableInfo)
    requires '.' !in t.schema && '.' !in u.schema
    ensures t.schema + "." + t.name == u.schema + "." + u.name <==> t.schema == u.schema && t.name == u.name
  {
    if t.schema + "." + t.name == u.schema + "." + u.name {
      SeparatedHead(t.schema, t.name, u.schema, u.name, '.');
    }
  }

  lemma TableShapeUnique(t: TableInfo, u: TableInfo)
    requires PlainTable(t) && PlainTable(u)
    ensures ShapeOfTable(t) == ShapeOfTable(u) <==> SameTable(t, u)
  {
    QualifiedOnce(t, u);
    ColumnTextsUnique(t.columns, u.columns);
  }

  lemma ColumnTextsUnique(cs: seq<ColumnInfo>, ds: seq<ColumnInfo>)
    requires (forall c | c in cs :: PlainColumn(c)) && forall d | d in ds :: PlainColumn(d)
    ensures ColumnTexts(cs) == ColumnTexts(ds) <==>
            |cs| == |ds| && forall i | 0 <= i < |cs| :: SameColumn(cs[i], ds[i])
  {
    if |cs| == |ds| {
      forall i | 0 <= i < |cs| ensures ColumnTexts(cs)[i] == ColumnTexts(ds)[i] <==> SameColumn(cs[i], ds[i]) {
        assert cs[i] in cs && ds[i] in ds;
        ColumnTextUnique(cs[i], ds[i]);
      }
    }
  }

  ghost predicate SameTables(ts: seq<TableInfo>, us: seq<TableInfo>) {
    |ts| == |us| && forall i | 0 <= i < |ts| :: SameTable(ts[i], us[i])
  }

  lemma TableShapesUnique(ts: seq<TableInfo>, us: seq<TableInfo>)
    requires (forall t | t in ts :: PlainTable(t)) && forall u | u in us :: PlainTable(u)
    ensures ShapeOfTables(ts) == ShapeOfTables(us) <==> SameTables(ts, us)
  {
    if |ts| == |us| {
      forall i | 0 <= i < |ts| ensures ShapeOfTables(ts)[i] == ShapeOfTables(us)[i] <==> SameTable(ts[i], us[i]) {
        assert ts[i] in ts && us[i] in us;
        TableShapeUnique(ts[i], us[i]);
      }
    }
  }

  // ---- links ----

  ghost predicate PlainEnd(e: ForeignKeyEnd) {
    PlainName(e.schema) && PlainName(e.table) && e.columns != [] && forall c | c in e.columns :: PlainName(c)
  }

  ghost predicate PlainLink(fk: ForeignKey) {
    PlainEnd(fk.source) && PlainEnd(fk.target)
  }

  lemma EndTextParts(e: ForeignKeyEnd, rest: string)
    ensures EndText(e) + rest == e.schema + ['.'] + (e.table + ['('] + (Join(e.columns, ",") + [')'] + rest))
  {
  }

  lemma {:induction false} JoinedIsPlain(cs: seq<string>)
    requires forall c | c in cs :: PlainName(c)
    ensures ')' !in Join(cs, ",")
  {
    if |cs| > 1 {
      assert forall c | c in cs[1..] :: c in cs;
      JoinedIsPlain(cs[1..]);
    }
    assert cs != [] ==> cs[0] in cs;
  }

  /** An end of a link is told from whatever follows it. */
  lemma EndTextUnique(d: ForeignKeyEnd, x: string, e: ForeignKeyEnd, y: string)
    requires PlainEnd(d) && PlainEnd(e) && EndText(d) + x == EndText(e) + y
    ensures d == e && x == y
  {
    EndTextParts(d, x);
    EndTextParts(e, y);
    JoinedIsPlain(d.columns);
    JoinedIsPlain(e.columns);
    var a, b := Join(d.columns, ",") + [')'] + x, Join(e.columns, ",") + [')'] + y;
    SeparatedHead(d.schema, d.table + ['('] + a, e.schema, e.table + ['('] + b, '.');
    SeparatedHead(d.table, a, e.table, b, '(');
    SeparatedHead(Join(d.columns, ","), x, Join(e.columns, ","), y, ')');
    JoinInjective(d.columns, e.columns, ',');
    assert |d.columns + e.columns| >= 2;
  }

  lemma LinkTextUnique(f: ForeignKey, g: ForeignKey)
    requires PlainLink(f) && PlainLink(g) && LinkText(f) == LinkText(g)
    ensures f == g
  {
    assert LinkText(f) == EndText(f.source) + ("->" + EndText(f.target));
    assert LinkText(g) == EndText(g.source) + ("->" + EndText(g.target));
    EndTextUnique(f.source, "->" + EndText(f.target), g.source, "->" + EndText(g.target));
    var s := "->" + EndText(f.target);
    assert s[2..] == EndText(f.target) && ("->" + EndText(g.target))[2..] == EndText(g.target);
    assert EndText(f.target) + "" == EndText(f.target) && EndText(g.target) + "" == EndText(g.target);
    EndTextUnique(f.target, "", g.target, "");
  }

  lemma {:induction false} TextCount(fks: seq<ForeignKey>, fk: ForeignKey)
    requires (forall f | f in fks :: PlainLink(f)) && PlainLink(fk)
    ensures multiset(LinkTexts(fks))[LinkText(fk)] == multiset(fks)[fk]
  {
    if fks == [] {
      assert LinkTexts(fks) == [];
    } else {
      var front, last := fks[..|fks| - 1], fks[|fks| - 1];
      assert forall f | f in front :: f in fks;
      TextCount(front, fk);
      assert fks == front + [last] && LinkTexts(fks) == LinkTexts(front) + [LinkText(last)];
      if LinkText(last) == LinkText(fk) { LinkTextUnique(last, fk); }
    }
  }

  /** Links have one text each, so the texts are as many as the links, each as often. */
  lemma LinksUnique(fks: seq<ForeignKey>, gks: seq<ForeignKey>)
    requires (forall f | f in fks :: PlainLink(f)) && forall g | g in gks :: PlainLink(g)
    ensures Permuted(LinkTexts(fks), LinkTexts(gks)) <==> Permuted(fks, gks)
  {
    if Permuted(LinkTexts(fks), LinkTexts(gks)) {
      forall f: ForeignKey ensures multiset(fks)[f] == multiset(gks)[f] {
        if f in fks || f in gks {
          TextCount(fks, f);
          TextCount(gks, f);
        }
      }
    }
    if Permuted(fks, gks) { SameTexts(fks, gks); }
  }

  lemma SameTexts(fks: seq<ForeignKey>, gks: seq<ForeignKey>)
    requires (forall f | f in fks :: PlainLink(f)) && forall g | g in gks :: PlainLink(g)
    requires Permuted(fks, gks)
    ensures Permuted(LinkTexts(fks), LinkTexts(gks))
  {
    forall x: string ensures multiset(LinkTexts(fks))[x] == multiset(LinkTexts(gks))[x] {
      if x in LinkTexts(fks) {
        var f := LinkOf(fks, x);
        TextCount(fks, f);
        TextCount(gks, f);
      } else if x in LinkTexts(gks) {
        var f := LinkOf(gks, x);
        TextCount(fks, f);
        TextCount(gks, f);
      }
    }
  }

  lemma LinkOf(fks: seq<ForeignKey>, x: string) returns (f: ForeignKey)
    requires x in LinkTexts(fks)
    ensures f in fks && LinkText(f) == x
  {
    var i :| 0 <= i < |fks| && LinkTexts(fks)[i] == x;
    f := fks[i];
  }

  // ---- keys ----

  ghost predicate PlainInput(i: Input) {
    && (forall t | t in i.tables :: PlainTable(t)) && (forall f | f in i.foreignKeys :: PlainLink(f))
    && forall e | e in i.glossary.GetOr([]) :: PlainEntry(e)
  }

  /** Alike in everything a key is about. */
  ghost predicate SameInput(i: Input, j: Input, sorts: Sorts, normalize: string -> string) {
    && normalize(i.question) == normalize(j.question)
    && SameTables(sorts.byName(i.tables), sorts.byName(j.tables)) && Permuted(i.foreignKeys, j.foreignKeys)
    && SameGlossary(i.glossary, j.glossary)
    && i.plannerVersion.GetOr("v1") == j.plannerVersion.GetOr("v1") && i.maxRows == j.maxRows
    && i.guidance.GetOr("") == j.guidance.GetOr("")
  }

  /** Where no name holds a separator and nothing collides, two inputs share a key exactly when they are alike. */
  lemma EqualKeysMeanAlike(i: Input, j: Input, sorts: Sorts, normalize: string -> string, hash: string -> string)
    requires sorts.Lawful() && PlainInput(i) && PlainInput(j)
    requires Compute(i, sorts, normalize, hash).Ok? && Compute(j, sorts, normalize, hash).Ok?
    requires NoCollision(hash, SchemaText(i.tables, i.foreignKeys, sorts), SchemaText(j.tables, j.foreignKeys, sorts))
    requires NoCollision(hash, GlossaryPreimage(i.glossary), GlossaryPreimage(j.glossary))
    requires NoCollision(hash, Preimage(Compute(i, sorts, normalize, hash).value, i),
                         Preimage(Compute(j, sorts, normalize, hash).value, j))
    ensures Compute(i, sorts, normalize, hash).value.key == Compute(j, sorts, normalize, hash).value.key <==>
            SameInput(i, j, sorts, normalize)
  {
    EqualKeys(i, j, sorts, normalize, hash);
    StaysPlain(i.tables, sorts);
    StaysPlain(j.tables, sorts);
    TableShapesUnique(sorts.byName(i.tables), sorts.byName(j.tables));
    LinksUnique(i.foreignKeys, j.foreignKeys);
  }

  lemma StaysPlain(ts: seq<TableInfo>, sorts: Sorts)
    requires sorts.Lawful() && forall t | t in ts :: PlainTable(t)
    ensures forall t | t in sorts.byName(ts) :: PlainTable(t)
  {
    assert Permuted(ts, sorts.byName(ts));
    forall t | t in sorts.byName(ts) ensures t in ts { assert t in multiset(ts); }
  }
}
