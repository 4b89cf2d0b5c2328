/** packages/core/src/plan/render.ts: the DDL a table is shown as. How a row count is written is a parameter. */
module TableLayout {
  import opened Schema
  import opened Text
  import opened Framing
  import opened Retrieve
  import opened RetrieveAccount
  import Fragment
  import FragmentAccount
  import Pieces

  // ---- names ----

  predicate SmallOrBar(c: char) {
    'a' <= c <= 'z' || c == '_'
  }

  /** A name that needs no quotes. */
  predicate IsPlain(name: string) {
    name != "" && SmallOrBar(name[0]) && forall c | c in name :: SmallOrBar(c) || '0' <= c <= '9'
  }

  function Ident(name: string): string {
    if IsPlain(name) then name else Fragment.Quote(name, '"')
  }

  function Qualified(schema: string, name: string): string {
    Ident(schema) + "." + Ident(name)
  }

  // ---- the lines of a table ----

  /** Whether comments are shown, and how many rows a table is said to have, if that is shown. */
  datatype Style = Style(includeComments: bool, rows: TableInfo -> Option<string>)

  function Keyword(kind: string): string {
    match kind
    case "view" => "VIEW"
    case "materialized view" => "MATERIALIZED VIEW"
    case "foreign table" => "FOREIGN TABLE"
    case _ => "TABLE"
  }

  function Opening(t: TableInfo, style: Style): seq<string> {
    (if style.includeComments && t.comment.Some? then ["-- " + Fragment.Tidied(t.comment.value)] else [])
    + (match style.rows(t) case Some(n) => ["-- approximately " + n + " rows"] case None => [])
    + ["CREATE " + Keyword(t.kind) + " " + Qualified(t.schema, t.name) + " ("]
  }

  /** A definition and the comment that trails it; a comma goes between the two. */
  datatype Item = Item(code: string, note: string)

  function Idents(names: seq<string>): seq<string> {
    seq(|names|, i requires 0 <= i < |names| => Ident(names[i]))
  }

  function Listed(names: seq<string>): string {
    "(" + Join(Idents(names), ", ") + ")"
  }

  function ColumnItem(c: ColumnInfo, style: Style): Item {
    Item(Ident(c.name) + " " + c.dataType + (if c.nullable then "" else " NOT NULL"),
         if style.includeComments && c.comment.Some? then " -- " + Fragment.Tidied(c.comment.value) else "")
  }

  function LinkItem(fk: ForeignKey): Item {
    Item("FOREIGN KEY " + Listed(fk.source.columns) + " REFERENCES "
         + Qualified(fk.target.schema, fk.target.table) + " " + Listed(fk.target.columns), "")
  }

  function ColumnItems(cs: seq<ColumnInfo>, style: Style): (items: seq<Item>)
    ensures |items| == |cs|
  {
    seq(|cs|, i requires 0 <= i < |cs| => ColumnItem(cs[i], style))
  }

  function KeyItems(key: seq<string>): (items: seq<Item>)
    ensures |items| == if key == [] then 0 else 1
  {
    if key == [] then [] else [Item("PRIMARY KEY " + Listed(key), "")]
  }

  function OwnItems(t: TableInfo, style: Style): seq<Item> {
    ColumnItems(t.columns, style) + KeyItems(t.primaryKey)
  }

  function LinkItems(fks: seq<ForeignKey>): (items: seq<Item>)
    ensures |items| == |fks|
  {
    seq(|fks|, i requires 0 <= i < |fks| => LinkItem(fks[i]))
  }

  function LineOf(item: Item, last: bool): string {
    "  " + item.code + (if last then "" else ",") + item.note
  }

  function Body(items: seq<Item>): (lines: seq<string>)
    ensures |lines| == |items|
  {
    seq(|items|, i requires 0 <= i < |items| => LineOf(items[i], i == |items| - 1))
  }

  function Layout(t: TableInfo, outbound: seq<ForeignKey>, style: Style): string {
    Join(Opening(t, style) + Body(OwnItems(t, style) + LinkItems(outbound)) + [");"], "\n")
  }

  // ---- what the text says ----

  /** A comma follows every definition but the last, before the comment. */
  function Separator(i: int, n: int): string {
    if i == n - 1 then "" else ","
  }

  /** The line of a column, the i-th of n definitions. */
  ghost predicate SaysColumn(line: string, c: ColumnInfo, i: int, n: int, style: Style) {
    line == "  " + (Ident(c.name) + " " + c.dataType + if c.nullable then "" else " NOT NULL") + Separator(i, n)
            + if style.includeComments && c.comment.Some? then " -- " + Fragment.Tidied(c.comment.value) else ""
  }

  ghost predicate SaysLink(line: string, fk: ForeignKey, i: int, n: int) {
    line == "  " + ("FOREIGN KEY " + Listed(fk.source.columns) + " REFERENCES "
                    + Qualified(fk.target.schema, fk.target.table) + " " + Listed(fk.target.columns))
            + Separator(i, n) + ""
  }

  ghost predicate SaysColumns(lines: seq<string>, cs: seq<ColumnInfo>, n: nat, style: Style)
    requires |cs| <= |lines|
  {
    forall i | 0 <= i < |cs| :: SaysColumn(lines[i], cs[i], i, n, style)
  }

  ghost predicate SaysKey(lines: seq<string>, o: nat, key: seq<string>, n: nat) {
    key != [] ==> o < |lines| && lines[o] == "  " + ("PRIMARY KEY " + Listed(key)) + Separator(o, n) + ""
  }

  ghost predicate SaysLinks(lines: seq<string>, o: nat, fks: seq<ForeignKey>, n: nat)
    requires o + |fks| <= |lines|
  {
    forall j | 0 <= j < |fks| :: SaysLink(lines[o + j], fks[j], o + j, n)
  }

  /** The lines of a table: its columns in order, its primary key if it has one, and the foreign keys drawn. */
  ghost predicate Says(lines: seq<string>, t: TableInfo, outbound: seq<ForeignKey>, style: Style) {
    var keyed := |t.columns| + if t.primaryKey == [] then 0 else 1;
    && |lines| == keyed + |outbound|
    && SaysColumns(lines, t.columns, |lines|, style)
    && SaysKey(lines, |t.columns|, t.primaryKey, |lines|)
    && SaysLinks(lines, keyed, outbound, |lines|)
  }

  lemma ColumnSays(c: ColumnInfo, i: int, n: int, style: Style)
    ensures SaysColumn(LineOf(ColumnItem(c, style), i == n - 1), c, i, n, style)
  {
  }

  lemma LinkSays(fk: ForeignKey, i: int, n: int)
    ensures SaysLink(LineOf(LinkItem(fk), i == n - 1), fk, i, n)
  {
  }

  ghost predicate LinesOf(lines: seq<string>, items: seq<Item>) {
    |lines| == |items| && forall i | 0 <= i < |items| :: lines[i] == LineOf(items[i], i == |items| - 1)
  }

  /** From place o on, of n lines, stand those of the items. */
  ghost predicate StandAt(lines: seq<string>, o: nat, items: seq<Item>, n: nat) {
    o + |items| <= n == |lines| && forall i | 0 <= i < |items| :: lines[o + i] == LineOf(items[i], o + i == n - 1)
  }

  lemma PartsStand(lines: seq<string>, a: seq<Item>, b: seq<Item>, c: seq<Item>)
    requires LinesOf(lines, a + b + c)
    ensures StandAt(lines, 0, a, |lines|) && StandAt(lines, |a|, b, |lines|) && StandAt(lines, |a| + |b|, c, |lines|)
  {
    var all := a + b + c;
    assert forall i | 0 <= i < |a| :: all[i] == a[i];
    assert forall i | 0 <= i < |b| :: all[|a| + i] == b[i];
    assert forall i | 0 <= i < |c| :: all[|a| + |b| + i] == c[i];
  }

  lemma ColumnsSay(lines: seq<string>, cs: seq<ColumnInfo>, n: nat, style: Style)
    requires StandAt(lines, 0, ColumnItems(cs, style), n)
    ensures |cs| <= |lines| && SaysColumns(lines, cs, n, style)
  {
    forall i | 0 <= i < |cs| ensures SaysColumn(lines[i], cs[i], i, n, style) {
      assert lines[0 + i] == LineOf(ColumnItems(cs, style)[i], 0 + i == n - 1);
      ColumnSays(cs[i], i, n, style);
    }
  }

  lemma KeySays(lines: seq<string>, o: nat, key: seq<string>, n: nat)
    requires StandAt(lines, o, KeyItems(key), n)
    ensures SaysKey(lines, o, key, n)
  {
    if key != [] { assert lines[o + 0] == LineOf(KeyItems(key)[0], o + 0 == n - 1); }
  }

  lemma LinksSay(lines: seq<string>, o: nat, fks: seq<ForeignKey>, n: nat)
    requires StandAt(lines, o, LinkItems(fks), n)
    ensures o + |fks| <= |lines| && SaysLinks(lines, o, fks, n)
  {
    forall j | 0 <= j < |fks| ensures SaysLink(lines[o + j], fks[j], o + j, n) {
      assert lines[o + j] == LineOf(LinkItems(fks)[j], o + j == n - 1);
      LinkSays(fks[j], o + j, n);
    }
  }

  lemma ItemsSay(t: TableInfo, outbound: seq<ForeignKey>, style: Style, lines: seq<string>, cs: seq<Item>,
                 ks: seq<Item>, ls: seq<Item>)
    requires cs == ColumnItems(t.columns, style) && ks == KeyItems(t.primaryKey) && ls == LinkItems(outbound)
    requires LinesOf(lines, cs + ks + ls)
    ensures Says(lines, t, outbound, style)
  {
    PartsStand(lines, cs, ks, ls);
    ColumnsSay(lines, t.columns, |lines|, style);
    KeySays(lines, |cs|, t.primaryKey, |lines|);
    LinksSay(lines, |cs| + |ks|, outbound, |lines|);
  }

  /** A table's text opens with its comment and its rows where these are shown, and says in a line each what it
      is called, its columns, its primary key and the foreign keys it is drawn with. */
  lemma LayoutSays(t: TableInfo, outbound: seq<ForeignKey>, style: Style) returns (lines: seq<string>)
    ensures Says(lines, t, outbound, style)
    ensures Layout(t, outbound, style) == Join(
              (if style.includeComments && t.comment.Some? then ["-- " + Fragment.Tidied(t.comment.value)] else [])
              + (match style.rows(t) case Some(n) => ["-- approximately " + n + " rows"] case None => [])
              + ["CREATE " + Keyword(t.kind) + " " + Qualified(t.schema, t.name) + " ("] + lines + [");"], "\n")
  {
    lines := Body(OwnItems(t, style) + LinkItems(outbound));
    ItemsSay(t, outbound, style, lines, ColumnItems(t.columns, style), KeyItems(t.primaryKey), LinkItems(outbound));
  }

  // ---- names are told apart ----

  predicate InPlain(c: char) {
    SmallOrBar(c) || '0' <= c <= '9'
  }

  /** What may come behind a name: nothing that could be part of it. */
  predicate Behind(x: string) {
    x != "" ==> !InPlain(x[0]) && x[0] != '"'
  }

  lemma PlainEnds(a: string, x: string, b: string, y: string)
    requires a + x == b + y && IsPlain(a) && IsPlain(b) && Behind(x) && Behind(y)
    ensures a == b && x == y
  {
    var s := a + x;
    assert forall k | 0 <= k < |a| :: s[k] == a[k] && a[k] in a;
    assert forall k | 0 <= k < |b| :: s[k] == b[k] && b[k] in b;
    assert x != "" ==> s[|a|] == x[0];
    assert y != "" ==> s[|b|] == y[0];
    assert |a| == |b|;
    assert a == s[..|a|] && b == s[..|b|] && x == s[|a|..] && y == s[|b|..];
  }

  lemma HeadOf(name: string, x: string)
    ensures Ident(name) + x != "" && ((Ident(name) + x)[0] == '"' <==> !IsPlain(name))
  {
  }

  /** A name is told from whatever comes behind it, and no two names are written alike. */
  lemma IdentEnds(a: string, x: string, b: string, y: string)
    requires Ident(a) + x == Ident(b) + y && Behind(x) && Behind(y)
    ensures a == b && x == y
  {
    HeadOf(a, x);
    HeadOf(b, y);
    if IsPlain(a) { PlainEnds(a, x, b, y); } else { Pieces.SameQuoted(a, x, b, y, '"'); }
  }

  /** A table's written name names one table. */
  lemma QualifiedInjective(schema: string, name: string, schema': string, name': string)
    requires Qualified(schema, name) == Qualified(schema', name')
    ensures schema == schema' && name == name'
  {
    var x, y := "." + Ident(name), "." + Ident(name');
    assert Qualified(schema, name) == Ident(schema) + x && Qualified(schema', name') == Ident(schema') + y;
    IdentEnds(schema, x, schema', y);
    assert Ident(name) == x[1..] && Ident(name') == y[1..];
    assert Ident(name) + "" == Ident(name') + "";
    IdentEnds(name, "", name', "");
  }

  /** A comment is written on the line it starts on. */
  lemma CommentIsOneLine(text: string)
    ensures '\n' !in Fragment.Tidied(text)
  {
    FragmentAccount.TidiedIsTight(text);
  }

  // ---- how long a table's text is ----

  function Weight(items: seq<Item>): nat {
    if items == [] then 0 else 3 + Utf16Length(items[0].code) + Utf16Length(items[0].note) + Weight(items[1..])
  }

  /** The lines with the break behind each. */
  function Length(lines: seq<string>): nat {
    if lines == [] then 0 else Utf16Length(lines[0]) + 1 + Length(lines[1..])
  }

  function Commas(items: seq<Item>): nat {
    if items == [] then 0 else |items| - 1
  }

  lemma {:induction false} WeightAdds(a: seq<Item>, b: seq<Item>)
    ensures Weight(a + b) == Weight(a) + Weight(b)
  {
    if a == [] {
      assert a + b == b;
    } else {
      WeightAdds(a[1..], b);
      assert (a + b)[1..] == a[1..] + b;
    }
  }

  lemma {:induction false} LengthAdds(a: seq<string>, b: seq<string>)
    ensures Length(a + b) == Length(a) + Length(b)
  {
    if a == [] {
      assert a + b == b;
    } else {
      LengthAdds(a[1..], b);
      assert (a + b)[1..] == a[1..] + b;
    }
  }

  lemma OneChar(c: char)
    ensures Utf16Length([c]) == Utf16Width(c)
  {
    assert Measure([c][1..], Utf16Width) == 0;
  }

  lemma LineLength(item: Item, last: bool)
    ensures Utf16Length(LineOf(item, last)) ==
            2 + Utf16Length(item.code) + (if last then 0 else 1) + Utf16Length(item.note)
  {
    var comma := if last then "" else ",";
    OneChar(' ');
    OneChar(',');
    MeasureAdds(" ", " ", Utf16Width);
    assert "  " == " " + " ";
    MeasureAdds("  ", item.code, Utf16Width);
    MeasureAdds("  " + item.code, comma, Utf16Width);
    MeasureAdds("  " + item.code + comma, item.note, Utf16Width);
  }

  lemma {:induction false} BodyLength(items: seq<Item>)
    ensures Length(Body(items)) == Weight(items) + Commas(items)
  {
    if items != [] {
      BodyLength(items[1..]);
      LineLength(items[0], |items| == 1);
      assert Body(items)[1..] == Body(items[1..]);
    }
  }

  lemma {:induction false} JoinLength(lines: seq<string>)
    requires lines != []
    ensures Utf16Length(Join(lines, "\n")) + 1 == Length(lines)
  {
    if |lines| > 1 {
      JoinLength(lines[1..]);
      OneChar('\n');
      MeasureAdds(lines[0], "\n", Utf16Width);
      MeasureAdds(lines[0] + "\n", Join(lines[1..], "\n"), Utf16Width);
    }
  }

  lemma LayoutLength(t: TableInfo, outbound: seq<ForeignKey>, style: Style)
    ensures Utf16Length(Layout(t, outbound, style)) + 1 ==
            Length(Opening(t, style)) + Weight(OwnItems(t, style)) + Weight(LinkItems(outbound))
            + Commas(OwnItems(t, style) + LinkItems(outbound)) + Length([");"])
  {
    var items := OwnItems(t, style) + LinkItems(outbound);
    JoinLength(Opening(t, style) + Body(items) + [");"]);
    LengthAdds(Opening(t, style), Body(items));
    LengthAdds(Opening(t, style) + Body(items), [");"]);
    BodyLength(items);
    WeightAdds(OwnItems(t, style), LinkItems(outbound));
  }

  ghost predicate NoMore(a: seq<Item>, b: seq<Item>) {
    Weight(a) <= Weight(b) && |a| <= |b|
  }

  lemma NoMoreStays(item: Item, a: seq<Item>, b: seq<Item>)
    requires NoMore(a, b)
    ensures NoMore([item] + a, [item] + b) && NoMore([] + a, [item] + b) && NoMore([] + a, [] + b)
  {
    assert ([item] + a)[1..] == a && ([item] + b)[1..] == b;
    assert [] + a == a && [] + b == b;
  }

  lemma LinksOfOne(one: seq<ForeignKey>, fks: seq<ForeignKey>)
    requires |one| <= 1
    ensures LinkItems(one + fks) == LinkItems(one) + LinkItems(fks)
  {
    assert LinkItems(one + fks) == LinkItems(one) + LinkItems(fks);
  }

  lemma {:induction false} MoreLinks(t: TableInfo, fks: seq<ForeignKey>, x: set<string>, y: set<string>)
    requires x <= y
    ensures NoMore(LinkItems(Outbound(t, fks, x)), LinkItems(Outbound(t, fks, y)))
  {
    if fks != [] {
      var u, v := Outbound(t, fks[1..], x), Outbound(t, fks[1..], y);
      MoreLinks(t, fks[1..], x, y);
      LinksOfOne([fks[0]], u);
      LinksOfOne([fks[0]], v);
      LinksOfOne([], u);
      LinksOfOne([], v);
      NoMoreStays(LinkItem(fks[0]), LinkItems(u), LinkItems(v));
    }
  }

  /** The text of a table that is drawn with more foreign keys is no shorter. */
  lemma LayoutGrows(t: TableInfo, fks: seq<ForeignKey>, x: set<string>, y: set<string>, style: Style)
    requires x <= y
    ensures Utf16Length(Layout(t, Outbound(t, fks, x), style)) <= Utf16Length(Layout(t, Outbound(t, fks, y), style))
  {
    LayoutLength(t, Outbound(t, fks, x), style);
    LayoutLength(t, Outbound(t, fks, y), style);
    MoreLinks(t, fks, x, y);
  }

  /** With tables laid out like this, nothing is omitted when the whole queue keeps to both caps. */
  lemma EverythingShown(r: Selection, order: seq<TableInfo>, a: Request, env: Env, style: Style)
    requires SelectedFrom(r, order, a, env)
    requires forall t, outbound :: env.renderTable(t, outbound) == Layout(t, outbound, style)
    requires |order| <= a.limits.maxTables && Tokens(order, a.foreignKeys, env) <= a.limits.maxTokens
    ensures r.omitted == 0 && r.tables == order
  {
    forall t: TableInfo, x: set<string>, y: set<string> | x <= y
      ensures Utf16Length(env.renderTable(t, Outbound(t, a.foreignKeys, x))) <=
              Utf16Length(env.renderTable(t, Outbound(t, a.foreignKeys, y)))
    {
      LayoutGrows(t, a.foreignKeys, x, y, style);
    }
    WholeQueueShown(r, order, a, env);
  }
}
