/** The SQL of the query store. */
module StoreSql {
  import opened Schema
  import opened Text
  import opened Fragment
  import opened Pieces
  import opened Misreading
  import opened Transactions
  import opened Statements
  import opened Framing
  import opened SessionPreamble
  import opened Numbers

  // packages/core/src/store/store.ts and the preamble of store/write.ts: statements into which the caller's
  // question, SQL and keys go as literals.

  const MAX_TIMEOUT_MS := 600000.0
  const MAX_TTL_MS := 315360000000.0
  const MAX_TENANT_LENGTH := 256
  const APPROVED_QUERY_TABLE := "approved_query"

  /** The fixed wording: the columns read back and those saved, what becomes of them on a conflict, what a hit
      sets, which entries are live and which are not, and how a lifetime is added to now. */
  datatype Wording = Wording(projection: string, columns: string, onConflict: string, touch: string, live: string,
                             expired: string, plusSeconds: string)

  predicate Whole(x: real, low: real, high: real) {
    x.Floor as real == x && low <= x <= high
  }

  /** quoteIdent and quoteLiteral, for what they accept. */
  function Ident(name: string): string {
    Quote(name, '"')
  }

  function Lit(value: string): string {
    Quote(value, '\'')
  }

  function Millis(x: real): string {
    Decimal(AtLeastZero(x.Floor)) + "ms"
  }

  function Set(name: string, word: string, quoted: string): string {
    "SET LOCAL " + name + " = " + word + quoted
  }

  /** The settings a write transaction opens with. */
  datatype SettingNames = SettingNames(statementTimeout: string, lockTimeout: string, idleTimeout: string,
                                       rowSecurity: string, conformingStrings: string, searchPath: string)

  /** writePreamble; None is one of the RangeErrors. */
  function WritePreamble(names: SettingNames, schema: string, statement: real, lock: real, idle: real)
    : Option<seq<string>>
  {
    if Whole(statement, 1.0, MAX_TIMEOUT_MS) && Whole(lock, 1.0, MAX_TIMEOUT_MS) && Whole(idle, 1.0, MAX_TIMEOUT_MS)
       && IsIdent(schema)
    then Some([
      Set(names.statementTimeout, "", Lit(Millis(statement))),
      Set(names.lockTimeout, "", Lit(Millis(lock))),
      Set(names.idleTimeout, "", Lit(Millis(idle))),
      Set(names.rowSecurity, "on", ""),
      Set(names.conformingStrings, "on", ""),
      Set(names.searchPath, "pg_catalog, ", Ident(schema))])
    else None
  }

  // ---- the statements ----

  function OnTable(schema: string, rest: string): string {
    Ident(schema) + ("." + (Ident(APPROVED_QUERY_TABLE) + rest))
  }

  /** lookup, with touchOnHit or without. */
  function LookupSql(w: Wording, schema: string, key: string, touch: bool): Option<string> {
    if '\0' in key then None
    else if touch then
      Some("UPDATE " + OnTable(schema, w.touch + " WHERE key = "
                                       + (Lit(key) + (w.live + " RETURNING " + w.projection))))
    else Some("SELECT " + w.projection + " FROM " + OnTable(schema, " WHERE key = " + (Lit(key) + w.live)))
  }

  function InvalidateSql(schema: string, key: string): Option<string> {
    if '\0' in key then None
    else Some("DELETE FROM " + OnTable(schema, " WHERE key = " + (Lit(key) + " RETURNING key")))
  }

  function InvalidateAllSql(schema: string): string {
    "DELETE FROM " + OnTable(schema, " RETURNING key")
  }

  function PurgeExpiredSql(w: Wording, schema: string): string {
    "DELETE FROM " + OnTable(schema, w.expired + " RETURNING key")
  }

  /** What save puts into literals, and the row limit. */
  datatype Saved = Saved(key: string, question: string, sql: string, chart: string, tables: string,
                         rowLimit: Option<int>, schemaDigest: string, glossaryDigest: string, plannerVersion: string,
                         tenant: Option<string>)
  {
    function Payloads(): seq<string> {
      [key, question, sql, chart, tables, schemaDigest, glossaryDigest, plannerVersion]
      + (if tenant.Some? then [tenant.value] else [])
    }
  }

  /** ttlExpression, for what it accepts. */
  function Ttl(w: Wording, ttl: Option<real>): string {
    match ttl
    case None => "NULL"
    case Some(ms) =>
      var n := AtLeastZero(ms.Floor);
      w.plusSeconds + Decimal(n / 1000) + "." + [Digit(n / 100 % 10), Digit(n / 10 % 10), Digit(n % 10)] + ")"
  }

  function RowLimit(limit: Option<int>): string {
    match limit
    case None => "NULL"
    case Some(n) => if n < 0 then "-" + Decimal(-n) else Decimal(n)
  }

  function SaveTail(w: Wording, ttl: Option<real>): string {
    ", " + Ttl(w, ttl) + ")" + w.onConflict
  }

  /** save, of an approved query that is not too large; None is one of the RangeErrors. */
  function SaveSql(w: Wording, schema: string, r: Saved, ttl: Option<real>): Option<string> {
    if (exists p :: p in r.Payloads() && '\0' in p)
       || (r.tenant.Some? && Utf16Length(r.tenant.value) > MAX_TENANT_LENGTH)
       || (ttl.Some? && !Whole(ttl.value, 1000.0, MAX_TTL_MS))
    then None
    else Some("INSERT INTO " + OnTable(schema, w.columns + "\nVALUES (" + (Lit(r.key) + SaveValues(w, r, ttl))))
  }

  function SaveValues(w: Wording, r: Saved, ttl: Option<real>): string {
    Comma(r.question, Comma(r.sql, Comma(r.chart, "::jsonb, " + (Lit(r.tables) + SaveRest(w, r, ttl)))))
  }

  function Comma(value: string, rest: string): string {
    ", " + (Lit(value) + rest)
  }

  function SaveRest(w: Wording, r: Saved, ttl: Option<real>): string {
    SaveMiddle(r.rowLimit) + (Lit(r.schemaDigest) + Comma(r.glossaryDigest, Comma(r.plannerVersion,
      SaveOwner(w, r.tenant, ttl))))
  }

  function SaveMiddle(rowLimit: Option<int>): string {
    "::jsonb, " + RowLimit(rowLimit) + ", "
  }

  function SaveOwner(w: Wording, tenant: Option<string>, ttl: Option<real>): string {
    match tenant
    case None => ", NULL" + SaveTail(w, ttl)
    case Some(t) => Comma(t, SaveTail(w, ttl))
  }

  // ---- building a statement ----

  function LiteralsOf(x: Expression): seq<string> {
    match x
    case End => []
    case Then(p, rest) => if p.Literal? then [p.body] + LiteralsOf(rest) else LiteralsOf(rest)
  }

  /** The text is one command, and what its literals say is this. */
  ghost predicate Says(text: string, literals: seq<string>) {
    exists x :: SaysAs(text, literals, x)
  }

  predicate SaysAs(text: string, literals: seq<string>, x: Expression) {
    Plainly(text, x) && ';' !in Shape(x) && '\0' !in text && LiteralsOf(x) == literals
  }

  /** Text as it can stand before a quoted piece. */
  predicate Leads(text: string, p: Piece) {
    Clean(text) && ';' !in text && '\0' !in text && !p.Plain? && '\0' !in p.body && !Prefixes(text, p)
  }

  lemma NulFree(p: Piece)
    requires !p.Plain? && '\0' !in p.body
    ensures '\0' !in WriteOne(p)
  {
    DoublingAddsNone(p.body, if p.Name? then '"' else '\'', '\0');
  }

  /** One quoted piece, and plain text before it. */
  lemma Before(text: string, p: Piece, rest: string, x: Expression, literals: seq<string>)
    requires Leads(text, p) && SaysAs(rest, literals, x) && (x.Then? ==> x.first.Plain?)
    ensures SaysAs(text + (WriteOne(p) + rest), (if p.Literal? then [p.body] else []) + literals,
                   Then(Plain(text), Then(p, x)))
  {
    var y := Then(p, x);
    NulFree(p);
    Behind(p, x);
    Behind(Plain(text), y);
    assert Write(y) == WriteOne(p) + rest;
    assert Shape(y) == ShapeOne(p) + Shape(x);
    assert Shape(Then(Plain(text), y)) == text + Shape(y);
  }

  lemma JustText(text: string)
    requires Clean(text) && ';' !in text && '\0' !in text
    ensures SaysAs(text, [], Then(Plain(text), End))
  {
    JustPlain(text);
  }

  /** Text in which nothing can go wrong. */
  predicate Calm(text: string) {
    && '\'' !in text && '"' !in text && '$' !in text && ';' !in text && '\0' !in text && '-' !in text && '/' !in text
  }

  lemma CalmIsClean(text: string)
    requires Calm(text) && text != ""
    ensures Clean(text) && ';' !in text && '\0' !in text
  {
  }

  lemma CalmTogether(a: string, b: string)
    requires Calm(a) && Calm(b)
    ensures Calm(a + b)
  {
  }

  predicate CalmWording(w: Wording) {
    && Calm(w.projection) && Calm(w.columns) && Calm(w.onConflict)
    && Calm(w.touch) && Calm(w.live) && w.live != "" && Calm(w.expired) && Calm(w.plusSeconds)
  }

  lemma {:induction false} DecimalIsCalm(n: nat)
    ensures Calm(Decimal(n))
  {
    if n >= 10 { DecimalIsCalm(n / 10); }
  }

  lemma TtlIsCalm(w: Wording, ttl: Option<real>)
    requires CalmWording(w)
    ensures Calm(Ttl(w, ttl))
  {
    if ttl.Some? {
      var n := AtLeastZero(ttl.value.Floor);
      DecimalIsCalm(n / 1000);
      CalmTogether(w.plusSeconds, Decimal(n / 1000));
      CalmTogether(w.plusSeconds + Decimal(n / 1000), ".");
      var digits := [Digit(n / 100 % 10), Digit(n / 10 % 10), Digit(n % 10)];
      CalmTogether(w.plusSeconds + Decimal(n / 1000) + ".", digits);
      CalmTogether(w.plusSeconds + Decimal(n / 1000) + "." + digits, ")");
    }
  }

  /** A row limit may be negative: that is one dash, and no comment. */
  lemma MiddleIsClean(rowLimit: Option<int>)
    ensures Leads(SaveMiddle(rowLimit), Literal(""))
  {
    match rowLimit
    case None =>
    case Some(n) =>
      var digits := Decimal(if n < 0 then -n else n);
      DecimalIsCalm(if n < 0 then -n else n);
      MaybeDash("::jsonb, ", digits, ", ");
      Regroup("::jsonb, ", "-", digits);
  }

  lemma MaybeDash(a: string, b: string, c: string)
    requires Calm(a) && Calm(b) && Calm(c) && c != "" && c[|c| - 1] !in "eE&"
    ensures Leads(a + b + c, Literal("")) && Leads(a + "-" + b + c, Literal(""))
  {
    CalmTogether(a, b);
    CalmTogether(a + b, c);
    OneDash(a, b + c);
    Regroup(a + "-", b, c);
  }

  lemma OneDash(a: string, b: string)
    requires Calm(a) && Calm(b)
    ensures Clean(a + "-" + b) && ';' !in a + "-" + b && '\0' !in a + "-" + b
  {
  }

  // ---- whatever the payloads say ----

  /** A statement of one command, whose literals say this. */
  ghost predicate StoreStatement(text: string, schema: string, literals: seq<string>) {
    IsStatement(Composed(text, Ident(schema))) && Says(text, literals)
  }

  /** It says one thing only. */
  lemma SaysOneThing(text: string, a: seq<string>, b: seq<string>)
    requires Says(text, a) && Says(text, b)
    ensures a == b
  {
    var x, y :| SaysAs(text, a, x) && SaysAs(text, b, y);
    SeparateIsApart(x);
    SeparateIsApart(y);
    WrittenOnce(x, y);
  }

  /** The rest of a statement, with a plain beginning. */
  ghost predicate Continues(rest: string, literals: seq<string>) {
    exists x :: SaysAs(rest, literals, x) && x.Then? && x.first.Plain?
  }

  lemma ThenLiteral(text: string, value: string, rest: string, literals: seq<string>)
    requires Leads(text, Literal(value)) && Continues(rest, literals)
    ensures Continues(text + (Lit(value) + rest), [value] + literals)
  {
    var x :| SaysAs(rest, literals, x) && x.Then? && x.first.Plain?;
    Before(text, Literal(value), rest, x, literals);
  }

  lemma ThenText(text: string)
    requires Calm(text) && text != ""
    ensures Continues(text, [])
  {
    CalmIsClean(text);
    JustText(text);
  }

  lemma IdentIsPlain(schema: string)
    requires IsIdent(schema)
    ensures '\0' !in schema
  {
  }

  lemma SaysOnTable(head: string, schema: string, rest: string, literals: seq<string>)
    requires IsIdent(schema) && Leads(head, Name(schema)) && TouchesData(head) && Continues(rest, literals)
    ensures StoreStatement(head + OnTable(schema, rest), schema, literals)
  {
    var x :| SaysAs(rest, literals, x) && x.Then? && x.first.Plain?;
    var onward := "." + (Ident(APPROVED_QUERY_TABLE) + rest);
    var y := DotTable(rest, literals, x);
    SaysNamed(head, schema, onward, y, literals);
    ReachesTable(head, schema, onward);
  }

  lemma SaysNamed(head: string, schema: string, onward: string, y: Expression, literals: seq<string>)
    requires Leads(head, Name(schema)) && SaysAs(onward, literals, y) && y.Then? && y.first.Plain?
    ensures Says(head + (Ident(schema) + onward), literals) && '\0' !in head + (Ident(schema) + onward)
  {
    Before(head, Name(schema), onward, y, literals);
    assert [] + literals == literals;
  }

  lemma DotTable(rest: string, literals: seq<string>, x: Expression) returns (y: Expression)
    requires SaysAs(rest, literals, x) && x.Then? && x.first.Plain?
    ensures SaysAs("." + (Ident(APPROVED_QUERY_TABLE) + rest), literals, y) && y.Then? && y.first.Plain?
  {
    y := Dotted(APPROVED_QUERY_TABLE, rest, literals, x);
  }

  lemma Dotted(table: string, rest: string, literals: seq<string>, x: Expression) returns (y: Expression)
    requires '\0' !in table && SaysAs(rest, literals, x) && x.Then? && x.first.Plain?
    ensures SaysAs("." + (Ident(table) + rest), literals, y) && y.Then? && y.first.Plain?
  {
    CalmLeads(".", Name(table));
    Before(".", Name(table), rest, x, literals);
    assert [] + literals == literals;
    y := Then(Plain("."), Then(Name(table), x));
  }

  lemma ReachesTable(head: string, schema: string, rest: string)
    requires TouchesData(head)
    requires '\0' !in head + (Ident(schema) + rest)
    ensures IsStatement(Composed(head + (Ident(schema) + rest), Ident(schema)))
  {
    var text := head + (Ident(schema) + rest);
    assert text[|head|..] == Ident(schema) + rest;
    assert PartAt(text, Ident(schema), |head|);
    LongerTouches(head, Ident(schema) + rest);
  }

  lemma LongerTouches(head: string, rest: string)
    requires TouchesData(head)
    ensures TouchesData(head + rest)
  {
  }

  lemma CalmLeads(text: string, p: Piece)
    requires Calm(text) && text != "" && !p.Plain? && '\0' !in p.body
    requires text[|text| - 1] !in "eE&"
    ensures Leads(text, p)
  {
    CalmIsClean(text);
  }

  lemma WhereKey(before: string, key: string, after: string)
    requires Calm(before) && Calm(after) && after != "" && '\0' !in key
    ensures Continues(before + " WHERE key = " + (Lit(key) + after), [key])
  {
    var text := before + " WHERE key = ";
    CalmTogether(before, " WHERE key = ");
    assert text[|text| - 1] == " WHERE key = "[12];
    CalmLeads(text, Literal(key));
    ThenText(after);
    ThenLiteral(text, key, after, []);
    assert [key] + [] == [key];
  }

  lemma InvalidateSays(schema: string, key: string)
    requires IsIdent(schema)
    ensures InvalidateSql(schema, key) == None <==> '\0' in key
    ensures InvalidateSql(schema, key).Some? ==> StoreStatement(InvalidateSql(schema, key).value, schema, [key])
  {
    if '\0' !in key {
      IdentIsPlain(schema);
      WhereKey("", key, " RETURNING key");
      assert "" + " WHERE key = " == " WHERE key = ";
      CalmLeads("DELETE FROM ", Name(schema));
      SaysOnTable("DELETE FROM ", schema, " WHERE key = " + (Lit(key) + " RETURNING key"), [key]);
    }
  }

  lemma LookupSays(w: Wording, schema: string, key: string, touch: bool)
    requires CalmWording(w) && IsIdent(schema)
    ensures LookupSql(w, schema, key, touch) == None <==> '\0' in key
    ensures LookupSql(w, schema, key, touch).Some? ==>
              StoreStatement(LookupSql(w, schema, key, touch).value, schema, [key])
  {
    if '\0' !in key {
      IdentIsPlain(schema);
      if touch { TouchSays(w, schema, key); } else { SelectSays(w, schema, key); }
    }
  }

  lemma TouchSays(w: Wording, schema: string, key: string)
    requires CalmWording(w) && IsIdent(schema) && '\0' !in schema && '\0' !in key
    ensures StoreStatement(LookupSql(w, schema, key, true).value, schema, [key])
  {
    var after := w.live + " RETURNING " + w.projection;
    CalmTogether(w.live, " RETURNING ");
    CalmTogether(w.live + " RETURNING ", w.projection);
    WhereKey(w.touch, key, after);
    CalmLeads("UPDATE ", Name(schema));
    SaysOnTable("UPDATE ", schema, w.touch + " WHERE key = " + (Lit(key) + after), [key]);
  }

  lemma SelectSays(w: Wording, schema: string, key: string)
    requires CalmWording(w) && IsIdent(schema) && '\0' !in schema && '\0' !in key
    ensures StoreStatement(LookupSql(w, schema, key, false).value, schema, [key])
  {
    var head := "SELECT " + w.projection + " FROM ";
    CalmTogether("SELECT ", w.projection);
    CalmTogether("SELECT " + w.projection, " FROM ");
    assert head[|head| - 1] == " FROM "[5];
    WhereKey("", key, w.live);
    assert "" + " WHERE key = " == " WHERE key = ";
    CalmLeads(head, Name(schema));
    LongerTouches("SELECT ", w.projection);
    LongerTouches("SELECT " + w.projection, " FROM ");
    SaysOnTable(head, schema, " WHERE key = " + (Lit(key) + w.live), [key]);
  }

  lemma SweepsSay(w: Wording, schema: string)
    requires CalmWording(w) && IsIdent(schema)
    ensures StoreStatement(InvalidateAllSql(schema), schema, [])
    ensures StoreStatement(PurgeExpiredSql(w, schema), schema, [])
  {
    IdentIsPlain(schema);
    CalmLeads("DELETE FROM ", Name(schema));
    ThenText(" RETURNING key");
    CalmTogether(w.expired, " RETURNING key");
    ThenText(w.expired + " RETURNING key");
    SaysOnTable("DELETE FROM ", schema, " RETURNING key", []);
    SaysOnTable("DELETE FROM ", schema, w.expired + " RETURNING key", []);
  }

  // ---- save ----

  lemma ThenComma(value: string, rest: string, literals: seq<string>)
    requires '\0' !in value && Continues(rest, literals)
    ensures Continues(Comma(value, rest), [value] + literals)
  {
    CalmLeads(", ", Literal(value));
    ThenLiteral(", ", value, rest, literals);
  }

  lemma OwnerSays(w: Wording, tenant: Option<string>, ttl: Option<real>)
    requires CalmWording(w) && (tenant.Some? ==> '\0' !in tenant.value)
    ensures Continues(SaveOwner(w, tenant, ttl), if tenant.Some? then [tenant.value] else [])
  {
    var tail := SaveTail(w, ttl);
    TtlIsCalm(w, ttl);
    CalmTogether(", ", Ttl(w, ttl));
    CalmTogether(", " + Ttl(w, ttl), ")");
    CalmTogether(", " + Ttl(w, ttl) + ")", w.onConflict);
    if tenant.Some? {
      ThenText(tail);
      ThenComma(tenant.value, tail, []);
      assert [tenant.value] + [] == [tenant.value];
    } else {
      CalmTogether(", NULL", tail);
      ThenText(", NULL" + tail);
    }
  }

  lemma RestSays(w: Wording, r: Saved, ttl: Option<real>, owner: seq<string>)
    requires '\0' !in r.schemaDigest && '\0' !in r.glossaryDigest && '\0' !in r.plannerVersion
    requires Continues(SaveOwner(w, r.tenant, ttl), owner)
    ensures Continues(SaveRest(w, r, ttl), [r.schemaDigest] + ([r.glossaryDigest] + ([r.plannerVersion] + owner)))
  {
    var planner := Comma(r.plannerVersion, SaveOwner(w, r.tenant, ttl));
    ThenComma(r.plannerVersion, SaveOwner(w, r.tenant, ttl), owner);
    ThenComma(r.glossaryDigest, planner, [r.plannerVersion] + owner);
    MiddleIsClean(r.rowLimit);
    ThenLiteral(SaveMiddle(r.rowLimit), r.schemaDigest, Comma(r.glossaryDigest, planner),
                [r.glossaryDigest] + ([r.plannerVersion] + owner));
  }

  lemma ValuesSay(w: Wording, r: Saved, ttl: Option<real>, rest: seq<string>)
    requires '\0' !in r.question && '\0' !in r.sql && '\0' !in r.chart && '\0' !in r.tables
    requires Continues(SaveRest(w, r, ttl), rest)
    ensures Continues(SaveValues(w, r, ttl), [r.question] + ([r.sql] + ([r.chart] + ([r.tables] + rest))))
  {
    var tables := "::jsonb, " + (Lit(r.tables) + SaveRest(w, r, ttl));
    CalmLeads("::jsonb, ", Literal(r.tables));
    ThenLiteral("::jsonb, ", r.tables, SaveRest(w, r, ttl), rest);
    ThreeCommas(r.question, r.sql, r.chart, tables, [r.tables] + rest);
  }

  lemma ThreeCommas(a: string, b: string, c: string, rest: string, literals: seq<string>)
    requires '\0' !in a && '\0' !in b && '\0' !in c && Continues(rest, literals)
    ensures Continues(Comma(a, Comma(b, Comma(c, rest))), [a] + ([b] + ([c] + literals)))
  {
    ThenComma(c, rest, literals);
    ThenComma(b, Comma(c, rest), [c] + literals);
    ThenComma(a, Comma(b, Comma(c, rest)), [b] + ([c] + literals));
  }

  lemma FieldsAreNulFree(r: Saved)
    requires forall p | p in r.Payloads() :: '\0' !in p
    ensures '\0' !in r.key && '\0' !in r.question && '\0' !in r.sql && '\0' !in r.chart && '\0' !in r.tables
    ensures '\0' !in r.schemaDigest && '\0' !in r.glossaryDigest && '\0' !in r.plannerVersion
    ensures r.tenant.Some? ==> '\0' !in r.tenant.value
  {
    var all := r.Payloads();
    assert all[0] == r.key && all[1] == r.question && all[2] == r.sql && all[3] == r.chart && all[4] == r.tables;
    assert all[5] == r.schemaDigest && all[6] == r.glossaryDigest && all[7] == r.plannerVersion;
    assert r.tenant.Some? ==> all[8] == r.tenant.value;
  }

  /** Whatever a saved row says, saving it is one command, and what is stored is what was said. */
  lemma SaveSays(w: Wording, schema: string, r: Saved, ttl: Option<real>)
    requires CalmWording(w) && IsIdent(schema)
    ensures SaveSql(w, schema, r, ttl).Some? ==> StoreStatement(SaveSql(w, schema, r, ttl).value, schema, r.Payloads())
  {
    if SaveSql(w, schema, r, ttl).Some? {
      var owner := if r.tenant.Some? then [r.tenant.value] else [];
      FieldsAreNulFree(r);
      PayloadsAre(r);
      OwnerSays(w, r.tenant, ttl);
      RestSays(w, r, ttl, owner);
      var rest := [r.schemaDigest] + ([r.glossaryDigest] + ([r.plannerVersion] + owner));
      ValuesSay(w, r, ttl, rest);
      RowSays(w, schema, r, ttl, [r.question] + ([r.sql] + ([r.chart] + ([r.tables] + rest))));
    }
  }

  lemma PayloadsAre(r: Saved)
    ensures var owner := if r.tenant.Some? then [r.tenant.value] else [];
            var rest := [r.schemaDigest] + ([r.glossaryDigest] + ([r.plannerVersion] + owner));
            r.Payloads() == [r.key] + ([r.question] + ([r.sql] + ([r.chart] + ([r.tables] + rest))))
  {
  }

  lemma RowSays(w: Wording, schema: string, r: Saved, ttl: Option<real>, more: seq<string>)
    requires CalmWording(w) && IsIdent(schema) && '\0' !in r.key && Continues(SaveValues(w, r, ttl), more)
    ensures var values := w.columns + "\nVALUES (" + (Lit(r.key) + SaveValues(w, r, ttl));
            StoreStatement("INSERT INTO " + OnTable(schema, values), schema, [r.key] + more)
  {
    FrontLeads(w, r.key);
    InsertSays(schema, w.columns + "\nVALUES (", r.key, SaveValues(w, r, ttl), more);
  }

  lemma InsertSays(schema: string, front: string, key: string, rest: string, more: seq<string>)
    requires IsIdent(schema) && Leads(front, Literal(key)) && Continues(rest, more)
    ensures StoreStatement("INSERT INTO " + OnTable(schema, front + (Lit(key) + rest)), schema, [key] + more)
  {
    ThenLiteral(front, key, rest, more);
    IdentIsPlain(schema);
    CalmLeads("INSERT INTO ", Name(schema));
    SaysOnTable("INSERT INTO ", schema, front + (Lit(key) + rest), [key] + more);
  }

  lemma FrontLeads(w: Wording, key: string)
    requires CalmWording(w) && '\0' !in key
    ensures Leads(w.columns + "\nVALUES (", Literal(key))
  {
    var front := w.columns + "\nVALUES (";
    CalmTogether(w.columns, "\nVALUES (");
    assert front[|front| - 1] == "\nVALUES ("[8];
    CalmLeads(front, Literal(key));
  }

  // ---- the transaction of one statement ----

  /** A statement of the preamble. */
  ghost predicate Sets(text: string) {
    "SET LOCAL " <= text && '\0' !in text && OneCommand(text)
  }

  lemma SetIsCalm(name: string, word: string)
    requires Calm(name) && Calm(word)
    ensures var text := "SET LOCAL " + name + " = " + word; Calm(text) && "SET LOCAL " <= text
  {
    CalmTogether("SET LOCAL ", name);
    CalmTogether("SET LOCAL " + name, " = ");
    CalmTogether("SET LOCAL " + name + " = ", word);
  }

  lemma SetsWord(name: string, word: string)
    requires Calm(name) && Calm(word)
    ensures Sets(Set(name, word, ""))
  {
    var text := "SET LOCAL " + name + " = " + word;
    SetIsCalm(name, word);
    CalmIsClean(text);
    JustText(text);
    assert text + "" == text;
  }

  lemma SetsQuoted(name: string, word: string, p: Piece)
    requires Calm(name) && Calm(word) && (word != "" ==> word[|word| - 1] == ' ')
    requires !p.Plain? && '\0' !in p.body
    ensures Sets(Set(name, word, WriteOne(p)))
  {
    var text := "SET LOCAL " + name + " = " + word;
    SetIsCalm(name, word);
    SpaceAtEnd("SET LOCAL " + name, word, text);
    QuotedAtEnd(text, p);
  }

  lemma SpaceAtEnd(before: string, word: string, text: string)
    requires text == before + " = " + word && (word != "" ==> word[|word| - 1] == ' ')
    ensures text[|text| - 1] == ' '
  {
    if word == "" { assert text == before + " = "; }
  }

  lemma QuotedAtEnd(text: string, p: Piece)
    requires Calm(text) && text != "" && text[|text| - 1] == ' ' && "SET LOCAL " <= text
    requires !p.Plain? && '\0' !in p.body
    ensures Sets(text + WriteOne(p))
  {
    CalmLeads(text, p);
    assert SaysAs("", [], End);
    Before(text, p, "", End, []);
    assert text + (WriteOne(p) + "") == text + WriteOne(p);
  }

  predicate CalmNames(names: SettingNames) {
    && Calm(names.statementTimeout) && Calm(names.lockTimeout) && Calm(names.idleTimeout)
    && Calm(names.rowSecurity) && Calm(names.conformingStrings) && Calm(names.searchPath)
  }

  lemma SetsMillis(name: string, x: real)
    requires Calm(name)
    ensures Sets(Set(name, "", Lit(Millis(x))))
  {
    DecimalIsCalm(AtLeastZero(x.Floor));
    SetsQuoted(name, "", Literal(Millis(x)));
  }

  ghost predicate AllSet(preamble: seq<string>) {
    forall k | 0 <= k < |preamble| :: Sets(preamble[k])
  }

  lemma SixSet(a: string, b: string, c: string, d: string, e: string, f: string)
    requires Sets(a) && Sets(b) && Sets(c) && Sets(d) && Sets(e) && Sets(f)
    ensures AllSet([a, b, c, d, e, f])
  {
  }

  lemma SetsWords(names: SettingNames, schema: string)
    requires CalmNames(names) && IsIdent(schema)
    ensures Sets(Set(names.rowSecurity, "on", "")) && Sets(Set(names.conformingStrings, "on", ""))
    ensures Sets(Set(names.searchPath, "pg_catalog, ", Ident(schema)))
  {
    assert Calm("on");
    SetsWord(names.rowSecurity, "on");
    SetsWord(names.conformingStrings, "on");
    SetsPath(names.searchPath, schema);
  }

  lemma SetsPath(name: string, schema: string)
    requires Calm(name) && IsIdent(schema)
    ensures Sets(Set(name, "pg_catalog, ", Ident(schema)))
  {
    IdentIsPlain(schema);
    SetsQuoted(name, "pg_catalog, ", Name(schema));
  }

  /** Every statement of the preamble is one command. */
  lemma PreambleSets(names: SettingNames, schema: string, statement: real, lock: real, idle: real)
    requires CalmNames(names) && WritePreamble(names, schema, statement, lock, idle).Some?
    ensures AllSet(WritePreamble(names, schema, statement, lock, idle).value)
  {
    SetsMillis(names.statementTimeout, statement);
    SetsMillis(names.lockTimeout, lock);
    SetsMillis(names.idleTimeout, idle);
    SetsWords(names, schema);
    SixSet(Set(names.statementTimeout, "", Lit(Millis(statement))), Set(names.lockTimeout, "", Lit(Millis(lock))),
           Set(names.idleTimeout, "", Lit(Millis(idle))), Set(names.rowSecurity, "on", ""),
           Set(names.conformingStrings, "on", ""), Set(names.searchPath, "pg_catalog, ", Ident(schema)));
  }

  type Cells = seq<seq<Cell>>

  /** The body of every operation of the store: one statement, and its rows. */
  function OneRun(h: Handed): Body<Cells> {
    (answers: seq<Answer>) =>
      if answers == [] then Ask(h) else if answers[0].Rows? then Return(answers[0].rows) else Raise
  }

  function StoreScript(preamble: seq<string>, text: string): seq<string> {
    [BEGIN] + preamble + [text, COMMIT]
  }

  /** The script was sent up to the first statement that failed, and what came back, if none did, are the
      rows of the last but one. */
  ghost predicate Ran(server: Server, script: seq<string>, tried: seq<string>, outcome: Outcome<Cells>) {
    && |script| > 1 && StopsAt(server, script, |tried|) && tried == script[..|tried|]
    && outcome == if !Opened(server, script, |tried|) then Failed
                  else match server(script[..|script| - 1])
                       case Rows(_, rows) => Value(rows)
                       case Threw => Failed
  }

  /** A store operation, whatever its payloads: its statements go out in one order, up to the first that
      fails; its rows come back if and only if none failed, COMMIT included; and COMMIT is the only one of
      them that could have ended the transaction. */
  lemma StoreTransaction(server: Server, preamble: seq<string>, schema: string, text: string, literals: seq<string>,
                         n: int, tried: seq<string>, outcome: Outcome<Cells>)
    requires StoreStatement(text, schema, literals) && AllSet(preamble)
    requires StopsAt(server, [BEGIN] + preamble, n)
    requires Tried(server, [BEGIN] + preamble, OneRun(Composed(text, Ident(schema))), IsStatement, 1, n, tried, outcome)
    ensures Finishes(server, [BEGIN] + preamble, OneRun(Composed(text, Ident(schema))), IsStatement, 1)
    ensures Ran(server, StoreScript(preamble, text), tried, outcome)
    ensures forall k | 1 <= k < |tried| :: Strays(tried[k]) <==> k == |StoreScript(preamble, text)| - 1
  {
    OneRunEnds(server, [BEGIN] + preamble, Composed(text, Ident(schema)));
    OpeningThenTwo(server, [BEGIN] + preamble, Composed(text, Ident(schema)), n, tried, outcome);
    assert [BEGIN] + preamble + [text, COMMIT] == StoreScript(preamble, text);
    OnlyCommitStrays(preamble, schema, text, literals);
  }

  lemma OpeningThenTwo(server: Server, opening: seq<string>, h: Handed, n: int, tried: seq<string>,
                       outcome: Outcome<Cells>)
    requires IsStatement(h) && StopsAt(server, opening, n)
    requires Tried(server, opening, OneRun(h), IsStatement, 1, n, tried, outcome)
    ensures Ran(server, opening + [h.text, COMMIT], tried, outcome)
  {
    var script := opening + [h.text, COMMIT];
    OneRunEnds(server, opening, h);
    Beginnings(opening, h.text, script);
    forall k | 0 <= k < |opening| ensures Answered(server, script, k) == Answered(server, opening, k) {
      assert script[..k + 1] == opening[..k + 1];
    }
    if !Opened(server, opening, n) {
      assert tried == script[..n];
    }
  }

  lemma Beginnings(opening: seq<string>, text: string, script: seq<string>)
    requires script == opening + [text, COMMIT]
    ensures script[..|opening|] == opening && script[..|opening| + 1] == opening + [text]
    ensures script[..|script|] == script == opening + [text] + [COMMIT]
  {
  }

  lemma OneRunEnds(server: Server, opening: seq<string>, h: Handed)
    requires IsStatement(h)
    ensures EndsWithin(server, opening, OneRun(h), [], IsStatement, 1)
    ensures var a := server(opening + [h.text]);
            BodyRuns(server, opening, OneRun(h), [], IsStatement, 1) ==
              (opening + [h.text], if a.Rows? then Return(a.rows) else Raise)
  {
    var a := server(opening + [h.text]);
    assert OneRun(h)([]) == Ask(h);
    assert OneRun(h)([] + [a]) == if a.Rows? then Return(a.rows) else Raise;
  }

  lemma OnlyCommitStrays(preamble: seq<string>, schema: string, text: string, literals: seq<string>)
    requires StoreStatement(text, schema, literals)
    requires AllSet(preamble)
    ensures var script := StoreScript(preamble, text);
            forall k | 1 <= k < |script| :: Strays(script[k]) <==> k == |script| - 1
  {
    CommitStrays();
    TextStaysInside(text, schema, literals);
    forall s | s in preamble ensures !Strays(s) {
      SettingStaysInside(s, schema);
    }
    OnlyLast(preamble, text, Strays);
  }

  lemma OnlyLast(preamble: seq<string>, text: string, strays: string -> bool)
    requires strays(COMMIT) && !strays(text) && forall s | s in preamble :: !strays(s)
    ensures var script := StoreScript(preamble, text);
            forall k | 1 <= k < |script| :: strays(script[k]) <==> k == |script| - 1
  {
    var script := StoreScript(preamble, text);
    assert forall k | 1 <= k < |script| - 2 :: script[k] == preamble[k - 1];
  }

  lemma SettingStaysInside(text: string, schema: string)
    requires Sets(text)
    ensures !Strays(text)
  {
    StatementsLeaveTheTransaction(Composed(text, Ident(schema)));
  }

  lemma TextStaysInside(text: string, schema: string, literals: seq<string>)
    requires StoreStatement(text, schema, literals)
    ensures !Strays(text)
  {
    SaysIsOne(text, literals);
    StatementsLeaveTheTransaction(Composed(text, Ident(schema)));
  }

  lemma SaysIsOne(text: string, literals: seq<string>)
    requires Says(text, literals)
    ensures OneCommand(text)
  {
    var x :| SaysAs(text, literals, x);
    assert Plainly(text, x);
  }
}
