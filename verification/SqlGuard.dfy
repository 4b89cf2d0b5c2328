/** packages/sql-guard/src/guard.ts and rowcap.ts: the guard. */
module SqlGuard {
  import opened Schema
  import opened SqlTypes

  // A parsed statement is walked against allowlists, a row cap is written into it, and what is emitted
  // is parsed and walked again. The parser and the deparser are foreign and are arbitrary functions here.

  // ---- parsed trees ----

  /** A JavaScript value as the parser hands it over. Undefined is an absent property. */
  datatype Node =
    | Undefined
    | Null
    | Bool(b: bool)
    | Num(n: real)
    | Str(s: string)
    | Arr(items: seq<Node>)
    | Obj(fields: seq<Field>)

  datatype Field = Field(key: string, value: Node)

  /** One statement: its tree, and whatever else the parser records beside it. */
  datatype Statement = Statement(stmt: Node, rest: seq<Field>)

  datatype Parsed = Parsed(stmts: seq<Statement>, rest: seq<Field>)

  datatype Foreign = Foreign(
    parse: string -> Result<Parsed, string>,
    deparse: Parsed -> Result<string, string>,
    blank: string -> bool,
    toNumber: Node -> Option<real>)

  function GetFrom(fields: seq<Field>, key: string): Node {
    if fields == [] then Undefined
    else if fields[0].key == key then fields[0].value
    else GetFrom(fields[1..], key)
  }

  function Get(n: Node, key: string): Node {
    if n.Obj? then GetFrom(n.fields, key) else Undefined
  }

  /** Assigning a property keeps its place when it exists and appends it otherwise. */
  function SetIn(fields: seq<Field>, key: string, value: Node): seq<Field> {
    if fields == [] then [Field(key, value)]
    else if fields[0].key == key then [Field(key, value)] + fields[1..]
    else [fields[0]] + SetIn(fields[1..], key, value)
  }

  predicate IsTag(key: string) {
    key != [] && 'A' <= key[0] <= 'Z'
  }

  // ---- the walk, as a list of checks ----

  /** The checks a tree calls for, in the order the walk reaches them. */
  datatype Site = Depth(depth: int) | Tag(key: string, body: Node) | FieldOf(tag: string, key: string)

  function Sites(n: Node, tag: Option<string>, depth: int): seq<Site>
    decreases n
  {
    [Depth(depth)] +
    match n
    case Arr(items) => ItemSites(items, tag, depth)
    case Obj(fields) => FieldSites(fields, tag, depth)
    case _ => []
  }

  function ItemSites(items: seq<Node>, tag: Option<string>, depth: int): seq<Site>
    decreases items
  {
    if items == [] then [] else Sites(items[0], tag, depth + 1) + ItemSites(items[1..], tag, depth)
  }

  function FieldSites(fields: seq<Field>, tag: Option<string>, depth: int): seq<Site>
    decreases fields
  {
    if fields == [] then [] else OneField(fields[0], tag, depth) + FieldSites(fields[1..], tag, depth)
  }

  function OneField(f: Field, tag: Option<string>, depth: int): seq<Site>
    decreases f
  {
    if IsTag(f.key) then [Tag(f.key, f.value)] + Sites(f.value, Some(f.key), depth + 1)
    else (if tag.Some? then [FieldOf(tag.value, f.key)] else []) + Sites(f.value, tag, depth + 1)
  }

  // ---- what each check says ----

  function NameParts(n: Node): seq<string> {
    if n.Arr? then seq(|n.items|, i requires 0 <= i < |n.items| => NamePart(n.items[i])) else []
  }

  function NamePart(n: Node): string {
    match Get(Get(n, "String"), "sval")
    case Str(s) => s
    case _ => "?"
  }

  /** One or two parts, an allowed schema if there is one, and an allowed name. */
  predicate FunctionAllowed(body: Node, lists: Allowlists) {
    var parts := NameParts(Get(body, "funcname"));
    && 1 <= |parts| <= 2
    && (|parts| == 2 ==> parts[0] in lists.functionSchemas)
    && lists.lower(parts[|parts| - 1]) in lists.functions
  }

  function Fault(site: Site, lists: Allowlists, maxDepth: int): Option<DenyCode> {
    match site
    case Depth(d) => if d > maxDepth then Some(EDepthExceeded) else None
    case Tag(key, body) =>
      if key !in lists.tags then Some(ENodeNotAllowed)
      else if key == "FuncCall" && !FunctionAllowed(body, lists) then Some(EFunctionNotAllowed)
      else None
    case FieldOf(tag, key) =>
      if tag !in lists.fields || key !in lists.fields[tag] then Some(EFieldNotAllowed) else None
  }

  function TextOf(n: Node): Option<string> {
    if n.Str? then Some(n.s) else None
  }

  function TablesAt(site: Site): seq<TableRef> {
    if site.Tag? && site.key == "RangeVar"
    then [TableRef(TextOf(Get(site.body, "schemaname")), TextOf(Get(site.body, "relname")).GetOr(""))] else []
  }

  function CteNamesAt(site: Site): set<string> {
    if site.Tag? && site.key == "CommonTableExpr" && Get(site.body, "ctename").Str?
    then {Get(site.body, "ctename").s} else {}
  }

  function Collected(at: Site -> seq<TableRef>, sites: seq<Site>): seq<TableRef> {
    if sites == [] then [] else at(sites[0]) + Collected(at, sites[1..])
  }

  function United(at: Site -> set<string>, sites: seq<Site>): set<string> {
    if sites == [] then {} else at(sites[0]) + United(at, sites[1..])
  }

  /** The tables a list of sites names, in order. */
  function Tables(sites: seq<Site>): seq<TableRef> {
    Collected(TablesAt, sites)
  }

  function CteNames(sites: seq<Site>): set<string> {
    United(CteNamesAt, sites)
  }

  /** The first fault along the sites, if any. */
  function FirstFault(sites: seq<Site>, lists: Allowlists, maxDepth: int): Option<DenyCode> {
    if sites == [] then None
    else
      var f := Fault(sites[0], lists, maxDepth);
      if f.Some? then f else FirstFault(sites[1..], lists, maxDepth)
  }

  ghost predicate AllPass(sites: seq<Site>, lists: Allowlists, maxDepth: int) {
    forall i | 0 <= i < |sites| :: Fault(sites[i], lists, maxDepth).None?
  }

  lemma {:induction false} FirstFaultNone(sites: seq<Site>, lists: Allowlists, maxDepth: int)
    ensures FirstFault(sites, lists, maxDepth).None? <==> AllPass(sites, lists, maxDepth)
  {
    if sites != [] {
      FirstFaultNone(sites[1..], lists, maxDepth);
      assert forall i | 0 <= i < |sites[1..]| :: sites[1..][i] == sites[i + 1];
      assert forall i | 1 <= i < |sites| :: sites[i] == sites[1..][i - 1];
    }
  }

  // ---- the walk itself ----

  datatype ScanState = ScanState(tables: seq<TableRef>, cteNames: set<string>, denial: Option<DenyCode>)

  /** One check made with the scan as it stands; nothing is looked at once there is a denial. */
  function Visit(s: ScanState, site: Site, lists: Allowlists, maxDepth: int): ScanState {
    if s.denial.Some? then s
    else
      match Fault(site, lists, maxDepth)
      case Some(code) => s.(denial := Some(code))
      case None => s.(tables := s.tables + TablesAt(site), cteNames := s.cteNames + CteNamesAt(site))
  }

  function VisitAll(s: ScanState, sites: seq<Site>, lists: Allowlists, maxDepth: int): ScanState
    decreases sites
  {
    if sites == [] then s else VisitAll(Visit(s, sites[0], lists, maxDepth), sites[1..], lists, maxDepth)
  }

  lemma {:induction false} VisitAllConcat(s: ScanState, a: seq<Site>, b: seq<Site>, lists: Allowlists, maxDepth: int)
    ensures VisitAll(s, a + b, lists, maxDepth) == VisitAll(VisitAll(s, a, lists, maxDepth), b, lists, maxDepth)
    decreases a
  {
    if a == [] {
      assert a + b == b;
    } else {
      VisitAllConcat(Visit(s, a[0], lists, maxDepth), a[1..], b, lists, maxDepth);
      assert (a + b)[1..] == a[1..] + b;
    }
  }

  lemma {:induction false} VisitDenied(s: ScanState, sites: seq<Site>, lists: Allowlists, maxDepth: int)
    requires s.denial.Some?
    ensures VisitAll(s, sites, lists, maxDepth) == s
  {
    if sites != [] { VisitDenied(s, sites[1..], lists, maxDepth); }
  }

  /** A walk reports the first fault in tree order and nothing else; without one, its tables are exactly
      the RangeVars in tree order and its names exactly the ctenames. */
  lemma {:induction false} VisitAllMeaning(s: ScanState, sites: seq<Site>, lists: Allowlists, maxDepth: int)
    requires s.denial.None?
    ensures var t := VisitAll(s, sites, lists, maxDepth);
            && t.denial == FirstFault(sites, lists, maxDepth)
            && (t.denial.None? <==> AllPass(sites, lists, maxDepth))
            && (t.denial.None? ==> t.tables == s.tables + Tables(sites) && t.cteNames == s.cteNames + CteNames(sites))
    decreases sites
  {
    FirstFaultNone(sites, lists, maxDepth);
    if sites != [] {
      var u := Visit(s, sites[0], lists, maxDepth);
      if u.denial.Some? {
        VisitDenied(u, sites[1..], lists, maxDepth);
      } else {
        VisitAllMeaning(u, sites[1..], lists, maxDepth);
        assert TablesAt(sites[0]) + Tables(sites[1..]) == Tables(sites);
        assert CteNamesAt(sites[0]) + CteNames(sites[1..]) == CteNames(sites);
      }
    }
  }

  class Scan {
    const lists: Allowlists
    const maxDepth: int
    var tables: seq<TableRef>
    var cteNames: set<string>
    var denial: Option<DenyCode>

    ghost function Model(): ScanState
      reads this
    {
      ScanState(tables, cteNames, denial)
    }

    constructor (lists: Allowlists, maxDepth: int)
      ensures this.lists == lists && this.maxDepth == maxDepth
      ensures Model() == ScanState([], {}, None)
    {
      this.lists, this.maxDepth := lists, maxDepth;
      tables, cteNames, denial := [], {}, None;
    }

    method CheckFunction(body: Node)
      modifies this`denial
      ensures denial == if FunctionAllowed(body, lists) then old(denial) else Some(EFunctionNotAllowed)
    {
      var parts := NameParts(Get(body, "funcname"));
      if |parts| == 0 || |parts| > 2 { denial := Some(EFunctionNotAllowed); return; }
      if |parts| == 2 && parts[0] !in lists.functionSchemas { denial := Some(EFunctionNotAllowed); return; }
      if lists.lower(parts[|parts| - 1]) !in lists.functions { denial := Some(EFunctionNotAllowed); }
    }

    method Walk(n: Node, tag: Option<string>, depth: int)
      modifies this
      ensures Model() == VisitAll(old(Model()), Sites(n, tag, depth), lists, maxDepth)
      decreases n
    {
      VisitAllConcat(Model(), [Depth(depth)], Sites(n, tag, depth)[1..], lists, maxDepth);
      assert Sites(n, tag, depth) == [Depth(depth)] + Sites(n, tag, depth)[1..];
      if denial.Some? { VisitDenied(Model(), Sites(n, tag, depth), lists, maxDepth); return; }
      if depth > maxDepth {
        denial := Some(EDepthExceeded);
        VisitDenied(Model(), Sites(n, tag, depth)[1..], lists, maxDepth);
        return;
      }
      assert TablesAt(Depth(depth)) == [] && CteNamesAt(Depth(depth)) == {};
      assert Model() == Visit(old(Model()), Depth(depth), lists, maxDepth);
      match n
      case Arr(items) => WalkItems(items, tag, depth);
      case Obj(fields) => WalkFields(fields, tag, depth);
      case _ =>
    }

    method WalkItems(items: seq<Node>, tag: Option<string>, depth: int)
      modifies this
      ensures Model() == VisitAll(old(Model()), ItemSites(items, tag, depth), lists, maxDepth)
      decreases items
    {
      for i := 0 to |items|
        invariant VisitAll(Model(), ItemSites(items[i..], tag, depth), lists, maxDepth) ==
                  VisitAll(old(Model()), ItemSites(items, tag, depth), lists, maxDepth)
      {
        VisitAllConcat(Model(), Sites(items[i], tag, depth + 1), ItemSites(items[i + 1..], tag, depth), lists,
                       maxDepth);
        assert items[i..][1..] == items[i + 1..];
        Walk(items[i], tag, depth + 1);
      }
    }

    /** The body of the loop over a node's entries. */
    method WalkField(f: Field, tag: Option<string>, depth: int)
      modifies this
      ensures Model() == VisitAll(old(Model()), OneField(f, tag, depth), lists, maxDepth)
      decreases f
    {
      if denial.Some? { VisitDenied(Model(), OneField(f, tag, depth), lists, maxDepth); return; }
      if IsTag(f.key) {
        var site := Tag(f.key, f.value);
        VisitAllConcat(Model(), [site], Sites(f.value, Some(f.key), depth + 1), lists, maxDepth);
        if f.key !in lists.tags {
          denial := Some(ENodeNotAllowed);
          VisitDenied(Model(), Sites(f.value, Some(f.key), depth + 1), lists, maxDepth);
          return;
        }
        if f.key == "FuncCall" { CheckFunction(f.value); }
        var ctename := Get(f.value, "ctename");
        if f.key == "CommonTableExpr" && ctename.Str? { cteNames := cteNames + {ctename.s}; }
        if f.key == "RangeVar" {
          tables := tables + [TableRef(TextOf(Get(f.value, "schemaname")), TextOf(Get(f.value, "relname")).GetOr(""))];
        }
        TagVisit(old(Model()), Model(), site);
        Walk(f.value, Some(f.key), depth + 1);
        return;
      }
      if tag.Some? {
        VisitAllConcat(Model(), [FieldOf(tag.value, f.key)], Sites(f.value, tag, depth + 1), lists, maxDepth);
        if tag.value !in lists.fields || f.key !in lists.fields[tag.value] {
          denial := Some(EFieldNotAllowed);
          VisitDenied(Model(), Sites(f.value, tag, depth + 1), lists, maxDepth);
          return;
        }
        assert TablesAt(FieldOf(tag.value, f.key)) == [] && CteNamesAt(FieldOf(tag.value, f.key)) == {};
        assert Visit(Model(), FieldOf(tag.value, f.key), lists, maxDepth) == Model();
      } else {
        assert [] + Sites(f.value, tag, depth + 1) == Sites(f.value, tag, depth + 1);
      }
      Walk(f.value, tag, depth + 1);
    }

    lemma TagVisit(s: ScanState, t: ScanState, site: Site)
      requires s.denial.None? && site.Tag? && site.key in lists.tags
      requires t.denial == if site.key == "FuncCall" && !FunctionAllowed(site.body, lists)
                 then Some(EFunctionNotAllowed) else None
      requires t.tables == s.tables + TablesAt(site) && t.cteNames == s.cteNames + CteNamesAt(site)
      ensures t == Visit(s, site, lists, maxDepth)
    {
    }

    method WalkFields(fields: seq<Field>, tag: Option<string>, depth: int)
      modifies this
      ensures Model() == VisitAll(old(Model()), FieldSites(fields, tag, depth), lists, maxDepth)
      decreases fields
    {
      for i := 0 to |fields|
        invariant VisitAll(Model(), FieldSites(fields[i..], tag, depth), lists, maxDepth) ==
                  VisitAll(old(Model()), FieldSites(fields, tag, depth), lists, maxDepth)
      {
        VisitAllConcat(Model(), OneField(fields[i], tag, depth), FieldSites(fields[i + 1..], tag, depth), lists,
                       maxDepth);
        assert fields[i..][1..] == fields[i + 1..];
        WalkField(fields[i], tag, depth);
      }
    }
  }

  // ---- the policy ----

  predicate TablePasses(t: TableRef, cteNames: set<string>, policy: Policy) {
    (t.schema.None? && t.name in cteNames)
    || (&& (policy.allowedSchemas.Some? ==> t.schema.GetOr("public") in policy.allowedSchemas.value)
        && (policy.allowedTables.Some? ==>
              t.schema.GetOr("public") + "." + t.name in policy.allowedTables.value
                  || t.name in policy.allowedTables.value))
  }

  ghost predicate PolicyPasses(tables: seq<TableRef>, cteNames: set<string>, policy: Policy) {
    forall i | 0 <= i < |tables| :: TablePasses(tables[i], cteNames, policy)
  }

  method ApplyPolicy(tables: seq<TableRef>, cteNames: set<string>, policy: Policy) returns (denial: Option<DenyCode>)
    ensures denial.None? <==> PolicyPasses(tables, cteNames, policy)
    ensures denial == PolicyFault(tables, cteNames, policy)
  {
    for i := 0 to |tables|
      invariant forall j | 0 <= j < i :: TablePasses(tables[j], cteNames, policy)
      invariant PolicyFault(tables, cteNames, policy) == PolicyFault(tables[i..], cteNames, policy)
    {
      var t := tables[i];
      assert tables[i..][1..] == tables[i + 1..];
      if t.schema.None? && t.name in cteNames { continue; }
      var schema := t.schema.GetOr("public");
      if policy.allowedSchemas.Some? && schema !in policy.allowedSchemas.value { return Some(ESchemaNotAllowed); }
      if policy.allowedTables.Some? {
        if schema + "." + t.name !in policy.allowedTables.value && t.name !in policy.allowedTables.value {
          return Some(ETableNotAllowed);
        }
      }
    }
    return None;
  }

  function PolicyFault(tables: seq<TableRef>, cteNames: set<string>, policy: Policy): Option<DenyCode> {
    if tables == [] then None
    else if TablePasses(tables[0], cteNames, policy) then PolicyFault(tables[1..], cteNames, policy)
    else if policy.allowedSchemas.Some? && tables[0].schema.GetOr("public") !in policy.allowedSchemas.value
        then Some(ESchemaNotAllowed)
    else Some(ETableNotAllowed)
  }

  lemma {:induction false} PolicyFaultNone(tables: seq<TableRef>, cteNames: set<string>, policy: Policy)
    ensures PolicyFault(tables, cteNames, policy).None? <==> PolicyPasses(tables, cteNames, policy)
  {
    if tables != [] {
      PolicyFaultNone(tables[1..], cteNames, policy);
      assert forall i | 1 <= i < |tables| :: tables[i] == tables[1..][i - 1];
      assert forall i | 0 <= i < |tables[1..]| :: tables[1..][i] == tables[i + 1];
    }
  }

  // ---- inspection ----

  const DEFAULT_MAX_DEPTH := 100

  function DepthLimit(policy: Policy): int {
    policy.maxDepth.GetOr(DEFAULT_MAX_DEPTH)
  }

  datatype Inspection = Fine(tables: seq<TableRef>, tree: Parsed) | Refused(code: DenyCode)

  /** A parsed statement that is one SELECT: an object whose only property is SelectStmt. */
  predicate IsSelect(root: Node) {
    root.Obj? && |root.fields| == 1 && root.fields[0].key == "SelectStmt"
  }

  function InspectTree(p: Parsed, policy: Policy, lists: Allowlists): Inspection {
    if |p.stmts| == 0 then Refused(EEmpty)
    else if |p.stmts| > 1 then Refused(EMultiStatement)
    else
      var root := p.stmts[0].stmt;
      if !root.Obj? && !root.Arr? then Refused(EParse)
      else if !IsSelect(root) then Refused(ENotSelect)
      else
        var sites := Sites(root, None, 0);
        match FirstFault(sites, lists, DepthLimit(policy))
        case Some(code) => Refused(code)
        case None =>
          match PolicyFault(Tables(sites), CteNames(sites), policy)
          case Some(code) => Refused(code)
          case None => Fine(Tables(sites), p)
  }

  function InspectSql(sql: string, policy: Policy, lists: Allowlists, f: Foreign): Inspection {
    if f.blank(sql) then Refused(EEmpty)
    else if '\0' in sql then Refused(ENulByte)
    else
      match f.parse(sql)
      case Err(_) => Refused(EParse)
      case Ok(p) => InspectTree(p, policy, lists)
  }

  method Inspect(sql: string, policy: Policy, lists: Allowlists, f: Foreign) returns (r: Inspection)
    ensures r == InspectSql(sql, policy, lists, f)
  {
    if f.blank(sql) { return Refused(EEmpty); }
    if '\0' in sql { return Refused(ENulByte); }
    var parsed := f.parse(sql);
    if parsed.Err? { return Refused(EParse); }
    var p := parsed.value;
    if |p.stmts| == 0 { return Refused(EEmpty); }
    if |p.stmts| > 1 { return Refused(EMultiStatement); }
    var root := p.stmts[0].stmt;
    if !root.Obj? && !root.Arr? { return Refused(EParse); }
    if !IsSelect(root) { return Refused(ENotSelect); }
    var scan := new Scan(lists, DepthLimit(policy));
    VisitAllMeaning(ScanState([], {}, None), Sites(root, None, 0), lists, DepthLimit(policy));
    scan.Walk(root, None, 0);
    if scan.denial.Some? { return Refused(scan.denial.value); }
    assert scan.tables == Tables(Sites(root, None, 0)) && scan.cteNames == CteNames(Sites(root, None, 0));
    var denial := ApplyPolicy(scan.tables, scan.cteNames, policy);
    if denial.Some? { return Refused(denial.value); }
    return Fine(scan.tables, p);
  }

  /** A tree passes inspection exactly when it is one SELECT all of whose checks pass and whose tables the
      policy allows. */
  lemma InspectionMeans(p: Parsed, policy: Policy, lists: Allowlists)
    ensures InspectTree(p, policy, lists).Fine? <==>
            && |p.stmts| == 1 && IsSelect(p.stmts[0].stmt)
            && var sites := Sites(p.stmts[0].stmt, None, 0);
               AllPass(sites, lists, DepthLimit(policy)) && PolicyPasses(Tables(sites), CteNames(sites), policy)
  {
    if |p.stmts| == 1 && IsSelect(p.stmts[0].stmt) {
      var sites := Sites(p.stmts[0].stmt, None, 0);
      FirstFaultNone(sites, lists, DepthLimit(policy));
      PolicyFaultNone(Tables(sites), CteNames(sites), policy);
    }
  }

  // ---- the row cap ----

  /** Unreadable stands for the property access that throws. */
  datatype LimitReading = NoLimit | Static(value: real) | Dynamic | Unreadable

  function ReadLimit(n: Node, toNumber: Node -> Option<real>): LimitReading {
    if n.Undefined? || n.Null? then NoLimit
    else if !n.Obj? && !n.Arr? then Dynamic
    else
      var konst := Get(n, "A_Const");
      if konst.Undefined? then Dynamic
      else if konst.Null? then Unreadable
      else if Get(konst, "isnull") == Bool(true) then NoLimit
      else
        var ival := Get(konst, "ival");
        if ival.Null? then Unreadable
        else if ival.Obj? || ival.Arr? then
          match Get(ival, "ival")
          case Undefined => Static(0.0)
          case Null => Static(0.0)
          case Num(v) => Static(v)
          case _ => Dynamic
        else
          var fval := Get(Get(konst, "fval"), "fval");
          if fval.Undefined? then Dynamic
          else match toNumber(fval) case Some(v) => Static(v) case None => Dynamic
  }

  datatype CapOutcome = Capped(limit: real, clamped: bool) | CapDenied(code: DenyCode)

  function CapOf(select: seq<Field>, maxRows: real, toNumber: Node -> Option<real>): CapOutcome {
    if maxRows.Floor as real != maxRows || maxRows < 1.0 then CapDenied(EInternal)
    else if GetFrom(select, "limitOption") == Str("LIMIT_OPTION_WITH_TIES") then CapDenied(ELimitNotEnforceable)
    else
      match ReadLimit(GetFrom(select, "limitCount"), toNumber)
      case Dynamic => CapDenied(ELimitNotStatic)
      case Unreadable => CapDenied(EInternal)
      case NoLimit => Capped(maxRows, true)
      case Static(v) => if v <= maxRows then Capped(v, false) else Capped(maxRows, true)
  }

  function LimitNode(maxRows: real): Node {
    Obj([Field("A_Const", Obj([Field("ival", Obj([Field("ival", Num(maxRows))]))]))])
  }

  function Clamp(select: seq<Field>, maxRows: real): seq<Field> {
    SetIn(SetIn(select, "limitOption", Str("LIMIT_OPTION_COUNT")), "limitCount", LimitNode(maxRows))
  }

  function AfterCap(select: seq<Field>, maxRows: real, o: CapOutcome): seq<Field> {
    if o.Capped? && o.clamped then Clamp(select, maxRows) else select
  }

  class SelectNode {
    var fields: seq<Field>

    constructor (fields: seq<Field>)
      ensures this.fields == fields
    {
      this.fields := fields;
    }

    method ApplyRowCap(maxRows: real, toNumber: Node -> Option<real>) returns (o: CapOutcome)
      modifies this
      ensures o == CapOf(old(fields), maxRows, toNumber)
      ensures fields == AfterCap(old(fields), maxRows, o)
    {
      if maxRows.Floor as real != maxRows || maxRows < 1.0 { return CapDenied(EInternal); }
      if GetFrom(fields, "limitOption") == Str("LIMIT_OPTION_WITH_TIES") { return CapDenied(ELimitNotEnforceable); }
      var existing := ReadLimit(GetFrom(fields, "limitCount"), toNumber);
      if existing.Dynamic? { return CapDenied(ELimitNotStatic); }
      if existing.Unreadable? { return CapDenied(EInternal); }
      if existing.Static? && existing.value <= maxRows { return Capped(existing.value, false); }
      fields := SetIn(fields, "limitOption", Str("LIMIT_OPTION_COUNT"));
      fields := SetIn(fields, "limitCount", LimitNode(maxRows));
      return Capped(maxRows, true);
    }
  }

  lemma {:induction false} SetThenGet(fields: seq<Field>, key: string, value: Node, other: string)
    ensures GetFrom(SetIn(fields, key, value), other) == if other == key then value else GetFrom(fields, other)
  {
    if fields != [] {
      SetThenGet(fields[1..], key, value, other);
      assert ([Field(key, value)] + fields[1..])[1..] == fields[1..];
      assert ([fields[0]] + SetIn(fields[1..], key, value))[1..] == SetIn(fields[1..], key, value);
    }
  }

  lemma LimitNodeReads(maxRows: real, toNumber: Node -> Option<real>)
    ensures ReadLimit(LimitNode(maxRows), toNumber) == Static(maxRows)
  {
    var inner := Obj([Field("ival", Num(maxRows))]);
    assert Get(inner, "ival") == Num(maxRows);
    var konst := Obj([Field("ival", inner)]);
    assert Get(konst, "ival") == inner;
    assert "ival" != "isnull" by { assert |"ival"| != |"isnull"|; }
    assert GetFrom([], "isnull") == Undefined && konst.fields[1..] == [];
    assert GetFrom(konst.fields, "isnull") == GetFrom(konst.fields[1..], "isnull");
    assert Get(LimitNode(maxRows), "A_Const") == konst;
  }

  /** Whatever the cap leaves in the tree reads back as a literal limit of at most maxRows, namely the
      one it reports; and a capped tree is not clamped a second time. */
  lemma CapIsPresent(select: seq<Field>, maxRows: real, toNumber: Node -> Option<real>)
    requires CapOf(select, maxRows, toNumber).Capped?
    ensures var o := CapOf(select, maxRows, toNumber);
            var t := AfterCap(select, maxRows, o);
            && o.limit <= maxRows
            && ReadLimit(GetFrom(t, "limitCount"), toNumber) == Static(o.limit)
            && CapOf(t, maxRows, toNumber) == Capped(o.limit, false)
  {
    var counted := SetIn(select, "limitOption", Str("LIMIT_OPTION_COUNT"));
    SetThenGet(counted, "limitCount", LimitNode(maxRows), "limitCount");
    SetThenGet(counted, "limitCount", LimitNode(maxRows), "limitOption");
    SetThenGet(select, "limitOption", Str("LIMIT_OPTION_COUNT"), "limitOption");
    LimitNodeReads(maxRows, toNumber);
    assert "limitCount" != "limitOption" by { assert |"limitCount"| != |"limitOption"|; }
    assert "LIMIT_OPTION_COUNT" != "LIMIT_OPTION_WITH_TIES" by {
      assert |"LIMIT_OPTION_COUNT"| != |"LIMIT_OPTION_WITH_TIES"|;
    }
  }

  // ---- the guard ----

  function SelectOf(p: Parsed): Option<seq<Field>> {
    if p.stmts == [] then None
    else match Get(p.stmts[0].stmt, "SelectStmt")
         case Obj(fields) => Some(fields)
         case _ => None
  }

  function WithSelect(p: Parsed, select: seq<Field>): Parsed
    requires p.stmts != []
  {
    p.(stmts := p.stmts[0 := p.stmts[0].(stmt := Obj([Field("SelectStmt", Obj(select))]))])
  }

  /** Deparse, inspect again, and look for the cap in what was emitted. */
  function Emit(tree: Parsed, rowLimit: Option<real>, policy: Policy, lists: Allowlists, f: Foreign): Verdict {
    match f.deparse(tree)
    case Err(_) => Denied(ERoundTripFailed)
    case Ok(emitted) =>
      match InspectSql(emitted, policy, lists, f)
      case Refused(_) => Denied(ERoundTripFailed)
      case Fine(tables, second) =>
        if policy.maxRows.None? then Allowed(emitted, tables, rowLimit)
        else
          var select := SelectOf(second);
          var present := if select.None? then Dynamic else ReadLimit(GetFrom(select.value, "limitCount"), f.toNumber);
          if present.Unreadable? then Denied(EInternal)
          else if !present.Static? || present.value > policy.maxRows.value then Denied(ERoundTripFailed)
          else Allowed(emitted, tables, rowLimit)
  }

  function GuardSql(sql: string, policy: Policy, lists: Allowlists, f: Foreign): Verdict {
    match InspectSql(sql, policy, lists, f)
    case Refused(code) => Denied(code)
    case Fine(_, tree) =>
      if policy.maxRows.None? then Emit(tree, None, policy, lists, f)
      else if SelectOf(tree).None? then Denied(EInternal)
      else
        var select, maxRows := SelectOf(tree).value, policy.maxRows.value;
        match CapOf(select, maxRows, f.toNumber)
        case CapDenied(code) => Denied(code)
        case Capped(limit, clamped) =>
          Emit(if clamped then WithSelect(tree, Clamp(select, maxRows)) else tree, Some(limit), policy, lists, f)
  }

  method GuardWith(sql: string, policy: Policy, lists: Allowlists, f: Foreign) returns (v: Verdict)
    ensures v == GuardSql(sql, policy, lists, f)
  {
    var first := Inspect(sql, policy, lists, f);
    if first.Refused? { return Denied(first.code); }
    var tree := first.tree;
    var rowLimit: Option<real> := None;
    if policy.maxRows.Some? {
      var found := SelectOf(tree);
      if found.None? { return Denied(EInternal); }
      var select := new SelectNode(found.value);
      var capped := select.ApplyRowCap(policy.maxRows.value, f.toNumber);
      if capped.CapDenied? { return Denied(capped.code); }
      rowLimit := Some(capped.limit);
      if capped.clamped { tree := WithSelect(tree, select.fields); }
    }
    var emitted := f.deparse(tree);
    if emitted.Err? { return Denied(ERoundTripFailed); }
    var second := Inspect(emitted.value, policy, lists, f);
    if second.Refused? { return Denied(ERoundTripFailed); }
    if policy.maxRows.Some? {
      var select := SelectOf(second.tree);
      var present := if select.None? then Dynamic else ReadLimit(GetFrom(select.value, "limitCount"), f.toNumber);
      if present.Unreadable? { return Denied(EInternal); }
      if !present.Static? || present.value > policy.maxRows.value { return Denied(ERoundTripFailed); }
    }
    return Allowed(emitted.value, second.tables, rowLimit);
  }

  /** Whatever the parser and the deparser do, an ok verdict speaks about the SQL that will run: it
      parses to one SELECT all of whose checks pass, whose tables are the reported ones and allowed by
      the policy, and which carries a literal limit within the cap. */
  lemma AllowedMeans(sql: string, policy: Policy, lists: Allowlists, f: Foreign)
    requires GuardSql(sql, policy, lists, f).Allowed?
    ensures var v := GuardSql(sql, policy, lists, f);
            && f.parse(v.sql).Ok?
            && var p := f.parse(v.sql).value;
               && |p.stmts| == 1 && IsSelect(p.stmts[0].stmt)
               && var sites := Sites(p.stmts[0].stmt, None, 0);
                  && AllPass(sites, lists, DepthLimit(policy))
                  && v.tables == Tables(sites)
                  && PolicyPasses(v.tables, CteNames(sites), policy)
                  && (policy.maxRows.Some? ==>
                        && SelectOf(p).Some? && v.rowLimit.Some? && v.rowLimit.value <= policy.maxRows.value
                        && var present := ReadLimit(GetFrom(SelectOf(p).value, "limitCount"), f.toNumber);
                           present.Static? && present.value <= policy.maxRows.value)
                  && '\0' !in v.sql && !f.blank(v.sql)
  {
    var v := GuardSql(sql, policy, lists, f);
    InspectionMeans(f.parse(v.sql).value, policy, lists);
  }

  ghost predicate RoundTrips(f: Foreign) {
    forall p :: f.deparse(p).Ok? ==> f.parse(f.deparse(p).value) == Ok(p)
  }

  lemma SelectOfWith(p: Parsed, select: seq<Field>)
    requires p.stmts != []
    ensures SelectOf(WithSelect(p, select)) == Some(select)
  {
    var root := Obj([Field("SelectStmt", Obj(select))]);
    assert Get(root, "SelectStmt") == Obj(select);
  }

  /** When parsing undoes deparsing, guarding what was emitted gives the same verdict again. */
  lemma GuardIsStable(sql: string, policy: Policy, lists: Allowlists, f: Foreign)
    requires RoundTrips(f) && GuardSql(sql, policy, lists, f).Allowed?
    ensures GuardSql(GuardSql(sql, policy, lists, f).sql, policy, lists, f) == GuardSql(sql, policy, lists, f)
  {
    if policy.maxRows.Some? {
      var tree := InspectSql(sql, policy, lists, f).tree;
      var select := SelectOf(tree).value;
      CapIsPresent(select, policy.maxRows.value, f.toNumber);
      if tree.stmts != [] { SelectOfWith(tree, Clamp(select, policy.maxRows.value)); }
    }
  }

  // ---- what the clamp does to the checks ----

  lemma {:induction false} CollectedConcat(at: Site -> seq<TableRef>, a: seq<Site>, b: seq<Site>)
    ensures Collected(at, a + b) == Collected(at, a) + Collected(at, b)
  {
    if a == [] {
      assert a + b == b;
    } else {
      CollectedConcat(at, a[1..], b);
      assert (a + b)[1..] == a[1..] + b;
    }
  }

  lemma {:induction false} UnitedConcat(at: Site -> set<string>, a: seq<Site>, b: seq<Site>)
    ensures United(at, a + b) == United(at, a) + United(at, b)
  {
    if a == [] {
      assert a + b == b;
    } else {
      UnitedConcat(at, a[1..], b);
      assert (a + b)[1..] == a[1..] + b;
    }
  }

  lemma TablesConcat(a: seq<Site>, b: seq<Site>)
    ensures Tables(a + b) == Tables(a) + Tables(b)
    ensures CteNames(a + b) == CteNames(a) + CteNames(b)
  {
    CollectedConcat(TablesAt, a, b);
    UnitedConcat(CteNamesAt, a, b);
  }

  lemma AllPassConcat(a: seq<Site>, b: seq<Site>, lists: Allowlists, maxDepth: int)
    ensures AllPass(a + b, lists, maxDepth) <==> AllPass(a, lists, maxDepth) && AllPass(b, lists, maxDepth)
  {
    assert forall i | 0 <= i < |a| :: (a + b)[i] == a[i];
    assert forall i | 0 <= i < |b| :: (a + b)[|a| + i] == b[i];
  }

  /** The sites of an object's property, which are none when it has no such property. */
  function KeySites(fields: seq<Field>, key: string, tag: Option<string>, depth: int): seq<Site> {
    if fields == [] then []
    else if fields[0].key == key then OneField(fields[0], tag, depth)
    else KeySites(fields[1..], key, tag, depth)
  }

  function Chained(at: Field -> seq<Site>, fields: seq<Field>): seq<Site> {
    if fields == [] then [] else at(fields[0]) + Chained(at, fields[1..])
  }

  function ChainedKey(at: Field -> seq<Site>, fields: seq<Field>, key: string): seq<Site> {
    if fields == [] then [] else if fields[0].key == key then at(fields[0]) else ChainedKey(at, fields[1..], key)
  }

  function OneFieldAt(tag: Option<string>, depth: int): Field -> seq<Site> {
    f => OneField(f, tag, depth)
  }

  lemma {:induction false} FieldSitesAreChained(fields: seq<Field>, tag: Option<string>, depth: int)
    ensures FieldSites(fields, tag, depth) == Chained(OneFieldAt(tag, depth), fields)
  {
    if fields != [] { FieldSitesAreChained(fields[1..], tag, depth); }
  }

  lemma {:induction false} KeySitesAreChained(fields: seq<Field>, key: string, tag: Option<string>, depth: int)
    ensures KeySites(fields, key, tag, depth) == ChainedKey(OneFieldAt(tag, depth), fields, key)
  {
    if fields != [] { KeySitesAreChained(fields[1..], key, tag, depth); }
  }

  lemma {:induction false} SetReplacesOne(at: Field -> seq<Site>, fields: seq<Field>, key: string, value: Node)
      returns (before: seq<Site>, after: seq<Site>)
    ensures Chained(at, fields) == before + ChainedKey(at, fields, key) + after
    ensures Chained(at, SetIn(fields, key, value)) == before + at(Field(key, value)) + after
  {
    var one := Field(key, value);
    if fields == [] {
      before, after := [], [];
      assert Chained(at, [one]) == at(one) + Chained(at, [one][1..]);
    } else if fields[0].key == key {
      before, after := [], Chained(at, fields[1..]);
      assert ([one] + fields[1..])[1..] == fields[1..];
    } else {
      var b, a := SetReplacesOne(at, fields[1..], key, value);
      var set' := SetIn(fields[1..], key, value);
      before, after := at(fields[0]) + b, a;
      assert ([fields[0]] + set')[1..] == set';
    }
  }

  /** Setting a property replaces its sites and no others. */
  lemma SetReplacesSites(fields: seq<Field>, key: string, value: Node, tag: Option<string>, depth: int)
      returns (before: seq<Site>, after: seq<Site>)
    ensures FieldSites(fields, tag, depth) == before + KeySites(fields, key, tag, depth) + after
    ensures FieldSites(SetIn(fields, key, value), tag, depth) ==
              before + OneField(Field(key, value), tag, depth) + after
  {
    before, after := SetReplacesOne(OneFieldAt(tag, depth), fields, key, value);
    FieldSitesAreChained(fields, tag, depth);
    FieldSitesAreChained(SetIn(fields, key, value), tag, depth);
    KeySitesAreChained(fields, key, tag, depth);
  }

  /** The vocabulary the clamp writes in. */
  ghost predicate KnowsLimits(lists: Allowlists) {
    && "SelectStmt" in lists.fields && "limitOption" in lists.fields["SelectStmt"]
          && "limitCount" in lists.fields["SelectStmt"]
    && "A_Const" in lists.tags && "A_Const" in lists.fields && "ival" in lists.fields["A_Const"]
  }

  lemma SourceListsKnowLimits(lower: string -> string)
    ensures KnowsLimits(SourceLists(lower))
  {
  }

  function OptionSites(): seq<Site> {
    [FieldOf("SelectStmt", "limitOption"), Depth(2)]
  }

  function CountSites(): seq<Site> {
    [FieldOf("SelectStmt", "limitCount"), Depth(2)]
  }

  lemma ClampSites(maxRows: real)
    ensures OneField(Field("limitOption", Str("LIMIT_OPTION_COUNT")), Some("SelectStmt"), 1) == OptionSites()
    ensures OneField(Field("limitCount", LimitNode(maxRows)), Some("SelectStmt"), 1) ==
            CountSites() + [Tag("A_Const", Get(LimitNode(maxRows), "A_Const")), Depth(3), FieldOf("A_Const", "ival"),
                            Depth(4),
                            FieldOf("A_Const", "ival"), Depth(5)]
  {
    var value := Num(maxRows);
    var inner := Obj([Field("ival", value)]);
    var konst := Obj([Field("ival", inner)]);
    assert !IsTag("limitOption") && !IsTag("limitCount") && !IsTag("ival") && IsTag("A_Const");
    assert Get(LimitNode(maxRows), "A_Const") == konst;
    assert FieldSites([], Some("A_Const"), 4) == [] && FieldSites([], Some("A_Const"), 3) == []
        && FieldSites([], Some("SelectStmt"), 2) == [];
    assert OneField(Field("ival", value), Some("A_Const"), 4) == [FieldOf("A_Const", "ival"), Depth(5)];
    assert Sites(inner, Some("A_Const"), 4) == [Depth(4), FieldOf("A_Const", "ival"), Depth(5)] by {
      OneFieldObject(Field("ival", value), Some("A_Const"), 4);
    }
    assert Sites(konst, Some("A_Const"), 3) ==
        [Depth(3), FieldOf("A_Const", "ival"), Depth(4), FieldOf("A_Const", "ival"), Depth(5)] by {
      OneFieldObject(Field("ival", inner), Some("A_Const"), 3);
    }
    OneFieldObject(Field("A_Const", konst), Some("SelectStmt"), 2);
  }

  lemma OneFieldObject(field: Field, tag: Option<string>, depth: int)
    ensures Sites(Obj([field]), tag, depth) == [Depth(depth)] + OneField(field, tag, depth)
  {
    assert [field][1..] == [];
    assert FieldSites([field], tag, depth) == OneField(field, tag, depth) + FieldSites([], tag, depth);
  }

  lemma SelectSites(select: seq<Field>)
    ensures Sites(Obj([Field("SelectStmt", Obj(select))]), None, 0) ==
            [Depth(0), Tag("SelectStmt", Obj(select)), Depth(1)] + FieldSites(select, Some("SelectStmt"), 1)
  {
    OneFieldObject(Field("SelectStmt", Obj(select)), None, 0);
    assert IsTag("SelectStmt");
  }

  lemma NoTablesInClamp(maxRows: real)
    ensures var a := OneField(Field("limitOption", Str("LIMIT_OPTION_COUNT")), Some("SelectStmt"), 1);
            var b := OneField(Field("limitCount", LimitNode(maxRows)), Some("SelectStmt"), 1);
            Tables(a) == [] && Tables(b) == [] && CteNames(a) == {} && CteNames(b) == {}
  {
    ClampSites(maxRows);
    var rest := [Tag("A_Const", Get(LimitNode(maxRows), "A_Const")), Depth(3), FieldOf("A_Const", "ival"), Depth(4),
                 FieldOf("A_Const", "ival"), Depth(5)];
    assert "A_Const" != "RangeVar" && "A_Const" != "CommonTableExpr" by {
      assert "A_Const"[0] != "RangeVar"[0] && "A_Const"[0] != "CommonTableExpr"[0];
    }
    NoRangeVars(rest);
    NoRangeVars(CountSites());
    NoRangeVars(OptionSites());
    TablesConcat(CountSites(), rest);
  }

  lemma {:induction false} NothingCollected(at: Site -> seq<TableRef>, sites: seq<Site>)
    requires forall i | 0 <= i < |sites| :: at(sites[i]) == []
    ensures Collected(at, sites) == []
  {
    if sites != [] { NothingCollected(at, sites[1..]); }
  }

  lemma {:induction false} NothingUnited(at: Site -> set<string>, sites: seq<Site>)
    requires forall i | 0 <= i < |sites| :: at(sites[i]) == {}
    ensures United(at, sites) == {}
  {
    if sites != [] { NothingUnited(at, sites[1..]); }
  }

  lemma NoRangeVars(sites: seq<Site>)
    requires forall i | 0 <= i < |sites| :: sites[i].Tag? ==>
               sites[i].key != "RangeVar" && sites[i].key != "CommonTableExpr"
    ensures Tables(sites) == [] && CteNames(sites) == {}
  {
    NothingCollected(TablesAt, sites);
    NothingUnited(CteNamesAt, sites);
  }

  lemma ClampPasses(lists: Allowlists, maxDepth: int, maxRows: real)
    requires KnowsLimits(lists)
    ensures AllPass(OneField(Field("limitOption", Str("LIMIT_OPTION_COUNT")), Some("SelectStmt"), 1), lists, maxDepth)
       <==> maxDepth >= 2
    ensures AllPass(OneField(Field("limitCount", LimitNode(maxRows)), Some("SelectStmt"), 1), lists, maxDepth) <==>
              maxDepth >= 5
  {
    ClampSites(maxRows);
    var b := OneField(Field("limitCount", LimitNode(maxRows)), Some("SelectStmt"), 1);
    assert b[7] == Depth(5) && |b| == 8;
    assert OptionSites()[1] == Depth(2) && |OptionSites()| == 2;
    assert "A_Const" != "FuncCall" by { assert "A_Const"[0] != "FuncCall"[0]; }
  }

  function OverwrittenOption(select: seq<Field>): seq<Site> {
    KeySites(select, "limitOption", Some("SelectStmt"), 1)
  }

  function OverwrittenCount(select: seq<Field>): seq<Site> {
    KeySites(SetIn(select, "limitOption", Str("LIMIT_OPTION_COUNT")), "limitCount", Some("SelectStmt"), 1)
  }

  /** The clamp keeps an accepted tree accepted exactly when maxDepth is at least 5, the depth of the
      literal it writes; and it keeps the tables exactly when what it overwrote named none. */
  lemma ClampKeepsAcceptance(select: seq<Field>, maxRows: real, lists: Allowlists, maxDepth: int)
    requires KnowsLimits(lists)
    requires AllPass(Sites(Obj([Field("SelectStmt", Obj(select))]), None, 0), lists, maxDepth)
    ensures AllPass(Sites(Obj([Field("SelectStmt", Obj(Clamp(select, maxRows)))]), None, 0), lists, maxDepth) <==>
              maxDepth >= 5
    ensures Tables(Sites(Obj([Field("SelectStmt", Obj(Clamp(select, maxRows)))]), None, 0)) ==
            Tables(Sites(Obj([Field("SelectStmt", Obj(select))]), None, 0)) <==>
            Tables(OverwrittenOption(select)) == [] && Tables(OverwrittenCount(select)) == []
    ensures CteNames(OverwrittenOption(select)) == {} && CteNames(OverwrittenCount(select)) == {} ==>
            CteNames(Sites(Obj([Field("SelectStmt", Obj(Clamp(select, maxRows)))]), None, 0)) ==
            CteNames(Sites(Obj([Field("SelectStmt", Obj(select))]), None, 0))
  {
    var tag := Some("SelectStmt");
    var option := Str("LIMIT_OPTION_COUNT");
    var counted := SetIn(select, "limitOption", option);
    var b1, a1 := SetReplacesSites(select, "limitOption", option, tag, 1);
    var b2, a2 := SetReplacesSites(counted, "limitCount", LimitNode(maxRows), tag, 1);
    SelectSites(select);
    SelectSites(Clamp(select, maxRows));
    var head, head' := [Depth(0), Tag("SelectStmt", Obj(select)), Depth(1)],
        [Depth(0), Tag("SelectStmt", Obj(Clamp(select, maxRows))), Depth(1)];
    ClampPasses(lists, maxDepth, maxRows);
    ReplacePasses(head, b1, KeySites(select, "limitOption", tag, 1), OneField(Field("limitOption", option), tag, 1),
                  a1, lists, maxDepth);
    ReplacePasses(head, b2, KeySites(counted, "limitCount", tag, 1),
                  OneField(Field("limitCount", LimitNode(maxRows)), tag, 1), a2, lists, maxDepth);
    SameHeads(head, head', FieldSites(Clamp(select, maxRows), tag, 1), lists, maxDepth);
    NoTablesInClamp(maxRows);
    ReplaceTables(head, b1, KeySites(select, "limitOption", tag, 1), OneField(Field("limitOption", option), tag, 1),
                  a1);
    ReplaceTables(head, b2, KeySites(counted, "limitCount", tag, 1),
                  OneField(Field("limitCount", LimitNode(maxRows)), tag, 1), a2);
  }

  lemma SelectStmtIsPlain()
    ensures "SelectStmt" != "FuncCall" && "SelectStmt" != "RangeVar" && "SelectStmt" != "CommonTableExpr"
  {
    assert "SelectStmt"[0] != "FuncCall"[0] && "SelectStmt"[0] != "RangeVar"[0]
        && "SelectStmt"[0] != "CommonTableExpr"[0];
  }

  lemma SameHeads(head: seq<Site>, head': seq<Site>, rest: seq<Site>, lists: Allowlists, maxDepth: int)
    requires |head| == |head'| == 3 && head[0] == head'[0] == Depth(0) && head[2] == head'[2] == Depth(1)
    requires head[1].Tag? && head'[1].Tag? && head[1].key == head'[1].key == "SelectStmt"
    ensures AllPass(head + rest, lists, maxDepth) <==> AllPass(head' + rest, lists, maxDepth)
    ensures Tables(head + rest) == Tables(head' + rest) == Tables(rest)
    ensures CteNames(head + rest) == CteNames(head' + rest) == CteNames(rest)
  {
    SelectStmtIsPlain();
    AllPassConcat(head, rest, lists, maxDepth);
    AllPassConcat(head', rest, lists, maxDepth);
    assert forall i | 0 <= i < 3 :: Fault(head[i], lists, maxDepth) == Fault(head'[i], lists, maxDepth);
    TablesConcat(head, rest);
    TablesConcat(head', rest);
    NoRangeVars(head);
    NoRangeVars(head');
  }

  lemma ReplacePasses(head: seq<Site>, before: seq<Site>, x: seq<Site>, y: seq<Site>, after: seq<Site>,
                      lists: Allowlists, maxDepth: int)
    ensures AllPass(head + (before + x + after), lists, maxDepth) ==>
              (AllPass(head + (before + y + after), lists, maxDepth) <==> AllPass(y, lists, maxDepth))
    ensures AllPass(head + (before + y + after), lists, maxDepth) ==> AllPass(y, lists, maxDepth)
  {
    AllPassConcat(head, before + x + after, lists, maxDepth);
    AllPassConcat(before + x, after, lists, maxDepth);
    AllPassConcat(before, x, lists, maxDepth);
    AllPassConcat(head, before + y + after, lists, maxDepth);
    AllPassConcat(before + y, after, lists, maxDepth);
    AllPassConcat(before, y, lists, maxDepth);
  }

  lemma ReplaceTables(head: seq<Site>, before: seq<Site>, x: seq<Site>, y: seq<Site>, after: seq<Site>)
    requires Tables(y) == []
    ensures |Tables(head + (before + y + after))| == |Tables(head + (before + x + after))| - |Tables(x)|
    ensures Tables(x) == [] ==> Tables(head + (before + y + after)) == Tables(head + (before + x + after))
    ensures CteNames(x) == CteNames(y) ==>
              CteNames(head + (before + y + after)) == CteNames(head + (before + x + after))
  {
    TablesConcat(head, before + x + after);
    TablesConcat(before + x, after);
    TablesConcat(before, x);
    TablesConcat(head, before + y + after);
    TablesConcat(before + y, after);
    TablesConcat(before, y);
  }

  /** When parsing undoes deparsing, the second inspection never takes back what the first allowed,
      with one exception: a clamped statement under a maxDepth below 5 is refused as a failed round trip. */
  lemma SecondPassAgrees(sql: string, policy: Policy, lists: Allowlists, f: Foreign, tree: Parsed,
                         limit: Option<real>, clamped: bool)
    requires RoundTrips(f) && KnowsLimits(lists) && InspectSql(sql, policy, lists, f).Fine?
    requires if policy.maxRows.None? then !clamped && limit.None?
             else && limit.Some? && SelectOf(InspectSql(sql, policy, lists, f).tree).Some?
                  && CapOf(SelectOf(InspectSql(sql, policy, lists, f).tree).value, policy.maxRows.value, f.toNumber) ==
                        Capped(limit.value, clamped)
    requires var first := InspectSql(sql, policy, lists, f).tree;
             if clamped then
               && var select := SelectOf(first).value;
                  && first.stmts != [] && tree == WithSelect(first, Clamp(select, policy.maxRows.value))
                  && Tables(OverwrittenOption(select)) == [] && Tables(OverwrittenCount(select)) == []
                  && CteNames(OverwrittenOption(select)) == {} && CteNames(OverwrittenCount(select)) == {}
             else tree == first
    requires f.deparse(tree).Ok? && !f.blank(f.deparse(tree).value) && '\0' !in f.deparse(tree).value
    ensures GuardSql(sql, policy, lists, f) ==
            if clamped && DepthLimit(policy) < 5 then Denied(ERoundTripFailed)
            else Allowed(f.deparse(tree).value, InspectSql(sql, policy, lists, f).tables, limit)
  {
    var first := InspectSql(sql, policy, lists, f);
    InspectionMeans(first.tree, policy, lists);
    InspectionMeans(tree, policy, lists);
    if policy.maxRows.Some? {
      var select, maxRows := SelectOf(first.tree).value, policy.maxRows.value;
      CapIsPresent(select, maxRows, f.toNumber);
      if clamped {
        SelectOfWith(first.tree, Clamp(select, maxRows));
        RootIsSelect(first.tree, select);
        ClampKeepsAcceptance(select, maxRows, lists, DepthLimit(policy));
      }
    }
  }

  lemma RootIsSelect(p: Parsed, select: seq<Field>)
    requires p.stmts != [] && IsSelect(p.stmts[0].stmt) && SelectOf(p) == Some(select)
    ensures p.stmts[0].stmt == Obj([Field("SelectStmt", Obj(select))])
  {
    var root := p.stmts[0].stmt;
    assert root.fields == [root.fields[0]];
  }
}
