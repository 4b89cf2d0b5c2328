/** packages/core/src/semantic/validate.ts and glossaryGate of packages/server/src/config.ts: which
    entries of a glossary a schema bears out, and the glossary a server goes on with. The wording of a
    problem is left to its code. */
module GlossaryCheck {
  import opened Schema
  import opened Fragment
  import opened GlossaryRender
  import opened Terms
  import opened Glossary
  import opened Text

  datatype Code =
    | UnknownTable | UnknownColumn | AmbiguousTable | SqlWithoutRefs | SqlUnsafe
    | DuplicateTerm | UnsearchableTerm | EmptyEntry | SqlTooLong | SqlUnknownIdentifier | GlobalsExceedBudget

  predicate IsError(c: Code) {
    c.UnknownTable? || c.UnknownColumn? || c.AmbiguousTable? || c.SqlWithoutRefs? || c.SqlUnsafe?
  }

  datatype Problem = Problem(code: Code, entry: int)

  datatype Report = Report(ok: bool, problems: seq<Problem>)

  /** The normaliser of terms, the language of expressions and the caps validation works with. */
  datatype Checker = Checker(norm: Normaliser, lang: Language, options: RenderOptions)

  // ---- checkTerms ----

  function FormCodes(g: Glossary, i: nat, form: string, norm: Normaliser): seq<Code> {
    var key := PhraseKey(norm, form);
    if key == "" then [UnsearchableTerm]
    else if key in g.byPhrase && g.byPhrase[key] != i then [DuplicateTerm]
    else []
  }

  function FormsCodes(g: Glossary, i: nat, forms: seq<string>, norm: Normaliser): seq<Code> {
    if forms == [] then [] else FormCodes(g, i, forms[0], norm) + FormsCodes(g, i, forms[1..], norm)
  }

  function EmptyCodes(e: GlossaryEntry): seq<Code> {
    if e.definition.None? && e.sql.None? && Refs(e) == [] then [EmptyEntry] else []
  }

  // ---- checkRefs ----

  datatype Checked = Checked(codes: seq<Code>, allowed: set<string>)

  function CheckColumns(k: Checked, t: TableInfo, columns: seq<string>, lang: Language): Checked
    decreases columns
  {
    if columns == [] then k
    else
      var c := columns[0];
      var m := if HasColumn(t, c) then k.(allowed := AllowIdentifier(k.allowed, c, lang))
               else k.(codes := k.codes + [UnknownColumn]);
      CheckColumns(m, t, columns[1..], lang)
  }

  function CheckRef(k: Checked, ref: GlossaryRef, tables: seq<TableInfo>, lang: Language): Checked {
    var found := Found(ref, tables);
    if found == [] then k.(codes := k.codes + [UnknownTable])
    else if |found| > 1 then k.(codes := k.codes + [AmbiguousTable])
    else
      var t := found[0];
      var allowed := AllowIdentifier(AllowIdentifier(k.allowed, t.schema, lang), t.name, lang);
      CheckColumns(k.(allowed := allowed), t, Wanted(ref), lang)
  }

  function CheckRefsFrom(k: Checked, refs: seq<GlossaryRef>, tables: seq<TableInfo>, lang: Language): Checked
    decreases refs
  {
    if refs == [] then k else CheckRefsFrom(CheckRef(k, refs[0], tables, lang), refs[1..], tables, lang)
  }

  function CheckedRefs(e: GlossaryEntry, tables: seq<TableInfo>, lang: Language): Checked {
    CheckRefsFrom(Checked([], {}), Refs(e), tables, lang)
  }

  method CheckRefs(e: GlossaryEntry, tables: seq<TableInfo>, lang: Language) returns (k: Checked)
    ensures k == CheckedRefs(e, tables, lang)
  {
    var refs := Refs(e);
    k := Checked([], {});
    var i := 0;
    while i < |refs|
      invariant 0 <= i <= |refs| && CheckRefsFrom(k, refs[i..], tables, lang) == CheckedRefs(e, tables, lang)
    {
      assert refs[i..][1..] == refs[i + 1..];
      ghost var next := CheckRef(k, refs[i], tables, lang);
      var found := Found(refs[i], tables);
      if |found| == 0 {
        k := k.(codes := k.codes + [UnknownTable]);
      } else if |found| > 1 {
        k := k.(codes := k.codes + [AmbiguousTable]);
      } else {
        var t := found[0];
        k := k.(allowed := AllowIdentifier(AllowIdentifier(k.allowed, t.schema, lang), t.name, lang));
        k := CheckColumnsOf(k, t, Wanted(refs[i]), lang);
      }
      assert k == next;
      i := i + 1;
    }
  }

  method CheckColumnsOf(k0: Checked, t: TableInfo, columns: seq<string>, lang: Language) returns (k: Checked)
    ensures k == CheckColumns(k0, t, columns, lang)
  {
    k := k0;
    var i := 0;
    while i < |columns|
      invariant 0 <= i <= |columns| && CheckColumns(k, t, columns[i..], lang) == CheckColumns(k0, t, columns, lang)
    {
      assert columns[i..][1..] == columns[i + 1..];
      if HasColumn(t, columns[i]) {
        k := k.(allowed := AllowIdentifier(k.allowed, columns[i], lang));
      } else {
        k := k.(codes := k.codes + [UnknownColumn]);
      }
      i := i + 1;
    }
  }

  /** A reference the schema bears out: one table, and every column it names. */
  predicate SoundRef(ref: GlossaryRef, tables: seq<TableInfo>) {
    |Found(ref, tables)| == 1 && AllPresent(Found(ref, tables)[0], Wanted(ref))
  }

  /** A spelling made available by a reference that names one table. */
  ghost predicate GrantedByOne(x: string, ref: GlossaryRef, tables: seq<TableInfo>, lang: Language) {
    |Found(ref, tables)| == 1 && Grants(x, Found(ref, tables)[0], Wanted(ref), lang)
  }

  predicate NoErrors(codes: seq<Code>) {
    forall c :: c in codes ==> !IsError(c)
  }

  lemma {:induction false} CheckColumnsMeans(k: Checked, t: TableInfo, columns: seq<string>, lang: Language)
    ensures var m := CheckColumns(k, t, columns, lang);
            && (NoErrors(m.codes) <==> NoErrors(k.codes) && AllPresent(t, columns))
            && (m.codes == [] <==> k.codes == [] && AllPresent(t, columns))
            && (forall x :: x in m.allowed <==>
                  (x in k.allowed || exists c :: c in columns && HasColumn(t, c) && (x == c || x == lang.lower(c))))
    decreases columns
  {
    if columns != [] {
      var c := columns[0];
      var m := if HasColumn(t, c) then k.(allowed := AllowIdentifier(k.allowed, c, lang))
               else k.(codes := k.codes + [UnknownColumn]);
      CheckColumnsMeans(m, t, columns[1..], lang);
      assert forall d :: d in columns <==> d == c || d in columns[1..];
      if !HasColumn(t, c) { assert UnknownColumn in m.codes; }
    }
  }

  lemma CheckRefMeans(k: Checked, ref: GlossaryRef, tables: seq<TableInfo>, lang: Language)
    ensures var m := CheckRef(k, ref, tables, lang);
            && (NoErrors(m.codes) <==> NoErrors(k.codes) && SoundRef(ref, tables))
            && (m.codes == [] <==> k.codes == [] && SoundRef(ref, tables))
            && (forall x :: x in m.allowed <==> x in k.allowed || GrantedByOne(x, ref, tables, lang))
  {
    var found := Found(ref, tables);
    var m := CheckRef(k, ref, tables, lang);
    if |found| == 1 {
      var t := found[0];
      var allowed := AllowIdentifier(AllowIdentifier(k.allowed, t.schema, lang), t.name, lang);
      CheckColumnsMeans(k.(allowed := allowed), t, Wanted(ref), lang);
    } else {
      assert m.codes[|k.codes|] in m.codes;
    }
  }

  lemma {:induction false} CheckRefsMeans(k: Checked, refs: seq<GlossaryRef>, tables: seq<TableInfo>, lang: Language)
    ensures var m := CheckRefsFrom(k, refs, tables, lang);
            && (NoErrors(m.codes) <==> NoErrors(k.codes) && forall ref :: ref in refs ==> SoundRef(ref, tables))
            && (m.codes == [] <==> k.codes == [] && forall ref :: ref in refs ==> SoundRef(ref, tables))
            && (forall x :: x in m.allowed <==>
                x in k.allowed || exists ref :: ref in refs && GrantedByOne(x, ref, tables, lang))
    decreases refs
  {
    if refs != [] {
      CheckRefMeans(k, refs[0], tables, lang);
      CheckRefsMeans(CheckRef(k, refs[0], tables, lang), refs[1..], tables, lang);
      assert forall r :: r in refs <==> r == refs[0] || r in refs[1..];
    }
  }

  // ---- checkSql ----

  function CodeOf(issue: Issue): Code {
    match issue
    case Unsafe(_) => SqlUnsafe
    case TooLong => SqlTooLong
    case UnknownIdentifier(_) => SqlUnknownIdentifier
  }

  function CodesOf(issues: seq<Issue>): seq<Code> {
    seq(|issues|, i requires 0 <= i < |issues| => CodeOf(issues[i]))
  }

  function SqlCodes(e: GlossaryEntry, allowed: set<string>, maxLength: int, lang: Language): seq<Code> {
    if e.sql.None? then []
    else if Refs(e) == [] then [SqlWithoutRefs]
    else CodesOf(Issues(e.sql.value, allowed, maxLength, lang))
  }

  /** Only two things about an expression are errors, and neither depends on what it may mention. */
  predicate SoundSql(e: GlossaryEntry) {
    e.sql.Some? ==> Refs(e) != [] && Harmless(e.sql.value)
  }

  lemma SqlErrorsMean(e: GlossaryEntry, allowed: set<string>, maxLength: int, lang: Language)
    ensures NoErrors(SqlCodes(e, allowed, maxLength, lang)) <==> SoundSql(e)
  {
    if e.sql.Some? {
      if Refs(e) == [] {
        assert SqlWithoutRefs in SqlCodes(e, allowed, maxLength, lang);
      } else {
        var sql := e.sql.value;
        var hazards, issues := HazardIssues(sql), Issues(sql, allowed, maxLength, lang);
        HazardsMean(sql);
        var codes := CodesOf(issues);
        if hazards != [] {
          assert issues[0] == hazards[0] && codes[0] == SqlUnsafe && codes[0] in codes;
        } else {
          forall c | c in codes ensures !IsError(c) {
            var i :| 0 <= i < |codes| && codes[i] == c;
            assert !issues[i].Unsafe?;
          }
        }
      }
    }
  }

  // ---- validateGlossary ----

  function EntryCodes(g: Glossary, i: nat, tables: seq<TableInfo>, k: Checker): seq<Code>
    requires i < |g.entries|
  {
    var e := g.entries[i];
    var refs := CheckedRefs(e, tables, k.lang);
    FormsCodes(g, i, SurfaceForms(e), k.norm) + EmptyCodes(e) + refs.codes
    + SqlCodes(e, refs.allowed, k.options.maxSqlLength, k.lang)
  }

  function ProblemsOf(codes: seq<Code>, entry: int): seq<Problem> {
    seq(|codes|, i requires 0 <= i < |codes| => Problem(codes[i], entry))
  }

  function CodesFor(g: Glossary, tables: seq<TableInfo>, k: Checker): int -> seq<Code> {
    i => if 0 <= i < |g.entries| then EntryCodes(g, i, tables, k) else []
  }

  /** The problems of the first n entries, given the codes of each. */
  function Numbered(codesOf: int -> seq<Code>, n: nat): seq<Problem> {
    if n == 0 then [] else Numbered(codesOf, n - 1) + ProblemsOf(codesOf(n - 1), n - 1)
  }

  /** Entries without references are in every prompt and must fit by themselves. */
  predicate GlobalsFit(g: Glossary, k: Checker) {
    var cs := Candidates(g.entries, [], k.options, k.lang);
    |KeptLines(cs, [], k.options)| >= |cs|
  }

  function GlobalProblems(g: Glossary, k: Checker): seq<Problem> {
    if GlobalsFit(g, k) then [] else [Problem(GlobalsExceedBudget, -1)]
  }

  function Problems(g: Glossary, tables: seq<TableInfo>, k: Checker): seq<Problem> {
    Numbered(CodesFor(g, tables, k), |g.entries|) + GlobalProblems(g, k)
  }

  function Validated(g: Glossary, tables: seq<TableInfo>, k: Checker): Report {
    var problems := Problems(g, tables, k);
    Report(forall p :: p in problems ==> !IsError(p.code), problems)
  }

  method CheckTerms(g: Glossary, i: nat, k: Checker) returns (codes: seq<Code>)
    requires i < |g.entries|
    ensures codes == FormsCodes(g, i, SurfaceForms(g.entries[i]), k.norm) + EmptyCodes(g.entries[i])
  {
    var e := g.entries[i];
    var forms := SurfaceForms(e);
    codes := [];
    var j := 0;
    while j < |forms|
      invariant 0 <= j <= |forms|
      invariant codes + FormsCodes(g, i, forms[j..], k.norm) == FormsCodes(g, i, forms, k.norm)
    {
      assert forms[j..][1..] == forms[j + 1..];
      RegroupCodes(codes, FormCodes(g, i, forms[j], k.norm), FormsCodes(g, i, forms[j + 1..], k.norm));
      codes := codes + FormCodes(g, i, forms[j], k.norm);
      j := j + 1;
    }
    codes := codes + EmptyCodes(e);
  }

  lemma RegroupCodes(a: seq<Code>, b: seq<Code>, c: seq<Code>)
    ensures a + (b + c) == (a + b) + c
  {
  }

  method CheckSql(e: GlossaryEntry, allowed: set<string>, maxLength: int, lang: Language) returns (codes: seq<Code>)
    ensures codes == SqlCodes(e, allowed, maxLength, lang)
  {
    if e.sql.None? { return []; }
    if Refs(e) == [] { return [SqlWithoutRefs]; }
    var issues := FragmentIssues(e.sql.value, allowed, maxLength, lang);
    codes := CodesOf(issues);
  }

  method CheckEntry(g: Glossary, i: nat, tables: seq<TableInfo>, k: Checker) returns (codes: seq<Code>)
    requires i < |g.entries|
    ensures codes == EntryCodes(g, i, tables, k)
  {
    var e := g.entries[i];
    var terms := CheckTerms(g, i, k);
    var refs := CheckRefs(e, tables, k.lang);
    var sql := CheckSql(e, refs.allowed, k.options.maxSqlLength, k.lang);
    codes := terms + refs.codes + sql;
  }

  method CheckGlobals(g: Glossary, k: Checker) returns (problems: seq<Problem>)
    ensures problems == GlobalProblems(g, k)
  {
    var globals := RenderGlossary(g.entries, [], k.options, k.lang);
    problems := if globals.omitted > 0 then [Problem(GlobalsExceedBudget, -1)] else [];
  }

  /** codesOf gives the codes of entry i. */
  predicate CodesAt(codesOf: int -> seq<Code>, g: Glossary, tables: seq<TableInfo>, k: Checker, i: int)
    requires 0 <= i < |g.entries|
  {
    codesOf(i) == EntryCodes(g, i, tables, k)
  }

  ghost predicate CodesAre(codesOf: int -> seq<Code>, g: Glossary, tables: seq<TableInfo>, k: Checker) {
    forall i | 0 <= i < |g.entries| :: CodesAt(codesOf, g, tables, k, i)
  }

  /** One turn of the loop: the problems of entry i join those of the entries before it. */
  method ReportEntry(g: Glossary, i: nat, tables: seq<TableInfo>, k: Checker, before: seq<Problem>,
                     ghost codesOf: int -> seq<Code>)
    returns (problems: seq<Problem>)
    requires i < |g.entries| && CodesAre(codesOf, g, tables, k)
    ensures problems == before + ProblemsOf(codesOf(i), i)
  {
    var codes := CheckEntry(g, i, tables, k);
    assert CodesAt(codesOf, g, tables, k, i);
    problems := before + ProblemsOf(codes, i);
  }

  method CheckEntries(g: Glossary, tables: seq<TableInfo>, k: Checker, ghost codesOf: int -> seq<Code>)
    returns (problems: seq<Problem>)
    requires CodesAre(codesOf, g, tables, k)
    ensures problems == Numbered(codesOf, |g.entries|)
  {
    problems := [];
    var i := 0;
    while i < |g.entries|
      invariant 0 <= i <= |g.entries| && problems == Numbered(codesOf, i)
    {
      problems := ReportEntry(g, i, tables, k, problems, codesOf);
      i := i + 1;
    }
  }

  method ValidateGlossary(g: Glossary, tables: seq<TableInfo>, k: Checker) returns (r: Report)
    ensures r == Validated(g, tables, k)
  {
    var entries := CheckEntries(g, tables, k, CodesFor(g, tables, k));
    var globals := CheckGlobals(g, k);
    var problems: seq<Problem> := entries + globals;
    r := Report(forall p :: p in problems ==> !IsError(p.code), problems);
  }

  // ---- what an error says ----

  /** An entry the schema bears out. */
  predicate Sound(e: GlossaryEntry, tables: seq<TableInfo>) {
    (forall ref :: ref in Refs(e) ==> SoundRef(ref, tables)) && SoundSql(e)
  }

  lemma {:induction false} FormsAreNoErrors(g: Glossary, i: nat, forms: seq<string>, norm: Normaliser)
    ensures NoErrors(FormsCodes(g, i, forms, norm))
  {
    if forms != [] { FormsAreNoErrors(g, i, forms[1..], norm); }
  }

  lemma EntryErrorsMean(g: Glossary, i: nat, tables: seq<TableInfo>, k: Checker)
    requires i < |g.entries|
    ensures NoErrors(EntryCodes(g, i, tables, k)) <==> Sound(g.entries[i], tables)
  {
    var e := g.entries[i];
    var refs := CheckedRefs(e, tables, k.lang);
    var a := FormsCodes(g, i, SurfaceForms(e), k.norm);
    var d := SqlCodes(e, refs.allowed, k.options.maxSqlLength, k.lang);
    FormsAreNoErrors(g, i, SurfaceForms(e), k.norm);
    CheckRefsMeans(Checked([], {}), Refs(e), tables, k.lang);
    SqlErrorsMean(e, refs.allowed, k.options.maxSqlLength, k.lang);
    NoErrorsInParts(a, EmptyCodes(e), refs.codes, d);
  }

  lemma NoErrorsInParts(a: seq<Code>, b: seq<Code>, c: seq<Code>, d: seq<Code>)
    ensures NoErrors(a + b + c + d) <==> NoErrors(a) && NoErrors(b) && NoErrors(c) && NoErrors(d)
  {
    assert forall x :: x in a + b + c + d <==> x in a || x in b || x in c || x in d;
  }

  ghost predicate HasError(problems: seq<Problem>, entry: int) {
    exists p :: p in problems && p.entry == entry && IsError(p.code)
  }

  lemma ProblemsCarryCodes(codes: seq<Code>, i: int, entry: int)
    ensures HasError(ProblemsOf(codes, i), entry) <==> entry == i && !NoErrors(codes)
  {
    var ps := ProblemsOf(codes, i);
    if entry == i && !NoErrors(codes) {
      var c :| c in codes && IsError(c);
      var j :| 0 <= j < |codes| && codes[j] == c;
      assert ps[j] in ps;
    }
  }

  lemma {:induction false} NumberedErrors(codesOf: int -> seq<Code>, n: nat, entry: int)
    ensures HasError(Numbered(codesOf, n), entry) <==> 0 <= entry < n && !NoErrors(codesOf(entry))
  {
    if n > 0 {
      NumberedErrors(codesOf, n - 1, entry);
      ProblemsCarryCodes(codesOf(n - 1), n - 1, entry);
      HasErrorInEither(Numbered(codesOf, n - 1), ProblemsOf(codesOf(n - 1), n - 1), entry);
    }
  }

  lemma HasErrorInEither(a: seq<Problem>, b: seq<Problem>, entry: int)
    ensures HasError(a + b, entry) <==> HasError(a, entry) || HasError(b, entry)
  {
    assert forall p :: p in a + b <==> p in a || p in b;
  }

  lemma ErrorsOnEntry(g: Glossary, tables: seq<TableInfo>, k: Checker, entry: int)
    ensures HasError(Problems(g, tables, k), entry) <==> 0 <= entry < |g.entries| && !Sound(g.entries[entry], tables)
  {
    HasErrorInEither(Numbered(CodesFor(g, tables, k), |g.entries|), GlobalProblems(g, k), entry);
    NumberedErrors(CodesFor(g, tables, k), |g.entries|, entry);
    if 0 <= entry < |g.entries| { EntryErrorsMean(g, entry, tables, k); }
  }

  /** Errors name exactly the entries the schema does not bear out; terms, lengths, unknown names and
      budgets never make an error, and no other entry of the glossary matters. */
  lemma ErrorsMean(g: Glossary, tables: seq<TableInfo>, k: Checker, entry: int)
    ensures HasError(Validated(g, tables, k).problems, entry)
       <==> 0 <= entry < |g.entries| && !Sound(g.entries[entry], tables)
    ensures Validated(g, tables, k).ok <==> forall i :: 0 <= i < |g.entries| ==> Sound(g.entries[i], tables)
  {
    var all := Problems(g, tables, k);
    forall e ensures HasError(all, e) <==> 0 <= e < |g.entries| && !Sound(g.entries[e], tables) {
      ErrorsOnEntry(g, tables, k, e);
    }
    if p :| p in all && IsError(p.code) { assert HasError(all, p.entry); }
  }

  // ---- what is warned about is what is left out ----

  /** Every table the entry's references name in the schema has been selected, and nothing else is shown. */
  ghost predicate Selected(e: GlossaryEntry, tables: seq<TableInfo>, shown: seq<TableInfo>) {
    && (forall t :: t in shown ==> t in tables)
    && (forall ref :: ref in Refs(e) ==> SoundRef(ref, tables) && Found(ref, tables)[0] in shown)
  }

  lemma SameFound(ref: GlossaryRef, tables: seq<TableInfo>, shown: seq<TableInfo>, t: TableInfo)
    requires |Found(ref, tables)| == 1 && Found(ref, tables)[0] in shown
    requires forall u :: u in shown ==> u in tables
    ensures t in Found(ref, shown) <==> t == Found(ref, tables)[0]
  {
    var one := Found(ref, tables)[0];
    assert one in Found(ref, tables);
    FoundMeans(ref, tables, one);
    FoundMeans(ref, shown, t);
    FoundMeans(ref, tables, t);
  }

  lemma SelectedEntryLocated(e: GlossaryEntry, tables: seq<TableInfo>, shown: seq<TableInfo>, lang: Language)
    requires Selected(e, tables, shown)
    ensures Locate(e, shown, lang).allowed == CheckedRefs(e, tables, lang).allowed
    ensures Locate(e, shown, lang).complete == (Refs(e) != [])
  {
    WithRefsMeans(Located([], {}, Refs(e) != [], false), Refs(e), shown, lang);
    CheckRefsMeans(Checked([], {}), Refs(e), tables, lang);
    forall ref | ref in Refs(e)
      ensures Resolved(ref, shown)
      ensures forall x :: GrantedOn(x, Found(ref, shown), Wanted(ref), lang) <==> GrantedByOne(x, ref, tables, lang)
    {
      var one := Found(ref, tables)[0];
      forall t ensures t in Found(ref, shown) <==> t == one { SameFound(ref, tables, shown, t); }
      assert one in Found(ref, shown);
    }
    var a, b := Locate(e, shown, lang).allowed, CheckedRefs(e, tables, lang).allowed;
    forall x ensures x in a <==> x in b {
      assert x in a <==> GrantedBy(x, Refs(e), shown, lang);
      assert x in b <==> exists ref :: ref in Refs(e) && GrantedByOne(x, ref, tables, lang);
    }
  }

  /** Every table a reference of the entry names in the schema is shown, nothing else of it is, and no reference
      could mean two tables. */
  ghost predicate Plain(e: GlossaryEntry, tables: seq<TableInfo>, shown: seq<TableInfo>) {
    && (forall t :: t in shown ==> t in tables)
    && (forall ref :: ref in Refs(e) ==>
          |Found(ref, tables)| <= 1 && forall t :: t in Found(ref, tables) ==> t in shown)
  }

  /** Validation and rendering agree about an expression the host wants: when the tables of its entry are
      selected, it is shown exactly when validation had nothing to report on the entry's references or on the
      expression itself. */
  lemma WarnedIsLeftOut(e: GlossaryEntry, tables: seq<TableInfo>, shown: seq<TableInfo>, options: RenderOptions,
                        lang: Language)
    requires Plain(e, tables, shown) && e.sql.Some? && options.includeSql
    ensures var refs := CheckedRefs(e, tables, lang);
            (ShownSql(e, Locate(e, shown, lang), options, lang).Some?
             <==> refs.codes == [] && SqlCodes(e, refs.allowed, options.maxSqlLength, lang) == [])
  {
    CheckRefsMeans(Checked([], {}), Refs(e), tables, lang);
    if CheckedRefs(e, tables, lang).codes == [] {
      forall ref | ref in Refs(e) ensures SoundRef(ref, tables) && Found(ref, tables)[0] in shown {
        assert Found(ref, tables)[0] in Found(ref, tables);
      }
      SelectedEntryLocated(e, tables, shown, lang);
    } else {
      var ref :| ref in Refs(e) && !SoundRef(ref, tables);
      UnsoundIsUnresolved(ref, tables, shown);
      WithRefsMeans(Located([], {}, Refs(e) != [], false), Refs(e), shown, lang);
    }
  }

  lemma UnsoundIsUnresolved(ref: GlossaryRef, tables: seq<TableInfo>, shown: seq<TableInfo>)
    requires !SoundRef(ref, tables) && |Found(ref, tables)| <= 1
    requires (forall t :: t in shown ==> t in tables) && forall t :: t in Found(ref, tables) ==> t in shown
    ensures !Resolved(ref, shown)
  {
    forall t | t in Found(ref, shown) ensures t in Found(ref, tables) {
      FoundMeans(ref, shown, t);
      FoundMeans(ref, tables, t);
    }
    if Found(ref, shown) != [] {
      var t := Found(ref, shown)[0];
      assert t in Found(ref, shown) && t == Found(ref, tables)[0];
    }
  }

  /** The tables that the entry's references mean have been selected. */
  ghost predicate TablesShown(e: GlossaryEntry, tables: seq<TableInfo>, shown: seq<TableInfo>) {
    && (forall t :: t in shown ==> t in tables)
    && forall ref, t :: ref in Refs(e) && t in tables && Matches(ref, t) ==> t in shown
  }

  lemma SoundRefShown(ref: GlossaryRef, tables: seq<TableInfo>, shown: seq<TableInfo>)
    requires SoundRef(ref, tables) && forall t :: t in tables && Matches(ref, t) ==> t in shown
    ensures (forall t :: t in Found(ref, tables) ==> t in shown) && Found(ref, shown) != []
  {
    var one := Found(ref, tables)[0];
    assert one in Found(ref, tables);
    forall t | t in Found(ref, tables) ensures t in shown { FoundMeans(ref, tables, t); }
    FoundMeans(ref, tables, one);
    FoundMeans(ref, shown, one);
  }

  lemma CleanIsPlain(e: GlossaryEntry, tables: seq<TableInfo>, shown: seq<TableInfo>, lang: Language)
    requires TablesShown(e, tables, shown) && CheckedRefs(e, tables, lang).codes == []
    ensures Plain(e, tables, shown)
    ensures forall ref :: ref in Refs(e) ==> Found(ref, shown) != []
  {
    CheckRefsMeans(Checked([], {}), Refs(e), tables, lang);
    forall ref | ref in Refs(e)
      ensures |Found(ref, tables)| <= 1 && (forall t :: t in Found(ref, tables) ==> t in shown)
                && Found(ref, shown) != []
    {
      SoundRefShown(ref, tables, shown);
    }
  }

  /** In particular an entry with references on which validation reported nothing keeps its expression. */
  lemma CleanEntryKeepsItsSql(g: Glossary, i: nat, tables: seq<TableInfo>, shown: seq<TableInfo>, k: Checker)
    requires i < |g.entries| && EntryCodes(g, i, tables, k) == []
    requires var e := g.entries[i];
             e.sql.Some? && Refs(e) != [] && k.options.includeSql && TablesShown(e, tables, shown)
    ensures var e := g.entries[i];
            ShownSql(e, Locate(e, shown, k.lang), k.options, k.lang) == Some(Tidied(e.sql.value))
  {
    var e := g.entries[i];
    var refs := CheckedRefs(e, tables, k.lang);
    assert refs.codes == [] && SqlCodes(e, refs.allowed, k.options.maxSqlLength, k.lang) == [];
    CleanIsPlain(e, tables, shown, k.lang);
    WarnedIsLeftOut(e, tables, shown, k.options, k.lang);
  }

  // ---- and what is kept reaches the prompt ----

  lemma {:induction false} CandidateOfEntry(entries: seq<GlossaryEntry>, i: nat, tables: seq<TableInfo>,
                                            options: RenderOptions, lang: Language)
    requires i < |entries|
    ensures forall c :: c in CandidateOf(entries[i], tables, options, lang) ==>
              c in Candidates(entries, tables, options, lang)
  {
    if i > 0 { CandidateOfEntry(entries[1..], i - 1, tables, options, lang); }
  }

  /** The line of an entry that is relevant and shows an expression has that expression in it. */
  lemma LineShowsSql(e: GlossaryEntry, l: Located, options: RenderOptions, lang: Language)
    requires ShownSql(e, l, options, lang).Some?
    ensures LineOf(e, l, options, lang).Some?
    ensures Includes(LineOf(e, l, options, lang).value, "SQL: " + ShownSql(e, l, options, lang).value)
  {
    var body := Body(e, l, options, lang);
    var part := "SQL: " + ShownSql(e, l, options, lang).value;
    assert body[|body| - 1] == part;
    JoinIncludes(body, " ", part);
    IncludedInMore(Head(e) + ": ", Join(body, " "), "", part);
    assert (Head(e) + ": ") + Join(body, " ") + "" == LineOf(e, l, options, lang).value;
  }

  lemma KeptLineIsInPrompt(cs: seq<Candidate>, c: Candidate, header: string, part: string)
    requires c in cs && Includes(c.line, part)
    ensures Includes(Prompt(header, LinesOf(cs)), part)
  {
    var i :| 0 <= i < |cs| && cs[i] == c;
    var lines := [header] + LinesOf(cs);
    assert lines[i + 1] == c.line;
    JoinIncludes(lines, "\n", c.line);
    var p := Join(lines, "\n");
    var at :| 0 <= at <= |p| && PartAt(p, c.line, at);
    assert p == p[..at] + c.line + p[at + |c.line|..];
    IncludedInMore(p[..at], c.line, p[at + |c.line|..], part);
  }

  /** When there is room for all candidates, the prompt holds the expression of every clean entry whose tables
      are selected. */
  lemma CleanEntryReachesThePrompt(g: Glossary, i: nat, tables: seq<TableInfo>, shown: seq<TableInfo>, k: Checker)
    requires i < |g.entries| && EntryCodes(g, i, tables, k) == []
    requires var e := g.entries[i];
             e.sql.Some? && Refs(e) != [] && k.options.includeSql && TablesShown(e, tables, shown)
    requires WithinBudget(Candidates(g.entries, shown, k.options, k.lang), k.options)
    ensures var kept := KeptLines(Candidates(g.entries, shown, k.options, k.lang), [], k.options);
            Includes(Prompt(k.options.header, LinesOf(kept)), "SQL: " + Tidied(g.entries[i].sql.value))
  {
    var c := CleanEntryIsCandidate(g, i, tables, shown, k);
    CandidateReachesPrompt(Candidates(g.entries, shown, k.options, k.lang), c, k.options,
                           "SQL: " + Tidied(g.entries[i].sql.value));
  }

  lemma CandidateReachesPrompt(cs: seq<Candidate>, c: Candidate, options: RenderOptions, part: string)
    requires WithinBudget(cs, options) && c in cs && Includes(c.line, part)
    ensures Includes(Prompt(options.header, LinesOf(KeptLines(cs, [], options))), part)
  {
    assert [] + cs == cs;
    NothingDroppedWithoutCause(cs, [], options);
    KeptLineIsInPrompt(cs, c, options.header, part);
  }

  lemma CleanEntryIsCandidate(g: Glossary, i: nat, tables: seq<TableInfo>, shown: seq<TableInfo>, k: Checker)
    returns (c: Candidate)
    requires i < |g.entries| && EntryCodes(g, i, tables, k) == []
    requires var e := g.entries[i];
             e.sql.Some? && Refs(e) != [] && k.options.includeSql && TablesShown(e, tables, shown)
    ensures c in Candidates(g.entries, shown, k.options, k.lang)
    ensures Includes(c.line, "SQL: " + Tidied(g.entries[i].sql.value))
  {
    var e := g.entries[i];
    CleanEntryKeepsItsSql(g, i, tables, shown, k);
    assert CheckedRefs(e, tables, k.lang).codes == [];
    CleanIsRelevant(e, tables, shown, k.lang);
    c := ShownIsCandidate(e, shown, k.options, k.lang);
    CandidateOfEntry(g.entries, i, shown, k.options, k.lang);
  }

  lemma CleanIsRelevant(e: GlossaryEntry, tables: seq<TableInfo>, shown: seq<TableInfo>, lang: Language)
    requires Refs(e) != [] && TablesShown(e, tables, shown) && CheckedRefs(e, tables, lang).codes == []
    ensures Relevant(e, Locate(e, shown, lang))
  {
    CleanIsPlain(e, tables, shown, lang);
    WithRefsMeans(Located([], {}, Refs(e) != [], false), Refs(e), shown, lang);
    assert Refs(e)[0] in Refs(e);
  }

  lemma ShownIsCandidate(e: GlossaryEntry, shown: seq<TableInfo>, options: RenderOptions, lang: Language)
    returns (c: Candidate)
    requires Relevant(e, Locate(e, shown, lang)) && ShownSql(e, Locate(e, shown, lang), options, lang).Some?
    ensures c in CandidateOf(e, shown, options, lang)
    ensures Includes(c.line, "SQL: " + ShownSql(e, Locate(e, shown, lang), options, lang).value)
  {
    LineShowsSql(e, Locate(e, shown, lang), options, lang);
    c := Candidate(e.term, LineOf(e, Locate(e, shown, lang), options, lang).value);
  }
}
