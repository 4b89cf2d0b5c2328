/** What each problem of a glossary says. */
module GlossaryCheckAccount {
  import opened Schema
  import opened Text
  import Framing
  import opened Terms
  import opened Glossary
  import opened Fragment
  import opened GlossaryRender
  import opened GlossaryCheck
  import opened GlossaryAccount

  // The report of packages/core/src/semantic/validate.ts, code by code.

  // ---- tables a reference may mean ----

  function Places(ref: GlossaryRef, tables: seq<TableInfo>): set<int> {
    set i | 0 <= i < |tables| && Matches(ref, tables[i])
  }

  lemma {:induction false} FoundCounts(ref: GlossaryRef, tables: seq<TableInfo>)
    ensures |Found(ref, tables)| == |Places(ref, tables)|
  {
    if tables == [] {
      assert Places(ref, tables) == {};
    } else {
      var front, last := tables[..|tables| - 1], tables[|tables| - 1];
      FoundCounts(ref, front);
      FoundLast(ref, front, last, [last]);
      assert tables == front + [last];
      PlacesLast(ref, tables, front, last);
    }
  }

  lemma {:induction false} FoundTogether(ref: GlossaryRef, a: seq<TableInfo>, b: seq<TableInfo>)
    ensures Found(ref, a + b) == Found(ref, a) + Found(ref, b)
  {
    if a == [] {
      assert a + b == b;
    } else {
      FoundTogether(ref, a[1..], b);
      FrontOf(a, b);
      Rejoined(if Matches(ref, a[0]) then [a[0]] else [], Found(ref, a[1..]), Found(ref, b));
    }
  }

  lemma FrontOf(a: seq<TableInfo>, b: seq<TableInfo>)
    requires a != []
    ensures a + b != [] && (a + b)[0] == a[0] && (a + b)[1..] == a[1..] + b
  {
  }

  lemma Rejoined(a: seq<TableInfo>, b: seq<TableInfo>, c: seq<TableInfo>)
    ensures a + (b + c) == a + b + c
  {
  }

  lemma FoundOne(ref: GlossaryRef, t: TableInfo)
    ensures Found(ref, [t]) == if Matches(ref, t) then [t] else []
  {
    assert [t][1..] == [];
  }

  lemma FoundLast(ref: GlossaryRef, front: seq<TableInfo>, last: TableInfo, ones: seq<TableInfo>)
    requires ones == [last]
    ensures |Found(ref, front + ones)| == |Found(ref, front)| + if Matches(ref, last) then 1 else 0
  {
    FoundTogether(ref, front, ones);
    FoundOne(ref, last);
  }

  lemma PlacesLast(ref: GlossaryRef, tables: seq<TableInfo>, front: seq<TableInfo>, last: TableInfo)
    requires tables != [] && front == tables[..|tables| - 1] && last == tables[|tables| - 1]
    ensures |Places(ref, tables)| == |Places(ref, front)| + if Matches(ref, last) then 1 else 0
  {
    var n: int := |tables| - 1;
    assert forall i | 0 <= i < n :: front[i] == tables[i];
    assert Places(ref, tables) == Places(ref, front) + if Matches(ref, last) then {n} else {};
  }

  ghost predicate MissesColumn(ref: GlossaryRef, tables: seq<TableInfo>) {
    |Places(ref, tables)| == 1
    && exists t, c :: t in tables && Matches(ref, t) && c in Wanted(ref) && !HasColumn(t, c)
  }

  /** What is wrong with a reference, if anything: nothing it can mean, too much, or a column that is not there. */
  ghost predicate RefProblem(ref: GlossaryRef, tables: seq<TableInfo>, c: Code) {
    match c
    case UnknownTable => |Places(ref, tables)| == 0
    case AmbiguousTable => |Places(ref, tables)| > 1
    case UnknownColumn => MissesColumn(ref, tables)
    case _ => false
  }

  lemma {:induction false} ColumnCodes(k: Checked, t: TableInfo, columns: seq<string>, lang: Language, c: Code)
    ensures c in CheckColumns(k, t, columns, lang).codes <==>
            c in k.codes || (c == UnknownColumn && exists d :: d in columns && !HasColumn(t, d))
    decreases columns
  {
    if columns != [] {
      var d := columns[0];
      var m := if HasColumn(t, d) then k.(allowed := AllowIdentifier(k.allowed, d, lang))
               else k.(codes := k.codes + [UnknownColumn]);
      ColumnCodes(m, t, columns[1..], lang, c);
      assert forall x :: x in columns <==> x == d || x in columns[1..];
    }
  }

  lemma OneFound(ref: GlossaryRef, tables: seq<TableInfo>, t: TableInfo)
    requires |Found(ref, tables)| == 1
    ensures t in tables && Matches(ref, t) <==> t == Found(ref, tables)[0]
  {
    FoundMeans(ref, tables, t);
    assert t in Found(ref, tables) <==> t == Found(ref, tables)[0];
  }

  lemma RefCodes(k: Checked, ref: GlossaryRef, tables: seq<TableInfo>, lang: Language, c: Code)
    ensures c in CheckRef(k, ref, tables, lang).codes <==> c in k.codes || RefProblem(ref, tables, c)
  {
    var found := Found(ref, tables);
    FoundCounts(ref, tables);
    if |found| == 1 {
      var t := found[0];
      OneFound(ref, tables, t);
      var allowed := AllowIdentifier(AllowIdentifier(k.allowed, t.schema, lang), t.name, lang);
      ColumnCodes(k.(allowed := allowed), t, Wanted(ref), lang, c);
      if u, d :| u in tables && Matches(ref, u) && d in Wanted(ref) && !HasColumn(u, d) { OneFound(ref, tables, u); }
    }
  }

  lemma {:induction false} RefsCodes(k: Checked, refs: seq<GlossaryRef>, tables: seq<TableInfo>, lang: Language,
                                     c: Code)
    ensures c in CheckRefsFrom(k, refs, tables, lang).codes <==>
            c in k.codes || exists ref :: ref in refs && RefProblem(ref, tables, c)
    decreases refs
  {
    if refs != [] {
      RefCodes(k, refs[0], tables, lang, c);
      RefsCodes(CheckRef(k, refs[0], tables, lang), refs[1..], tables, lang, c);
      assert forall r :: r in refs <==> r == refs[0] || r in refs[1..];
    }
  }

  // ---- terms ----

  /** A text the entry goes by that no question can match, or that another entry has claimed. */
  ghost predicate TermProblem(g: Glossary, i: nat, norm: Normaliser, c: Code)
    requires i < |g.entries|
  {
    match c
    case UnsearchableTerm => exists form :: GoesBy(g.entries[i], form) && Join(norm(form), " ") == ""
    case DuplicateTerm => exists form :: GoesBy(g.entries[i], form) && ClaimedBefore(g, i, norm, Join(norm(form), " "))
    case _ => false
  }

  ghost predicate ClaimedBefore(g: Glossary, i: nat, norm: Normaliser, key: string) {
    exists j | 0 <= j < i && j < |g.entries| :: ClaimsPhrase(norm, g.entries[j], key)
  }

  lemma FormCode(g: Glossary, i: nat, form: string, norm: Normaliser, c: Code)
    requires WellDefined(norm, g) && i < |g.entries| && GoesBy(g.entries[i], form)
    ensures c in FormCodes(g, i, form, norm) <==>
            || (c == UnsearchableTerm && Join(norm(form), " ") == "")
            || (c == DuplicateTerm && ClaimedBefore(g, i, norm, Join(norm(form), " ")))
  {
    var key := PhraseKey(norm, form);
    PhrasesGoToFirst(norm, g, key);
    if key != "" { assert ClaimsPhrase(norm, g.entries[i], key); }
  }

  lemma {:induction false} FormsCode(g: Glossary, i: nat, forms: seq<string>, norm: Normaliser, c: Code)
    requires WellDefined(norm, g) && i < |g.entries| && forall f | f in forms :: GoesBy(g.entries[i], f)
    ensures c in FormsCodes(g, i, forms, norm) <==>
            || (c == UnsearchableTerm && exists f :: f in forms && Join(norm(f), " ") == "")
            || (c == DuplicateTerm && exists f :: f in forms && ClaimedBefore(g, i, norm, Join(norm(f), " ")))
  {
    if forms != [] {
      assert forall f | f in forms[1..] :: f in forms;
      FormsCode(g, i, forms[1..], norm, c);
      FormCode(g, i, forms[0], norm, c);
      assert forall f :: f in forms <==> f == forms[0] || f in forms[1..];
    }
  }

  lemma TermCodes(g: Glossary, i: nat, norm: Normaliser, c: Code)
    requires WellDefined(norm, g) && i < |g.entries|
    ensures c in FormsCodes(g, i, SurfaceForms(g.entries[i]), norm) <==> TermProblem(g, i, norm, c)
  {
    forall f ensures f in SurfaceForms(g.entries[i]) <==> GoesBy(g.entries[i], f) { FormsAre(g.entries[i], f); }
    FormsCode(g, i, SurfaceForms(g.entries[i]), norm, c);
  }

  // ---- expressions ----

  ghost predicate SqlProblem(e: GlossaryEntry, allowed: set<string>, maxLength: int, lang: Language, c: Code) {
    e.sql.Some? &&
    match c
    case SqlWithoutRefs => Refs(e) == []
    case SqlUnsafe => Refs(e) != [] && !Harmless(e.sql.value)
    case SqlTooLong => Refs(e) != [] && Framing.Utf16Length(Tidied(e.sql.value)) > maxLength
    case SqlUnknownIdentifier => Refs(e) != [] && !AllDeclared(Tidied(e.sql.value), allowed, lang)
    case _ => false
  }

  lemma SqlCode(e: GlossaryEntry, allowed: set<string>, maxLength: int, lang: Language, c: Code)
    ensures c in SqlCodes(e, allowed, maxLength, lang) <==> SqlProblem(e, allowed, maxLength, lang, c)
  {
    if e.sql.Some? && Refs(e) != [] {
      var sql := e.sql.value;
      var names := Unknown(Tidied(sql), allowed, lang);
      var a, b, d := HazardIssues(sql), LengthIssues(Tidied(sql), maxLength), NameIssues(names, |names|);
      HazardsMean(sql);
      NoneUnknown(Tidied(sql), allowed, lang);
      CodesOfThree(a, b, d, c);
      OnlyHazards(sql, c);
      OnlyLength(Tidied(sql), maxLength, c);
      OnlyNames(names, c);
    }
  }

  lemma OnlyLength(text: string, maxLength: int, c: Code)
    ensures c in CodesOf(LengthIssues(text, maxLength)) <==>
            c == SqlTooLong && Framing.Utf16Length(text) > maxLength
  {
    var codes := CodesOf(LengthIssues(text, maxLength));
    assert Framing.Utf16Length(text) > maxLength ==> codes[0] == SqlTooLong;
  }

  lemma CodesOfThree(a: seq<Issue>, b: seq<Issue>, d: seq<Issue>, c: Code)
    ensures c in CodesOf(a + b + d) <==> c in CodesOf(a) || c in CodesOf(b) || c in CodesOf(d)
  {
    assert CodesOf(a + b + d) == CodesOf(a) + CodesOf(b) + CodesOf(d);
  }

  lemma OnlyHazards(sql: string, c: Code)
    ensures c in CodesOf(HazardIssues(sql)) <==> c == SqlUnsafe && HazardIssues(sql) != []
  {
    var issues := HazardIssues(sql);
    assert forall i | 0 <= i < |issues| :: issues[i].Unsafe?;
    if issues != [] { assert CodesOf(issues)[0] == SqlUnsafe; }
  }

  lemma OnlyNames(names: seq<string>, c: Code)
    ensures c in CodesOf(NameIssues(names, |names|)) <==> c == SqlUnknownIdentifier && names != []
  {
    var codes := CodesOf(NameIssues(names, |names|));
    assert forall i | 0 <= i < |codes| :: codes[i] == SqlUnknownIdentifier;
    if names != [] { assert codes[0] == SqlUnknownIdentifier; }
  }

  // ---- the report ----

  /** What validation has to say of entry i. */
  ghost predicate EntryProblem(g: Glossary, i: nat, tables: seq<TableInfo>, k: Checker, c: Code)
    requires i < |g.entries|
  {
    var e := g.entries[i];
    || TermProblem(g, i, k.norm, c)
    || (c == EmptyEntry && e.definition.None? && e.sql.None? && Refs(e) == [])
    || (exists ref :: ref in Refs(e) && RefProblem(ref, tables, c))
    || SqlProblem(e, CheckedRefs(e, tables, k.lang).allowed, k.options.maxSqlLength, k.lang, c)
  }

  lemma EntryCodesMean(g: Glossary, i: nat, tables: seq<TableInfo>, k: Checker, c: Code)
    requires WellDefined(k.norm, g) && i < |g.entries|
    ensures c in EntryCodes(g, i, tables, k) <==> EntryProblem(g, i, tables, k, c)
  {
    var e := g.entries[i];
    TermCodes(g, i, k.norm, c);
    RefsCodes(Checked([], {}), Refs(e), tables, k.lang, c);
    SqlCode(e, CheckedRefs(e, tables, k.lang).allowed, k.options.maxSqlLength, k.lang, c);
  }

  lemma {:induction false} NumberedMeans(codesOf: int -> seq<Code>, n: nat, p: Problem)
    ensures p in Numbered(codesOf, n) <==> 0 <= p.entry < n && p.code in codesOf(p.entry)
  {
    if n > 0 {
      NumberedMeans(codesOf, n - 1, p);
      var codes := codesOf(n - 1);
      if p.entry == n - 1 && p.code in codes {
        var j :| 0 <= j < |codes| && codes[j] == p.code;
        assert ProblemsOf(codes, n - 1)[j] == p;
      }
    }
  }

  /** The report holds exactly the problems there are: of each entry, what is wrong with it, and of the whole that
      the entries about no table do not all fit. */
  lemma ReportHolds(g: Glossary, tables: seq<TableInfo>, k: Checker, p: Problem)
    requires WellDefined(k.norm, g)
    ensures p in Validated(g, tables, k).problems <==>
            || (0 <= p.entry < |g.entries| && EntryProblem(g, p.entry, tables, k, p.code))
            || (p == Problem(GlobalsExceedBudget, -1)
                && |KeptLines(Candidates(g.entries, [], k.options, k.lang), [], k.options)|
                   < |Candidates(g.entries, [], k.options, k.lang)|)
  {
    NumberedMeans(CodesFor(g, tables, k), |g.entries|, p);
    if 0 <= p.entry < |g.entries| { EntryCodesMean(g, p.entry, tables, k, p.code); }
  }
}
