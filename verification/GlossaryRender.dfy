/** packages/core/src/semantic/render.ts: the glossary section of a prompt. The heading and the keyword
    list are values the functions are given. */
module GlossaryRender {
  import opened Schema
  import opened Text
  import opened Fragment
  import Framing

  datatype RenderOptions = RenderOptions(header: string, maxTokens: int, maxEntries: int, maxSqlLength: int,
                                         includeSql: bool)

  // ---- locate ----

  predicate Matches(ref: GlossaryRef, t: TableInfo) {
    t.name == ref.table && (ref.schema.None? || t.schema == ref.schema.value)
  }

  function Found(ref: GlossaryRef, tables: seq<TableInfo>): seq<TableInfo> {
    if tables == [] then []
    else (if Matches(ref, tables[0]) then [tables[0]] else []) + Found(ref, tables[1..])
  }

  predicate HasColumn(t: TableInfo, column: string) {
    exists c :: c in t.columns && c.name == column
  }

  function Present(t: TableInfo, wanted: seq<string>): seq<string> {
    if wanted == [] then []
    else (if HasColumn(t, wanted[0]) then [wanted[0]] else []) + Present(t, wanted[1..])
  }

  function TableName(t: TableInfo): string {
    t.schema + "." + t.name
  }

  function ColumnName(t: TableInfo, column: string): string {
    TableName(t) + "." + column
  }

  datatype Located = Located(names: seq<string>, allowed: set<string>, complete: bool, resolved: bool)

  function WithColumns(l: Located, t: TableInfo, columns: seq<string>, lang: Language): Located
    decreases columns
  {
    if columns == [] then l
    else
      var c := columns[0];
      WithColumns(l.(names := Noted(l.names, ColumnName(t, c)), allowed := AllowIdentifier(l.allowed, c, lang)),
                  t, columns[1..], lang)
  }

  function WithTable(l: Located, t: TableInfo, wanted: seq<string>, lang: Language): Located {
    var allowed := AllowIdentifier(AllowIdentifier(l.allowed, t.schema, lang), t.name, lang);
    var present := Present(t, wanted);
    var m := WithColumns(l.(allowed := allowed), t, present, lang);
    m.(names := if wanted == [] then Noted(m.names, TableName(t)) else m.names,
       complete := m.complete && |present| == |wanted|)
  }

  function WithTables(l: Located, ts: seq<TableInfo>, wanted: seq<string>, lang: Language): Located
    decreases ts
  {
    if ts == [] then l else WithTables(WithTable(l, ts[0], wanted, lang), ts[1..], wanted, lang)
  }

  function WithRef(l: Located, ref: GlossaryRef, tables: seq<TableInfo>, lang: Language): Located {
    var found := Found(ref, tables);
    if found == [] then l.(complete := false)
    else WithTables(l.(resolved := true), found, ref.columns.GetOr([]), lang)
  }

  function WithRefs(l: Located, refs: seq<GlossaryRef>, tables: seq<TableInfo>, lang: Language): Located
    decreases refs
  {
    if refs == [] then l else WithRefs(WithRef(l, refs[0], tables, lang), refs[1..], tables, lang)
  }

  function Refs(e: GlossaryEntry): seq<GlossaryRef> {
    e.refs.GetOr([])
  }

  function Locate(e: GlossaryEntry, tables: seq<TableInfo>, lang: Language): Located {
    WithRefs(Located([], {}, Refs(e) != [], false), Refs(e), tables, lang)
  }

  method LocateEntry(e: GlossaryEntry, tables: seq<TableInfo>, lang: Language) returns (l: Located)
    ensures l == Locate(e, tables, lang)
  {
    var refs := Refs(e);
    l := Located([], {}, refs != [], false);
    var i := 0;
    while i < |refs|
      invariant 0 <= i <= |refs| && WithRefs(l, refs[i..], tables, lang) == Locate(e, tables, lang)
    {
      assert refs[i..][1..] == refs[i + 1..];
      var found := Found(refs[i], tables);
      ghost var next := WithRef(l, refs[i], tables, lang);
      if found == [] {
        l := l.(complete := false);
      } else {
        l := LocateOn(l.(resolved := true), found, refs[i].columns.GetOr([]), lang);
      }
      assert l == next;
      i := i + 1;
    }
  }

  method LocateOn(l0: Located, found: seq<TableInfo>, wanted: seq<string>, lang: Language) returns (l: Located)
    ensures l == WithTables(l0, found, wanted, lang)
  {
    l := l0;
    var i := 0;
    while i < |found|
      invariant 0 <= i <= |found| && WithTables(l, found[i..], wanted, lang) == WithTables(l0, found, wanted, lang)
    {
      var t := found[i];
      assert found[i..][1..] == found[i + 1..];
      ghost var next := WithTable(l, t, wanted, lang);
      l := l.(allowed := AllowIdentifier(AllowIdentifier(l.allowed, t.schema, lang), t.name, lang));
      var present := Present(t, wanted);
      l := NameColumns(l, t, present, lang);
      if wanted == [] { l := l.(names := Noted(l.names, TableName(t))); }
      if |present| != |wanted| { l := l.(complete := false); }
      assert l == next;
      i := i + 1;
    }
  }

  method NameColumns(l0: Located, t: TableInfo, present: seq<string>, lang: Language) returns (l: Located)
    ensures l == WithColumns(l0, t, present, lang)
  {
    l := l0;
    var i := 0;
    while i < |present|
      invariant 0 <= i <= |present| && WithColumns(l, t, present[i..], lang) == WithColumns(l0, t, present, lang)
    {
      assert present[i..][1..] == present[i + 1..];
      l := l.(names := Noted(l.names, ColumnName(t, present[i])),
              allowed := AllowIdentifier(l.allowed, present[i], lang));
      i := i + 1;
    }
  }

  // ---- what locate finds ----

  /** A name that a reference has on a table. */
  ghost predicate Names(name: string, t: TableInfo, wanted: seq<string>) {
    if wanted == [] then name == TableName(t)
    else exists c :: c in wanted && HasColumn(t, c) && name == ColumnName(t, c)
  }

  /** A spelling that a reference makes available to an expression. */
  ghost predicate Grants(x: string, t: TableInfo, wanted: seq<string>, lang: Language) {
    || x == t.schema || x == lang.lower(t.schema) || x == t.name || x == lang.lower(t.name)
    || exists c :: c in wanted && HasColumn(t, c) && (x == c || x == lang.lower(c))
  }

  predicate AllPresent(t: TableInfo, wanted: seq<string>) {
    forall c :: c in wanted ==> HasColumn(t, c)
  }

  lemma {:induction false} FoundMeans(ref: GlossaryRef, tables: seq<TableInfo>, t: TableInfo)
    ensures t in Found(ref, tables) <==> t in tables && Matches(ref, t)
  {
    if tables != [] { FoundMeans(ref, tables[1..], t); }
  }

  lemma {:induction false} PresentMeans(t: TableInfo, wanted: seq<string>)
    ensures forall c :: c in Present(t, wanted) <==> c in wanted && HasColumn(t, c)
    ensures |Present(t, wanted)| <= |wanted|
    ensures |Present(t, wanted)| == |wanted| <==> AllPresent(t, wanted)
  {
    if wanted != [] {
      PresentMeans(t, wanted[1..]);
      assert forall c :: c in wanted <==> c == wanted[0] || c in wanted[1..];
    }
  }

  lemma {:induction false} WithColumnsMeans(l: Located, t: TableInfo, columns: seq<string>, lang: Language)
    ensures var m := WithColumns(l, t, columns, lang);
            && (forall n :: n in m.names <==> n in l.names || exists c :: c in columns && n == ColumnName(t, c))
            && (forall x :: x in m.allowed <==>
                x in l.allowed || exists c :: c in columns && (x == c || x == lang.lower(c)))
            && m.complete == l.complete && m.resolved == l.resolved
    decreases columns
  {
    if columns != [] {
      var c := columns[0];
      var k := l.(names := Noted(l.names, ColumnName(t, c)), allowed := AllowIdentifier(l.allowed, c, lang));
      WithColumnsMeans(k, t, columns[1..], lang);
      assert forall d :: d in columns <==> d == c || d in columns[1..];
    }
  }

  lemma WithTableMeans(l: Located, t: TableInfo, wanted: seq<string>, lang: Language)
    ensures var m := WithTable(l, t, wanted, lang);
            && (forall n :: n in m.names <==> n in l.names || Names(n, t, wanted))
            && (forall x :: x in m.allowed <==> x in l.allowed || Grants(x, t, wanted, lang))
            && m.complete == (l.complete && AllPresent(t, wanted)) && m.resolved == l.resolved
  {
    var allowed := AllowIdentifier(AllowIdentifier(l.allowed, t.schema, lang), t.name, lang);
    PresentMeans(t, wanted);
    WithColumnsMeans(l.(allowed := allowed), t, Present(t, wanted), lang);
  }

  ghost predicate NamedOn(name: string, ts: seq<TableInfo>, wanted: seq<string>) {
    exists t :: t in ts && Names(name, t, wanted)
  }

  ghost predicate GrantedOn(x: string, ts: seq<TableInfo>, wanted: seq<string>, lang: Language) {
    exists t :: t in ts && Grants(x, t, wanted, lang)
  }

  predicate AllPresentOn(ts: seq<TableInfo>, wanted: seq<string>) {
    forall t :: t in ts ==> AllPresent(t, wanted)
  }

  lemma {:induction false} WithTablesMeans(l: Located, ts: seq<TableInfo>, wanted: seq<string>, lang: Language)
    ensures var m := WithTables(l, ts, wanted, lang);
            && (forall n :: n in m.names <==> n in l.names || NamedOn(n, ts, wanted))
            && (forall x :: x in m.allowed <==> x in l.allowed || GrantedOn(x, ts, wanted, lang))
            && m.complete == (l.complete && AllPresentOn(ts, wanted)) && m.resolved == l.resolved
    decreases ts
  {
    if ts != [] {
      var k := WithTable(l, ts[0], wanted, lang);
      WithTableMeans(l, ts[0], wanted, lang);
      WithTablesMeans(k, ts[1..], wanted, lang);
      assert forall t :: t in ts <==> t == ts[0] || t in ts[1..];
      forall n ensures NamedOn(n, ts, wanted) <==> Names(n, ts[0], wanted) || NamedOn(n, ts[1..], wanted) {}
      forall x ensures GrantedOn(x, ts, wanted, lang) <==>
          Grants(x, ts[0], wanted, lang) || GrantedOn(x, ts[1..], wanted, lang) {}
    }
  }

  // The same over all references of an entry.

  function Wanted(ref: GlossaryRef): seq<string> {
    ref.columns.GetOr([])
  }

  ghost predicate NamedBy(name: string, refs: seq<GlossaryRef>, tables: seq<TableInfo>) {
    exists ref :: ref in refs && NamedOn(name, Found(ref, tables), Wanted(ref))
  }

  ghost predicate GrantedBy(x: string, refs: seq<GlossaryRef>, tables: seq<TableInfo>, lang: Language) {
    exists ref :: ref in refs && GrantedOn(x, Found(ref, tables), Wanted(ref), lang)
  }

  predicate Resolved(ref: GlossaryRef, tables: seq<TableInfo>) {
    Found(ref, tables) != [] && AllPresentOn(Found(ref, tables), Wanted(ref))
  }

  lemma WithRefMeans(l: Located, ref: GlossaryRef, tables: seq<TableInfo>, lang: Language)
    ensures var m := WithRef(l, ref, tables, lang);
            && (forall n :: n in m.names <==> n in l.names || NamedOn(n, Found(ref, tables), Wanted(ref)))
            && (forall x :: x in m.allowed <==> x in l.allowed || GrantedOn(x, Found(ref, tables), Wanted(ref), lang))
            && m.complete == (l.complete && Resolved(ref, tables))
            && m.resolved == (l.resolved || Found(ref, tables) != [])
  {
    WithTablesMeans(l.(resolved := true), Found(ref, tables), Wanted(ref), lang);
  }

  lemma {:induction false} WithRefsMeans(l: Located, refs: seq<GlossaryRef>, tables: seq<TableInfo>, lang: Language)
    ensures var m := WithRefs(l, refs, tables, lang);
            && (forall n :: n in m.names <==> n in l.names || NamedBy(n, refs, tables))
            && (forall x :: x in m.allowed <==> x in l.allowed || GrantedBy(x, refs, tables, lang))
            && m.complete == (l.complete && forall ref :: ref in refs ==> Resolved(ref, tables))
            && m.resolved == (l.resolved || exists ref :: ref in refs && Found(ref, tables) != [])
    decreases refs
  {
    if refs != [] {
      WithRefMeans(l, refs[0], tables, lang);
      WithRefsMeans(WithRef(l, refs[0], tables, lang), refs[1..], tables, lang);
      assert forall r :: r in refs <==> r == refs[0] || r in refs[1..];
      forall n ensures NamedBy(n, refs, tables)
                  <==> NamedOn(n, Found(refs[0], tables), Wanted(refs[0])) || NamedBy(n, refs[1..], tables) {}
      forall x ensures GrantedBy(x, refs, tables, lang)
                  <==> (GrantedOn(x, Found(refs[0], tables), Wanted(refs[0]), lang)
                        || GrantedBy(x, refs[1..], tables, lang)) {}
    }
  }

  /** Every name an entry would put into a prompt is a name of a selected table, or of a column that table
      really has; nothing else, and nothing the entry asked for on those tables is missing. */
  lemma NamesAreOnSelectedTables(e: GlossaryEntry, tables: seq<TableInfo>, lang: Language, name: string)
    ensures name in Locate(e, tables, lang).names
       <==> exists ref, t :: ref in Refs(e) && t in tables && Matches(ref, t) && Names(name, t, Wanted(ref))
  {
    WithRefsMeans(Located([], {}, Refs(e) != [], false), Refs(e), tables, lang);
    if name in Locate(e, tables, lang).names {
      var ref :| ref in Refs(e) && NamedOn(name, Found(ref, tables), Wanted(ref));
      var t :| t in Found(ref, tables) && Names(name, t, Wanted(ref));
      FoundMeans(ref, tables, t);
    }
    if ref, t :| ref in Refs(e) && t in tables && Matches(ref, t) && Names(name, t, Wanted(ref)) {
      FoundMeans(ref, tables, t);
      assert NamedOn(name, Found(ref, tables), Wanted(ref));
    }
  }

  // ---- one entry's line ----

  /** The expression as the line shows it, when it does. */
  function ShownSql(e: GlossaryEntry, l: Located, options: RenderOptions, lang: Language): Option<string> {
    if e.sql.Some? && options.includeSql && l.complete
        && Issues(e.sql.value, l.allowed, options.maxSqlLength, lang) == []
    then Some(Tidied(e.sql.value)) else None
  }

  function Sentence(text: string): string {
    var one := Tidied(text);
    if one != "" && one[|one| - 1] in ".!?" then one else one + "."
  }

  function Spelled(synonyms: seq<string>): seq<string> {
    if synonyms == [] then []
    else (if Tidied(synonyms[0]) == "" then [] else [Tidied(synonyms[0])]) + Spelled(synonyms[1..])
  }

  function Head(e: GlossaryEntry): string {
    var synonyms := Spelled(e.synonyms.GetOr([]));
    if synonyms == [] then "- " + Tidied(e.term)
    else "- " + Tidied(e.term) + " (also: " + Join(synonyms, ", ") + ")"
  }

  function Explained(e: GlossaryEntry): seq<string> {
    if e.definition.Some? && Tidied(e.definition.value) != "" then [Sentence(e.definition.value)] else []
  }

  function Used(l: Located): seq<string> {
    if l.names != [] then ["Uses " + Join(l.names, ", ") + "."] else []
  }

  function Body(e: GlossaryEntry, l: Located, options: RenderOptions, lang: Language): seq<string> {
    Explained(e) + Used(l)
    + (match ShownSql(e, l, options, lang) case Some(sql) => ["SQL: " + sql] case None => [])
  }

  method RenderEntry(e: GlossaryEntry, l: Located, options: RenderOptions, lang: Language)
      returns (line: Option<string>)
    ensures line == LineOf(e, l, options, lang)
  {
    var body := Explained(e) + Used(l);
    if e.sql.Some? && options.includeSql && l.complete {
      var issues := FragmentIssues(e.sql.value, l.allowed, options.maxSqlLength, lang);
      if |issues| == 0 {
        body := body + ["SQL: " + Tidied(e.sql.value)];
      }
    }
    assert body == Body(e, l, options, lang);
    line := if |body| == 0 then None else Some(Head(e) + ": " + Join(body, " "));
  }

  function LineOf(e: GlossaryEntry, l: Located, options: RenderOptions, lang: Language): Option<string> {
    var body := Body(e, l, options, lang);
    if body == [] then None else Some(Head(e) + ": " + Join(body, " "))
  }

  /** An expression is shown exactly when the host wants expressions, every reference is met on every
      selected table it names, and the expression is fit: it hides no statement end or comment, and each of
      its names, as the lexer splits it, is a keyword, a call or declared by the entry and found. */
  lemma ShownSqlIsFit(e: GlossaryEntry, tables: seq<TableInfo>, options: RenderOptions, lang: Language)
    ensures var l := Locate(e, tables, lang);
            ShownSql(e, l, options, lang).Some? <==>
              && e.sql.Some? && options.includeSql
              && Refs(e) != [] && (forall ref :: ref in Refs(e) ==> Resolved(ref, tables))
              && Fit(e.sql.value, l.allowed, options.maxSqlLength, lang)
    ensures forall x :: x in Locate(e, tables, lang).allowed <==> GrantedBy(x, Refs(e), tables, lang)
  {
    WithRefsMeans(Located([], {}, Refs(e) != [], false), Refs(e), tables, lang);
    if e.sql.Some? {
      NoIssuesMeansFit(e.sql.value, Locate(e, tables, lang).allowed, options.maxSqlLength, lang);
    }
  }

  // ---- the section ----

  datatype Candidate = Candidate(term: string, line: string)

  predicate Relevant(e: GlossaryEntry, l: Located) {
    Refs(e) == [] || l.resolved
  }

  function CandidateOf(e: GlossaryEntry, tables: seq<TableInfo>, options: RenderOptions,
                       lang: Language): seq<Candidate> {
    var l := Locate(e, tables, lang);
    var line := LineOf(e, l, options, lang);
    if Relevant(e, l) && line.Some? then [Candidate(e.term, line.value)] else []
  }

  function Candidates(entries: seq<GlossaryEntry>, tables: seq<TableInfo>, options: RenderOptions,
                      lang: Language): seq<Candidate> {
    if entries == [] then []
    else CandidateOf(entries[0], tables, options, lang) + Candidates(entries[1..], tables, options, lang)
  }

  function Prompt(header: string, lines: seq<string>): string {
    Join([header] + lines, "\n")
  }

  predicate NoRoom(lines: seq<string>, line: string, options: RenderOptions) {
    |lines| >= options.maxEntries || Framing.EstimateTokens(Prompt(options.header, lines + [line])) > options.maxTokens
  }

  /** The lines kept from the candidates: each one that still has room when its turn comes. */
  function KeptLines(cs: seq<Candidate>, lines: seq<Candidate>, options: RenderOptions): seq<Candidate>
    decreases cs
  {
    if cs == [] then lines
    else KeptLines(cs[1..], if NoRoom(LinesOf(lines), cs[0].line, options) then lines else lines + [cs[0]], options)
  }

  function LinesOf(cs: seq<Candidate>): seq<string> {
    seq(|cs|, i requires 0 <= i < |cs| => cs[i].line)
  }

  function TermList(cs: seq<Candidate>): seq<string> {
    seq(|cs|, i requires 0 <= i < |cs| => cs[i].term)
  }

  datatype GlossarySection = GlossarySection(text: string, included: seq<string>, omitted: int, estimatedTokens: int)

  method Consider(e: GlossaryEntry, tables: seq<TableInfo>, options: RenderOptions, lang: Language)
    returns (added: seq<Candidate>)
    ensures added == CandidateOf(e, tables, options, lang)
  {
    var located := LocateEntry(e, tables, lang);
    if !Relevant(e, located) { return []; }
    var line := RenderEntry(e, located, options, lang);
    added := if line.Some? then [Candidate(e.term, line.value)] else [];
  }

  lemma Regroup(a: seq<Candidate>, b: seq<Candidate>, c: seq<Candidate>)
    ensures a + (b + c) == (a + b) + c
  {
  }

  method CollectCandidates(entries: seq<GlossaryEntry>, tables: seq<TableInfo>, options: RenderOptions, lang: Language)
    returns (candidates: seq<Candidate>)
    ensures candidates == Candidates(entries, tables, options, lang)
  {
    candidates := [];
    var i := 0;
    while i < |entries|
      invariant 0 <= i <= |entries|
      invariant candidates + Candidates(entries[i..], tables, options, lang) ==
                  Candidates(entries, tables, options, lang)
    {
      var added := Consider(entries[i], tables, options, lang);
      assert entries[i..][1..] == entries[i + 1..];
      Regroup(candidates, added, Candidates(entries[i + 1..], tables, options, lang));
      candidates := candidates + added;
      i := i + 1;
    }
  }

  lemma LinesGrow(kept: seq<Candidate>, c: Candidate)
    ensures LinesOf(kept + [c]) == LinesOf(kept) + [c.line] && TermList(kept + [c]) == TermList(kept) + [c.term]
  {
  }

  method FillSection(candidates: seq<Candidate>, options: RenderOptions)
      returns (text: string, included: seq<string>, omitted: int)
    ensures var kept := KeptLines(candidates, [], options);
            && text == (if kept == [] then "" else Prompt(options.header, LinesOf(kept)))
            && included == TermList(kept) && omitted == |candidates| - |kept|
  {
    var lines: seq<string> := [];
    ghost var kept: seq<Candidate> := [];
    included, text, omitted := [], "", 0;
    var i := 0;
    while i < |candidates|
      invariant 0 <= i <= |candidates|
      invariant lines == LinesOf(kept) && included == TermList(kept) && omitted == i - |kept|
      invariant text == if kept == [] then "" else Prompt(options.header, lines)
      invariant KeptLines(candidates[i..], kept, options) == KeptLines(candidates, [], options)
    {
      var c := candidates[i];
      assert candidates[i..][1..] == candidates[i + 1..];
      var next := Prompt(options.header, lines + [c.line]);
      i := i + 1;
      if |lines| >= options.maxEntries || Framing.EstimateTokens(next) > options.maxTokens {
        omitted := omitted + 1;
        continue;
      }
      LinesGrow(kept, c);
      lines, included, text := lines + [c.line], included + [c.term], next;
      kept := kept + [c];
    }
  }

  method RenderGlossary(entries: seq<GlossaryEntry>, tables: seq<TableInfo>, options: RenderOptions, lang: Language)
    returns (section: GlossarySection)
    ensures var cs := Candidates(entries, tables, options, lang);
            var kept := KeptLines(cs, [], options);
            && section.text == (if kept == [] then "" else Prompt(options.header, LinesOf(kept)))
            && section.included == TermList(kept) && section.omitted == |cs| - |kept|
            && section.estimatedTokens == Framing.EstimateTokens(section.text)
  {
    var candidates := CollectCandidates(entries, tables, options, lang);
    var text, included, omitted := FillSection(candidates, options);
    section := GlossarySection(text, included, omitted, Framing.EstimateTokens(text));
  }

  // ---- the budget ----

  ghost predicate WithinBudget(lines: seq<Candidate>, options: RenderOptions) {
    lines == [] || (|lines| <= options.maxEntries
                    && Framing.EstimateTokens(Prompt(options.header, LinesOf(lines))) <= options.maxTokens)
  }

  ghost predicate Subsequence(xs: seq<Candidate>, ys: seq<Candidate>)
    decreases ys
  {
    if ys == [] then xs == []
    else Subsequence(xs, ys[1..]) || (xs != [] && xs[0] == ys[0] && Subsequence(xs[1..], ys[1..]))
  }

  /** Whatever the candidates, the section keeps to both caps, and it keeps candidates in their order. */
  lemma {:induction false} SectionKeepsToItsBudget(cs: seq<Candidate>, lines: seq<Candidate>, options: RenderOptions)
    requires WithinBudget(lines, options)
    ensures var kept := KeptLines(cs, lines, options);
            WithinBudget(kept, options) && lines <= kept && Subsequence(kept[|lines|..], cs)
    decreases cs
  {
    if cs != [] {
      var kept := KeptLines(cs, lines, options);
      if NoRoom(LinesOf(lines), cs[0].line, options) {
        SectionKeepsToItsBudget(cs[1..], lines, options);
      } else {
        LinesGrow(lines, cs[0]);
        SectionKeepsToItsBudget(cs[1..], lines + [cs[0]], options);
        var rest := kept[|lines|..];
        assert rest[0] == (lines + [cs[0]])[|lines|];
        assert rest[1..] == kept[|lines| + 1..];
      }
    }
  }

  lemma {:induction false} JoinGrows(xs: seq<string>, ys: seq<string>, glue: string)
    requires xs != []
    ensures Join(xs, glue) <= Join(xs + ys, glue)
  {
    if |xs| == 1 {
      if ys != [] {
        assert (xs + ys)[1..] == ys;
        assert xs + ys == [xs[0]] + ys;
      } else {
        assert xs + ys == xs;
      }
    } else {
      JoinGrows(xs[1..], ys, glue);
      assert (xs + ys)[1..] == xs[1..] + ys;
    }
  }

  lemma {:induction false} MeasureOfPrefix(s: string, t: string)
    requires s <= t
    ensures Framing.Utf16Length(s) <= Framing.Utf16Length(t)
  {
    if s != "" { MeasureOfPrefix(s[1..], t[1..]); }
  }

  /** If all candidates fit together, none is left out: an entry is dropped only for want of room. */
  lemma {:induction false} NothingDroppedWithoutCause(cs: seq<Candidate>, lines: seq<Candidate>, options: RenderOptions)
    requires WithinBudget(lines + cs, options)
    ensures KeptLines(cs, lines, options) == lines + cs
    decreases cs
  {
    if cs == [] {
      assert lines + cs == lines;
    } else {
      var more := lines + [cs[0]];
      LinesGrow(lines, cs[0]);
      assert more + cs[1..] == lines + cs;
      assert LinesOf(lines + cs) == LinesOf(more) + LinesOf(cs[1..]);
      var h := [options.header];
      assert h + LinesOf(lines + cs) == (h + LinesOf(more)) + LinesOf(cs[1..]);
      JoinGrows(h + LinesOf(more), LinesOf(cs[1..]), "\n");
      MeasureOfPrefix(Prompt(options.header, LinesOf(more)), Prompt(options.header, LinesOf(lines + cs)));
      NothingDroppedWithoutCause(cs[1..], more, options);
    }
  }
}
