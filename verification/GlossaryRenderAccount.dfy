/** Which lines a glossary section has, and what each says. */
module GlossaryRenderAccount {
  import opened Schema
  import opened Text
  import Framing
  import opened Fragment
  import opened GlossaryRender

  // The section of packages/core/src/semantic/render.ts, line by line.

  // ---- which lines are kept ----

  /** With this line the section takes more than four characters a token, or there are enough lines. */
  predicate Full(lines: seq<string>, line: string, options: RenderOptions) {
    || |lines| >= options.maxEntries
    || Framing.Utf16Length(Join([options.header] + lines + [line], "\n")) > 4 * options.maxTokens
  }

  lemma FullMeans(lines: seq<string>, line: string, options: RenderOptions)
    ensures NoRoom(lines, line, options) <==> Full(lines, line, options)
  {
    assert [options.header] + (lines + [line]) == [options.header] + lines + [line];
  }

  /** Of two lists, the second is what became of the first when each candidate in its turn was kept unless the
      section was full. */
  datatype Story = End | Turn(candidate: Candidate, kept: bool, rest: Story) {
    function All(): seq<Candidate> {
      match this
      case End => []
      case Turn(c, _, rest) => [c] + rest.All()
    }

    function Kept(): seq<Candidate> {
      match this
      case End => []
      case Turn(c, kept, rest) => (if kept then [c] else []) + rest.Kept()
    }

    /** From these lines on, every candidate was left out exactly when the section was full for it. */
    ghost predicate Fair(lines: seq<string>, options: RenderOptions) {
      match this
      case End => true
      case Turn(c, kept, rest) =>
        && (kept <==> !Full(lines, c.line, options))
        && rest.Fair(if kept then lines + [c.line] else lines, options)
    }
  }

  lemma {:induction false} KeptInTurn(cs: seq<Candidate>, lines: seq<Candidate>, options: RenderOptions)
      returns (story: Story)
    ensures story.All() == cs && KeptLines(cs, lines, options) == lines + story.Kept()
    ensures story.Fair(LinesOf(lines), options)
    decreases cs
  {
    if cs == [] {
      story := End;
      assert lines + [] == lines;
    } else {
      var c := cs[0];
      FullMeans(LinesOf(lines), c.line, options);
      LinesGrow(lines, c);
      if NoRoom(LinesOf(lines), c.line, options) {
        var rest := KeptInTurn(cs[1..], lines, options);
        story := Turn(c, false, rest);
        assert [] + rest.Kept() == rest.Kept();
      } else {
        var rest := KeptInTurn(cs[1..], lines + [c], options);
        story := Turn(c, true, rest);
        assert lines + [c] + rest.Kept() == lines + ([c] + rest.Kept());
      }
    }
  }

  /** Each candidate of a section, in its turn, is kept unless the lines kept before it are enough or there is no
      room for it. */
  lemma SectionIsFair(cs: seq<Candidate>, options: RenderOptions) returns (story: Story)
    ensures story.All() == cs && KeptLines(cs, [], options) == story.Kept() && story.Fair([], options)
  {
    story := KeptInTurn(cs, [], options);
    assert LinesOf([]) == [] && [] + story.Kept() == story.Kept();
  }

  // ---- who is a candidate ----

  /** The entry is about no table in particular, or about one that is shown. */
  ghost predicate Concerns(e: GlossaryEntry, tables: seq<TableInfo>) {
    Refs(e) == [] || exists ref, t :: ref in Refs(e) && t in tables && Matches(ref, t)
  }

  lemma RelevantMeans(e: GlossaryEntry, tables: seq<TableInfo>, lang: Language)
    ensures Relevant(e, Locate(e, tables, lang)) <==> Concerns(e, tables)
  {
    WithRefsMeans(Located([], {}, Refs(e) != [], false), Refs(e), tables, lang);
    if ref :| ref in Refs(e) && Found(ref, tables) != [] {
      var t := Found(ref, tables)[0];
      assert t in Found(ref, tables);
      FoundMeans(ref, tables, t);
    }
    if ref, t :| ref in Refs(e) && t in tables && Matches(ref, t) {
      FoundMeans(ref, tables, t);
    }
  }

  /** There is something to say: a definition that is not blank, a name, or an expression that is shown. */
  ghost predicate HasSomething(e: GlossaryEntry, l: Located, options: RenderOptions, lang: Language) {
    || (e.definition.Some? && Tidied(e.definition.value) != "")
    || l.names != []
    || ShownSql(e, l, options, lang).Some?
  }

  lemma LineExists(e: GlossaryEntry, l: Located, options: RenderOptions, lang: Language)
    ensures LineOf(e, l, options, lang).Some? <==> HasSomething(e, l, options, lang)
  {
  }

  lemma {:induction false} CandidatesMean(entries: seq<GlossaryEntry>, tables: seq<TableInfo>, options: RenderOptions,
                                          lang: Language, c: Candidate)
    ensures c in Candidates(entries, tables, options, lang) <==>
            exists e :: e in entries && StandsFor(c, e, tables, options, lang)
  {
    if entries != [] {
      var e := entries[0];
      CandidatesMean(entries[1..], tables, options, lang, c);
      OneStands(e, tables, options, lang, c);
      assert forall x :: x in entries <==> x == e || x in entries[1..];
    }
  }

  /** The candidate is the line of an entry that concerns what is shown and has something to say. */
  ghost predicate StandsFor(c: Candidate, e: GlossaryEntry, tables: seq<TableInfo>, options: RenderOptions,
                            lang: Language) {
    && Concerns(e, tables) && HasSomething(e, Locate(e, tables, lang), options, lang)
    && c.term == e.term && LineOf(e, Locate(e, tables, lang), options, lang) == Some(c.line)
  }

  lemma OneStands(e: GlossaryEntry, tables: seq<TableInfo>, options: RenderOptions, lang: Language, c: Candidate)
    ensures c in CandidateOf(e, tables, options, lang) <==> StandsFor(c, e, tables, options, lang)
  {
    RelevantMeans(e, tables, lang);
    LineExists(e, Locate(e, tables, lang), options, lang);
  }

  // ---- what a line says ----

  lemma HeadHolds(e: GlossaryEntry)
    ensures Named(Head(e), e)
  {
    var term, synonyms := Tidied(e.term), Spelled(e.synonyms.GetOr([]));
    var tail := if synonyms == [] then "" else " (also: " + Join(synonyms, ", ") + ")";
    Within("- ", term, tail, Head(e));
    forall s | s in e.synonyms.GetOr([]) && Tidied(s) != "" ensures Includes(Head(e), Tidied(s)) {
      SpelledHolds(e.synonyms.GetOr([]), s);
      JoinIncludes(synonyms, ", ", Tidied(s));
      IncludedInMore("- " + term + " (also: ", Join(synonyms, ", "), ")", Tidied(s));
    }
  }

  lemma {:induction false} SpelledHolds(synonyms: seq<string>, s: string)
    requires s in synonyms && Tidied(s) != ""
    ensures Tidied(s) in Spelled(synonyms)
  {
    if synonyms[0] != s { SpelledHolds(synonyms[1..], s); }
  }

  lemma Within(before: string, part: string, after: string, whole: string)
    requires whole == before + part + after
    ensures Includes(whole, part)
  {
    assert PartAt(part, part, 0);
    IncludedInMore(before, part, after, part);
  }

  /** A line holds the term and its synonyms, the definition, every name and the expression that is shown. */
  lemma LineSays(e: GlossaryEntry, l: Located, options: RenderOptions, lang: Language)
    requires HasSomething(e, l, options, lang)
    ensures LineOf(e, l, options, lang).Some?
    ensures Named(LineOf(e, l, options, lang).value, e) && Told(LineOf(e, l, options, lang).value, e, l, options, lang)
  {
    var head, body := Head(e), Join(Body(e, l, options, lang), " ");
    HeadHolds(e);
    BodyHolds(e, l, options, lang);
    NamedInFront(head, body, e);
    ToldBehind(head, body, e, l, options, lang);
  }

  /** The text holds the term and every synonym. */
  ghost predicate Named(text: string, e: GlossaryEntry) {
    && Includes(text, Tidied(e.term))
    && forall s | s in e.synonyms.GetOr([]) && Tidied(s) != "" :: Includes(text, Tidied(s))
  }

  /** The text holds the definition, every name, and the expression that is shown. */
  ghost predicate Told(text: string, e: GlossaryEntry, l: Located, options: RenderOptions, lang: Language) {
    && (e.definition.Some? && Tidied(e.definition.value) != "" ==> Includes(text, Tidied(e.definition.value)))
    && (forall name | name in l.names :: Includes(text, name))
    && (ShownSql(e, l, options, lang).Some? ==> Includes(text, "SQL: " + ShownSql(e, l, options, lang).value))
  }

  lemma InFront(head: string, body: string, part: string)
    ensures Includes(head, part) ==> Includes(head + ": " + body, part)
    ensures Includes(body, part) ==> Includes(head + ": " + body, part)
  {
    assert head + ": " + body == "" + head + (": " + body) && head + ": " + body == (head + ": ") + body + "";
    if Includes(head, part) { IncludedInMore("", head, ": " + body, part); }
    if Includes(body, part) { IncludedInMore(head + ": ", body, "", part); }
  }

  lemma NamedInFront(head: string, body: string, e: GlossaryEntry)
    requires Named(head, e)
    ensures Named(head + ": " + body, e)
  {
    forall part ensures Includes(head, part) ==> Includes(head + ": " + body, part) { InFront(head, body, part); }
  }

  lemma ToldBehind(head: string, body: string, e: GlossaryEntry, l: Located, options: RenderOptions, lang: Language)
    requires Told(body, e, l, options, lang)
    ensures Told(head + ": " + body, e, l, options, lang)
  {
    forall part ensures Includes(body, part) ==> Includes(head + ": " + body, part) { InFront(head, body, part); }
  }

  /** Whatever a part includes, the text does. */
  ghost predicate Carries(text: string, parts: seq<string>) {
    forall p, part | p in parts && Includes(p, part) :: Includes(text, part)
  }

  lemma BodyHolds(e: GlossaryEntry, l: Located, options: RenderOptions, lang: Language)
    ensures Told(Join(Body(e, l, options, lang), " "), e, l, options, lang)
  {
    var parts := Body(e, l, options, lang);
    var text := Join(parts, " ");
    forall p, part | p in parts && Includes(p, part) ensures Includes(text, part) {
      InJoined(parts, " ", p, part);
    }
    DefinitionTold(text, e);
    NamesTold(text, l);
    SqlTold(text, parts, e, l, options, lang);
  }

  lemma DefinitionTold(text: string, e: GlossaryEntry)
    ensures Carries(text, Explained(e)) && e.definition.Some? && Tidied(e.definition.value) != "" ==>
              Includes(text, Tidied(e.definition.value))
  {
    if e.definition.Some? && Tidied(e.definition.value) != "" {
      SentenceHolds(e.definition.value);
      assert Sentence(e.definition.value) in Explained(e);
    }
  }

  lemma NamesTold(text: string, l: Located)
    ensures Carries(text, Used(l)) ==> forall name | name in l.names :: Includes(text, name)
  {
    forall name | name in l.names && Carries(text, Used(l)) ensures Includes(text, name) {
      UsedHolds(l, name);
      assert Used(l)[0] in Used(l);
    }
  }

  lemma SqlTold(text: string, parts: seq<string>, e: GlossaryEntry, l: Located, options: RenderOptions, lang: Language)
    requires parts == Body(e, l, options, lang) && Carries(text, parts)
    ensures ShownSql(e, l, options, lang).Some? ==> Includes(text, "SQL: " + ShownSql(e, l, options, lang).value)
  {
    if ShownSql(e, l, options, lang).Some? {
      var sql := "SQL: " + ShownSql(e, l, options, lang).value;
      Within("", sql, "", sql);
      assert parts[|parts| - 1] == sql;
    }
  }

  lemma SentenceHolds(text: string)
    ensures Includes(Sentence(text), Tidied(text))
  {
    var one := Tidied(text);
    Within("", one, if Sentence(text) == one then "" else ".", Sentence(text));
  }

  lemma UsedHolds(l: Located, name: string)
    requires name in l.names
    ensures Used(l) != [] && Includes(Used(l)[0], name)
  {
    JoinIncludes(l.names, ", ", name);
    IncludedInMore("Uses ", Join(l.names, ", "), ".", name);
  }

  lemma {:induction false} InJoined(parts: seq<string>, glue: string, p: string, part: string)
    requires p in parts && Includes(p, part)
    ensures Includes(Join(parts, glue), part)
  {
    if |parts| == 1 {
      assert parts[0] == p;
    } else if parts[0] == p {
      IncludedInMore("", p, glue + Join(parts[1..], glue), part);
      assert "" + p + (glue + Join(parts[1..], glue)) == Join(parts, glue);
    } else {
      InJoined(parts[1..], glue, p, part);
      IncludedInMore(parts[0] + glue, Join(parts[1..], glue), "", part);
      assert (parts[0] + glue) + Join(parts[1..], glue) + "" == Join(parts, glue);
    }
  }
}
