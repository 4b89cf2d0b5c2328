/** Ways to misread an expression. */
module Misreading {
  import opened Schema
  import opened Fragment
  import opened Pieces

  // By unknownIdentifiers of packages/core/src/semantic/fragment.ts.

  predicate NoQuotes(s: string) {
    '\'' !in s && '"' !in s
  }

  lemma QuoteOf(body: string, q: char)
    requires q !in body
    ensures Quote(body, q) == [q] + body + [q]
  {
    NothingDoubled(body, q);
  }

  /** Text around one literal, nobody's or somebody's: what stands before and after is passed, what is in
      it goes. An apostrophe at the very end opens nothing. */
  lemma PassAround(before: string, inside: string, after: string)
    requires '\'' !in before
    requires after != "" ==> after[0] != '\''
    requires forall k | 0 <= k < |after| - 1 :: after[k] != '\''
    ensures WithoutLiterals(before + Quote(inside, '\'') + after) == before + (['\'', '\''] + after)
  {
    var literal := Quote(inside, '\'');
    var s := before + literal + after;
    assert s[|before| + |literal|..] == after;
    forall k | 0 <= k < |literal| ensures s[|before| + k] == literal[k] {}
    PassAroundIn(s, before, inside, after);
  }

  lemma PassAroundIn(s: string, before: string, inside: string, after: string)
    requires '\'' !in before && Holds(s, 0, before) && Holds(s, |before|, Quote(inside, '\''))
    requires s[|before| + |Quote(inside, '\'')|..] == after
    requires after != "" ==> after[0] != '\''
    requires forall k | 0 <= k < |after| - 1 :: after[k] != '\''
    ensures WithoutLiterals(s) == before + (['\'', '\''] + after)
  {
    var n := |before| + |Quote(inside, '\'')|;
    PassPart(s, 0, before, '\'', "''");
    assert n < |s| ==> s[n] == after[0];
    PassInside(s, |before|, inside);
    forall k | n <= k < |s| - 1 ensures s[k] != '\'' { assert s[k] == after[k - n]; }
    TailPasses(s, n);
  }

  lemma PassInside(s: string, i: nat, inside: string)
    requires Holds(s, i, Quote(inside, '\''))
    requires var e := i + |Quote(inside, '\'')|; e < |s| ==> s[e] != '\''
    ensures Pass(s, i) == ['\'', '\''] + Pass(s, i + |Quote(inside, '\'')|)
  {
    QuotingReadsBack(s, '\'', i, inside, "''");
  }

  lemma TailPasses(s: string, n: nat)
    requires n <= |s| && forall k | n <= k < |s| - 1 :: s[k] != '\''
    ensures Pass(s, n) == s[n..]
  {
    if n < |s| {
      PassPlain(s, n, |s| - 1, '\'', "''");
      assert Pass(s, |s| - 1) == [s[|s| - 1]] + Pass(s, |s|);
      assert s[n..] == s[n..|s| - 1] + [s[|s| - 1]];
    }
  }

  lemma WriteTwo(p: Piece, q: Piece)
    ensures Write(Then(p, Then(q, End))) == WriteOne(p) + WriteOne(q)
  {
    assert Write(Then(q, End)) == WriteOne(q) + "";
  }

  lemma WriteThree(p: Piece, q: Piece, r: Piece)
    ensures Write(Then(p, Then(q, Then(r, End)))) == WriteOne(p) + WriteOne(q) + WriteOne(r)
  {
    WriteTwo(q, r);
    Regroup(WriteOne(p), WriteOne(q), WriteOne(r));
  }

  lemma Regroup(a: string, b: string, c: string)
    ensures a + (b + c) == a + b + c
  {
  }

  /** Plain text between two quoted pieces. */
  lemma SeparateThree(p: Piece, between: string, r: Piece)
    requires !p.Plain? && Clean(between) && !r.Plain? && !Prefixes(between, r)
    ensures Separate(Then(p, Then(Plain(between), Then(r, End))))
  {
    assert Separate(Then(r, End));
    assert Separate(Then(Plain(between), Then(r, End)));
  }

  /** Two names with an apostrophe each, alone read as written, together are one name with neither. */
  lemma TwoNamesReadAsOne(a: string, b: string, between: string, c: string, d: string)
    requires NoQuotes(a) && NoQuotes(b) && NoQuotes(c) && NoQuotes(d)
    requires Clean(between) && !Prefixes(between, Name(c + "'" + d))
    ensures var m, n := Name(a + "'" + b), Name(c + "'" + d);
            var x := Then(m, Then(Plain(between), Then(n, End)));
            && Separate(x) && ReadAsWritten(Then(m, End)) && ReadAsWritten(Then(n, End))
            && QuotedNames(WithoutLiterals(Write(x)), '"') == [a + "''" + d]
  {
    OneApostrophe(a, b);
    OneApostrophe(c, d);
    WriteThree(Name(a + "'" + b), Plain(between), Name(c + "'" + d));
    SeparateThree(Name(a + "'" + b), between, Name(c + "'" + d));
    AsOneLiteral(a, b, between, c, d);
    NameAround(a, b + "\"" + between + "\"" + c, d);
  }

  /** Of a text with a literal between name quotes, a name is read that has lost what the literal says. */
  lemma NameAround(a: string, inside: string, d: string)
    requires NoQuotes(a) && NoQuotes(d)
    ensures QuotedNames(WithoutLiterals(("\"" + a) + Quote(inside, '\'') + (d + "\"")), '"') == [a + "''" + d]
  {
    var left := a + "''" + d;
    PassAround("\"" + a, inside, d + "\"");
    QuoteOf(left, '"');
    var t := Quote(left, '"');
    assert ("\"" + a) + (['\'', '\''] + (d + "\"")) == t;
    QuotingReadsBack(t, '"', 0, left, " ");
  }

  /** The same text, seen as a literal between its apostrophes. */
  lemma AsOneLiteral(a: string, b: string, between: string, c: string, d: string)
    requires NoQuotes(a) && NoQuotes(b) && NoQuotes(c) && NoQuotes(d) && NoQuotes(between)
    ensures Quote(a + "'" + b, '"') + between + Quote(c + "'" + d, '"') ==
            ("\"" + a) + Quote(b + "\"" + between + "\"" + c, '\'') + (d + "\"")
  {
    QuoteOf(a + "'" + b, '"');
    QuoteOf(c + "'" + d, '"');
    QuoteOf(b + "\"" + between + "\"" + c, '\'');
  }

  lemma OneApostrophe(a: string, b: string)
    requires NoQuotes(a) && NoQuotes(b)
    ensures ReadAsWritten(Then(Name(a + "'" + b), End))
  {
    var body := a + "'" + b;
    QuoteOf(body, '"');
    var w := Quote(body, '"');
    WriteSingle(Name(body));
    var n := |a| + 1;
    forall k | 0 <= k < |w| && k != n ensures w[k] != '\'' {
      if 0 < k < |w| - 1 { assert w[k] == body[k - 1]; }
    }
    StrayApostrophe(w, n);
    ReadAsWrittenExactlyWhen(Then(Name(body), End));
  }

  lemma WriteSingle(p: Piece)
    requires p.Name?
    ensures Write(Then(p, End)) == WriteOne(p) && Emptied(Then(p, End)) == Then(p, End) && Separate(Then(p, End))
  {
    assert Write(Then(p, End)) == WriteOne(p) + "";
  }

  lemma StrayApostrophe(w: string, n: nat)
    requires n < |w| && forall k | 0 <= k < |w| && k != n :: w[k] != '\''
    ensures WithoutLiterals(w) == w
  {
    PassPlain(w, 0, n, '\'', "''");
    PassPlain(w, n + 1, |w|, '\'', "''");
    if w[n] == '\'' && Closing(w, '\'', n + 1).Some? {
      assert false;
    }
    assert Pass(w, n) == [w[n]] + Pass(w, n + 1);
    assert w == w[..n] + ([w[n]] + w[n + 1..]);
  }

  /** A quoted name that ends in an apostrophe hides everything up to the next literal: no name is read, and
      the words are looked for in a text that does not depend on what stood there. */
  lemma TextBetweenIsHidden(n: string, hidden: string, body: string)
    requires NoQuotes(n) && Clean(hidden) && QuoteFree(body) && !Prefixes(hidden, Literal(body))
    ensures var x := Then(Name(n + "'"), Then(Plain(hidden), Then(Literal(body), End)));
            var left := "\"" + n + "''" + body + "'";
            && Separate(x) && WithoutLiterals(Write(x)) == left && Bare(Write(x)) == left
            && QuotedNames(WithoutLiterals(Write(x)), '"') == []
  {
    var x := Then(Name(n + "'"), Then(Plain(hidden), Then(Literal(body), End)));
    WriteThree(Name(n + "'"), Plain(hidden), Literal(body));
    SeparateThree(Name(n + "'"), hidden, Literal(body));
    QuoteOf(n + "'", '"');
    QuoteOf(body, '\'');
    var inside := "\"" + hidden;
    QuoteOf(inside, '\'');
    assert Write(x) == ("\"" + n) + Quote(inside, '\'') + (body + "'");
    PassAround("\"" + n, inside, body + "'");
    var t := ("\"" + n) + (['\'', '\''] + (body + "'"));
    assert t == "\"" + n + "''" + body + "'";
    StrayMark(t);
  }

  lemma StrayMark(t: string)
    requires t != "" && forall k | 1 <= k < |t| :: t[k] != '"'
    ensures Replaced(t, '"', " ") == t && QuotedNames(t, '"') == []
  {
    PassPlain(t, 1, |t|, '"', " ");
    if t[0] == '"' && Closing(t, '"', 1).Some? {
      assert false;
    }
    assert ReplacedFrom(t, '"', " ", 0) == [t[0]] + t[1..];
  }

  /** So an expression over a name nobody declared can pass for fit. */
  lemma UndeclaredNamePasses(hidden: string, allowed: set<string>, lang: Language)
    requires Clean(hidden) && !Prefixes(hidden, Literal("day"))
    requires lang.lower("x") in allowed && lang.lower("day") in lang.keywords
    ensures Unknown(Write(Then(Name("x'"), Then(Plain(hidden), Then(Literal("day"), End)))), allowed, lang) == []
  {
    TextBetweenIsHidden("x", hidden, "day");
    LeftKnown("\"" + "x" + "''" + "day" + "'", allowed, lang);
  }

  lemma LeftKnown(left: string, allowed: set<string>, lang: Language)
    requires left == ['"', 'x', '\'', '\'', 'd', 'a', 'y', '\'']
    requires lang.lower("x") in allowed && lang.lower("day") in lang.keywords
    ensures UnknownWords(left, 0, allowed, lang, []) == []
  {
    LeftWords(left);
    assert left[1..2] == "x" && left[4..7] == "day";
    assert KnownWord(left, (4, 7), allowed, lang) && KnownWord(left, (1, 2), allowed, lang);
    assert UnknownWords(left, 2, allowed, lang, []) == UnknownWords(left, 7, allowed, lang, []) == [];
  }

  lemma LeftWords(left: string)
    requires left == ['"', 'x', '\'', '\'', 'd', 'a', 'y', '\'']
    ensures NextWord(left, 0) == Some((1, 2)) && NextWord(left, 2) == Some((4, 7)) && NextWord(left, 7) == None
  {
    assert NextWord(left, 7) == NextWord(left, 8);
    assert WordEnd(left, 4) == WordEnd(left, 5) == WordEnd(left, 6) == WordEnd(left, 7) == 7;
    assert NextWord(left, 2) == NextWord(left, 3) == NextWord(left, 4);
    assert WordEnd(left, 1) == WordEnd(left, 2) == 2;
    assert NextWord(left, 0) == NextWord(left, 1);
  }

  /** A name with a literal in it is looked up without what the literal says. */
  lemma QuotedNameMisread(a: string, x: string, b: string)
    requires NoQuotes(a) && NoQuotes(x) && NoQuotes(b) && x != ""
    ensures var name := a + "'" + x + "'" + b;
            && Separate(Then(Name(name), End))
            && QuotedNames(WithoutLiterals(Quote(name, '"')), '"') == [a + "''" + b] != [name]
  {
    var name := a + "'" + x + "'" + b;
    QuoteOf(name, '"');
    QuoteOf(x, '\'');
    assert Quote(name, '"') == ("\"" + a) + Quote(x, '\'') + (b + "\"");
    NameAround(a, x, b);
    assert |a + "''" + b| < |name|;
  }

  // ---- texts of another kind than those of pieces ----

  /** Two dollar quotes around an apostrophe each: what stands between them, though Postgres reads it, is not
      looked at, and nothing is reported whatever it is. */
  lemma DollarQuotesHide(hidden: string, allowed: set<string>, lang: Language)
    requires NoQuotes(hidden)
    ensures var text := "$$'$$" + hidden + "$$'$$";
            && WithoutLiterals(text) == "$$''$$" && QuotedNames(WithoutLiterals(text), '"') == []
            && Unknown(text, allowed, lang) == []
  {
    var text := "$$'$$" + hidden + "$$'$$";
    var inside := "$$" + hidden + "$$";
    QuoteOf(inside, '\'');
    assert text == "$$" + Quote(inside, '\'') + "$$";
    PassAround("$$", inside, "$$");
    var left := "$$''$$";
    assert "$$" + (['\'', '\''] + "$$") == left;
    StrayMark(left);
    forall k | 0 <= k < 6 ensures !WordStart(left[k]) {
      assert left == ['$', '$', '\'', '\'', '$', '$'];
    }
    NoWordBefore(left, 0, 6);
  }

  /** A literal with an escaped apostrophe, E'\'...', is taken to go on up to the next apostrophe. */
  lemma EscapedQuoteHides(hidden: string, body: string)
    requires NoQuotes(hidden) && NoQuotes(body) && hidden != "" && body != ""
    ensures var text := "E'\\''" + hidden + "'" + body + "'";
            WithoutLiterals(text) == "E''" + body + "'" && QuotedNames(WithoutLiterals(text), '"') == []
  {
    var text := "E'\\''" + hidden + "'" + body + "'";
    var inside := "\\'" + hidden;
    EscapedLiteral(hidden);
    assert text == "E" + Quote(inside, '\'') + (body + "'");
    PassAround("E", inside, body + "'");
    var left := "E''" + body + "'";
    assert "E" + (['\'', '\''] + (body + "'")) == left;
    StrayMark(left);
  }

  lemma EscapedLiteral(hidden: string)
    requires NoQuotes(hidden)
    ensures Quote("\\'" + hidden, '\'') == "'\\''" + hidden + "'"
  {
    var inside := "\\'" + hidden;
    NothingDoubled(hidden, '\'');
    assert inside[1..] == ['\''] + hidden && inside[1..][1..] == hidden;
    assert Doubled(inside[1..], '\'') == ['\'', '\''] + hidden;
    assert Doubled(inside, '\'') == ['\\'] + Doubled(inside[1..], '\'');
  }
}
