/** An expression, piece by piece. */
module Pieces {
  import opened Fragment
  import opened Schema

  // What packages/core/src/semantic/fragment.ts makes of an expression as its author wrote it: plain text,
  // string literals and quoted names. The code empties the literals first and looks for quoted names and
  // words in what that leaves, so an apostrophe inside a quoted name can open a literal nobody wrote.

  datatype Piece = Plain(text: string) | Literal(body: string) | Name(body: string)

  datatype Expression = End | Then(first: Piece, rest: Expression)

  function WriteOne(p: Piece): string {
    match p
    case Plain(text) => text
    case Literal(body) => Quote(body, '\'')
    case Name(body) => Quote(body, '"')
  }

  function Write(x: Expression): string {
    match x
    case End => ""
    case Then(p, rest) => WriteOne(p) + Write(rest)
  }

  predicate SameKind(p: Piece, r: Piece) {
    (p.Plain? && r.Plain?) || (p.Literal? && r.Literal?) || (p.Name? && r.Name?)
  }

  /** Pieces whose ends can be found: no quote in plain text, none of it empty, and no two neighbours of one
      kind, since two quoted texts of one kind side by side are one text with a doubled quote. */
  predicate Apart(x: Expression) {
    match x
    case End => true
    case Then(p, rest) =>
      (p.Plain? ==> QuoteFree(p.text)) && (rest.Then? ==> !SameKind(p, rest.first)) && Apart(rest)
  }

  predicate QuoteFree(text: string) {
    text != "" && '\'' !in text && '"' !in text
  }

  /** Plain text that opens nothing: no quote, no dollar quote and no comment. */
  predicate Clean(text: string) {
    QuoteFree(text) && '$' !in text && !HasPair(text, '-', '-') && !HasPair(text, '/', '*')
  }

  /** Plain text that would make something else of the quoted text behind it: E'...', in which a backslash
      escapes a quote, and U&"...", a name spelled with escapes. */
  predicate Prefixes(text: string, next: Piece) {
    text != "" && ((text[|text| - 1] in "eE" && next.Literal?) || (text[|text| - 1] == '&' && next.Name?))
  }

  /** Pieces that Postgres reads as they are written, with standard_conforming_strings on (section 4.1 of its
      manual): they are apart, and plain text opens nothing, either by itself or with what stands behind it. */
  predicate Separate(x: Expression) {
    match x
    case End => true
    case Then(p, rest) =>
      && (p.Plain? ==> Clean(p.text))
      && (rest.Then? ==> !SameKind(p, rest.first) && !(p.Plain? && Prefixes(p.text, rest.first)))
      && Separate(rest)
  }

  lemma {:induction false} SeparateIsApart(x: Expression)
    requires Separate(x)
    ensures Apart(x)
  {
    if x.Then? { SeparateIsApart(x.rest); }
  }

  function EmptiedOne(p: Piece): Piece {
    if p.Literal? then Literal("") else p
  }

  /** The same expression with nothing left in its literals. */
  function Emptied(x: Expression): Expression {
    match x
    case End => End
    case Then(p, rest) => Then(EmptiedOne(p), Emptied(rest))
  }

  function NamesOf(x: Expression): seq<string> {
    match x
    case End => []
    case Then(p, rest) => if p.Name? then [p.body] + NamesOf(rest) else NamesOf(rest)
  }

  /** What is left to look for words in once the quoted names are taken out. */
  function Blanked(x: Expression): string {
    match x
    case End => ""
    case Then(p, rest) => (if p.Name? then " " else WriteOne(p)) + Blanked(rest)
  }

  // ---- passing over one piece of a text s, from i on ----

  /** From i on, s is what x spells. */
  predicate Spelt(s: string, i: nat, x: Expression)
    decreases x
  {
    match x
    case End => i == |s|
    case Then(p, rest) => Holds(s, i, WriteOne(p)) && Spelt(s, i + |WriteOne(p)|, rest)
  }

  lemma {:induction false} WritingSpells(s: string, i: nat, x: Expression)
    requires i <= |s|
    ensures s[i..] == Write(x) <==> Spelt(s, i, x)
    decreases x
  {
    if x.Then? {
      var one := WriteOne(x.first);
      if i + |one| <= |s| {
        WritingSpells(s, i + |one|, x.rest);
        SpellsOne(s, i, one, Write(x.rest));
      }
    }
  }

  lemma SpellsOne(s: string, i: nat, one: string, more: string)
    requires i + |one| <= |s|
    ensures s[i..] == one + more <==> Holds(s, i, one) && s[i + |one|..] == more
  {
    Held(s, i, one);
    SplitAt(s, i, one, more);
  }

  lemma SplitAt(s: string, i: nat, a: string, b: string)
    requires i + |a| <= |s|
    ensures s[i..] == a + b <==> s[i..i + |a|] == a && s[i + |a|..] == b
  {
    assert s[i..] == s[i..i + |a|] + s[i + |a|..];
    assert (a + b)[..|a|] == a && (a + b)[|a|..] == b;
  }

  lemma Held(s: string, i: nat, part: string)
    requires i + |part| <= |s|
    ensures Holds(s, i, part) <==> s[i..i + |part|] == part
  {
    if s[i..i + |part|] == part {
      forall k | 0 <= k < |part| ensures s[i + k] == part[k] { assert s[i..i + |part|][k] == part[k]; }
    }
  }

  /** Text that holds no q is passed over. */
  lemma {:induction false} PassPlain(s: string, i: nat, j: nat, q: char, put: string)
    requires i <= j <= |s| && forall k :: i <= k < j ==> s[k] != q
    ensures ReplacedFrom(s, q, put, i) == s[i..j] + ReplacedFrom(s, q, put, j)
    ensures NamesFrom(s, q, i) == NamesFrom(s, q, j)
    decreases j - i
  {
    if i < j {
      PassPlain(s, i + 1, j, q, put);
      OneMore(s, i, j, ReplacedFrom(s, q, put, j));
    }
  }

  lemma OneMore(s: string, i: nat, j: nat, rest: string)
    requires i < j <= |s|
    ensures [s[i]] + (s[i + 1..j] + rest) == s[i..j] + rest
  {
  }

  lemma PassPart(s: string, i: nat, part: string, q: char, put: string)
    requires Holds(s, i, part) && q !in part
    ensures ReplacedFrom(s, q, put, i) == part + ReplacedFrom(s, q, put, i + |part|)
    ensures NamesFrom(s, q, i) == NamesFrom(s, q, i + |part|)
  {
    forall k | i <= k < i + |part| ensures s[k] != q { assert s[i + (k - i)] == part[k - i]; }
    PassPlain(s, i, i + |part|, q, put);
    Held(s, i, part);
  }

  /** A quoted piece is not followed at once by another quote of its kind. */
  lemma NextOpensOtherwise(s: string, i: nat, x: Expression, q: char)
    requires Apart(x) && x.Then? && ((q == '\'' && x.first.Literal?) || (q == '"' && x.first.Name?))
    requires Spelt(s, i, x)
    ensures var e := i + |WriteOne(x.first)|; e < |s| ==> s[e] != q
  {
    if x.rest.Then? {
      assert s[i + |WriteOne(x.first)| + 0] == WriteOne(x.rest.first)[0];
    }
  }

  // ---- what is read when the literal pass empties the literals and nothing else ----

  /** The names of x and what stands around them are what is read from j on. */
  predicate ReadAs(t: string, j: nat, x: Expression)
    requires j <= |t|
  {
    NamesFrom(t, '"', j) == NamesOf(x) && ReplacedFrom(t, '"', " ", j) == Blanked(x)
  }

  predicate NoMarks(x: Expression) {
    match x
    case End => true
    case Then(p, rest) => (!p.Name? ==> '"' !in WriteOne(p)) && NoMarks(rest)
  }

  lemma {:induction false} ReadsBack(t: string, j: nat, x: Expression)
    requires Apart(x) && NoMarks(x) && j <= |t| && Spelt(t, j, x)
    ensures ReadAs(t, j, x)
    decreases x
  {
    if x.Then? {
      ReadsBack(t, j + |WriteOne(x.first)|, x.rest);
      ReadPiece(t, j, x);
    }
  }

  lemma ReadPiece(t: string, j: nat, x: Expression)
    requires x.Then? && Apart(x) && NoMarks(x) && Spelt(t, j, x)
    requires j + |WriteOne(x.first)| <= |t| && ReadAs(t, j + |WriteOne(x.first)|, x.rest)
    ensures ReadAs(t, j, x)
  {
    if x.first.Name? {
      NextOpensOtherwise(t, j, x, '"');
      ReadName(t, j, x);
    } else {
      ReadOther(t, j, x);
    }
  }

  lemma ReadOther(t: string, j: nat, x: Expression)
    requires x.Then? && !x.first.Name? && '"' !in WriteOne(x.first) && Holds(t, j, WriteOne(x.first))
    requires ReadAs(t, j + |WriteOne(x.first)|, x.rest)
    ensures ReadAs(t, j, x)
  {
    PassPart(t, j, WriteOne(x.first), '"', " ");
  }

  lemma ReadName(t: string, j: nat, x: Expression)
    requires x.Then? && x.first.Name? && Holds(t, j, WriteOne(x.first))
    requires var e := j + |WriteOne(x.first)|; (e < |t| ==> t[e] != '"') && ReadAs(t, e, x.rest)
    ensures ReadAs(t, j, x)
  {
    QuotingReadsBack(t, '"', j, x.first.body, " ");
  }

  lemma EmptyLiteral()
    ensures WriteOne(Literal("")) == ['\'', '\'']
  {
  }

  lemma {:induction false} EmptiedStaysApart(x: Expression)
    requires Apart(x)
    ensures Apart(Emptied(x)) && NoMarks(Emptied(x)) && NamesOf(Emptied(x)) == NamesOf(x)
  {
    if x.Then? {
      EmptyLiteral();
      EmptiedStaysApart(x.rest);
    }
  }

  // ---- and conversely: an apostrophe cannot get lost unnoticed ----

  lemma {:induction false} NothingCloses(s: string, q: char, i: nat)
    requires i <= |s| && Closing(s, q, i).None?
    ensures forall k | i <= k < |s| :: s[k] != q
    decreases |s| - i
  {
    if i < |s| { NothingCloses(s, q, i + 1); }
  }

  /** A quoted text is followed by its own quote only when that is the last one. */
  lemma {:induction false} QuoteAfterClosing(s: string, q: char, i: nat)
    requires i <= |s| && Closing(s, q, i).Some?
    requires var e := Closing(s, q, i).value; e < |s| && s[e] == q
    ensures forall k | Closing(s, q, i).value < k < |s| :: s[k] != q
    decreases |s| - i
  {
    if s[i] != q {
      QuoteAfterClosing(s, q, i + 1);
    } else if Closing(s, q, i + 2).Some? {
      QuoteAfterClosing(s, q, i + 2);
    } else {
      NothingCloses(s, q, i + 2);
    }
  }

  lemma {:induction false} UndoublingAddsNothing(s: string, q: char, c: char)
    requires c !in s
    ensures c !in Undoubled(s, q)
    decreases |s|
  {
    if s == "" {
    } else if |s| > 1 && s[0] == q && s[1] == q {
      UndoublingAddsNothing(s[2..], q, c);
    } else {
      UndoublingAddsNothing(s[1..], q, c);
    }
  }

  predicate FreeFrom(s: string, i: nat) {
    forall k | i <= k < |s| :: s[k] != '\''
  }

  predicate AllFree(names: seq<string>) {
    forall n | n in names :: '\'' !in n
  }

  lemma NameAddsNone(t: string, j: nat, e: nat)
    requires j + 2 <= e <= |t| && FreeFrom(t, j)
    ensures '\'' !in Undoubled(t[j + 1..e - 1], '"')
  {
    UndoublingAddsNothing(t[j + 1..e - 1], '"', '\'');
  }

  /** No apostrophe is read out of a text without one. */
  lemma {:induction false} ReadingAddsNone(t: string, j: nat)
    requires j <= |t| && FreeFrom(t, j)
    ensures '\'' !in ReplacedFrom(t, '"', " ", j) && AllFree(NamesFrom(t, '"', j))
    decreases |t| - j
  {
    if j < |t| {
      if t[j] == '"' && Closing(t, '"', j + 1).Some? {
        var e := Closing(t, '"', j + 1).value;
        ReadingAddsNone(t, e);
        NameAddsNone(t, j, e);
        NoneInEither(Undoubled(t[j + 1..e - 1], '"'), NamesFrom(t, '"', e), ReplacedFrom(t, '"', " ", e));
      } else {
        ReadingAddsNone(t, j + 1);
      }
    }
  }

  lemma NoneInEither(name: string, names: seq<string>, left: string)
    requires '\'' !in name && AllFree(names) && '\'' !in left
    ensures AllFree([name] + names) && '\'' !in " " + left
  {
  }

  /** Nor is there one in an expression none of whose names has one and that is otherwise blanked without. */
  lemma {:induction false} NoneWritten(w: string, i: nat, x: Expression)
    requires Spelt(w, i, x) && '\'' !in Blanked(Emptied(x)) && AllFree(NamesOf(x))
    ensures FreeFrom(w, i)
    decreases x
  {
    if x.Then? {
      var one := WriteOne(x.first);
      OneFree(x);
      NoneWritten(w, i + |one|, x.rest);
      forall k | i <= k < i + |one| ensures w[k] != '\'' { assert w[i + (k - i)] == one[k - i]; }
    }
  }

  lemma OneFree(x: Expression)
    requires x.Then? && '\'' !in Blanked(Emptied(x)) && AllFree(NamesOf(x))
    ensures '\'' !in WriteOne(x.first) && '\'' !in Blanked(Emptied(x.rest)) && AllFree(NamesOf(x.rest))
  {
    EmptyLiteral();
    if x.first.Name? {
      assert x.first.body in NamesOf(x);
      DoublingAddsNone(x.first.body, '"', '\'');
    }
  }

  lemma {:induction false} DoublingAddsNone(body: string, q: char, c: char)
    requires c !in body && c != q
    ensures c !in Doubled(body, q)
  {
    if body != "" { DoublingAddsNone(body[1..], q, c); }
  }

  /** What is left of w from i on when its literals are emptied. */
  function Pass(w: string, i: nat): string
    requires i <= |w|
  {
    ReplacedFrom(w, '\'', "''", i)
  }

  /** From j on, t is x. */
  predicate EndsWith(t: string, j: nat, x: string) {
    j + |x| == |t| && Holds(t, j, x)
  }

  lemma EndsRest(t: string, j: nat, a: string, x: string)
    requires EndsWith(t, j, a + x)
    ensures EndsWith(t, j + |a|, x) && Holds(t, j, a)
  {
    HoldsRest(t, j, a, x);
    forall k | 0 <= k < |a| ensures t[j + k] == a[k] { assert (a + x)[k] == a[k]; }
  }

  lemma PassOne(w: string, a: nat, t: string, c: nat)
    requires a < |w| && EndsWith(t, c, Pass(w, a)) && (w[a] != '\'' || Closing(w, '\'', a + 1).None?)
    ensures EndsWith(t, c + 1, Pass(w, a + 1)) && t[c] == w[a]
  {
    EndsRest(t, c, [w[a]], Pass(w, a + 1));
    assert t[c + 0] == [w[a]][0];
  }

  lemma PassLiteral(w: string, a: nat, e: nat, t: string, c: nat)
    requires a < |w| && EndsWith(t, c, Pass(w, a)) && w[a] == '\'' && Closing(w, '\'', a + 1) == Some(e)
    ensures a + 2 <= e <= |w| && EndsWith(t, c + 2, Pass(w, e)) && t[c] == '\'' && t[c + 1] == '\''
  {
    EndsRest(t, c, "''", Pass(w, e));
    assert t[c + 0] == "''"[0] && t[c + 1] == "''"[1];
  }

  lemma NothingToPass(w: string, a: nat)
    requires a <= |w| && FreeFrom(w, a)
    ensures Pass(w, a) == w[a..]
  {
    PassPlain(w, a, |w|, '\'', "''");
  }

  /** A literal opened in a stretch that the pass leaves whole has no body: to have one it would need the
      last two apostrophes of w for its end, and the stretch would have only three. */
  lemma NoLiteralReachesOn(w: string, a: nat, z: nat, e: nat, t: string, c: nat)
    requires a < z <= |w| && w[z - 1] != '\'' && c + (z - a) <= |t|
    requires w[a] == '\'' && Closing(w, '\'', a + 1) == Some(e)
    requires t[c + 1] == '\'' && a + 2 <= e <= |w| && EndsWith(t, c + 2, Pass(w, e))
    requires forall k | a <= k < z :: t[c + (k - a)] == w[k]
    requires FreeFrom(t, c + (z - a)) ==> FreeFrom(w, z)
    ensures e == a + 2
  {
    if e != a + 2 {
      assert t[c + ((a + 1) - a)] == w[a + 1];
      assert w[a + 1] == '\'' && a + 2 < z;
      assert t[c + ((a + 2) - a)] == w[a + 2] == '\'';
      assert t[c + 2 + 0] == Pass(w, e)[0];
      assert e < |w| && w[e] == '\'';
      QuoteAfterClosing(w, '\'', a + 1);
      PassOne(w, e, t, c + 2);
      NothingToPass(w, e + 1);
      FreeAfter(t, c + 3, w, e + 1);
      assert false;
    }
  }

  lemma FreeAfter(t: string, c: nat, w: string, a: nat)
    requires a <= |w| && FreeFrom(w, a) && EndsWith(t, c, w[a..])
    ensures FreeFrom(t, c)
  {
    forall k | c <= k < |t| ensures t[k] != '\'' { assert t[c + (k - c)] == w[a..][k - c]; }
  }

  /** What the pass leaves of a stretch of w is that stretch only if no literal opened in it reaches on. */
  lemma {:induction false} PassedWhole(w: string, a: nat, z: nat, t: string, c: nat)
    requires a <= z <= |w| && (a < z ==> w[z - 1] != '\'')
    requires EndsWith(t, c, Pass(w, a)) && c + (z - a) <= |t|
    requires forall k | a <= k < z :: t[c + (k - a)] == w[k]
    requires FreeFrom(t, c + (z - a)) ==> FreeFrom(w, z)
    ensures EndsWith(t, c + (z - a), Pass(w, z))
    decreases z - a
  {
    if a < z {
      if w[a] != '\'' || Closing(w, '\'', a + 1).None? {
        PassOne(w, a, t, c);
        PassedWhole(w, a + 1, z, t, c + 1);
      } else {
        var e := Closing(w, '\'', a + 1).value;
        PassLiteral(w, a, e, t, c);
        assert t[c + ((a + 1) - a)] == '\'';
        NoLiteralReachesOn(w, a, z, e, t, c);
        PassedWhole(w, a + 2, z, t, c + 2);
      }
    }
  }

  /** From i on, w is x; what the pass leaves of it stands in t from j on, and is read as x emptied. */
  predicate Aligned(w: string, i: nat, t: string, j: nat, x: Expression) {
    Apart(x) && Spelt(w, i, x) && Ahead(w, i, t, j, x)
  }

  predicate Ahead(w: string, i: nat, t: string, j: nat, x: Expression) {
    i <= |w| && EndsWith(t, j, Pass(w, i)) && ReadAs(t, j, Emptied(x))
  }

  type Relation = (int, int, Expression) -> bool

  /** One piece on, t has what is left of it and the relation still holds. */
  ghost predicate Advances(t: string, related: Relation) {
    && (forall i, j :: related(i, j, End) ==> j == |t|)
    && forall i: int, j: int, x | related(i, j, x) && x.Then? ::
         && 0 <= j && Holds(t, j, WriteOne(EmptiedOne(x.first)))
         && related(i + |WriteOne(x.first)|, j + |WriteOne(EmptiedOne(x.first))|, x.rest)
  }

  lemma {:induction false} SpeltOut(t: string, related: Relation, i: nat, j: nat, x: Expression)
    requires Advances(t, related) && related(i, j, x)
    ensures Spelt(t, j, Emptied(x))
    decreases x
  {
    if x.Then? {
      SpeltOut(t, related, i + |WriteOne(x.first)|, j + |WriteOne(EmptiedOne(x.first))|, x.rest);
    }
  }

  lemma AlignedAdvances(w: string, t: string, related: Relation)
    requires forall i, j, x :: related(i, j, x) <==> 0 <= i && 0 <= j && Aligned(w, i, t, j, x)
    ensures Advances(t, related)
  {
    forall i, j | related(i, j, End) ensures j == |t| { EndWhole(w, i, t, j); }
    forall i: int, j: int, x | related(i, j, x) && x.Then?
      ensures 0 <= j && Holds(t, j, WriteOne(EmptiedOne(x.first)))
      ensures related(i + |WriteOne(x.first)|, j + |WriteOne(EmptiedOne(x.first))|, x.rest)
    {
      RestSpelt(w, i, x);
      FirstWhole(w, i, t, j, x, WriteOne(x.first), WriteOne(EmptiedOne(x.first)));
    }
  }

  lemma EndWhole(w: string, i: nat, t: string, j: nat)
    requires Aligned(w, i, t, j, End)
    ensures j == |t|
  {
  }

  /** If what the pass leaves is read as the pieces say, it left all but the literals alone. */
  lemma ReadMeansWhole(w: string, t: string, x: Expression)
    requires Aligned(w, 0, t, 0, x)
    ensures Spelt(t, 0, Emptied(x))
  {
    var related := (i: int, j: int, y: Expression) => 0 <= i && 0 <= j && Aligned(w, i, t, j, y);
    AlignedAdvances(w, t, related);
    SpeltOut(t, related, 0, 0, x);
  }

  /** One piece on: what is left of it, and the rest as before. */
  lemma FirstWhole(w: string, i: nat, t: string, j: nat, x: Expression, one: string, left: string)
    requires x.Then? && Aligned(w, i, t, j, x) && one == WriteOne(x.first) && left == WriteOne(EmptiedOne(x.first))
    ensures Holds(t, j, left) && Ahead(w, i + |one|, t, j + |left|, x.rest)
  {
    if x.first.Name? { NameWhole(w, i, t, j, x, one); } else { OtherWhole(w, i, t, j, x, one, left); }
  }

  lemma OtherWhole(w: string, i: nat, t: string, j: nat, x: Expression, one: string, left: string)
    requires x.Then? && !x.first.Name? && Aligned(w, i, t, j, x)
    requires one == WriteOne(x.first) && left == WriteOne(EmptiedOne(x.first))
    ensures Holds(t, j, left) && Ahead(w, i + |one|, t, j + |left|, x.rest)
  {
    PassOther(w, i, x);
    OtherLeft(t, j, x, Pass(w, i + |one|));
  }

  lemma OtherLeft(t: string, j: nat, x: Expression, left: string)
    requires x.Then? && !x.first.Name? && Apart(x)
    requires EndsWith(t, j, WriteOne(EmptiedOne(x.first)) + left) && ReadAs(t, j, Emptied(x))
    ensures var d := j + |WriteOne(EmptiedOne(x.first))|;
            Holds(t, j, WriteOne(EmptiedOne(x.first))) && EndsWith(t, d, left) && ReadAs(t, d, Emptied(x.rest))
  {
    EmptyLiteral();
    SkipOther(t, j, WriteOne(EmptiedOne(x.first)), left, Emptied(x));
  }

  lemma PassOther(w: string, i: nat, x: Expression)
    requires Apart(x) && x.Then? && !x.first.Name? && i <= |w| && Spelt(w, i, x)
    ensures Pass(w, i) == WriteOne(EmptiedOne(x.first)) + Pass(w, i + |WriteOne(x.first)|)
  {
    if x.first.Plain? {
      PassPart(w, i, x.first.text, '\'', "''");
    } else {
      EmptyLiteral();
      NextOpensOtherwise(w, i, x, '\'');
      QuotingReadsBack(w, '\'', i, x.first.body, "''");
    }
  }

  /** A piece that is no name is read over. */
  lemma SkipOther(t: string, j: nat, one: string, left: string, es: Expression)
    requires es.Then? && !es.first.Name? && one == WriteOne(es.first) && '"' !in one
    requires EndsWith(t, j, one + left) && ReadAs(t, j, es)
    ensures Holds(t, j, one) && EndsWith(t, j + |one|, left) && ReadAs(t, j + |one|, es.rest)
  {
    EndsRest(t, j, one, left);
    PassPart(t, j, one, '"', " ");
    SameRest(one, ReplacedFrom(t, '"', " ", j + |one|), Blanked(es.rest));
  }

  lemma SameRest(a: string, x: string, y: string)
    requires a + x == a + y
    ensures x == y
  {
    assert (a + x)[|a|..] == x && (a + y)[|a|..] == y;
  }

  lemma NameWhole(w: string, i: nat, t: string, j: nat, x: Expression, one: string)
    requires x.Then? && x.first.Name? && one == WriteOne(x.first) && Aligned(w, i, t, j, x)
    ensures Holds(t, j, one) && Ahead(w, i + |one|, t, j + |one|, x.rest)
  {
    NameStands(w, i, t, j, x);
    RestSpelt(w, i, x);
    NameGoesOn(w, i, t, j, one, x.rest);
  }

  lemma RestSpelt(w: string, i: nat, x: Expression)
    requires x.Then? && Apart(x) && Spelt(w, i, x)
    ensures Apart(x.rest) && Holds(w, i, WriteOne(x.first)) && Spelt(w, i + |WriteOne(x.first)|, x.rest)
  {
  }

  lemma NameGoesOn(w: string, i: nat, t: string, j: nat, one: string, rest: Expression)
    requires |one| > 1 && one[|one| - 1] == '"' && Holds(w, i, one) && Holds(t, j, one)
    requires EndsWith(t, j + 1, Pass(w, i + 1))
    requires ReadAs(t, j + |one|, Emptied(rest)) && Spelt(w, i + |one|, rest)
    ensures EndsWith(t, j + |one|, Pass(w, i + |one|))
  {
    NameFree(w, i + |one|, t, j + |one|, rest);
    NameLeft(w, i, t, j, one);
  }

  /** Piece and text begin alike, and the reading goes on behind. */
  predicate Stands(w: string, i: nat, t: string, j: nat, x: Expression)
    requires x.Then?
  {
    && i < |w| && Holds(t, j, WriteOne(x.first)) && EndsWith(t, j + 1, Pass(w, i + 1))
    && ReadAs(t, j + |WriteOne(x.first)|, Emptied(x.rest))
  }

  lemma NameStands(w: string, i: nat, t: string, j: nat, x: Expression)
    requires x.Then? && x.first.Name? && Aligned(w, i, t, j, x)
    ensures Stands(w, i, t, j, x)
  {
    OpensWithMark(w, i, t, j, x.first.body);
    ReadsName(t, j, x.first.body, NamesOf(Emptied(x.rest)), Blanked(Emptied(x.rest)));
  }

  lemma OpensWithMark(w: string, i: nat, t: string, j: nat, body: string)
    requires i < |w| && Holds(w, i, Quote(body, '"')) && EndsWith(t, j, Pass(w, i))
    ensures j < |t| && t[j] == '"' && EndsWith(t, j + 1, Pass(w, i + 1))
  {
    assert w[i + 0] == Quote(body, '"')[0];
    PassOne(w, i, t, j);
  }

  lemma NameLeft(w: string, i: nat, t: string, j: nat, one: string)
    requires |one| > 1 && one[|one| - 1] == '"' && Holds(w, i, one) && Holds(t, j, one)
    requires EndsWith(t, j + 1, Pass(w, i + 1))
    requires FreeFrom(t, j + |one|) ==> FreeFrom(w, i + |one|)
    ensures EndsWith(t, j + |one|, Pass(w, i + |one|))
  {
    SameStretch(w, i, t, j, one);
    PassedWhole(w, i + 1, i + |one|, t, j + 1);
  }

  lemma NameFree(w: string, i: nat, t: string, d: nat, x: Expression)
    requires d <= |t| && Spelt(w, i, x) && ReadAs(t, d, Emptied(x))
    ensures FreeFrom(t, d) ==> FreeFrom(w, i)
  {
    if FreeFrom(t, d) {
      ReadingAddsNone(t, d);
      EmptiedNames(x);
      NoneWritten(w, i, x);
    }
  }

  lemma {:induction false} EmptiedNames(x: Expression)
    ensures NamesOf(Emptied(x)) == NamesOf(x)
  {
    if x.Then? { EmptiedNames(x.rest); }
  }

  lemma SameStretch(w: string, i: nat, t: string, j: nat, one: string)
    requires Holds(w, i, one) && Holds(t, j, one) && |one| > 1
    ensures forall k | i + 1 <= k < i + |one| :: t[j + 1 + (k - (i + 1))] == w[k]
    ensures w[i + |one| - 1] == one[|one| - 1]
  {
    forall k | i + 1 <= k < i + |one| ensures t[j + 1 + (k - (i + 1))] == w[k] {
      assert w[i + (k - i)] == one[k - i] && t[j + (k - i)] == one[k - i];
    }
    assert w[i + (|one| - 1)] == one[|one| - 1];
  }

  /** The first name read stands at j as it is written. */
  lemma ReadsName(t: string, j: nat, body: string, names: seq<string>, blanked: string)
    requires j < |t| && t[j] == '"'
    requires NamesFrom(t, '"', j) == [body] + names && ReplacedFrom(t, '"', " ", j) == " " + blanked
    ensures var e := j + |Quote(body, '"')|;
            Holds(t, j, Quote(body, '"')) && NamesFrom(t, '"', e) == names && ReplacedFrom(t, '"', " ", e) == blanked
  {
    var e := NameCloses(t, j, body, names, blanked);
    StandsWritten(t, j, e, body);
  }

  lemma NameCloses(t: string, j: nat, body: string, names: seq<string>, blanked: string) returns (e: nat)
    requires j < |t| && t[j] == '"'
    requires NamesFrom(t, '"', j) == [body] + names && ReplacedFrom(t, '"', " ", j) == " " + blanked
    ensures Closing(t, '"', j + 1) == Some(e) && j + 2 <= e <= |t| && t[j + 1..e - 1] == Doubled(body, '"')
    ensures NamesFrom(t, '"', e) == names && ReplacedFrom(t, '"', " ", e) == blanked
  {
    assert ReplacedFrom(t, '"', " ", j)[0] == ' ';
    e := Closing(t, '"', j + 1).value;
    SameHead(Undoubled(t[j + 1..e - 1], '"'), NamesFrom(t, '"', e), body, names);
    SameRest(" ", ReplacedFrom(t, '"', " ", e), blanked);
    ContentIsDoubled(t, '"', j + 1);
  }

  lemma StandsWritten(t: string, j: nat, e: nat, body: string)
    requires j + 2 <= e <= |t| && t[j] == '"' && t[e - 1] == '"' && t[j + 1..e - 1] == Doubled(body, '"')
    ensures Holds(t, j, Quote(body, '"')) && e == j + |Quote(body, '"')|
  {
    Enclosed(t, j, e, Doubled(body, '"'));
    Held(t, j, Quote(body, '"'));
  }

  lemma Enclosed(t: string, j: nat, e: nat, inside: string)
    requires j + 2 <= e <= |t| && t[j] == '"' && t[e - 1] == '"' && t[j + 1..e - 1] == inside
    ensures t[j..e] == ['"'] + inside + ['"']
  {
  }

  lemma SameHead(a: string, x: seq<string>, b: string, y: seq<string>)
    requires [a] + x == [b] + y
    ensures a == b && x == y
  {
    assert ([a] + x)[0] == a && ([b] + y)[0] == b && ([a] + x)[1..] == x && ([b] + y)[1..] == y;
  }

  // ---- an expression is read as it is written ----

  /** The names read are the names written, and the words are looked for in the plain text alone. */
  predicate ReadAsWritten(x: Expression) {
    && QuotedNames(WithoutLiterals(Write(x)), '"') == NamesOf(x)
    && Bare(Write(x)) == Blanked(Emptied(x))
  }

  /** Emptying the literals changes the literals and nothing else. */
  predicate OnlyLiteralsEmptied(x: Expression) {
    WithoutLiterals(Write(x)) == Write(Emptied(x))
  }

  lemma ReadAsWrittenExactlyWhen(x: Expression)
    requires Separate(x)
    ensures ReadAsWritten(x) <==> OnlyLiteralsEmptied(x)
  {
    var w := Write(x);
    var t := WithoutLiterals(w);
    SeparateIsApart(x);
    EmptiedStaysApart(x);
    assert w[0..] == w && t[0..] == t;
    WritingSpells(w, 0, x);
    WritingSpells(t, 0, Emptied(x));
    if ReadAsWritten(x) {
      ReadMeansWhole(w, t, x);
    }
    if OnlyLiteralsEmptied(x) {
      ReadsBack(t, 0, Emptied(x));
    }
  }

  /** It is enough that no quoted name has an apostrophe in it. */
  lemma NamesWithoutApostrophes(x: Expression)
    requires Separate(x) && AllFree(NamesOf(x))
    ensures ReadAsWritten(x)
  {
    var w := Write(x);
    assert w[0..] == w;
    SeparateIsApart(x);
    WritingSpells(w, 0, x);
    OnlyLiteralsPass(w, 0, x);
    ReadAsWrittenExactlyWhen(x);
  }

  lemma {:induction false} OnlyLiteralsPass(w: string, i: nat, x: Expression)
    requires Apart(x) && AllFree(NamesOf(x)) && i <= |w| && Spelt(w, i, x)
    ensures Pass(w, i) == Write(Emptied(x))
    decreases x
  {
    if x.Then? {
      OnlyLiteralsPass(w, i + |WriteOne(x.first)|, x.rest);
      PassFirst(w, i, x);
    }
  }

  lemma PassFirst(w: string, i: nat, x: Expression)
    requires Apart(x) && x.Then? && AllFree(NamesOf(x)) && i <= |w| && Spelt(w, i, x)
    ensures Pass(w, i) == WriteOne(EmptiedOne(x.first)) + Pass(w, i + |WriteOne(x.first)|)
  {
    if x.first.Name? {
      assert x.first.body in NamesOf(x);
      PassName(w, i, x.first.body);
    } else {
      PassOther(w, i, x);
    }
  }

  lemma PassName(w: string, i: nat, body: string)
    requires '\'' !in body && Holds(w, i, WriteOne(Name(body)))
    ensures Pass(w, i) == WriteOne(Name(body)) + Pass(w, i + |WriteOne(Name(body))|)
  {
    DoublingAddsNone(body, '"', '\'');
    PassPart(w, i, WriteOne(Name(body)), '\'', "''");
  }

  // ---- a text decides its pieces ----

  lemma {:induction false} WrittenOnce(x: Expression, y: Expression)
    requires Apart(x) && Apart(y) && Write(x) == Write(y)
    ensures x == y
    decreases x
  {
    WritesSomething(x);
    WritesSomething(y);
    if x.Then? {
      SameFirstPiece(x, y);
      WrittenOnce(x.rest, y.rest);
    }
  }

  /** What is written opens with what its first piece is. */
  lemma WritesSomething(x: Expression)
    requires Apart(x)
    ensures Write(x) == "" <==> x.End?
    ensures x.Then? ==> match x.first
                        case Plain(_) => Write(x)[0] != '\'' && Write(x)[0] != '"'
                        case Literal(_) => Write(x)[0] == '\''
                        case Name(_) => Write(x)[0] == '"'
  {
    if x.Then? { assert Write(x) == WriteOne(x.first) + Write(x.rest); }
  }

  lemma SameFirstPiece(x: Expression, y: Expression)
    requires Apart(x) && Apart(y) && x.Then? && y.Then? && Write(x) == Write(y)
    ensures x.first == y.first && Write(x.rest) == Write(y.rest)
  {
    WritesSomething(x);
    WritesSomething(y);
    WritesSomething(x.rest);
    WritesSomething(y.rest);
    match x.first
    case Plain(t) => QuoteFreeHead(t, Write(x.rest), y.first.text, Write(y.rest));
    case Literal(b) => SameQuoted(b, Write(x.rest), y.first.body, Write(y.rest), '\'');
    case Name(b) => SameQuoted(b, Write(x.rest), y.first.body, Write(y.rest), '"');
  }

  lemma QuoteFreeHead(a: string, v: string, b: string, w: string)
    requires a + v == b + w && QuoteFree(a) && QuoteFree(b)
    requires v != "" ==> v[0] == '\'' || v[0] == '"'
    requires w != "" ==> w[0] == '\'' || w[0] == '"'
    ensures a == b && v == w
  {
    var s := a + v;
    assert forall k | 0 <= k < |a| :: s[k] == a[k];
    assert forall k | 0 <= k < |b| :: s[k] == b[k];
    assert v != "" ==> s[|a|] == v[0];
    assert w != "" ==> s[|b|] == w[0];
    assert |a| == |b|;
    assert a == s[..|a|] && b == s[..|b|] && v == s[|a|..] && w == s[|b|..];
  }

  lemma SameQuoted(a: string, v: string, b: string, w: string, q: char)
    requires Quote(a, q) + v == Quote(b, q) + w
    requires (v != "" ==> v[0] != q) && (w != "" ==> w[0] != q)
    ensures a == b && v == w
  {
    var s := Quote(a, q) + v;
    QuotedHead(s, a, v, q);
    QuotedHead(s, b, w, q);
    assert a == NamesFrom(s, q, 0)[0] == b;
    assert v == s[|Quote(a, q)|..];
  }

  lemma QuotedHead(s: string, body: string, rest: string, q: char)
    requires s == Quote(body, q) + rest && (rest != "" ==> rest[0] != q)
    ensures NamesFrom(s, q, 0) != [] && NamesFrom(s, q, 0)[0] == body
    ensures rest == s[|Quote(body, q)|..]
  {
    forall k | 0 <= k < |Quote(body, q)| ensures s[0 + k] == Quote(body, q)[k] {}
    QuotingReadsBack(s, q, 0, body, "");
  }

  // ---- the words are those of the plain text ----

  function WordsFrom(s: string, i: nat): seq<string>
    requires i <= |s|
    decreases |s| - i
  {
    match NextWord(s, i)
    case None => []
    case Some(w) => [s[w.0..w.1]] + WordsFrom(s, w.1)
  }

  function PlainWords(x: Expression): seq<string> {
    match x
    case End => []
    case Then(p, rest) => (if p.Plain? then WordsFrom(p.text, 0) else []) + PlainWords(rest)
  }

  /** A stretch of s, from i to e, that no word runs out of. */
  predicate Stretch(s: string, i: nat, e: nat, part: string) {
    Holds(s, i, part) && e == i + |part| && (e < |s| ==> !WordPart(s[e]))
  }

  lemma {:induction false} WordEndsInside(s: string, i: nat, e: nat, part: string, k: nat)
    requires Stretch(s, i, e, part) && k <= |part|
    ensures WordEnd(s, i + k) == i + WordEnd(part, k)
    decreases |part| - k
  {
    if k < |part| {
      assert s[i + k] == part[k];
      if WordPart(part[k]) { WordEndsInside(s, i, e, part, k + 1); }
    }
  }

  lemma {:induction false} NextWordInside(s: string, i: nat, e: nat, part: string, k: nat)
    requires Stretch(s, i, e, part) && k <= |part|
    ensures match NextWord(part, k)
            case Some(w) => NextWord(s, i + k) == Some((i + w.0, i + w.1))
            case None => NextWord(s, i + k) == NextWord(s, e)
    decreases |part| - k
  {
    if k < |part| {
      assert s[i + k] == part[k];
      if WordStart(part[k]) {
        WordEndsInside(s, i, e, part, k);
      } else {
        NextWordInside(s, i, e, part, k + 1);
      }
    }
  }

  lemma SamePart(s: string, i: nat, part: string, a: nat, b: nat)
    requires Holds(s, i, part) && a <= b <= |part|
    ensures s[i + a..i + b] == part[a..b]
  {
    Held(s, i, part);
    assert s[i..i + |part|][a..b] == s[i + a..i + b];
  }

  lemma {:induction false} WordsInside(s: string, i: nat, e: nat, part: string, k: nat)
    requires Stretch(s, i, e, part) && k <= |part|
    ensures WordsFrom(s, i + k) == WordsFrom(part, k) + WordsFrom(s, e)
    decreases |part| - k
  {
    match NextWord(part, k)
    case None => NextWordInside(s, i, e, part, k);
    case Some(w) =>
      WordsInside(s, i, e, part, w.1);
      WordInside(s, i, e, part, k);
  }

  lemma WordInside(s: string, i: nat, e: nat, part: string, k: nat)
    requires Stretch(s, i, e, part) && k <= |part| && NextWord(part, k).Some?
    requires var n := NextWord(part, k).value.1; WordsFrom(s, i + n) == WordsFrom(part, n) + WordsFrom(s, e)
    ensures WordsFrom(s, i + k) == WordsFrom(part, k) + WordsFrom(s, e)
  {
    var w := NextWord(part, k).value;
    NextWordInside(s, i, e, part, k);
    SamePart(s, i, part, w.0, w.1);
    SameWordFirst(s, i + k, i + w.1, part, k, WordsFrom(s, e));
  }

  lemma SameWordFirst(s: string, m: nat, n: nat, part: string, k: nat, more: seq<string>)
    requires m <= |s| && k <= |part|
    requires NextWord(s, m).Some? && NextWord(part, k).Some? && NextWord(s, m).value.1 == n
    requires var v, w := NextWord(s, m).value, NextWord(part, k).value;
             s[v.0..v.1] == part[w.0..w.1] && WordsFrom(s, n) == WordsFrom(part, w.1) + more
    ensures WordsFrom(s, m) == WordsFrom(part, k) + more
  {
  }

  /** From i on, s is x with its names blanked. */
  predicate Blanks(s: string, i: nat, x: Expression)
    decreases x
  {
    match x
    case End => i == |s|
    case Then(p, rest) => Holds(s, i, BlankOne(p)) && Blanks(s, i + |BlankOne(p)|, rest)
  }

  function BlankOne(p: Piece): string {
    if p.Name? then " " else WriteOne(EmptiedOne(p))
  }

  lemma {:induction false} BlankingBlanks(s: string, i: nat, x: Expression)
    requires EndsWith(s, i, Blanked(Emptied(x)))
    ensures Blanks(s, i, x)
    decreases x
  {
    if x.Then? {
      EndsRest(s, i, BlankOne(x.first), Blanked(Emptied(x.rest)));
      BlankingBlanks(s, i + |BlankOne(x.first)|, x.rest);
    }
  }

  lemma {:induction false} BlankedWords(s: string, i: nat, x: Expression)
    requires Apart(x) && Blanks(s, i, x) && i <= |s|
    ensures WordsFrom(s, i) == PlainWords(x)
    decreases x
  {
    if x.Then? {
      var e := i + |BlankOne(x.first)|;
      BlankedWords(s, e, x.rest);
      if x.first.Plain? {
        PlainIsStretch(s, i, x);
        WordsInside(s, i, e, x.first.text, 0);
      } else {
        BlankHasNone(s, i, x);
      }
    }
  }

  lemma PlainIsStretch(s: string, i: nat, x: Expression)
    requires x.Then? && x.first.Plain? && Apart(x) && Blanks(s, i, x)
    ensures Stretch(s, i, i + |x.first.text|, x.first.text)
  {
    EmptyLiteral();
    if x.rest.Then? { assert s[i + |x.first.text| + 0] == BlankOne(x.rest.first)[0]; }
  }

  lemma BlankHasNone(s: string, i: nat, x: Expression)
    requires x.Then? && !x.first.Plain? && Holds(s, i, BlankOne(x.first))
    ensures WordsFrom(s, i) == WordsFrom(s, i + |BlankOne(x.first)|)
  {
    var e := i + |BlankOne(x.first)|;
    EmptyLiteral();
    forall k | i <= k < e ensures !WordStart(s[k]) { assert s[i + (k - i)] == BlankOne(x.first)[k - i]; }
    NoWordBefore(s, i, e);
  }

  lemma {:induction false} NoWordBefore(s: string, i: nat, e: nat)
    requires i <= e <= |s| && forall k | i <= k < e :: !WordStart(s[k])
    ensures NextWord(s, i) == NextWord(s, e)
    decreases e - i
  {
    if i < e { NoWordBefore(s, i + 1, e); }
  }

  /** What is judged word by word is the plain text, whenever the expression is read as written. */
  lemma WordsReadAreThePlainOnes(x: Expression)
    requires Separate(x) && ReadAsWritten(x)
    ensures WordsFrom(Bare(Write(x)), 0) == PlainWords(x)
  {
    var s := Bare(Write(x));
    SeparateIsApart(x);
    BlankingBlanks(s, 0, x);
    BlankedWords(s, 0, x);
  }
}
