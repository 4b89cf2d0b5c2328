/** Which texts become statements. */
module Statements {
  import opened Schema
  import opened Text
  import opened Fragment
  import opened Pieces
  import opened Transactions
  import opened Misreading

  // composeStatement of packages/core/src/store/write.ts, and what its statements can do to a transaction.

  predicate TouchesData(text: string) {
    || "SELECT " <= text || "INSERT INTO " <= text || "UPDATE " <= text || "DELETE FROM " <= text
    || "CREATE SCHEMA " <= text || "CREATE TABLE " <= text || "CREATE INDEX " <= text
  }

  predicate OpensWithVerb(text: string) {
    "SET LOCAL " <= text || TouchesData(text)
  }

  /** composeStatement accepts the text for this quoted schema. */
  predicate Composable(text: string, schema: string) {
    '\0' !in text && ("SET LOCAL " <= text || (TouchesData(text) && Includes(text, schema)))
  }

  predicate IsStatement(h: Handed) {
    h.Composed? && Composable(h.text, h.schema)
  }

  // ---- a text may hold several commands ----

  /** One command of a text from which the literals are gone: what stands between two semicolons. */
  predicate CommandAt(text: string, i: int, j: int) {
    && 0 <= i <= j <= |text| && ';' !in text[i..j]
    && (i > 0 ==> text[i - 1] == ';') && (j < |text| ==> text[j] == ';')
  }

  predicate StraysAt(text: string, i: int, j: int) {
    CommandAt(text, i, j) && !Blank(text[i..j]) && !OpensWithVerb(text[i..j][Lead(text[i..j], 0)..])
  }

  /** What a text says apart from what its quoted texts say. */
  function Shape(x: Expression): string {
    match x
    case End => ""
    case Then(p, rest) => ShapeOne(p) + Shape(rest)
  }

  function ShapeOne(p: Piece): string {
    match p
    case Plain(text) => text
    case Literal(_) => "''"
    case Name(_) => "\"\""
  }

  /** Some command opens with none of the verbs: COMMIT, however it is spelled, and ROLLBACK, among others. */
  predicate StraysIn(x: Expression) {
    exists i, j | 0 <= i <= j <= |Shape(x)| :: StraysAt(Shape(x), i, j)
  }

  /** The text is made of pieces that Postgres reads as they are written, and x is what it reads. */
  predicate Plainly(text: string, x: Expression) {
    Separate(x) && Write(x) == text
  }

  /** All that is not plainly written in commands that open with one of the verbs. */
  ghost predicate Strays(text: string) {
    forall x | Plainly(text, x) :: StraysIn(x)
  }

  /** Plainly written, and without a semicolon outside its quoted texts. */
  ghost predicate OneCommand(text: string) {
    exists x | Plainly(text, x) :: ';' !in Shape(x)
  }

  /** A text is read in one way, so its one reading decides. */
  lemma StraysExactlyWhen(x: Expression)
    requires Separate(x)
    ensures Strays(Write(x)) <==> StraysIn(x)
    ensures OneCommand(Write(x)) <==> ';' !in Shape(x)
  {
    var text := Write(x);
    assert Plainly(text, x);
    forall y | Plainly(text, y) ensures y == x {
      SeparateIsApart(x);
      SeparateIsApart(y);
      WrittenOnce(x, y);
    }
  }

  predicate IsVerb(verb: string) {
    || verb == "SET LOCAL " || verb == "SELECT " || verb == "INSERT INTO " || verb == "UPDATE "
    || verb == "DELETE FROM " || verb == "CREATE SCHEMA " || verb == "CREATE TABLE " || verb == "CREATE INDEX "
  }

  /** What a statement opens with. */
  lemma OpeningVerb(text: string) returns (verb: string)
    requires OpensWithVerb(text)
    ensures verb <= text && IsVerb(verb)
  {
    verb := if "SET LOCAL " <= text then "SET LOCAL "
            else if "SELECT " <= text then "SELECT "
            else if "INSERT INTO " <= text then "INSERT INTO "
            else if "UPDATE " <= text then "UPDATE "
            else if "DELETE FROM " <= text then "DELETE FROM "
            else if "CREATE SCHEMA " <= text then "CREATE SCHEMA "
            else if "CREATE TABLE " <= text then "CREATE TABLE "
            else "CREATE INDEX ";
  }

  lemma VerbsArePlain(verb: string)
    requires IsVerb(verb)
    ensures QuoteFree(verb) && !IsSpace(verb[0])
  {
  }

  lemma NoVerbGoesOnLikeCommit(text: string)
    ensures OpensWithVerb(text) ==> |text| > 1 && text[1] != 'O'
  {
    if "SET LOCAL " <= text { assert text[1] == "SET LOCAL "[1]; }
    if "SELECT " <= text { assert text[1] == "SELECT "[1]; }
    if "INSERT INTO " <= text { assert text[1] == "INSERT INTO "[1]; }
    if "UPDATE " <= text { assert text[1] == "UPDATE "[1]; }
    if "DELETE FROM " <= text { assert text[1] == "DELETE FROM "[1]; }
    if "CREATE SCHEMA " <= text { assert text[1] == "CREATE SCHEMA "[1]; }
    if "CREATE TABLE " <= text { assert text[1] == "CREATE TABLE "[1]; }
    if "CREATE INDEX " <= text { assert text[1] == "CREATE INDEX "[1]; }
  }

  /** A text that opens with plain text has it in its shape. */
  lemma HeadOfShape(x: Expression, verb: string)
    requires Apart(x) && QuoteFree(verb) && verb <= Write(x)
    ensures verb <= Shape(x)
  {
    WritesSomething(x);
    assert Write(x)[0] == verb[0];
    WritesSomething(x.rest);
    HeadFits(verb, x.first.text, Write(x.rest), Shape(x.rest));
  }

  lemma HeadFits(verb: string, text: string, more: string, other: string)
    requires QuoteFree(verb) && verb <= text + more && (more != "" ==> more[0] == '\'' || more[0] == '"')
    ensures verb <= text + other
  {
    var s := text + more;
    assert forall k | 0 <= k < |verb| :: s[k] == verb[k] && verb[k] in verb;
    assert more != "" ==> s[|text|] == more[0];
    assert verb <= text;
  }

  /** A statement of one command does not stray: it cannot end the transaction it runs in. */
  lemma StatementsLeaveTheTransaction(h: Handed)
    requires IsStatement(h) && OneCommand(h.text)
    ensures !Strays(h.text)
  {
    var x :| Plainly(h.text, x) && ';' !in Shape(x);
    var verb := OpeningVerb(h.text);
    VerbsArePlain(verb);
    SeparateIsApart(x);
    HeadOfShape(x, verb);
    OnlyCommand(Shape(x), verb);
  }

  lemma OnlyCommand(left: string, verb: string)
    requires verb <= left && IsVerb(verb) && verb != "" && !IsSpace(verb[0]) && ';' !in left
    ensures forall i, j | 0 <= i <= j <= |left| :: !StraysAt(left, i, j)
  {
    assert left[0] == verb[0];
    assert OpensWithVerb(left);
    forall i, j | 0 <= i <= j <= |left| ensures !StraysAt(left, i, j) {
      if CommandAt(left, i, j) {
        assert i == 0 && j == |left|;
        assert left[i..j] == left;
        assert left[0..] == left;
      }
    }
  }

  /** A command COMMIT strays, wherever it stands in what is left of a text. */
  lemma CommitStraysAt(left: string, i: nat, j: nat, space: nat)
    requires CommandAt(left, i, j) && j - i == space + 6 && left[i..j][space..] == COMMIT
    requires forall k | 0 <= k < space :: IsSpace(left[i..j][k])
    ensures StraysAt(left, i, j)
  {
    var command := left[i..j];
    assert command[space] == command[space..][0] == 'C';
    var k := Lead(command, 0);
    assert k == space;
    NoVerbGoesOnLikeCommit(command[k..]);
  }

  /** Plain text on its own. */
  lemma JustPlain(text: string)
    requires Clean(text)
    ensures var x := Then(Plain(text), End); Plainly(text, x) && Shape(x) == text
  {
    var x := Then(Plain(text), End);
    assert Write(x) == text + "" && Shape(x) == text + "";
  }

  lemma CommitStrays()
    ensures Strays(COMMIT)
  {
    JustPlain(COMMIT);
    assert COMMIT[0..6] == COMMIT && COMMIT[0..6][0..] == COMMIT;
    CommitStraysAt(COMMIT, 0, 6, 0);
    StraysExactlyWhen(Then(Plain(COMMIT), End));
  }

  // ---- but a statement may be of two commands ----

  /** The pieces of a text with more plain text at its end. */
  function With(x: Expression, more: string): Expression {
    match x
    case End => Then(Plain(more), End)
    case Then(p, rest) => if p.Plain? && rest.End? then Then(Plain(p.text + more), End) else Then(p, With(rest, more))
  }

  lemma {:induction false} WithMore(x: Expression, more: string)
    requires Separate(x) && Clean(more) && more[0] == ';'
    ensures Separate(With(x, more))
    ensures Write(With(x, more)) == Write(x) + more && Shape(With(x, more)) == Shape(x) + more
    ensures x.Then? ==> With(x, more).Then? && SameKind(x.first, With(x, more).first)
  {
    if x.End? {
      JustPlain(more);
    } else if x.first.Plain? && x.rest.End? {
      LongerIsClean(x.first.text, more);
      JustPlain(x.first.text + more);
      JustPlain(x.first.text);
    } else {
      WithMore(x.rest, more);
      MoreBehind(x, more, With(x.rest, more));
    }
  }

  lemma LongerIsClean(text: string, more: string)
    requires Clean(text) && Clean(more) && more[0] == ';'
    ensures Clean(text + more)
  {
    NoPairAcross(text, more, '-', '-');
    NoPairAcross(text, more, '/', '*');
  }

  lemma NoPairAcross(text: string, more: string, a: char, b: char)
    requires !HasPair(text, a, b) && !HasPair(more, a, b) && more != "" && more[0] != b
    ensures !HasPair(text + more, a, b)
  {
    var s := text + more;
    forall i | 0 <= i < |s| - 1 ensures !(s[i] == a && s[i + 1] == b) {
      if i + 1 < |text| {
        assert s[i] == text[i] && s[i + 1] == text[i + 1];
      } else if i + 1 == |text| {
        assert s[i + 1] == more[0];
      } else {
        assert s[i] == more[i - |text|] && s[i + 1] == more[i + 1 - |text|];
      }
    }
  }

  lemma MoreBehind(x: Expression, more: string, rest: Expression)
    requires x.Then? && Separate(x) && !(x.first.Plain? && x.rest.End?) && rest == With(x.rest, more)
    requires Separate(rest) && Write(rest) == Write(x.rest) + more && Shape(rest) == Shape(x.rest) + more
    requires rest.Then? && (x.rest.Then? ==> SameKind(x.rest.first, rest.first)) && (x.rest.End? ==> rest.first.Plain?)
    ensures Separate(Then(x.first, rest))
    ensures Write(Then(x.first, rest)) == Write(x) + more && Shape(Then(x.first, rest)) == Shape(x) + more
  {
    Regroup(WriteOne(x.first), Write(x.rest), more);
    Regroup(ShapeOne(x.first), Shape(x.rest), more);
    Behind(x.first, x.rest);
    Behind(x.first, rest);
    FitsAlike(x.first, x.rest, rest);
  }

  predicate Fits(p: Piece, rest: Expression) {
    rest.Then? ==> !SameKind(p, rest.first) && !(p.Plain? && Prefixes(p.text, rest.first))
  }

  lemma Behind(p: Piece, rest: Expression)
    ensures Separate(Then(p, rest)) <==> (p.Plain? ==> Clean(p.text)) && Fits(p, rest) && Separate(rest)
  {
  }

  lemma FitsAlike(p: Piece, rest: Expression, longer: Expression)
    requires Fits(p, rest) && longer.Then? && !(p.Plain? && rest.End?)
    requires (rest.Then? ==> SameKind(rest.first, longer.first)) && (rest.End? ==> longer.first.Plain?)
    ensures Fits(p, longer)
  {
  }

  /** Any plainly written statement with a COMMIT behind a semicolon is again a statement, and strays. */
  lemma AnyStatementCanCarryCommit(h: Handed, x: Expression)
    requires IsStatement(h) && Plainly(h.text, x)
    ensures var more := Composed(h.text + "; COMMIT", h.schema);
            IsStatement(more) && (exists y :: Plainly(more.text, y)) && Strays(more.text)
  {
    var y := With(x, "; COMMIT");
    StillComposable(h.text, h.schema);
    WithMore(x, "; COMMIT");
    LastCommandStrays(Shape(y), Shape(x));
    StraysExactlyWhen(y);
    assert Plainly(h.text + "; COMMIT", y);
  }

  lemma StillComposable(text: string, schema: string)
    requires Composable(text, schema)
    ensures Composable(text + "; COMMIT", schema)
  {
    var more := text + "; COMMIT";
    assert text <= more;
    if i :| 0 <= i <= |text| && PartAt(text, schema, i) {
      assert more[i..] == text[i..] + "; COMMIT";
      assert PartAt(more, schema, i);
    }
  }

  lemma LastCommandStrays(left: string, before: string)
    requires left == before + "; COMMIT"
    ensures exists i, j | 0 <= i <= j <= |left| :: StraysAt(left, i, j)
  {
    var n := |before| + 1;
    assert left[n..|left|] == " COMMIT" && left[n - 1] == ';';
    assert " COMMIT"[1..] == COMMIT;
    CommitStraysAt(left, n, |left|, 1);
  }

  // ---- and the literals of a text are not found by its apostrophes alone ----

  /** What is written opens with this plain text. */
  lemma PeelPlain(x: Expression, text: string, more: string)
    requires Separate(x) && Write(x) == text + more && QuoteFree(text)
    requires more != "" ==> more[0] == '\'' || more[0] == '"'
    ensures x.Then? && x.first == Plain(text) && Write(x.rest) == more
  {
    SeparateIsApart(x);
    WritesSomething(x);
    assert Write(x)[0] == text[0];
    WritesSomething(x.rest);
    QuoteFreeHead(text, more, x.first.text, Write(x.rest));
  }

  lemma PeelName(x: Expression, body: string, more: string)
    requires Separate(x) && Write(x) == Quote(body, '"') + more && (more != "" ==> more[0] != '"')
    ensures x.Then? && x.first == Name(body) && Write(x.rest) == more
  {
    SeparateIsApart(x);
    WritesSomething(x);
    assert Write(x)[0] == Quote(body, '"')[0];
    WritesSomething(x.rest);
    SameQuoted(body, more, x.first.body, Write(x.rest), '"');
  }

  /** COMMIT between two apostrophes, the first in a quoted name and the last in a comment. */
  function HiddenCommit(name: string, between: string): string {
    "SELECT \"x'\" FROM " + name + between + "; COMMIT --'"
  }

  /** No semicolon is left when what stands between apostrophes is taken out, and yet the statement strays. */
  lemma ApostrophesHideCommit(n: string, between: string)
    requires NoQuotes(n) && NoQuotes(between) && '\0' !in n && '\0' !in between
    ensures var text := HiddenCommit(Quote(n, '"'), between);
            IsStatement(Composed(text, Quote(n, '"'))) && ';' !in WithoutLiterals(text) && Strays(text)
  {
    var name := Quote(n, '"');
    QuoteOf(n, '"');
    HiddenIsStatement(name, between);
    HiddenPasses(name, between);
    forall x ensures !Plainly(HiddenCommit(name, between), x) {
      HiddenParts(name, between);
      EndsInComment(between);
      if Write(x) == HiddenCommit(name, between) { NotPlainly(x, n, between + "; COMMIT --"); }
    }
  }

  lemma HiddenIsStatement(name: string, between: string)
    requires '\0' !in name && '\0' !in between
    ensures Composable(HiddenCommit(name, between), name)
  {
    var head, tail := "SELECT \"x'\" FROM ", between + "; COMMIT --'";
    var text := HiddenCommit(name, between);
    assert text == head + name + tail;
    assert "SELECT " <= head;
    assert text[|head|..] == name + tail;
    assert PartAt(text, name, |head|);
  }

  lemma HiddenPasses(name: string, between: string)
    requires '\'' !in name && '\'' !in between
    ensures ';' !in WithoutLiterals(HiddenCommit(name, between))
  {
    var inside := "\" FROM " + name + between + "; COMMIT --";
    HiddenInside(name, between, inside);
    PassAround("SELECT \"x", inside, "");
  }

  lemma HiddenInside(name: string, between: string, inside: string)
    requires '\'' !in name && '\'' !in between && inside == "\" FROM " + name + between + "; COMMIT --"
    ensures HiddenCommit(name, between) == "SELECT \"x" + Quote(inside, '\'') + ""
  {
    var head, from, commit := "SELECT \"x", "\" FROM ", "; COMMIT --";
    assert head + ['\''] + from == "SELECT \"x'\" FROM " && commit + ['\''] == "; COMMIT --'";
    assert '\'' !in from && '\'' !in commit;
    Enclosing(head, from, name, between, commit, '\'');
  }

  lemma Enclosing(head: string, a: string, b: string, c: string, d: string, q: char)
    requires q !in a && q !in b && q !in c && q !in d
    ensures head + [q] + a + b + c + (d + [q]) == head + Quote(a + b + c + d, q) + ""
  {
    NothingDoubled(a + b + c + d, q);
  }

  lemma EndsInComment(between: string)
    requires NoQuotes(between)
    ensures QuoteFree(between + "; COMMIT --") && HasPair(between + "; COMMIT --", '-', '-')
  {
    var s := between + "; COMMIT --";
    assert s[|s| - 2] == "; COMMIT --"[9] && s[|s| - 1] == "; COMMIT --"[10];
  }

  lemma HiddenParts(name: string, between: string)
    ensures HiddenCommit(name, between) ==
            "SELECT " + (Quote("x'", '"') + (" FROM " + (name + (between + "; COMMIT --" + "'"))))
  {
    QuoteOf("x'", '"');
  }

  lemma NotPlainly(x: Expression, n: string, tail: string)
    requires Write(x) == "SELECT " + (Quote("x'", '"') + (" FROM " + (Quote(n, '"') + (tail + "'"))))
    requires QuoteFree(tail) && HasPair(tail, '-', '-')
    ensures !Separate(x)
  {
    if Separate(x) {
      PeelPlain(x, "SELECT ", Quote("x'", '"') + (" FROM " + (Quote(n, '"') + (tail + "'"))));
      PeelName(x.rest, "x'", " FROM " + (Quote(n, '"') + (tail + "'")));
      PeelPlain(x.rest.rest, " FROM ", Quote(n, '"') + (tail + "'"));
      PeelName(x.rest.rest.rest, n, tail + "'");
      PeelPlain(x.rest.rest.rest.rest, tail, "'");
    }
  }

  // ---- the write transaction over real statements ----

  /** With bodies and a preamble of statements of one command each, COMMIT is the only thing sent after BEGIN
      that strays, it is sent exactly when the opening was answered and the body returned, and it is the last
      word but for the ROLLBACK that follows when it is not heard. */
  lemma SealedWrite<T>(server: Server, preamble: seq<string>, schema: string, body: Body<T>, turns: nat,
                       n: int, tried: seq<string>, outcome: Outcome<T>)
    requires StopsAt(server, [BEGIN] + preamble, n)
    requires Tried(server, [BEGIN] + preamble, body, IsStatement, turns, n, tried, outcome)
    requires forall text | text in preamble :: IsStatement(Composed(text, schema)) && OneCommand(text)
    requires forall answers :: body(answers).Ask? ==> OneCommand(body(answers).handed.text)
    ensures var succeeded := Succeeded(server, [BEGIN] + preamble, body, IsStatement, turns);
            && (succeeded ==> |tried| > 1 && tried[|tried| - 1] == COMMIT)
            && (forall k | 1 <= k < |tried| :: Strays(tried[k]) <==> succeeded && k == |tried| - 1)
            && (outcome.Value? <==> succeeded && server(tried).Rows?)
  {
    CommitStrays();
    forall text | text in preamble ensures !Strays(text) { StatementsLeaveTheTransaction(Composed(text, schema)); }
    forall answers | body(answers).Ask?
        && IsStatement(body(answers).handed) ensures !Strays(body(answers).handed.text) {
      StatementsLeaveTheTransaction(body(answers).handed);
    }
    CommitOnlyAfterSuccess(server, preamble, body, IsStatement, turns, n, tried, outcome, Strays);
  }
}
