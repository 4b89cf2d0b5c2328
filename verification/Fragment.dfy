/** packages/core/src/semantic/fragment.ts: what makes a glossary expression fit for a prompt. The
    keyword list, case folding and the allowed names are values the functions are given. */
module Fragment {
  import opened Schema
  import opened Text
  import Framing

  // ---- the words of the answer ----

  datatype Hazard = NulByte | Separator | LineComment | BlockComment

  datatype Issue = Unsafe(what: Hazard) | TooLong | UnknownIdentifier(name: string)

  /** KEYWORDS and toLowerCase. */
  datatype Language = Language(keywords: set<string>, lower: string -> string)

  function Tidied(text: string): string {
    Trim(Collapse(text))
  }

  function AllowIdentifier(allowed: set<string>, name: string, lang: Language): set<string> {
    allowed + {name, lang.lower(name)}
  }

  predicate HasPair(s: string, a: char, b: char) {
    exists i :: 0 <= i < |s| - 1 && s[i] == a && s[i + 1] == b
  }

  predicate Contains(s: string, h: Hazard) {
    match h
    case NulByte => '\0' in s
    case Separator => ';' in s
    case LineComment => HasPair(s, '-', '-')
    case BlockComment => HasPair(s, '/', '*') || HasPair(s, '*', '/')
  }

  // ---- quoted text: q(?:[^q]|qq)*q ----

  /** Where a quoted text ends, read from i with its opening quote before i: the pattern takes a doubled
      quote when what follows can still be closed, and otherwise closes. */
  function Closing(s: string, q: char, i: nat): (e: Option<nat>)
    requires i <= |s|
    ensures e.Some? ==> i < e.value <= |s| && s[e.value - 1] == q
    decreases |s| - i
  {
    if i == |s| then None
    else if s[i] != q then Closing(s, q, i + 1)
    else if i + 1 < |s| && s[i + 1] == q then
      (match Closing(s, q, i + 2)
       case None => Some(i + 1)
       case Some(e) => Some(e))
    else Some(i + 1)
  }

  /** The text from i on, every quoted text replaced. */
  function ReplacedFrom(s: string, q: char, put: string, i: nat): string
    requires i <= |s|
    decreases |s| - i
  {
    if i == |s| then ""
    else if s[i] == q && Closing(s, q, i + 1).Some? then put + ReplacedFrom(s, q, put, Closing(s, q, i + 1).value)
    else [s[i]] + ReplacedFrom(s, q, put, i + 1)
  }

  function Undoubled(s: string, q: char): string
    decreases |s|
  {
    if s == "" then ""
    else if |s| > 1 && s[0] == q && s[1] == q then [q] + Undoubled(s[2..], q)
    else [s[0]] + Undoubled(s[1..], q)
  }

  /** What stands between the quotes from i on, in order, with doubled quotes read as one. */
  function NamesFrom(s: string, q: char, i: nat): seq<string>
    requires i <= |s|
    decreases |s| - i
  {
    if i == |s| then []
    else if s[i] == q && Closing(s, q, i + 1).Some? then
      var e := Closing(s, q, i + 1).value;
      [Undoubled(s[i + 1..e - 1], q)] + NamesFrom(s, q, e)
    else NamesFrom(s, q, i + 1)
  }

  function Replaced(s: string, q: char, put: string): string {
    ReplacedFrom(s, q, put, 0)
  }

  function QuotedNames(s: string, q: char): seq<string> {
    NamesFrom(s, q, 0)
  }

  function Doubled(body: string, q: char): string {
    if body == "" then "" else (if body[0] == q then [q, q] else [body[0]]) + Doubled(body[1..], q)
  }

  predicate Holds(s: string, i: nat, part: string) {
    i + |part| <= |s| && forall k :: 0 <= k < |part| ==> s[i + k] == part[k]
  }

  lemma HoldsRest(s: string, i: nat, a: string, b: string)
    requires Holds(s, i, a + b)
    ensures Holds(s, i + |a|, b)
  {
    forall k | 0 <= k < |b| ensures s[i + |a| + k] == b[k] {
      assert (a + b)[|a| + k] == b[k];
    }
  }

  /** A body written out with its quotes doubled is closed by its own last quote, whatever follows,
      unless another quote follows at once. */
  lemma {:induction false} ClosingOfDoubled(s: string, q: char, i: nat, body: string)
    requires Holds(s, i, Doubled(body, q))
    requires var e := i + |Doubled(body, q)|; e < |s| && s[e] == q && (e + 1 < |s| ==> s[e + 1] != q)
    ensures Closing(s, q, i) == Some(i + |Doubled(body, q)| + 1)
    decreases |body|
  {
    if body != "" {
      var d := Doubled(body[1..], q);
      if body[0] == q {
        assert Doubled(body, q) == [q, q] + d;
        HoldsRest(s, i, [q, q], d);
        assert s[i + 0] == ([q, q] + d)[0] && s[i + 1] == ([q, q] + d)[1];
        ClosingOfDoubled(s, q, i + 2, body[1..]);
      } else {
        assert Doubled(body, q) == [body[0]] + d;
        HoldsRest(s, i, [body[0]], d);
        assert s[i + 0] == ([body[0]] + d)[0];
        ClosingOfDoubled(s, q, i + 1, body[1..]);
      }
    }
  }

  lemma {:induction false} UndoubledDoubled(body: string, q: char)
    ensures Undoubled(Doubled(body, q), q) == body
  {
    if body != "" {
      var d := Doubled(body, q);
      UndoubledDoubled(body[1..], q);
      if body[0] == q {
        assert d[2..] == Doubled(body[1..], q);
      } else {
        assert d[1..] == Doubled(body[1..], q);
      }
    }
  }

  function Quote(body: string, q: char): string {
    [q] + Doubled(body, q) + [q]
  }

  /** Whatever a literal or a quoted name says, it is read as one unit and its content read back. */
  lemma QuotingReadsBack(s: string, q: char, i: nat, body: string, put: string)
    requires Holds(s, i, Quote(body, q))
    requires var e := i + |Quote(body, q)|; e < |s| ==> s[e] != q
    ensures var e := i + |Quote(body, q)|;
            && ReplacedFrom(s, q, put, i) == put + ReplacedFrom(s, q, put, e)
            && NamesFrom(s, q, i) == [body] + NamesFrom(s, q, e)
  {
    var d := Doubled(body, q);
    var e := i + |d| + 2;
    HoldsInside(s, q, i, d);
    ClosingOfDoubled(s, q, i + 1, body);
    UndoubledDoubled(body, q);
    ReplaceOne(s, q, i, e, put);
    ReadOne(s, q, i, e, d);
  }

  /** A text between quotes, at i. */
  lemma HoldsInside(s: string, q: char, i: nat, inside: string)
    requires Holds(s, i, [q] + inside + [q])
    ensures i + |inside| + 2 <= |s| && s[i] == q && s[i + |inside| + 1] == q && Holds(s, i + 1, inside)
    ensures s[i + 1..i + 1 + |inside|] == inside
  {
    var one := [q] + inside + [q];
    assert s[i + 0] == one[0] && s[i + (|inside| + 1)] == one[|inside| + 1];
    forall k | 0 <= k < |inside| ensures s[i + 1 + k] == inside[k] { assert s[i + (k + 1)] == one[k + 1]; }
  }

  lemma ReplaceOne(s: string, q: char, i: nat, e: nat, put: string)
    requires i < e <= |s| && s[i] == q && Closing(s, q, i + 1) == Some(e)
    ensures ReplacedFrom(s, q, put, i) == put + ReplacedFrom(s, q, put, e)
  {
  }

  lemma ReadOne(s: string, q: char, i: nat, e: nat, inside: string)
    requires i + 2 <= e <= |s| && s[i] == q && Closing(s, q, i + 1) == Some(e) && s[i + 1..e - 1] == inside
    ensures NamesFrom(s, q, i) == [Undoubled(inside, q)] + NamesFrom(s, q, e)
  {
    var names := NamesFrom(s, q, e);
    assert NamesFrom(s, q, i) == [Undoubled(s[i + 1..e - 1], q)] + names;
  }

  // ---- when is a quoted name judged as written? ----

  function WithoutLiterals(sql: string): string {
    Replaced(sql, '\'', "''")
  }

  lemma {:induction false} EmptyingShrinks(s: string, q: char, i: nat)
    requires i <= |s|
    ensures Shrinks(ReplacedFrom(s, q, [q, q], i), s[i..])
    decreases |s| - i
  {
    if i < |s| {
      if s[i] == q && Closing(s, q, i + 1).Some? {
        var e := Closing(s, q, i + 1).value;
        EmptyingShrinks(s, q, e);
        EmptiedShrinks(s, i, e, q, ReplacedFrom(s, q, [q, q], e));
      } else {
        EmptyingShrinks(s, q, i + 1);
        assert s[i..] == [s[i]] + s[i + 1..];
      }
    }
  }

  /** Shorter, or the same. */
  predicate Shrinks(a: string, b: string) {
    |a| <= |b| && (|a| == |b| ==> a == b)
  }

  lemma EmptiedShrinks(s: string, i: nat, e: nat, q: char, rest: string)
    requires i + 2 <= e <= |s| && s[i] == q && s[e - 1] == q && Shrinks(rest, s[e..])
    ensures Shrinks([q, q] + rest, s[i..])
  {
    if e == i + 2 {
      assert s[i..] == [q, q] + s[e..];
    }
  }

  /** Between its quotes a quoted text has only doubled ones. */
  lemma {:induction false} ContentIsDoubled(s: string, q: char, i: nat)
    requires i <= |s| && Closing(s, q, i).Some?
    ensures var x := s[i..Closing(s, q, i).value - 1]; Doubled(Undoubled(x, q), q) == x
    decreases |s| - i
  {
    var e := Closing(s, q, i).value;
    var x := s[i..e - 1];
    if s[i] != q {
      ContentIsDoubled(s, q, i + 1);
      assert x[1..] == s[i + 1..e - 1];
    } else if e > i + 1 {
      ContentIsDoubled(s, q, i + 2);
      var y := s[i + 2..e - 1];
      assert x[2..] == y;
      assert Undoubled(x, q) == [q] + Undoubled(y, q);
      assert Undoubled(x, q)[1..] == Undoubled(y, q);
      assert Doubled(Undoubled(x, q), q) == [q, q] + y;
    }
  }

  lemma {:induction false} NameNeedsRoom(s: string, q: char, i: nat, name: string)
    requires i <= |s| && name in NamesFrom(s, q, i)
    ensures |Doubled(name, q)| + 2 <= |s| - i
    decreases |s| - i
  {
    if s[i] == q && Closing(s, q, i + 1).Some? {
      var e := Closing(s, q, i + 1).value;
      ContentIsDoubled(s, q, i + 1);
      if name != Undoubled(s[i + 1..e - 1], q) { NameNeedsRoom(s, q, e, name); }
    } else {
      NameNeedsRoom(s, q, i + 1, name);
    }
  }

  /** Literals are emptied before quoted names are read, so a quoted name is judged as written exactly
      when emptying the literals leaves its text alone. */
  lemma QuotedNameJudgedAsWritten(name: string)
    ensures QuotedNames(WithoutLiterals(Quote(name, '"')), '"') == [name]
       <==> WithoutLiterals(Quote(name, '"')) == Quote(name, '"')
  {
    var s := Quote(name, '"');
    QuotingReadsBack(s, '"', 0, name, " ");
    EmptyingShrinks(s, '\'', 0);
    if QuotedNames(WithoutLiterals(s), '"') == [name] {
      NameNeedsRoom(WithoutLiterals(s), '"', 0, name);
    }
  }

  lemma {:induction false} NothingDoubled(body: string, q: char)
    requires q !in body
    ensures Doubled(body, q) == body
  {
    if body != "" { NothingDoubled(body[1..], q); }
  }

  // ---- words: [A-Za-z_][A-Za-z0-9_]* ----

  predicate WordStart(c: char) {
    'a' <= c <= 'z' || 'A' <= c <= 'Z' || c == '_'
  }

  predicate WordPart(c: char) {
    WordStart(c) || '0' <= c <= '9'
  }

  function WordEnd(s: string, i: nat): (j: nat)
    requires i <= |s|
    ensures i <= j <= |s| && (forall k :: i <= k < j ==> WordPart(s[k])) && (j < |s| ==> !WordPart(s[j]))
    decreases |s| - i
  {
    if i < |s| && WordPart(s[i]) then WordEnd(s, i + 1) else i
  }

  /** The first word at or after i. */
  function NextWord(s: string, i: nat): (w: Option<(nat, nat)>)
    requires i <= |s|
    ensures w.Some? ==> i <= w.value.0 < w.value.1 <= |s|
    decreases |s| - i
  {
    if i == |s| then None
    else if WordStart(s[i]) then Some((i, WordEnd(s, i)))
    else NextWord(s, i + 1)
  }

  function Words(s: string, i: nat): seq<(nat, nat)>
    requires i <= |s|
    ensures forall w :: w in Words(s, i) ==> i <= w.0 < w.1 <= |s|
    decreases |s| - i
  {
    match NextWord(s, i)
    case None => []
    case Some(w) => [w] + Words(s, w.1)
  }

  /** Some character between a letter at r and position a, up to last, ends the word begun at r. */
  predicate Ends(s: string, r: nat, last: int) {
    exists k :: r < k <= last && k < |s| && !WordPart(s[k])
  }

  /** Independently of any scan: letters and digits from a to b, a longest such stretch to the right,
      begun by a letter, with no letter before it in the same stretch. */
  predicate WordAt(s: string, a: nat, b: nat) {
    && a < b <= |s| && WordStart(s[a])
    && (forall k :: a <= k < b ==> WordPart(s[k]))
    && (b < |s| ==> !WordPart(s[b]))
    && forall r :: 0 <= r < a && WordStart(s[r]) ==> Ends(s, r, a - 1)
  }

  /** No word runs across i. */
  predicate Between(s: string, i: nat) {
    i >= |s| || forall r :: 0 <= r < i && WordStart(s[r]) ==> Ends(s, r, i)
  }

  lemma {:induction false} NextWordIsNext(s: string, i: nat)
    requires i <= |s| && Between(s, i)
    ensures var w := NextWord(s, i);
            if w.None? then forall a: nat, b: nat :: i <= a ==> !WordAt(s, a, b)
            else
              && WordAt(s, w.value.0, w.value.1) && Between(s, w.value.1)
              && forall a: nat, b: nat :: i <= a && WordAt(s, a, b) ==> (a, b) == w.value || w.value.1 <= a
    decreases |s| - i
  {
    if i == |s| {
    } else if WordStart(s[i]) {
      var j := WordEnd(s, i);
      forall r | 0 <= r < i && WordStart(s[r]) ensures Ends(s, r, i - 1) {
        assert Ends(s, r, i);
      }
      if j < |s| {
        forall r | 0 <= r < j && WordStart(s[r]) ensures Ends(s, r, j) {}
      }
      forall a: nat, b: nat | i <= a && WordAt(s, a, b) ensures (a, b) == (i, j) || j <= a {
        if a > i {
          assert Ends(s, i, a - 1);
        }
      }
    } else {
      forall r | 0 <= r < i + 1 && WordStart(s[r]) ensures Ends(s, r, i + 1) {
        assert Ends(s, r, i);
      }
      NextWordIsNext(s, i + 1);
    }
  }

  /** Scanning from i finds exactly the words that start there or later. */
  lemma {:induction false} ScanFindsTheWords(s: string, i: nat, a: nat, b: nat)
    requires i <= |s| && Between(s, i)
    ensures (a, b) in Words(s, i) <==> i <= a && WordAt(s, a, b)
    decreases |s| - i
  {
    NextWordIsNext(s, i);
    match NextWord(s, i)
    case None =>
    case Some(w) => ScanFindsTheWords(s, w.1, a, b);
  }

  // ---- unknownIdentifiers ----

  /** The text the words are looked for in: literals emptied, quoted names taken out. */
  function Bare(sql: string): string {
    Replaced(WithoutLiterals(sql), '"', " ")
  }

  /** A name followed by an open parenthesis is a function. */
  predicate IsCall(bare: string, b: nat)
    requires b <= |bare|
  {
    Lead(bare, b) < |bare| && bare[Lead(bare, b)] == '('
  }

  predicate KnownWord(bare: string, w: (nat, nat), allowed: set<string>, lang: Language)
    requires w.0 <= w.1 <= |bare|
  {
    var lower := lang.lower(bare[w.0..w.1]);
    IsCall(bare, w.1) || lower in lang.keywords || lower in allowed
  }

  function Noted(seen: seq<string>, name: string): seq<string> {
    if name in seen then seen else seen + [name]
  }

  function UnknownQuoted(names: seq<string>, allowed: set<string>, seen: seq<string>): seq<string>
    decreases names
  {
    if names == [] then seen
    else UnknownQuoted(names[1..], allowed, if names[0] in allowed then seen else Noted(seen, names[0]))
  }

  function UnknownWords(bare: string, i: nat, allowed: set<string>, lang: Language, seen: seq<string>): seq<string>
    requires i <= |bare|
    decreases |bare| - i
  {
    match NextWord(bare, i)
    case None => seen
    case Some(w) =>
      UnknownWords(bare, w.1, allowed, lang, if KnownWord(bare, w, allowed, lang) then seen
                   else Noted(seen, bare[w.0..w.1]))
  }

  function Unknown(sql: string, allowed: set<string>, lang: Language): seq<string> {
    UnknownWords(Bare(sql), 0, allowed, lang, UnknownQuoted(QuotedNames(WithoutLiterals(sql), '"'), allowed, []))
  }

  method UnknownIdentifiers(sql: string, allowed: set<string>, lang: Language) returns (unknown: seq<string>)
    ensures unknown == Unknown(sql, allowed, lang)
  {
    var quoted := QuotedNames(WithoutLiterals(sql), '"');
    var bare := Bare(sql);
    unknown := [];
    var i := 0;
    while i < |quoted|
      invariant 0 <= i <= |quoted|
      invariant UnknownQuoted(quoted[i..], allowed, unknown) == UnknownQuoted(quoted, allowed, [])
    {
      assert quoted[i..][1..] == quoted[i + 1..];
      if quoted[i] !in allowed { unknown := Noted(unknown, quoted[i]); }
      i := i + 1;
    }
    var from := 0;
    var found := NextWord(bare, 0);
    while found.Some?
      invariant from <= |bare| && found == NextWord(bare, from)
      invariant UnknownWords(bare, from, allowed, lang, unknown) == Unknown(sql, allowed, lang)
      decreases |bare| - from
    {
      var w := found.value;
      if !KnownWord(bare, w, allowed, lang) { unknown := Noted(unknown, bare[w.0..w.1]); }
      from := w.1;
      found := NextWord(bare, from);
    }
  }

  lemma {:induction false} UnknownQuotedMeans(names: seq<string>, allowed: set<string>, seen: seq<string>, name: string)
    ensures name in UnknownQuoted(names, allowed, seen) <==> name in seen || (name in names && name !in allowed)
    decreases names
  {
    if names != [] {
      UnknownQuotedMeans(names[1..], allowed, if names[0] in allowed then seen else Noted(seen, names[0]), name);
      assert name in names <==> name == names[0] || name in names[1..];
    }
  }

  /** An unknown word spelled `name` in the scan from i. */
  predicate UnknownWordIn(bare: string, ws: seq<(nat, nat)>, allowed: set<string>, lang: Language, name: string) {
    exists w :: w in ws && w.0 <= w.1 <= |bare| && bare[w.0..w.1] == name && !KnownWord(bare, w, allowed, lang)
  }

  lemma {:induction false} UnknownWordsMean(bare: string, i: nat, allowed: set<string>, lang: Language,
                                            seen: seq<string>, name: string)
    requires i <= |bare|
    ensures name in UnknownWords(bare, i, allowed, lang, seen)
       <==> name in seen || UnknownWordIn(bare, Words(bare, i), allowed, lang, name)
    decreases |bare| - i
  {
    match NextWord(bare, i)
    case None =>
    case Some(w) =>
      var next := if KnownWord(bare, w, allowed, lang) then seen else Noted(seen, bare[w.0..w.1]);
      UnknownWordsMean(bare, w.1, allowed, lang, next, name);
      assert Words(bare, i) == [w] + Words(bare, w.1);
  }

  /** The identifiers of an expression, as this lexer splits it, that an entry did not declare. */
  ghost predicate Undeclared(sql: string, allowed: set<string>, lang: Language, name: string) {
    || (name in QuotedNames(WithoutLiterals(sql), '"') && name !in allowed)
    || exists a: nat, b: nat :: WordAt(Bare(sql), a, b) && Bare(sql)[a..b] == name
                                && !KnownWord(Bare(sql), (a, b), allowed, lang)
  }

  lemma UnknownMeans(sql: string, allowed: set<string>, lang: Language, name: string)
    ensures name in Unknown(sql, allowed, lang) <==> Undeclared(sql, allowed, lang, name)
  {
    var bare := Bare(sql);
    var quoted := QuotedNames(WithoutLiterals(sql), '"');
    UnknownQuotedMeans(quoted, allowed, [], name);
    UnknownWordsMean(bare, 0, allowed, lang, UnknownQuoted(quoted, allowed, []), name);
    forall a: nat, b: nat ensures (a, b) in Words(bare, 0) <==> WordAt(bare, a, b) {
      ScanFindsTheWords(bare, 0, a, b);
    }
    if UnknownWordIn(bare, Words(bare, 0), allowed, lang, name) {
      var w :| w in Words(bare, 0) && w.0 <= w.1 <= |bare| && bare[w.0..w.1] == name
          && !KnownWord(bare, w, allowed, lang);
      assert WordAt(bare, w.0, w.1);
    }
    if a: nat, b: nat :| WordAt(bare, a, b) && bare[a..b] == name && !KnownWord(bare, (a, b), allowed, lang) {
      assert (a, b) in Words(bare, 0);
    }
  }

  // ---- fragmentIssues ----

  function HazardIssues(sql: string): seq<Issue> {
    (if Contains(sql, NulByte) then [Unsafe(NulByte)] else [])
    + (if Contains(sql, Separator) then [Unsafe(Separator)] else [])
    + (if Contains(sql, LineComment) then [Unsafe(LineComment)] else [])
    + (if Contains(sql, BlockComment) then [Unsafe(BlockComment)] else [])
  }

  function LengthIssues(text: string, maxLength: int): seq<Issue> {
    if Framing.Utf16Length(text) > maxLength then [TooLong] else []
  }

  /** One issue for each of the first n names. */
  function NameIssues(names: seq<string>, n: nat): seq<Issue>
    requires n <= |names|
  {
    seq(n, i requires 0 <= i < n => UnknownIdentifier(names[i]))
  }

  function Issues(sql: string, allowed: set<string>, maxLength: int, lang: Language): seq<Issue> {
    var names := Unknown(Tidied(sql), allowed, lang);
    HazardIssues(sql) + LengthIssues(Tidied(sql), maxLength) + NameIssues(names, |names|)
  }

  method FragmentIssues(sql: string, allowed: set<string>, maxLength: int, lang: Language) returns (issues: seq<Issue>)
    ensures issues == Issues(sql, allowed, maxLength, lang)
  {
    issues := HazardIssues(sql);
    var text := Tidied(sql);
    issues := issues + LengthIssues(text, maxLength);
    var names := UnknownIdentifiers(text, allowed, lang);
    var i := 0;
    ghost var before := issues;
    while i < |names|
      invariant 0 <= i <= |names| && issues == before + NameIssues(names, i)
    {
      assert NameIssues(names, i + 1) == NameIssues(names, i) + [UnknownIdentifier(names[i])];
      issues := issues + [UnknownIdentifier(names[i])];
      i := i + 1;
    }
  }

  predicate Harmless(sql: string) {
    forall h :: !Contains(sql, h)
  }

  ghost predicate AllDeclared(text: string, allowed: set<string>, lang: Language) {
    forall name :: !Undeclared(text, allowed, lang, name)
  }

  /** Fit for a prompt: nothing that ends or comments out a statement, short enough, and every name it
      mentions a keyword, a call or declared. */
  ghost predicate Fit(sql: string, allowed: set<string>, maxLength: int, lang: Language) {
    && Harmless(sql)
    && Framing.Utf16Length(Tidied(sql)) <= maxLength
    && AllDeclared(Tidied(sql), allowed, lang)
  }

  lemma NoIssuesMeansFit(sql: string, allowed: set<string>, maxLength: int, lang: Language)
    ensures Issues(sql, allowed, maxLength, lang) == [] <==> Fit(sql, allowed, maxLength, lang)
  {
    HazardsMean(sql);
    NoneUnknown(Tidied(sql), allowed, lang);
  }

  lemma NoneUnknown(text: string, allowed: set<string>, lang: Language)
    ensures Unknown(text, allowed, lang) == [] <==> AllDeclared(text, allowed, lang)
  {
    var names := Unknown(text, allowed, lang);
    forall name ensures name in names <==> Undeclared(text, allowed, lang, name) {
      UnknownMeans(text, allowed, lang, name);
    }
    if names != [] { assert names[0] in names; }
  }

  lemma HazardsMean(sql: string)
    ensures HazardIssues(sql) == [] <==> Harmless(sql)
  {
    if HazardIssues(sql) == [] {
      forall h ensures !Contains(sql, h) {
        match h case NulByte => case Separator => case LineComment => case BlockComment =>
      }
    }
  }
}
