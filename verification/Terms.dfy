/** The word normalisation of packages/core/src/plan/retrieve.ts that questions, table names and
    glossary phrases all go through, and the joining of words into one key. */
module Terms {
  import opened Text

  const STOPWORDS: set<string> := {
    "a", "an", "the", "of", "in", "on", "at", "for", "by", "with", "and", "or", "to", "from", "is", "are", "was",
    "were", "be", "been", "do", "does", "did", "has", "have", "had", "how", "what", "which", "who", "whom", "whose",
    "when", "where", "why", "show", "me", "give", "list", "get", "find", "tell", "us", "i", "we", "all", "any", "my",
    "our", "their", "its", "this", "that", "these", "those", "per", "each", "every", "over", "up", "as", "it", "so",
    "than", "then"
  }

  predicate IsLower(c: char) { 'a' <= c <= 'z' }

  predicate IsUpper(c: char) { 'A' <= c <= 'Z' }

  predicate IsDigit(c: char) { '0' <= c <= '9' }

  predicate IsAlnum(c: char) { IsLower(c) || IsUpper(c) || IsDigit(c) }

  /** The length of the word at the front: it also ends where a capital follows a small letter or a digit. */
  function WordLength(s: string): (n: nat)
    requires s != [] && IsAlnum(s[0])
    ensures 1 <= n <= |s| && forall i | 0 <= i < n :: IsAlnum(s[i])
  {
    if |s| == 1 || !IsAlnum(s[1]) || (!IsUpper(s[0]) && IsUpper(s[1])) then 1 else 1 + WordLength(s[1..])
  }

  function Words(s: string): (ws: seq<string>)
    ensures forall w | w in ws :: w != [] && forall c | c in w :: IsAlnum(c)
  {
    if s == [] then []
    else if !IsAlnum(s[0]) then Words(s[1..])
    else
      var n := WordLength(s);
      [s[..n]] + Words(s[n..])
  }

  function LowerChar(c: char): char {
    if IsUpper(c) then c - 'A' + 'a' else c
  }

  function Lower(w: string): (l: string)
    ensures |l| == |w|
  {
    seq(|w|, i requires 0 <= i < |w| => LowerChar(w[i]))
  }

  predicate EndsWith(w: string, suffix: string) {
    |suffix| <= |w| && w[|w| - |suffix|..] == suffix
  }

  function Stem(w: string): string {
    if |w| > 4 && EndsWith(w, "ies") then w[..|w| - 3] + "y"
    else if |w| > 4 && EndsWith(w, "sses") then w[..|w| - 2]
    else if |w| > 3 && EndsWith(w, "s") && !EndsWith(w, "ss") then w[..|w| - 1]
    else w
  }

  /** A word as every index and key holds it: something, and only small letters and digits. */
  ghost predicate IsTerm(w: string) {
    w != [] && forall c | c in w :: IsLower(c) || IsDigit(c)
  }

  function Kept(ws: seq<string>, stopwords: set<string>): (ts: seq<string>)
    requires forall w | w in ws :: w != [] && forall c | c in w :: IsAlnum(c)
    ensures forall t | t in ts :: IsTerm(t)
  {
    if ws == [] then []
    else
      assert ws[0] in ws && forall w | w in ws[1..] :: w in ws;
      var l := Lower(ws[0]);
      TermAfterStem(ws[0]);
      (if l in stopwords then [] else [Stem(l)]) + Kept(ws[1..], stopwords)
  }

  lemma TermAfterStem(w: string)
    requires w != [] && forall c | c in w :: IsAlnum(c)
    ensures IsTerm(Stem(Lower(w)))
  {
    var l := Lower(w);
    forall c | c in l ensures IsLower(c) || IsDigit(c) {
      var i :| 0 <= i < |l| && l[i] == c;
      assert IsAlnum(w[i]);
    }
  }

  /** The normalised words of a text, in order. */
  function TermsOf(text: string): (ts: seq<string>)
    ensures forall t | t in ts :: IsTerm(t)
  {
    Kept(Words(text), STOPWORDS)
  }

  /** What the matcher asks of a normaliser. It is handed around as a value, so that nothing depends
      on which words are left out. */
  type Normaliser = string -> seq<string>

  ghost predicate GivesTerms(norm: Normaliser) {
    forall text :: AllTerms(norm(text))
  }

  lemma TermsOfGivesTerms()
    ensures GivesTerms(TermsOf)
  {
  }

  // ---- words joined with single spaces ----

  function Joined(ws: seq<string>): string {
    Join(ws, " ")
  }

  ghost predicate AllTerms(ws: seq<string>) {
    forall w | w in ws :: IsTerm(w)
  }

  lemma TermHasNoSpace(w: string)
    requires IsTerm(w)
    ensures ' ' !in w && w != ""
  {
  }

  /** A joined key stands for one list of words. */
  lemma {:induction false} JoinedInjective(xs: seq<string>, ys: seq<string>)
    requires AllTerms(xs) && AllTerms(ys) && Joined(xs) == Joined(ys)
    ensures xs == ys
  {
    forall w | w in xs || w in ys ensures ' ' !in w && w != "" { TermHasNoSpace(w); }
    JoinInjective(xs, ys, ' ');
    if xs + ys == [""] { assert "" in xs || "" in ys by { assert (xs + ys)[0] == ""; } }
  }

  /** How many pieces splitting at single spaces gives. */
  function Pieces(s: string): (n: nat)
    ensures n >= 1
  {
    if s == [] then 1 else (if s[0] == ' ' then 1 else 0) + Pieces(s[1..])
  }

  lemma {:induction false} PiecesOfWord(w: string, rest: string)
    requires ' ' !in w
    ensures Pieces(w + rest) == Pieces(rest)
  {
    if w == [] {
      assert w + rest == rest;
    } else {
      PiecesOfWord(w[1..], rest);
      assert (w + rest)[1..] == w[1..] + rest;
    }
  }

  lemma {:induction false} PiecesOfJoined(ws: seq<string>)
    requires AllTerms(ws) && ws != []
    ensures Pieces(Joined(ws)) == |ws|
  {
    TermHasNoSpace(ws[0]);
    if |ws| == 1 {
      PiecesOfWord(ws[0], "");
      assert ws[0] + "" == ws[0];
    } else {
      PiecesOfJoined(ws[1..]);
      var rest := " " + Joined(ws[1..]);
      PiecesOfWord(ws[0], rest);
      assert rest[1..] == Joined(ws[1..]);
      assert Joined(ws) == ws[0] + rest;
    }
  }
}
