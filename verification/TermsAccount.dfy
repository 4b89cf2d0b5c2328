/** The words of a text. */
module TermsAccount {
  import opened Text
  import opened Terms

  // Where words begin and end, and which spellings of a word are one term: terms of
  // packages/core/src/plan/retrieve.ts, from the text itself.

  /** A capital behind a small letter or a digit. */
  predicate Hump(s: string, i: int)
    requires 0 < i < |s|
  {
    !IsUpper(s[i - 1]) && IsUpper(s[i])
  }

  /** A word begins at i: a letter or digit that is the first of its run, or a hump. */
  predicate Begins(s: string, i: int)
    requires 0 <= i < |s|
  {
    IsAlnum(s[i]) && (i == 0 || !IsAlnum(s[i - 1]) || Hump(s, i))
  }

  /** The stretch from i to e is one word, and goes no further. */
  ghost predicate OneWord(s: string, i: int, e: int) {
    && 0 <= i < e <= |s| && Begins(s, i)
    && (forall j | i < j < e :: IsAlnum(s[j]) && !Begins(s, j))
    && (e < |s| ==> !IsAlnum(s[e]) || Begins(s, e))
  }

  lemma {:induction false} WordLengthMeans(t: string)
    requires t != [] && IsAlnum(t[0])
    ensures var n := WordLength(t);
            && (forall j | 0 < j < n :: IsAlnum(t[j]) && !Hump(t, j))
            && (n < |t| ==> !IsAlnum(t[n]) || Hump(t, n))
  {
    if !(|t| == 1 || !IsAlnum(t[1]) || Hump(t, 1)) {
      var n := WordLength(t);
      WordLengthMeans(t[1..]);
      assert forall j | 1 < j < |t| :: Hump(t, j) <==> Hump(t[1..], j - 1);
      forall j | 0 < j < n ensures IsAlnum(t[j]) && !Hump(t, j) {
        if j > 1 { assert t[j] == t[1..][j - 1]; }
      }
    }
  }

  /** Places where words begin and where each ends. */
  datatype Spans = None | More(start: int, end: int, rest: Spans) {
    function Texts(s: string): seq<string> {
      match this
      case None => []
      case More(i, e, rest) => (if 0 <= i <= e <= |s| then [s[i..e]] else []) + rest.Texts(s)
    }

    predicate Has(i: int) {
      match this
      case None => false
      case More(j, _, rest) => i == j || rest.Has(i)
    }

    /** Each is a whole word of s, and they come in order from `from` on. */
    ghost predicate Fit(s: string, from: int) {
      match this
      case None => true
      case More(i, e, rest) => from <= i && OneWord(s, i, e) && rest.Fit(s, e)
    }
  }

  /** From `from` on, the words are the words that begin there. */
  ghost predicate Covers(w: Spans, s: string, from: int)
    requires 0 <= from <= |s|
  {
    && w.Fit(s, from) && w.Texts(s) == Words(s[from..])
    && forall i | from <= i < |s| :: w.Has(i) <==> Begins(s, i)
  }

  lemma {:induction false} WordsFrom(s: string, from: nat) returns (w: Spans)
    requires from <= |s|
    requires 0 < from < |s| && IsAlnum(s[from]) ==> Begins(s, from)
    ensures Covers(w, s, from)
    decreases |s| - from
  {
    if from == |s| {
      w := None;
    } else if !IsAlnum(s[from]) {
      w := WordsFrom(s, from + 1);
      Skipped(s, from, w);
    } else {
      var n := WordLength(s[from..]);
      WordHere(s, from, n);
      var rest := WordsFrom(s, from + n);
      w := WithWord(s, from, n, rest);
    }
  }

  lemma Skipped(s: string, from: nat, w: Spans)
    requires from < |s| && !IsAlnum(s[from]) && Covers(w, s, from + 1)
    ensures Covers(w, s, from)
  {
    BehindIsLater(s, from + 1, w);
    FitsEarlier(s, from, from + 1, w);
    assert s[from..][1..] == s[from + 1..];
  }

  lemma FitsEarlier(s: string, from: int, later: int, w: Spans)
    requires w.Fit(s, later) && from <= later
    ensures w.Fit(s, from)
  {
  }

  lemma WithWord(s: string, from: nat, n: nat, rest: Spans) returns (w: Spans)
    requires from < |s| && IsAlnum(s[from]) && n == WordLength(s[from..]) && OneWord(s, from, from + n)
    requires Covers(rest, s, from + n)
    ensures Covers(w, s, from)
  {
    w := More(from, from + n, rest);
    BehindIsLater(s, from + n, rest);
    FirstText(s, from, n);
  }

  lemma FirstText(s: string, from: nat, n: nat)
    requires from < |s| && IsAlnum(s[from]) && n == WordLength(s[from..])
    ensures from + n <= |s| && Words(s[from..]) == [s[from..from + n]] + Words(s[from + n..])
  {
    var t := s[from..];
    assert t[..n] == s[from..from + n] && t[n..] == s[from + n..];
  }

  lemma WordHere(s: string, from: nat, n: nat)
    requires from < |s| && IsAlnum(s[from]) && (from > 0 ==> Begins(s, from)) && n == WordLength(s[from..])
    ensures OneWord(s, from, from + n)
    ensures from + n < |s| && IsAlnum(s[from + n]) ==> Begins(s, from + n)
  {
    var t := s[from..];
    WordLengthMeans(t);
    forall j | from < j < from + n ensures IsAlnum(s[j]) && !Begins(s, j) {
      assert s[j] == t[j - from] && s[j - 1] == t[j - from - 1];
      assert Hump(s, j) <==> Hump(t, j - from);
    }
    if from + n < |s| {
      assert s[from + n] == t[n] && s[from + n - 1] == t[n - 1];
      assert Hump(s, from + n) <==> Hump(t, n);
    }
  }

  lemma {:induction false} BehindIsLater(s: string, from: int, w: Spans)
    requires w.Fit(s, from)
    ensures forall i | i < from :: !w.Has(i)
    decreases w
  {
    if w.More? { BehindIsLater(s, w.end, w.rest); }
  }

  /** The words of a text are the stretches that begin at its word beginnings, in order. */
  lemma WordsAreStretches(s: string) returns (w: Spans)
    ensures w.Fit(s, 0) && w.Texts(s) == Words(s) && forall i | 0 <= i < |s| :: w.Has(i) <==> Begins(s, i)
  {
    w := WordsFrom(s, 0);
    assert s[0..] == s;
  }

  // ---- terms ----

  /** Every word but a stopword gives its term, in order. */
  ghost predicate TermEach(ws: seq<string>, stopwords: set<string>, ts: seq<string>) {
    if ws == [] then ts == []
    else if Lower(ws[0]) in stopwords then TermEach(ws[1..], stopwords, ts)
    else ts != [] && ts[0] == Stem(Lower(ws[0])) && TermEach(ws[1..], stopwords, ts[1..])
  }

  lemma {:induction false} KeptAreTerms(ws: seq<string>, stopwords: set<string>)
    requires forall w | w in ws :: w != [] && forall c | c in w :: IsAlnum(c)
    ensures TermEach(ws, stopwords, Kept(ws, stopwords))
  {
    if ws != [] {
      assert forall w | w in ws[1..] :: w in ws;
      KeptAreTerms(ws[1..], stopwords);
      var rest := Kept(ws[1..], stopwords);
      assert [] + rest == rest && ([Stem(Lower(ws[0]))] + rest)[1..] == rest;
    }
  }

  /** How a word is spelt does not matter: capitals are small letters. */
  lemma LowerMeans(w: string)
    ensures forall i | 0 <= i < |w| ::
              Lower(w)[i] == if 'A' <= w[i] <= 'Z' then 'a' + (w[i] - 'A') else w[i]
  {
  }

  /** Singular and plural are one term, by the endings -ies and -y, -sses and -ss, -s and none. */
  lemma PluralsMeet(w: string)
    ensures |w| >= 2 ==> Stem(w + "ies") == w + "y"
    ensures |w| >= 1 ==> Stem(w + "sses") == w + "ss"
    ensures |w| >= 3 && !EndsWith(w, "s") && !EndsWith(w, "ie") && !EndsWith(w, "sse") ==> Stem(w + "s") == w
    ensures !EndsWith(w, "s") || EndsWith(w, "ss") || |w| <= 3 ==> Stem(w) == w
  {
    if |w| >= 2 { Ies(w); }
    if |w| >= 1 { Sses(w); }
    if |w| >= 3 && !EndsWith(w, "s") && !EndsWith(w, "ie") && !EndsWith(w, "sse") { PlainS(w); }
    if !EndsWith(w, "s") || EndsWith(w, "ss") { NoPlural(w); }
  }

  lemma Ies(w: string)
    requires |w| >= 2
    ensures Stem(w + "ies") == w + "y"
  {
    assert (w + "ies")[|w|..] == "ies" && (w + "ies")[..|w|] == w;
  }

  lemma Sses(w: string)
    requires |w| >= 1
    ensures Stem(w + "sses") == w + "ss"
  {
    var x := w + "sses";
    assert x[|w|..] == "sses" && x[..|w| + 2] == w + "ss";
    assert x[|x| - 3..][0] == x[|x| - 3] == 's' && "ies"[0] == 'i';
  }

  lemma PlainS(w: string)
    requires |w| >= 3 && !EndsWith(w, "s") && !EndsWith(w, "ie") && !EndsWith(w, "sse")
    ensures Stem(w + "s") == w
  {
    var x := w + "s";
    assert x[|w|..] == "s" && x[..|w|] == w;
    assert x[|x| - 3..] == w[|w| - 2..] + "s";
    assert "ies" == "ie" + "s" && "sses" == "sse" + "s" && "ss" == "s" + "s";
    assert |x| > 4 ==> x[|x| - 4..] == w[|w| - 3..] + "s";
    assert x[|x| - 2..] == w[|w| - 1..] + "s";
    Cancels(w[|w| - 2..], "ie");
    Cancels(w[|w| - 3..], "sse");
    Cancels(w[|w| - 1..], "s");
  }

  lemma Cancels(a: string, b: string)
    ensures a + "s" == b + "s" ==> a == b
  {
    if a + "s" == b + "s" { assert (a + "s")[..|a|] == a && (b + "s")[..|b|] == b; }
  }

  lemma NoPlural(w: string)
    requires !EndsWith(w, "s") || EndsWith(w, "ss")
    ensures Stem(w) == w
  {
    LastTwo(w, "ss");
    LastTwo(w, "ies");
    LastTwo(w, "sses");
    assert EndsWith(w, "s") ==> w[|w| - 1..][0] == 's';
    assert "ies"[1] == 'e' && "sses"[2] == 'e' && "ss"[0] == 's' && "ies"[2] == 's' && "sses"[3] == 's';
    assert |w| > 0 && w[|w| - 1] == 's' ==> w[|w| - 1..] == "s";
  }

  lemma LastTwo(w: string, ending: string)
    requires |ending| >= 2
    ensures EndsWith(w, ending) ==>
              w[|w| - 2] == ending[|ending| - 2] && w[|w| - 1] == ending[|ending| - 1]
  {
    if EndsWith(w, ending) {
      var tail := w[|w| - |ending|..];
      assert tail[|ending| - 2] == w[|w| - 2] && tail[|ending| - 1] == w[|w| - 1];
    }
  }
}
