/** What is asked of an expression. */
module FragmentAccount {
  import opened Schema
  import opened Text
  import Framing
  import opened Fragment

  // The checks of packages/core/src/semantic/fragment.ts, spelled out on the text.

  /** The characters a and b stand side by side. */
  ghost predicate Adjacent(s: string, a: char, b: char) {
    exists i | 0 <= i < |s| - 1 :: s[i] == a && s[i + 1] == b
  }

  /** No NUL, no semicolon, no start of a comment and no end of one. */
  lemma HarmlessMeans(sql: string)
    ensures Harmless(sql) <==>
            && '\0' !in sql && ';' !in sql && !Adjacent(sql, '-', '-')
            && !Adjacent(sql, '/', '*') && !Adjacent(sql, '*', '/')
  {
    if Harmless(sql) {
      assert !Contains(sql, NulByte) && !Contains(sql, Separator) && !Contains(sql, LineComment)
          && !Contains(sql, BlockComment);
    } else {
      var h :| Contains(sql, h);
      match h case NulByte => case Separator => case LineComment => case BlockComment =>
    }
  }

  /** The next thing after b that is not white space is an open parenthesis. */
  ghost predicate Called(bare: string, b: nat) {
    exists j | b <= j < |bare| :: bare[j] == '(' && forall k | b <= k < j :: IsSpace(bare[k])
  }

  lemma CallMeans(bare: string, b: nat)
    requires b <= |bare|
    ensures IsCall(bare, b) <==> Called(bare, b)
  {
    var j := Lead(bare, b);
    if i :| b <= i < |bare| && bare[i] == '(' && forall k | b <= k < i :: IsSpace(bare[k]) {
      assert !IsSpace('(');
      assert j == i;
    }
  }

  /** A word is a name of the expression's own that nobody declared: not a call, not a keyword, not allowed. */
  ghost predicate Stray(bare: string, a: nat, b: nat, allowed: set<string>, lang: Language) {
    && a <= b <= |bare| && !Called(bare, b)
    && lang.lower(bare[a..b]) !in lang.keywords && lang.lower(bare[a..b]) !in allowed
  }

  /** The names that are reported, each a quoted name that is not allowed or a stray word. */
  lemma ReportedMeans(sql: string, allowed: set<string>, lang: Language, name: string)
    ensures name in Unknown(sql, allowed, lang) <==>
            || (name in QuotedNames(WithoutLiterals(sql), '"') && name !in allowed)
            || exists a: nat, b: nat :: WordAt(Bare(sql), a, b) && Bare(sql)[a..b] == name
                                        && Stray(Bare(sql), a, b, allowed, lang)
  {
    var bare := Bare(sql);
    UnknownMeans(sql, allowed, lang, name);
    forall a: nat, b: nat | WordAt(bare, a, b)
      ensures KnownWord(bare, (a, b), allowed, lang) <==> !Stray(bare, a, b, allowed, lang)
    {
      CallMeans(bare, b);
    }
  }

  // ---- tidied text ----

  /** White space only between other text, one blank at a time. */
  ghost predicate Tight(s: string) {
    && (forall i | 0 <= i < |s| && IsSpace(s[i]) :: s[i] == ' ' && 0 < i < |s| - 1)
    && forall i | 0 <= i < |s| - 1 :: !(IsSpace(s[i]) && IsSpace(s[i + 1]))
  }

  /** The text without its white space. */
  function Solid(s: string): string {
    if s == "" then "" else (if IsSpace(s[0]) then "" else [s[0]]) + Solid(s[1..])
  }

  ghost predicate Single(s: string) {
    && (forall i | 0 <= i < |s| && IsSpace(s[i]) :: s[i] == ' ')
    && forall i | 0 <= i < |s| - 1 :: !(IsSpace(s[i]) && IsSpace(s[i + 1]))
  }

  lemma {:induction false} CollapsedIsSingle(s: string)
    ensures Single(Collapse(s)) && Solid(Collapse(s)) == Solid(s)
  {
    if s != "" {
      CollapsedIsSingle(s[1..]);
      if !(IsSpace(s[0]) && |s| > 1 && IsSpace(s[1])) { OneMoreChar(s); }
    }
  }

  lemma OneMoreChar(s: string)
    requires s != "" && !(IsSpace(s[0]) && |s| > 1 && IsSpace(s[1]))
    requires Single(Collapse(s[1..])) && Solid(Collapse(s[1..])) == Solid(s[1..])
    ensures Single(Collapse(s)) && Solid(Collapse(s)) == Solid(s)
  {
    var rest := Collapse(s[1..]);
    var c := if IsSpace(s[0]) then ' ' else s[0];
    assert Collapse(s) == [c] + rest;
    if |s| > 1 { CollapseHead(s[1..]); }
    assert ([c] + rest)[1..] == rest;
  }

  lemma {:induction false} SolidTogether(a: string, b: string)
    ensures Solid(a + b) == Solid(a) + Solid(b)
  {
    if a == "" {
      assert a + b == b;
    } else {
      SolidTogether(a[1..], b);
      FirstOf(a, b);
      Regrouped(if IsSpace(a[0]) then "" else [a[0]], Solid(a[1..]), Solid(b));
    }
  }

  lemma FirstOf(a: string, b: string)
    requires a != ""
    ensures a + b != "" && (a + b)[0] == a[0] && (a + b)[1..] == a[1..] + b
  {
  }

  lemma Regrouped(a: string, b: string, c: string)
    ensures a + (b + c) == a + b + c
  {
  }

  lemma {:induction false} SpaceIsNothing(s: string)
    requires AllSpace(s)
    ensures Solid(s) == ""
  {
    if s != "" { SpaceIsNothing(s[1..]); }
  }

  /** Tidying changes white space only, and leaves none at the ends, none but blanks, and none twice. */
  lemma TidiedIsTight(text: string)
    ensures Tight(Tidied(text)) && Solid(Tidied(text)) == Solid(text)
  {
    CollapsedIsSingle(text);
    TrimKeepsSolid(Collapse(text));
  }

  lemma TrimKeepsSolid(s: string)
    ensures Solid(Trim(s)) == Solid(s)
    ensures Single(s) ==> Tight(Trim(s))
  {
    var i := Lead(s, 0);
    var t := s[i..];
    var j := Back(t, |t|);
    EndsAreNothing(s[..i], t[..j], t[j..], t, s);
    if Single(s) { TrimmedIsTight(s, t, i, j); }
  }

  ghost predicate AllSpace(s: string) {
    forall i | 0 <= i < |s| :: IsSpace(s[i])
  }

  lemma EndsAreNothing(before: string, text: string, behind: string, rest: string, whole: string)
    requires whole == before + rest && rest == text + behind
    requires AllSpace(before) && AllSpace(behind)
    ensures Solid(text) == Solid(whole)
  {
    SpaceIsNothing(before);
    SpaceIsNothing(behind);
    SolidTogether(text, behind);
    SolidTogether(before, rest);
  }

  lemma TrimmedIsTight(s: string, t: string, i: nat, j: nat)
    requires i <= |s| && t == s[i..] && j <= |t| && Single(s)
    requires (i < |s| ==> !IsSpace(s[i])) && (j > 0 ==> !IsSpace(t[j - 1]))
    ensures Tight(t[..j])
  {
    var u := t[..j];
    assert forall k | 0 <= k < |u| :: u[k] == s[i + k];
    forall k | 0 <= k < |u| && IsSpace(u[k]) ensures u[k] == ' ' && 0 < k < |u| - 1 {
      assert s[i + k] == u[k];
    }
    forall k | 0 <= k < |u| - 1 ensures !(IsSpace(u[k]) && IsSpace(u[k + 1])) {
      assert u[k] == s[i + k] && u[k + 1] == s[i + k + 1];
    }
  }
}
