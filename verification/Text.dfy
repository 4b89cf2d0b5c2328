/** JavaScript's white space, trimming and collapsing, which several components apply to text: a message on
    its way to the browser, the plan a model returns, the rendering of a glossary entry. */
module Text {

  /** The characters \s matches and trim removes (WhiteSpace and LineTerminator of ECMA-262). */
  predicate IsSpace(c: char) {
    var n := c as int;
    || 9 <= n <= 13 || n == 32 || n == 0xA0 || n == 0x1680 || 0x2000 <= n <= 0x200A
    || n == 0x2028 || n == 0x2029 || n == 0x202F || n == 0x205F || n == 0x3000 || n == 0xFEFF
  }

  predicate Blank(s: string) {
    forall i :: 0 <= i < |s| ==> IsSpace(s[i])
  }

  /** The first visible character from i on. */
  function Lead(s: string, i: nat): (r: nat)
    requires i <= |s|
    ensures i <= r <= |s|
    ensures forall k :: i <= k < r ==> IsSpace(s[k])
    ensures r < |s| ==> !IsSpace(s[r])
    decreases |s| - i
  {
    if i < |s| && IsSpace(s[i]) then Lead(s, i + 1) else i
  }

  /** The end of the last visible character before j. */
  function Back(s: string, j: nat): (r: nat)
    requires j <= |s|
    ensures r <= j
    ensures forall k :: r <= k < j ==> IsSpace(s[k])
    ensures 0 < r ==> !IsSpace(s[r - 1])
  {
    if 0 < j && IsSpace(s[j - 1]) then Back(s, j - 1) else j
  }

  function TrimEnd(s: string): string {
    s[..Back(s, |s|)]
  }

  function Trim(s: string): string {
    TrimEnd(s[Lead(s, 0)..])
  }

  /** `v.trim() !== ''` asks for a visible character. */
  lemma TrimEmptyMeansBlank(s: string)
    ensures Trim(s) == "" <==> Blank(s)
  {
    var i := Lead(s, 0);
    if i < |s| {
      assert s[i..][0] == s[i] && !IsSpace(s[i]);
      assert Back(s[i..], |s[i..]|) > 0;
    } else {
      assert s[i..] == "";
    }
  }

  /** replace(/\s+/g, ' ') */
  function Collapse(s: string): string {
    if s == "" then ""
    else if !IsSpace(s[0]) then [s[0]] + Collapse(s[1..])
    else if |s| > 1 && IsSpace(s[1]) then Collapse(s[1..])
    else [' '] + Collapse(s[1..])
  }

  lemma {:induction false} CollapseHead(s: string)
    requires s != ""
    ensures Collapse(s) != "" && Collapse(s)[0] == if IsSpace(s[0]) then ' ' else s[0]
  {
    if IsSpace(s[0]) && |s| > 1 && IsSpace(s[1]) { CollapseHead(s[1..]); }
  }

  function Join(parts: seq<string>, glue: string): string {
    if parts == [] then "" else if |parts| == 1 then parts[0] else parts[0] + glue + Join(parts[1..], glue)
  }

  /** Text up to a separator that occurs in neither head. */
  lemma SeparatedHead(a: string, x: string, b: string, y: string, c: char)
    requires c !in a && c !in b
    requires a + [c] + x == b + [c] + y
    ensures a == b && x == y
  {
    var s := a + [c] + x;
    assert s[|a|] == c && s[|b|] == c;
    assert forall i | 0 <= i < |a| :: s[i] == a[i];
    assert forall i | 0 <= i < |b| :: s[i] == b[i];
    assert |a| == |b|;
    assert a == s[..|a|] && b == s[..|b|];
    assert x == s[|a| + 1..] && y == s[|b| + 1..];
  }

  /** Parts that do not hold the separator are told apart when they are joined, except that no part at all
      is joined like one empty part. */
  lemma {:induction false} JoinInjective(xs: seq<string>, ys: seq<string>, c: char)
    requires (forall x | x in xs :: c !in x) && (forall y | y in ys :: c !in y)
    ensures Join(xs, [c]) == Join(ys, [c]) <==> xs == ys || (xs + ys == [""])
  {
    if xs == [] || ys == [] {
      JoinedNothing(xs, c);
      JoinedNothing(ys, c);
    } else if |xs| == 1 || |ys| == 1 {
      JoinedOne(xs, c);
      JoinedOne(ys, c);
    } else if Join(xs, [c]) == Join(ys, [c]) {
      SeparatedHead(xs[0], Join(xs[1..], [c]), ys[0], Join(ys[1..], [c]), c);
      JoinInjective(xs[1..], ys[1..], c);
      assert xs == [xs[0]] + xs[1..] && ys == [ys[0]] + ys[1..];
    }
  }

  lemma JoinedNothing(xs: seq<string>, c: char)
    ensures Join(xs, [c]) == "" <==> xs == [] || xs == [""]
  {
    if |xs| == 1 { assert xs == [xs[0]]; }
  }

  lemma JoinedOne(xs: seq<string>, c: char)
    requires xs != [] && forall x | x in xs :: c !in x
    ensures c in Join(xs, [c]) <==> |xs| > 1
    ensures |xs| == 1 ==> xs == [Join(xs, [c])]
  {
    if |xs| == 1 { assert xs[0] in xs; }
  }

  predicate PartAt(text: string, part: string, i: int)
    requires 0 <= i <= |text|
  {
    part <= text[i..]
  }

  predicate Includes(text: string, part: string) {
    exists i :: 0 <= i <= |text| && PartAt(text, part, i)
  }

  lemma IncludedInMore(before: string, text: string, after: string, part: string)
    requires Includes(text, part)
    ensures Includes(before + text + after, part)
  {
    var i :| 0 <= i <= |text| && PartAt(text, part, i);
    assert (before + text + after)[|before| + i..] == text[i..] + after;
    assert PartAt(before + text + after, part, |before| + i);
  }

  lemma {:induction false} JoinIncludes(parts: seq<string>, glue: string, part: string)
    requires part in parts
    ensures Includes(Join(parts, glue), part)
  {
    if parts[0] == part {
      assert part <= Join(parts, glue)[0..];
      assert PartAt(Join(parts, glue), part, 0);
    } else {
      JoinIncludes(parts[1..], glue, part);
      IncludedInMore(parts[0] + glue, Join(parts[1..], glue), "", part);
      assert (parts[0] + glue) + Join(parts[1..], glue) + "" == Join(parts, glue);
    }
  }
}
