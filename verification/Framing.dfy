/** Length-prefixed framing over text, shared by the cache key and the row comparator.
    A string is a sequence of Unicode scalar values, which is what well-formed text is. */
module Framing {
  import opened Text

  // ---- decimal lengths ----

  function Digit(d: nat): (c: char)
    requires d < 10
  {
    "0123456789"[d]
  }

  function Decimal(n: nat): (s: string)
    ensures s != [] && ':' !in s && '-' !in s
  {
    if n < 10 then [Digit(n)] else Decimal(n / 10) + [Digit(n % 10)]
  }

  lemma {:induction false} DecimalInjective(m: nat, n: nat)
    requires Decimal(m) == Decimal(n)
    ensures m == n
  {
    var s := Decimal(m);
    assert s[|s| - 1] == Digit(m % 10) == Digit(n % 10);
    if m < 10 && n < 10 {
    } else if m >= 10 && n >= 10 {
      assert Decimal(m / 10) == s[..|s| - 1] == Decimal(n / 10);
      DecimalInjective(m / 10, n / 10);
    }
  }

  // ---- UTF-8, as TextEncoder produces it ----

  function EncodeChar(c: char): (bytes: seq<int>)
    ensures 1 <= |bytes| <= 4 && forall b | b in bytes :: 0 <= b < 256
  {
    var n := c as int;
    if n < 0x80 then [n]
    else if n < 0x800 then [0xC0 + n / 64, 0x80 + n % 64]
    else if n < 0x1_0000 then [0xE0 + n / 4096, 0x80 + n / 64 % 64, 0x80 + n % 64]
    else [0xF0 + n / 262144, 0x80 + n / 4096 % 64, 0x80 + n / 64 % 64, 0x80 + n % 64]
  }

  function Utf8(s: string): (bytes: seq<int>) {
    if s == [] then [] else EncodeChar(s[0]) + Utf8(s[1..])
  }

  lemma EncodeCharLeads(c: char)
    ensures var n, b := c as int, EncodeChar(c);
      && (|b| == 1 ==> b[0] < 0x80 && n == b[0])
      && (|b| == 2 ==> 0xC0 <= b[0] < 0xE0 && n == (b[0] - 0xC0) * 64 + (b[1] - 0x80))
      && (|b| == 3 ==> 0xE0 <= b[0] < 0xF0 && n == (b[0] - 0xE0) * 4096 + (b[1] - 0x80) * 64 + (b[2] - 0x80))
      && (|b| == 4 ==>
            0xF0 <= b[0] && n == (b[0] - 0xF0) * 262144 + (b[1] - 0x80) * 4096 + (b[2] - 0x80) * 64 + (b[3] - 0x80))
  {
    var n := c as int;
    assert n / 4096 == n / 64 / 64 && n / 262144 == n / 4096 / 64;
  }

  /** UTF-8 is a prefix code: the first character of an encoded text is determined. */
  lemma EncodeCharPrefixFree(c: char, x: seq<int>, d: char, y: seq<int>)
    requires EncodeChar(c) + x == EncodeChar(d) + y
    ensures c == d && x == y
  {
    EncodeCharLeads(c);
    EncodeCharLeads(d);
    var b, e := EncodeChar(c), EncodeChar(d);
    assert forall i | 0 <= i < |b| :: (b + x)[i] == b[i];
    assert forall i | 0 <= i < |e| :: (e + y)[i] == e[i];
    assert b[0] == e[0];
    assert |b| == |e|;
    assert b == (b + x)[..|b|] == (e + y)[..|e|] == e;
    assert x == (b + x)[|b|..] == (e + y)[|e|..] == y;
    assert c as int == d as int;
  }

  lemma {:induction false} Utf8Injective(s: string, t: string)
    requires Utf8(s) == Utf8(t)
    ensures s == t
  {
    if s != [] && t != [] {
      EncodeCharPrefixFree(s[0], Utf8(s[1..]), t[0], Utf8(t[1..]));
      Utf8Injective(s[1..], t[1..]);
      assert s == [s[0]] + s[1..] && t == [t[0]] + t[1..];
    }
  }

  // ---- measured prefixes ----

  function Utf8Width(c: char): (w: nat)
    ensures w == |EncodeChar(c)|
  {
    var n := c as int;
    if n < 0x80 then 1 else if n < 0x800 then 2 else if n < 0x1_0000 then 3 else 4
  }

  /** JavaScript's `length`: a scalar above the basic plane is two code units. */
  function Utf16Width(c: char): (w: nat)
    ensures w >= 1
  {
    if c as int < 0x1_0000 then 1 else 2
  }

  function Measure(s: string, width: char -> nat): nat {
    if s == [] then 0 else width(s[0]) + Measure(s[1..], width)
  }

  function Utf16Length(s: string): nat {
    Measure(s, Utf16Width)
  }

  /** estimateTokens of packages/core/src/plan/render.ts: a quarter of the length, rounded up. */
  function EstimateTokens(text: string): int {
    (Utf16Length(text) + 3) / 4
  }

  lemma {:induction false} Utf8Length(s: string)
    ensures |Utf8(s)| == Measure(s, Utf8Width)
  {
    if s != [] { Utf8Length(s[1..]); }
  }

  /** Two values of equal measure in front of the same text are the same value. */
  lemma {:induction false} MeasuredPrefix(v: string, x: string, u: string, y: string, width: char -> nat)
    requires forall c :: width(c) >= 1
    requires v + x == u + y && Measure(v, width) == Measure(u, width)
    ensures v == u && x == y
  {
    if v == [] || u == [] {
      assert v == u == [];
      assert x == v + x == u + y == y;
    } else {
      assert v[0] == (v + x)[0] == (u + y)[0] == u[0];
      assert v[1..] + x == (v + x)[1..] == (u + y)[1..] == u[1..] + y;
      MeasuredPrefix(v[1..], x, u[1..], y, width);
      assert v == [v[0]] + v[1..] && u == [u[0]] + u[1..];
    }
  }

  // ---- a text framed by its length ----

  function Framed(cell: string, rest: string): (framed: string)
    ensures framed != ""
  {
    Decimal(Utf16Length(cell)) + [':'] + (cell + rest)
  }

  lemma FramedInjective(c: string, x: string, d: string, y: string)
    requires Framed(c, x) == Framed(d, y)
    ensures c == d && x == y
  {
    var m, n := Utf16Length(c), Utf16Length(d);
    SeparatedHead(Decimal(m), c + x, Decimal(n), d + y, ':');
    DecimalInjective(m, n);
    MeasuredPrefix(c, x, d, y, Utf16Width);
  }

  // ---- labelled parts (packages/core/src/store/key.ts) ----

  /** `label:bytes:value;` where the length is the UTF-8 length of the value. */
  function Part(tag: string, value: string): string {
    tag + ":" + Decimal(|Utf8(value)|) + ":" + value + ";"
  }

  lemma PartCancel(k: string, v: string, x: string, l: string, u: string, y: string)
    requires ':' !in k && ':' !in l
    requires Part(k, v) + x == Part(l, u) + y
    ensures k == l && v == u && x == y
  {
    var m, n := |Utf8(v)|, |Utf8(u)|;
    assert Part(k, v) + x == k + [':'] + (Decimal(m) + [':'] + (v + (";" + x)));
    assert Part(l, u) + y == l + [':'] + (Decimal(n) + [':'] + (u + (";" + y)));
    SeparatedHead(k, Decimal(m) + [':'] + (v + (";" + x)), l, Decimal(n) + [':'] + (u + (";" + y)), ':');
    SeparatedHead(Decimal(m), v + (";" + x), Decimal(n), u + (";" + y), ':');
    DecimalInjective(m, n);
    Utf8Length(v);
    Utf8Length(u);
    MeasuredPrefix(v, ";" + x, u, ";" + y, Utf8Width);
    assert x == (";" + x)[1..] == (";" + y)[1..] == y;
  }

  /** The concatenation of a sequence of labelled parts. */
  function Parts(ps: seq<(string, string)>): string {
    if ps == [] then "" else Part(ps[0].0, ps[0].1) + Parts(ps[1..])
  }

  ghost predicate Labelled(ps: seq<(string, string)>) {
    forall i | 0 <= i < |ps| :: ':' !in ps[i].0
  }

  /** Any number of parts decodes uniquely. */
  lemma {:induction false} PartsInjective(ps: seq<(string, string)>, qs: seq<(string, string)>)
    requires Labelled(ps) && Labelled(qs)
    requires Parts(ps) == Parts(qs)
    ensures ps == qs
  {
    if ps != [] && qs != [] {
      PartCancel(ps[0].0, ps[0].1, Parts(ps[1..]), qs[0].0, qs[0].1, Parts(qs[1..]));
      PartsInjective(ps[1..], qs[1..]);
      assert ps == [ps[0]] + ps[1..] && qs == [qs[0]] + qs[1..];
    }
  }
}
