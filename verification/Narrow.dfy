/** packages/server/src/narrow.ts: what crosses the wire. */
module Narrow {
  import opened Text
  import opened Schema
  import opened Planner
  import opened Sentences
  import Framing

  // Of a failed run, that is. The message of a response is held to packages/protocol/src/text.ts,
  // prose(2000).

  const MAX_MESSAGE_LENGTH := 2000

  // ---- deny codes: the pattern \bE_[A-Z][A-Z0-9_]* ----

  predicate Upper(c: char) {
    'A' <= c <= 'Z'
  }

  predicate InCode(c: char) {
    Upper(c) || '0' <= c <= '9' || c == '_'
  }

  predicate WordChar(c: char) {
    InCode(c) || 'a' <= c <= 'z'
  }

  predicate CodeHead(s: string) {
    |s| >= 3 && s[0] == 'E' && s[1] == '_' && Upper(s[2])
  }

  /** A deny code starts at i: the text reads like one there and no word runs into it. `inWord` says
      whether a word character stands before the whole text. */
  predicate CodeAt(s: string, i: int, inWord: bool)
    requires 0 <= i <= |s|
  {
    CodeHead(s[i..]) && !(if i == 0 then inWord else WordChar(s[i - 1]))
  }

  predicate NoCode(s: string, inWord: bool) {
    forall i :: 0 <= i < |s| ==> !CodeAt(s, i, inWord)
  }

  function RunLength(s: string): (n: nat)
    ensures n <= |s| && (n < |s| ==> !InCode(s[n]))
  {
    if s != "" && InCode(s[0]) then 1 + RunLength(s[1..]) else 0
  }

  /** Remove every match, given whether a word character stands before s. */
  function StripFrom(s: string, inWord: bool): string
    decreases |s|
  {
    if s == "" then ""
    else if !inWord && CodeHead(s) then StripFrom(s[3 + RunLength(s[3..])..], true)
    else [s[0]] + StripFrom(s[1..], WordChar(s[0]))
  }

  function StripDenyCodes(text: string): string {
    StripFrom(text, false)
  }

  lemma NoCodeCons(s: string, inWord: bool)
    requires s != ""
    ensures NoCode(s, inWord) <==> (inWord || !CodeHead(s)) && NoCode(s[1..], WordChar(s[0]))
  {
    var t := s[1..];
    assert s[0..] == s;
    forall i | 0 <= i < |t| ensures CodeAt(s, i + 1, inWord) <==> CodeAt(t, i, WordChar(s[0])) {
      assert s[i + 1..] == t[i..];
    }
    if NoCode(s, inWord) {
      assert !CodeAt(s, 0, inWord);
      forall i | 0 <= i < |t| ensures !CodeAt(t, i, WordChar(s[0])) {
        assert !CodeAt(s, i + 1, inWord);
      }
    }
    if (inWord || !CodeHead(s)) && NoCode(t, WordChar(s[0])) {
      forall i | 0 <= i < |s| ensures !CodeAt(s, i, inWord) {
        if i > 0 {
          var j := i - 1;
          assert !CodeAt(t, j, WordChar(s[0])) && (CodeAt(s, j + 1, inWord) <==> CodeAt(t, j, WordChar(s[0])));
        }
      }
    }
  }

  lemma StripHead(s: string, inWord: bool)
    requires s != "" && (inWord || !CodeHead(s))
    ensures StripFrom(s, inWord) == [s[0]] + StripFrom(s[1..], WordChar(s[0]))
  {
  }

  /** Deleting the matches leaves none behind: no code is formed across a deletion. */
  lemma {:induction false} StrippedHasNoCode(s: string, inWord: bool)
    ensures NoCode(StripFrom(s, inWord), inWord)
    decreases |s|
  {
    if s == "" {
    } else if !inWord && CodeHead(s) {
      var n := 3 + RunLength(s[3..]);
      var u := s[n..];
      StrippedHasNoCode(u, true);
      if u != "" {
        assert u[0] == s[3..][n - 3] && !InCode(u[0]);
        StripHead(u, true);
        NoCodeCons(StripFrom(u, true), true);
        NoCodeCons(StripFrom(u, true), false);
      }
    } else {
      StrippedHasNoCode(s[1..], WordChar(s[0]));
      var r := StripFrom(s, inWord);
      StripHead(s, inWord);
      assert r[1..] == StripFrom(s[1..], WordChar(s[0]));
      if CodeHead(r) {
        StripHead(s[1..], true);
        StripHead(s[2..], true);
        assert s[1..][1..] == s[2..];
        assert r[1] == s[1] && r[2] == s[2];
      }
      NoCodeCons(r, inWord);
    }
  }

  // ---- sanitiseMessage ----

  predicate IsControl(c: char) {
    var n := c as int;
    (n < 32 && n != 9 && n != 10 && n != 13) || 127 <= n <= 159
  }

  function Spaced(s: string): string {
    seq(|s|, i requires 0 <= i < |s| => if IsControl(s[i]) then ' ' else s[i])
  }

  /** slice(0, max) counts UTF-16 units. */
  function Cut(s: string, max: int): (r: string)
    ensures r <= s && (0 <= max ==> Framing.Measure(r, Framing.Utf16Width) <= max)
  {
    if s == "" || Framing.Utf16Width(s[0]) > max then ""
    else [s[0]] + Cut(s[1..], max - Framing.Utf16Width(s[0]))
  }

  function Sanitised(text: string, fallback: string): string {
    var trimmed := Trim(Cut(Trim(Collapse(Spaced(text))), MAX_MESSAGE_LENGTH));
    if trimmed == "" then fallback else trimmed
  }

  method SanitiseMessage(text: string, fallback: string) returns (message: string)
    ensures message == Sanitised(text, fallback)
  {
    var out := "";
    var i := 0;
    while i < |text|
      invariant 0 <= i <= |text| && out == Spaced(text)[..i]
    {
      var ch := text[i];
      out := out + [if IsControl(ch) then ' ' else ch];
      i := i + 1;
    }
    assert out == Spaced(text);
    var trimmed := Trim(Cut(Trim(Collapse(out)), MAX_MESSAGE_LENGTH));
    return if trimmed == "" then fallback else trimmed;
  }

  // ---- what a sanitised message looks like ----

  /** One line of words: no control character, single blanks between words and none at the ends. */
  predicate OneLine(s: string) {
    && (forall i :: 0 <= i < |s| ==> !IsControl(s[i]) && (IsSpace(s[i]) ==> s[i] == ' '))
    && (forall i :: 0 < i < |s| ==> !(s[i] == ' ' && s[i - 1] == ' '))
  }

  predicate Trimmed(s: string) {
    s == "" || (!IsSpace(s[0]) && !IsSpace(s[|s| - 1]))
  }

  /** What prose(2000) accepts, and a little more. */
  predicate Tidy(s: string) {
    s != "" && OneLine(s) && Trimmed(s) && Framing.Measure(s, Framing.Utf16Width) <= MAX_MESSAGE_LENGTH
  }

  lemma {:induction false} CollapseIsOneLine(s: string)
    requires forall i :: 0 <= i < |s| ==> !IsControl(s[i])
    ensures OneLine(Collapse(s))
  {
    if s != "" {
      var t := s[1..];
      CollapseIsOneLine(t);
      if t != "" { CollapseHead(t); }
      if !(IsSpace(s[0]) && |s| > 1 && IsSpace(s[1])) {
        OneLineCons(if IsSpace(s[0]) then ' ' else s[0], Collapse(t));
      }
    }
  }

  lemma OneLineCons(c: char, t: string)
    requires OneLine(t) && !IsControl(c) && (IsSpace(c) ==> c == ' ')
    requires t == "" || !(c == ' ' && t[0] == ' ')
    ensures OneLine([c] + t)
  {
    var s := [c] + t;
    forall i | 0 < i < |s| ensures !(s[i] == ' ' && s[i - 1] == ' ') {
      if i > 1 { assert s[i] == t[i - 1] && s[i - 1] == t[i - 2]; }
    }
  }

  lemma OneLineSlice(s: string, a: nat, b: nat)
    requires OneLine(s) && a <= b <= |s|
    ensures OneLine(s[a..b])
  {
    forall i | 0 < i < b - a ensures !(s[a..b][i] == ' ' && s[a..b][i - 1] == ' ') {
      assert s[a..b][i] == s[a + i] && s[a..b][i - 1] == s[a + i - 1];
    }
  }

  /** The slice that Trim keeps. */
  lemma TrimIsSlice(s: string) returns (a: nat, b: nat)
    ensures a <= b <= |s| && Trim(s) == s[a..b] && Trimmed(Trim(s))
    ensures forall k :: 0 <= k < a ==> IsSpace(s[k])
  {
    a := Lead(s, 0);
    var u := s[a..];
    b := a + Back(u, |u|);
    assert u[..b - a] == s[a..b];
    if a < |s| { assert u[0] == s[a]; }
  }

  lemma {:induction false} PrefixIsShorter(s: string, b: nat)
    requires b <= |s|
    ensures Framing.Measure(s[..b], Framing.Utf16Width) <= Framing.Measure(s, Framing.Utf16Width)
  {
    if b > 0 {
      PrefixIsShorter(s[1..], b - 1);
      assert s[..b][1..] == s[1..][..b - 1];
    }
  }

  lemma TrimOfTrimmedFront(s: string)
    requires s == "" || !IsSpace(s[0])
    ensures Trim(s) <= s && Framing.Measure(Trim(s), Framing.Utf16Width) <= Framing.Measure(s, Framing.Utf16Width)
  {
    assert s[Lead(s, 0)..] == s;
    PrefixIsShorter(s, Back(s, |s|));
  }

  /** Whatever the text, the message passes prose(2000): it is never the reason a response fails. */
  lemma SanitisedIsTidy(text: string, fallback: string)
    requires Tidy(fallback)
    ensures Tidy(Sanitised(text, fallback))
  {
    var c := Collapse(Spaced(text));
    CollapseIsOneLine(Spaced(text));
    var a, b := TrimIsSlice(c);
    OneLineSlice(c, a, b);
    var t := Trim(c);
    var u := Cut(t, MAX_MESSAGE_LENGTH);
    assert u == t[..|u|];
    OneLineSlice(t, 0, |u|);
    var d, e := TrimIsSlice(u);
    OneLineSlice(u, d, e);
    TrimOfTrimmedFront(u);
  }

  lemma {:induction false} CollapseKeepsOneLine(s: string)
    requires OneLine(s)
    ensures Collapse(s) == s
  {
    if s != "" {
      OneLineSlice(s, 1, |s|);
      assert s[1..|s|] == s[1..];
      CollapseKeepsOneLine(s[1..]);
      if |s| > 1 { assert !(s[1] == ' ' && s[0] == ' '); }
    }
  }

  lemma {:induction false} CutKeepsShort(s: string, max: int)
    requires Framing.Measure(s, Framing.Utf16Width) <= max
    ensures Cut(s, max) == s
  {
    if s != "" { CutKeepsShort(s[1..], max - Framing.Utf16Width(s[0])); }
  }

  lemma TrimKeepsTrimmed(s: string)
    requires Trimmed(s)
    ensures Trim(s) == s
  {
    assert s[Lead(s, 0)..] == s;
  }

  /** A message already fit for the wire is left alone, so sanitising twice is sanitising once. */
  lemma TidyIsLeftAlone(s: string, fallback: string)
    requires Tidy(s)
    ensures Sanitised(s, fallback) == s
  {
    assert Spaced(s) == s;
    CollapseKeepsOneLine(s);
    TrimKeepsTrimmed(s);
    CutKeepsShort(s, MAX_MESSAGE_LENGTH);
  }

  // ---- sanitising forms no deny code ----

  lemma NoCodeSlice(s: string, a: nat, b: nat)
    requires NoCode(s, false) && a <= b <= |s|
    requires a == 0 || !WordChar(s[a - 1])
    ensures NoCode(s[a..b], false)
  {
    var t := s[a..b];
    forall i | 0 <= i < |t| ensures !CodeAt(t, i, false) {
      assert !CodeAt(s, a + i, false);
      if CodeHead(t[i..]) {
        assert s[a + i..][0] == t[i..][0] && s[a + i..][1] == t[i..][1] && s[a + i..][2] == t[i..][2];
      }
    }
  }

  lemma NoCodeSpaced(s: string)
    requires NoCode(s, false)
    ensures NoCode(Spaced(s), false)
  {
    var t := Spaced(s);
    forall i | 0 <= i < |t| ensures !CodeAt(t, i, false) {
      assert !CodeAt(s, i, false);
      if CodeHead(t[i..]) {
        assert t[i..][0] == t[i] && t[i..][1] == t[i + 1] && t[i..][2] == t[i + 2];
        assert s[i..][0] == s[i] && s[i..][1] == s[i + 1] && s[i..][2] == s[i + 2];
      }
    }
  }

  lemma {:induction false} NoCodeCollapse(s: string, inWord: bool)
    requires NoCode(s, inWord)
    ensures NoCode(Collapse(s), inWord)
  {
    if s != "" {
      var t := s[1..];
      NoCodeCons(s, inWord);
      NoCodeCollapse(t, WordChar(s[0]));
      var r := Collapse(s);
      if IsSpace(s[0]) && |s| > 1 && IsSpace(s[1]) {
        CollapseHead(t);
        NoCodeCons(r, false);
        NoCodeCons(r, inWord);
      } else {
        assert r[1..] == Collapse(t);
        if CodeHead(r) { CodeHeadSurvives(s); }
        NoCodeCons(r, inWord);
      }
    }
  }

  lemma CodeHeadSurvives(s: string)
    requires s != "" && !IsSpace(s[0]) && CodeHead(Collapse(s))
    ensures CodeHead(s)
  {
    var t := s[1..];
    assert Collapse(s)[1..] == Collapse(t);
    CollapseHead(t);
    var u := t[1..];
    assert Collapse(t)[1..] == Collapse(u);
    CollapseHead(u);
  }

  lemma SanitisedHasNoCode(text: string, fallback: string)
    requires NoCode(text, false) && NoCode(fallback, false)
    ensures NoCode(Sanitised(text, fallback), false)
  {
    NoCodeSpaced(text);
    var c := Collapse(Spaced(text));
    NoCodeCollapse(Spaced(text), false);
    var a, b := TrimIsSlice(c);
    NoCodeSlice(c, a, b);
    var t := Trim(c);
    var u := Cut(t, MAX_MESSAGE_LENGTH);
    assert u == t[0..|u|];
    NoCodeSlice(t, 0, |u|);
    var d, e := TrimIsSlice(u);
    NoCodeSlice(u, d, e);
  }

  // ---- the responses ----

  datatype Response =
    | UnanswerableResponse(message: string)
    | RefusedResponse(message: string)
    | ErrorResponse(message: string)

  function FailureResponse(result: PlanResult): Response
    requires result.Failed?
  {
    match result.reason
    case CannotAnswer =>
      var message := if SawDenial(result.attempts) then UNANSWERABLE_MESSAGE else StripDenyCodes(result.detail);
      UnanswerableResponse(Sanitised(message, UNANSWERABLE_MESSAGE))
    case Rejected => RefusedResponse(REFUSED_MESSAGE)
    case _ => ErrorResponse(Sanitised(ERROR_MESSAGE, ERROR_MESSAGE))
  }

  lemma {:induction false} AtMostTwoUnits(s: string)
    ensures Framing.Measure(s, Framing.Utf16Width) <= 2 * |s|
  {
    if s != "" { AtMostTwoUnits(s[1..]); }
  }

  lemma PlainIsFit(s: string)
    requires Plain(s)
    ensures Tidy(s) && NoCode(s, false)
  {
    AtMostTwoUnits(s);
    forall i | 0 <= i < |s| ensures !CodeAt(s, i, false) {
      assert s[i..][0] == s[i];
    }
  }

  lemma UnanswerableIsFit()
    ensures Tidy(UNANSWERABLE_MESSAGE) && NoCode(UNANSWERABLE_MESSAGE, false)
  {
    UnanswerableIsPlain();
    PlainIsFit(UNANSWERABLE_MESSAGE);
  }

  lemma ErrorIsFit()
    ensures Tidy(ERROR_MESSAGE) && NoCode(ERROR_MESSAGE, false)
  {
    ErrorIsPlain();
    PlainIsFit(ERROR_MESSAGE);
  }

  /** An error response carries the fixed sentence itself. */
  lemma ErrorsSayNothing(result: PlanResult)
    requires result.Failed? && (result.reason == ModelFailed || result.reason == InvalidPlan)
    ensures FailureResponse(result) == ErrorResponse(ERROR_MESSAGE)
  {
    ErrorIsFit();
    TidyIsLeftAlone(ERROR_MESSAGE, ERROR_MESSAGE);
  }

  /** Once a denial is on record the model's prose is replaced altogether. */
  lemma DenialsSilenceTheModel(result: PlanResult)
    requires result.Failed? && result.reason == CannotAnswer && SawDenial(result.attempts)
    ensures FailureResponse(result) == UnanswerableResponse(UNANSWERABLE_MESSAGE)
  {
    UnanswerableIsFit();
    TidyIsLeftAlone(UNANSWERABLE_MESSAGE, UNANSWERABLE_MESSAGE);
  }

  /** Whatever a model writes, the message that crosses fits prose(2000) and carries no deny code. */
  lemma ProseIsScrubbed(result: PlanResult)
    requires result.Failed? && result.reason == CannotAnswer
    ensures Tidy(FailureResponse(result).message) && NoCode(FailureResponse(result).message, false)
  {
    UnanswerableIsFit();
    StrippedHasNoCode(result.detail, false);
    var message := if SawDenial(result.attempts) then UNANSWERABLE_MESSAGE else StripDenyCodes(result.detail);
    SanitisedIsTidy(message, UNANSWERABLE_MESSAGE);
    SanitisedHasNoCode(message, UNANSWERABLE_MESSAGE);
  }

  /** What a browser may learn from a failed run: the kind of failure and, when the schema could not
      answer and the model had been shown no verdict, the model's own words without deny codes. */
  function Revealed(result: PlanResult): (Reason, Option<string>)
    requires result.Failed?
  {
    var kind := if result.reason == InvalidPlan then ModelFailed else result.reason;
    (kind, if result.reason == CannotAnswer && !result.sawVerdict then Some(StripDenyCodes(result.detail)) else None)
  }

  /** Runs alike in that get the same response, whatever guard, policy, SQL, codes, attempts or usage
      lie behind them. */
  lemma ResponseRevealsNoMore(
    v: World, asked: string, vcap: Cap, vcalls: seq<seq<Message>>, r: PlanResult,
    w: World, question: string, wcap: Cap, wcalls: seq<seq<Message>>, s: PlanResult)
    requires Reports(v, asked, vcap, vcalls, r) && r.Failed?
    requires Reports(w, question, wcap, wcalls, s) && s.Failed?
    requires Revealed(r) == Revealed(s)
    ensures FailureResponse(r) == FailureResponse(s)
  {
    if r.reason == CannotAnswer {
      TwoWaysToSeeADenial(v, asked, vcap, vcalls, r);
      TwoWaysToSeeADenial(w, question, wcap, wcalls, s);
    }
  }
}
