/** What is left of a message. */
module NarrowAccount {
  import opened Schema
  import opened Text
  import opened Planner
  import opened Sentences
  import opened Narrow
  import opened FragmentAccount
  import Framing

  // What packages/server/src/narrow.ts takes out of the model's words, and that it takes out nothing else.

  // ---- deny codes ----

  /** A text taken apart: characters that stay, and deny codes that go. */
  datatype Split = Done | Keep(c: char, rest: Split) | Drop(code: string, rest: Split) {
    function Whole(): string {
      match this
      case Done => ""
      case Keep(c, rest) => [c] + rest.Whole()
      case Drop(code, rest) => code + rest.Whole()
    }

    function Left(): string {
      match this
      case Done => ""
      case Keep(c, rest) => [c] + rest.Left()
      case Drop(_, rest) => rest.Left()
    }

    /** What goes is each deny code in full, wherever no word runs into it, and nothing else. */
    ghost predicate Right(inWord: bool) {
      match this
      case Done => true
      case Keep(c, rest) => !(!inWord && ReadsAsCode(Whole())) && rest.Right(WordChar(c))
      case Drop(code, rest) =>
        && !inWord && WholeCode(code) && (rest.Whole() != "" ==> !CodeChar(rest.Whole()[0])) && rest.Right(true)
    }
  }

  predicate CodeChar(c: char) {
    'A' <= c <= 'Z' || '0' <= c <= '9' || c == '_'
  }

  /** E_ and a capital. */
  predicate ReadsAsCode(s: string) {
    |s| >= 3 && s[0] == 'E' && s[1] == '_' && 'A' <= s[2] <= 'Z'
  }

  predicate WholeCode(s: string) {
    ReadsAsCode(s) && forall i | 3 <= i < |s| :: CodeChar(s[i])
  }

  lemma {:induction false} RunIsCode(s: string)
    ensures forall i | 0 <= i < RunLength(s) :: CodeChar(s[i])
    ensures RunLength(s) < |s| ==> !CodeChar(s[RunLength(s)])
  {
    if s != "" && InCode(s[0]) { RunIsCode(s[1..]); }
  }

  lemma {:induction false} StripSplits(s: string, inWord: bool) returns (w: Split)
    ensures w.Whole() == s && w.Left() == StripFrom(s, inWord) && w.Right(inWord)
    decreases |s|
  {
    if s == "" {
      w := Done;
    } else if !inWord && CodeHead(s) {
      var n := 3 + RunLength(s[3..]);
      var rest := StripSplits(s[n..], true);
      w := Dropped(s, n, rest);
    } else {
      var rest := StripSplits(s[1..], WordChar(s[0]));
      w := Keep(s[0], rest);
      assert w.Whole() == s;
    }
  }

  lemma Dropped(s: string, n: nat, rest: Split) returns (w: Split)
    requires CodeHead(s) && n == 3 + RunLength(s[3..]) && n <= |s|
    requires rest.Whole() == s[n..] && rest.Left() == StripFrom(s[n..], true) && rest.Right(true)
    ensures w.Whole() == s && w.Left() == StripFrom(s, false) && w.Right(false)
  {
    RunIsCode(s[3..]);
    w := Drop(s[..n], rest);
    assert s[..n] + s[n..] == s;
    assert forall i | 3 <= i < n :: s[..n][i] == s[3..][i - 3];
    assert n < |s| ==> s[n..][0] == s[3..][n - 3];
  }

  // ---- sanitising ----

  /** Visible text, with control characters not counted. */
  function Visible(s: string): string {
    if s == "" then ""
    else (if IsSpace(s[0]) || IsControl(s[0]) then "" else [s[0]]) + Visible(s[1..])
  }

  lemma {:induction false} SpacedIsVisible(s: string)
    ensures Solid(Spaced(s)) == Visible(s)
  {
    if s != "" {
      SpacedIsVisible(s[1..]);
      assert Spaced(s)[1..] == Spaced(s[1..]);
    }
  }

  /** As much of the front of a text as there is room for. */
  lemma {:induction false} CutIsLongest(s: string, max: int)
    ensures var u := Cut(s, max);
            u <= s && (u == s || Framing.Utf16Length(u) + Framing.Utf16Width(s[|u|]) > max)
  {
    if s != "" && Framing.Utf16Width(s[0]) <= max {
      CutIsLongest(s[1..], max - Framing.Utf16Width(s[0]));
      var u := Cut(s[1..], max - Framing.Utf16Width(s[0]));
      assert ([s[0]] + u)[1..] == u;
    }
  }

  /** The line a text comes down to: its visible words with single blanks between them. */
  function Line(text: string): string {
    Trim(Collapse(Spaced(text)))
  }

  /** The first n characters of the line fit, and the next one does not. */
  predicate FitsUpTo(line: string, n: int, max: int) {
    && 0 <= n < |line| && Framing.Utf16Length(line[..n]) <= max
    && Framing.Utf16Length(line[..n]) + Framing.Utf16Width(line[n]) > max
  }

  function OrElse(text: string, fallback: string): string {
    if text == "" then fallback else text
  }

  lemma LineKeeps(text: string)
    ensures Tight(Line(text)) && Solid(Line(text)) == Visible(text)
  {
    SpacedIsVisible(text);
    TidiedIsTightAgain(Spaced(text));
  }

  /** A message that fits keeps all that is visible, in order, and one that does not is cut where it no longer
      fits; only when nothing is left does the fallback stand in. */
  lemma SanitisedKeeps(text: string, fallback: string)
    ensures Tight(Line(text)) && Solid(Line(text)) == Visible(text)
    ensures if Framing.Utf16Length(Line(text)) <= 2000 then Sanitised(text, fallback) == OrElse(Line(text), fallback)
            else exists n :: FitsUpTo(Line(text), n, 2000) && CutAt(Sanitised(text, fallback), Line(text), n, fallback)
  {
    LineKeeps(text);
    var line, max := Line(text), MAX_MESSAGE_LENGTH;
    var u := Cut(line, max);
    CutOrWhole(line, max, u);
    if Framing.Utf16Length(line) > 2000 { assert CutAt(Sanitised(text, fallback), line, |u|, fallback); }
  }

  predicate CutAt(message: string, line: string, n: int, fallback: string) {
    0 <= n <= |line| && message == OrElse(Trim(line[..n]), fallback)
  }

  lemma CutOrWhole(line: string, max: int, u: string)
    requires Tight(line) && u == Cut(line, max) && 0 <= max
    ensures if Framing.Utf16Length(line) <= max then Trim(u) == line else FitsUpTo(line, |u|, max) && u == line[..|u|]
  {
    CutIsLongest(line, max);
    if Framing.Utf16Length(line) <= max {
      CutKeepsShort(line, max);
      TightIsTrimmed(line);
      TrimKeepsTrimmed(line);
    } else {
      assert Framing.Utf16Length(u) <= max;
      assert u != line;
      assert u == line[..|u|];
    }
  }

  lemma TidiedIsTightAgain(s: string)
    ensures Tight(Trim(Collapse(s))) && Solid(Trim(Collapse(s))) == Solid(s)
  {
    CollapsedIsSingle(s);
    TrimKeepsSolid(Collapse(s));
  }

  lemma TightIsTrimmed(s: string)
    requires Tight(s)
    ensures Trimmed(s)
  {
  }

  // ---- responses ----

  /** The one answer to each kind of failure. */
  lemma ResponsesMean(result: PlanResult)
    requires result.Failed?
    ensures match result.reason
            case Rejected => FailureResponse(result) == RefusedResponse("that question could not be answered safely")
            case ModelFailed => FailureResponse(result) == ErrorResponse(ERROR_MESSAGE)
            case InvalidPlan => FailureResponse(result) == ErrorResponse(ERROR_MESSAGE)
            case CannotAnswer =>
              FailureResponse(result) ==
                if exists a :: a in result.attempts && a.outcome == Refused
                then UnanswerableResponse(UNANSWERABLE_MESSAGE)
                else UnanswerableResponse(Sanitised(StripDenyCodes(result.detail), UNANSWERABLE_MESSAGE))
  {
    match result.reason
    case Rejected =>
    case CannotAnswer => if SawDenial(result.attempts) { DenialsSilenceTheModel(result); }
    case _ => ErrorsSayNothing(result);
  }
}
