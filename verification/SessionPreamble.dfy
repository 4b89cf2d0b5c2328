/** The session settings of packages/core/src/execute.ts: what a request may set before its query runs,
    and why a value cannot say more than it should. Case folding is a parameter. */
module SessionPreamble {
  import opened Schema
  import opened Text
  import opened Fragment

  datatype Setting = Setting(name: string, value: string)

  const MAX_SETTING_VALUE := 256

  /** SAFE_IDENT of packages/core/src/sql.ts. */
  predicate IsIdent(s: string) {
    0 < |s| <= 63 && WordStart(s[0]) && forall i :: 0 <= i < |s| ==> WordPart(s[i]) || s[i] == '$'
  }

  /** A prefix and a name around one dot, in lower case. */
  predicate GoodName(name: string, lower: string -> string) {
    && lower(name) == name
    && exists k :: 0 <= k < |name| && name[k] == '.' && IsIdent(name[..k]) && IsIdent(name[k + 1..])
  }

  predicate UnsafeChar(c: char) {
    c as int < 0x20 || c as int == 0x7F || c == '\\'
  }

  predicate GoodValue(value: string) {
    && value != "" && Framing.Utf16Length(value) <= MAX_SETTING_VALUE
    && Trim(value) == value
    && forall i :: 0 <= i < |value| ==> !UnsafeChar(value[i])
  }

  function SetLocalText(s: Setting): string {
    "SET LOCAL " + Assignment(s)
  }

  function Assignment(s: Setting): string {
    s.name + [' '] + ("= " + Quote(s.value, '\''))
  }

  /** setLocal; no value is one of the RangeErrors. */
  function SetLocal(s: Setting, lower: string -> string): Option<string> {
    if GoodName(s.name, lower) && GoodValue(s.value) then Some(SetLocalText(s)) else None
  }

  /** A setting is made exactly for a lower-case name of two identifiers with a dot between them, and for a value
      of 1 to 256 units without white space at its ends, control characters or backslashes. */
  lemma SettingsAccepted(s: Setting, lower: string -> string)
    ensures SetLocal(s, lower).Some? <==>
            && lower(s.name) == s.name
            && (exists k :: 0 <= k < |s.name| && s.name[k] == '.' && IsIdent(s.name[..k]) && IsIdent(s.name[k + 1..]))
            && s.value != "" && Framing.Utf16Length(s.value) <= 256
            && !IsSpace(s.value[0]) && !IsSpace(s.value[|s.value| - 1])
            && forall c | c in s.value :: 32 <= c as int && c as int != 127 && c != '\\'
  {
    if s.value != "" {
      TrimmedMeans(s.value);
      assert forall i | 0 <= i < |s.value| :: s.value[i] in s.value;
    }
  }

  lemma TrimmedMeans(s: string)
    requires s != ""
    ensures Trim(s) == s <==> !IsSpace(s[0]) && !IsSpace(s[|s| - 1])
  {
    var i := Lead(s, 0);
    var t := s[i..];
    if !IsSpace(s[0]) && !IsSpace(s[|s| - 1]) {
      assert t == s;
    }
    if Trim(s) == s {
      assert |Trim(s)| == Back(t, |t|) <= |s| - i;
      assert i == 0 && t == s;
    }
  }

  /** scopeStatements, given setLocal: every setting is made, and none is made twice. */
  method ScopeStatements(scope: seq<Setting>, setLocal: Setting -> Option<string>) returns (r: Option<seq<string>>)
    ensures r.Some? <==>
              && (forall i :: 0 <= i < |scope| ==> setLocal(scope[i]).Some?)
              && (forall i, j :: 0 <= i < j < |scope| ==> scope[i].name != scope[j].name)
    ensures r.Some? ==> |r.value| == |scope| && forall i :: 0 <= i < |scope| ==> Some(r.value[i]) == setLocal(scope[i])
  {
    var seen: set<string> := {};
    var out: seq<string> := [];
    var i := 0;
    while i < |scope|
      invariant 0 <= i <= |scope| && |out| == i
      invariant forall k :: 0 <= k < i ==> setLocal(scope[k]) == Some(out[k])
      invariant forall j, k :: 0 <= j < k < i ==> scope[j].name != scope[k].name
      invariant forall n :: n in seen <==> exists k :: 0 <= k < i && scope[k].name == n
    {
      var statement := setLocal(scope[i]);
      if statement.None? || scope[i].name in seen { return None; }
      seen, out := seen + {scope[i].name}, out + [statement.value];
      i := i + 1;
    }
    r := Some(out);
  }

  lemma NameHasNoBlank(name: string, lower: string -> string)
    requires GoodName(name, lower)
    ensures ' ' !in name
  {
    var k :| 0 <= k < |name| && name[k] == '.' && IsIdent(name[..k]) && IsIdent(name[k + 1..]);
    forall i | 0 <= i < |name| ensures name[i] != ' ' {
      if i < k { assert name[i] == name[..k][i]; }
      if i > k { assert name[i] == name[k + 1..][i - k - 1]; }
    }
  }

  /** Where the literal of a statement starts. */
  function LiteralStart(s: Setting): nat {
    |"SET LOCAL "| + |s.name| + 3
  }

  lemma LiteralEndsTheText(s: Setting)
    ensures LiteralStart(s) + |Quote(s.value, '\'')| == |SetLocalText(s)|
    ensures Holds(SetLocalText(s), LiteralStart(s), Quote(s.value, '\''))
  {
    var head := "SET LOCAL " + (s.name + [' '] + "= ");
    assert SetLocalText(s) == head + Quote(s.value, '\'');
  }

  /** The server reads the value back as it was given, and the statement ends with it: whatever the value,
      its literal closes at the last character and not before. */
  lemma ValueStaysInItsLiteral(s: Setting)
    ensures LiteralStart(s) < |SetLocalText(s)|
    ensures NamesFrom(SetLocalText(s), '\'', LiteralStart(s)) == [s.value]
    ensures Closing(SetLocalText(s), '\'', LiteralStart(s) + 1) == Some(|SetLocalText(s)|)
  {
    LiteralEndsTheText(s);
    LastLiteral(SetLocalText(s), LiteralStart(s), s.value);
  }

  lemma LastLiteral(text: string, start: nat, value: string)
    requires Holds(text, start, Quote(value, '\'')) && start + |Quote(value, '\'')| == |text|
    ensures NamesFrom(text, '\'', start) == [value] && Closing(text, '\'', start + 1) == Some(|text|)
  {
    QuotingReadsBack(text, '\'', start, value, "");
    LiteralCloses(text, start, value);
  }

  lemma LiteralCloses(text: string, start: nat, value: string)
    requires Holds(text, start, Quote(value, '\'')) && start + |Quote(value, '\'')| == |text|
    ensures Closing(text, '\'', start + 1) == Some(|text|)
  {
    var d := Doubled(value, '\'');
    forall k | 0 <= k < |d| ensures text[start + 1 + k] == d[k] {
      assert text[start + (k + 1)] == Quote(value, '\'')[k + 1];
    }
    assert text[start + (|d| + 1)] == Quote(value, '\'')[|d| + 1];
    ClosingOfDoubled(text, '\'', start + 1, value);
  }

  lemma AssignmentsDiffer(s: Setting, t: Setting)
    requires SetLocalText(s) == SetLocalText(t)
    ensures Assignment(s) == Assignment(t)
  {
    var lead := "SET LOCAL ";
    assert Assignment(s) == SetLocalText(s)[|lead|..] && Assignment(t) == SetLocalText(t)[|lead|..];
  }

  /** A statement says which setting it sets and to what: two accepted settings with the same text are the
      same setting. */
  lemma SetLocalInjective(s: Setting, t: Setting, lower: string -> string)
    requires SetLocal(s, lower).Some? && SetLocal(s, lower) == SetLocal(t, lower)
    ensures s == t
  {
    NameHasNoBlank(s.name, lower);
    NameHasNoBlank(t.name, lower);
    AssignmentsDiffer(s, t);
    SeparatedHead(s.name, "= " + Quote(s.value, '\''), t.name, "= " + Quote(t.value, '\''), ' ');
    ValueStaysInItsLiteral(s);
    ValueStaysInItsLiteral(t);
  }
}
