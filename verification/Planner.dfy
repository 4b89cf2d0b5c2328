/** packages/core/src/plan/planner.ts: the repair loop. */
module Planner {
  import opened Schema
  import opened SqlTypes
  import opened Text

  // With schema.ts beside it. A run meets an arbitrary model and an arbitrary guard. The model is a
  // function of the conversation it is sent; a conversation is longer at every call, so this lets its
  // answers vary from call to call freely.

  // ---- the plan object a model returns ----

  datatype ChartSpec = ChartSpec(
    kind: string, x: Option<string>, y: seq<string>, series: Option<string>, title: Option<string>)

  /** A value that is not a plain object, or the fields readPlan looks at. A field of the wrong type
      reads like an absent one. */
  datatype Output =
    | NotAnObject
    | PlanObject(
        answerable: Option<bool>, reason: Option<string>, sql: Option<string>, chartKind: Option<string>,
        chartX: Option<string>, chartY: seq<string>, chartSeries: Option<string>, chartTitle: Option<string>)

  datatype Draft = Draft(answerable: bool, reason: Option<string>, sql: Option<string>, chart: ChartSpec)

  datatype Reading = Plan(draft: Draft) | NoPlan(detail: string)

  /** The fixed sentences of schema.ts and planner.ts, by meaning. */
  datatype Phrase =
    | NotAPlanObject | AnswerableMissing | NoSql | NoReasonGiven | SchemaCannotAnswer | ApprovedNote | RanOutOfAttempts

  const CHART_KINDS := ["bar", "line", "area", "table", "number"]

  /** Text that is not blank. */
  function Str(v: Option<string>): Option<string> {
    if v.Some? && !Blank(v.value) then v else None
  }

  /** In the source's words: text that trimming does not empty. */
  lemma StrIsTrimmed(v: Option<string>)
    ensures Str(v) == if v.Some? && Trim(v.value) != "" then v else None
  {
    if v.Some? { TrimEmptyMeansBlank(v.value); }
  }

  function ReadChart(o: Output): ChartSpec
    requires o.PlanObject?
  {
    var kindText := Str(o.chartKind);
    var kind := if kindText.Some? && kindText.value in CHART_KINDS then kindText.value else "table";
    ChartSpec(kind, Str(o.chartX), o.chartY, Str(o.chartSeries), Str(o.chartTitle))
  }

  function ReadPlan(o: Output, say: Phrase -> string): (r: Reading)
    ensures r.Plan? && r.draft.answerable ==> r.draft.sql.Some? && !Blank(r.draft.sql.value)
    ensures r.Plan? && !r.draft.answerable ==> r.draft.reason.Some?
    ensures r.Plan? ==> o.PlanObject? && r.draft.chart == ReadChart(o)
  {
    if o.NotAnObject? then NoPlan(say(NotAPlanObject))
    else if o.answerable.None? then NoPlan(say(AnswerableMissing))
    else if !o.answerable.value then
      Plan(Draft(false, Some(Str(o.reason).GetOr(say(NoReasonGiven))), None, ReadChart(o)))
    else
      var sql := Str(o.sql);
      if sql.None? then NoPlan(say(NoSql))
      else Plan(Draft(true, None, sql, ReadChart(o)))
  }

  // ---- the records of a run ----

  /** The token counts input, output, cache read and cache write, in that order. */
  type Usage = u: seq<int> | |u| == 4 witness [0, 0, 0, 0]

  const ZERO_USAGE: Usage := [0, 0, 0, 0]

  function AddUsage(a: Usage, b: Usage): Usage {
    seq(4, i requires 0 <= i < 4 => a[i] + b[i])
  }

  datatype Role = User | Assistant

  datatype Message = Message(role: Role, content: string)

  datatype Reply =
    | Completed(output: Output, usage: Usage)
    | Threw(kind: Option<string>, message: string)

  datatype Outcome = Approved | Refused | Unanswerable | Invalid | ModelError

  datatype Attempt = Attempt(
    n: int, sql: Option<string>, outcome: Outcome, code: Option<DenyCode>, detail: string, usage: Usage)

  datatype Reason = CannotAnswer | Rejected | ModelFailed | InvalidPlan

  datatype PlanResult =
    | Planned(sql: string, tables: seq<TableRef>, rowLimit: Option<real>, chart: ChartSpec,
              attempts: seq<Attempt>, usage: Usage)
    | Failed(reason: Reason, detail: string, code: Option<DenyCode>, sawVerdict: bool,
             attempts: seq<Attempt>, usage: Usage)

  datatype SecurityEvent = SecurityEvent(question: string, sql: string, code: DenyCode, detail: string)

  /** Everything outside the loop: the provider, the guard with the words it gives a denial, the fixed
      sentences, the text of a repair turn and JSON.stringify. */
  datatype World = World(
    model: seq<Message> -> Reply,
    guard: string -> Verdict,
    explain: string -> string,
    say: Phrase -> string,
    repairTurn: (DenyCode, string) -> string,
    stringify: Output -> string)

  predicate AttackShaped(code: DenyCode) {
    code.ENotSelect? || code.EMultiStatement? || code.ENulByte?
  }

  predicate OurFault(code: DenyCode) {
    code.ERoundTripFailed? || code.EInternal?
  }

  predicate Repairable(code: DenyCode) {
    !AttackShaped(code) && !OurFault(code)
  }

  // ---- what a run means, call by call ----

  function ThrownText(kind: Option<string>, message: string): string {
    if kind.None? then message else kind.value + ": " + message
  }

  function JudgeOutput(w: World, k: nat, output: Output, usage: Usage): Attempt {
    match ReadPlan(output, w.say)
    case NoPlan(why) => Attempt(k + 1, None, Invalid, None, why, usage)
    case Plan(draft) =>
      if !draft.answerable then Attempt(k + 1, None, Unanswerable, None, draft.reason.value, usage)
      else
        var sql := draft.sql.value;
        match w.guard(sql)
        case Allowed(_, _, _) => Attempt(k + 1, Some(sql), Approved, None, w.say(ApprovedNote), usage)
        case Denied(code) => Attempt(k + 1, Some(sql), Refused, Some(code), w.explain(sql), usage)
  }

  /** How call k (from 0) is read, and the attempt that records it. */
  function Judge(w: World, k: nat, reply: Reply): (a: Attempt)
    ensures a.n == k + 1 && (a.outcome.Approved? || a.outcome.Refused? ==> a.sql.Some?)
    ensures a.outcome.Approved? ==>
              w.guard(a.sql.value).Allowed? && reply.Completed? && reply.output.PlanObject?
    ensures a.outcome.Refused? <==> a.code.Some?
    ensures a.outcome.Refused? ==>
              w.guard(a.sql.value) == Denied(a.code.value) && a.detail == w.explain(a.sql.value) && reply.Completed?
  {
    if reply.Threw? then
      Attempt(k + 1, None, ModelError, None, ThrownText(reply.kind, reply.message), ZERO_USAGE)
    else JudgeOutput(w, k, reply.output, reply.usage)
  }

  /** A denial an honest mistake can produce. */
  predicate Mistaken(a: Attempt) {
    a.outcome.Refused? && a.code.Some? && Repairable(a.code.value)
  }

  function Verbatim(w: World, reply: Reply): string {
    if reply.Completed? then w.stringify(reply.output) else ""
  }

  function Correction(w: World, a: Attempt): string {
    if a.code.Some? then w.repairTurn(a.code.value, a.detail) else ""
  }

  /** The next call repeats the conversation and adds the answer and the guard's complaint about it. */
  predicate Extends(w: World, c: seq<Message>, a: Attempt, next: seq<Message>) {
    && |next| == |c| + 2 && c <= next
    && next[|c|] == Message(Assistant, Verbatim(w, w.model(c)))
    && next[|c| + 1] == Message(User, Correction(w, a))
  }

  /** The tokens of the first n attempts. */
  function Spent(attempts: seq<Attempt>, n: nat): Usage
    requires n <= |attempts|
  {
    if n == 0 then ZERO_USAGE else AddUsage(Spent(attempts, n - 1), attempts[n - 1].usage)
  }

  function Total(attempts: seq<Attempt>): Usage {
    Spent(attempts, |attempts|)
  }

  function ReasonFor(o: Outcome): Reason
    requires !o.Approved?
  {
    match o
    case Refused => Rejected
    case Unanswerable => CannotAnswer
    case Invalid => InvalidPlan
    case ModelError => ModelFailed
  }

  predicate Read(w: World, calls: seq<seq<Message>>, attempts: seq<Attempt>, k: int)
    requires |calls| == |attempts| && 0 <= k < |calls|
  {
    attempts[k] == Judge(w, k, w.model(calls[k]))
  }

  predicate Repaired(w: World, calls: seq<seq<Message>>, attempts: seq<Attempt>, k: int)
    requires |calls| == |attempts| && 0 <= k < |calls| - 1
  {
    Mistaken(attempts[k]) && Extends(w, calls[k], attempts[k], calls[k + 1])
  }

  /** The calls a run has made and how each was read: another call follows only an honest mistake. */
  ghost predicate Dialogue(w: World, question: string, calls: seq<seq<Message>>, attempts: seq<Attempt>) {
    && |calls| == |attempts| >= 1
    && calls[0] == [Message(User, question)]
    && (forall k :: 0 <= k < |calls| ==> Read(w, calls, attempts, k))
    && (forall k :: 0 <= k < |calls| - 1 ==> Repaired(w, calls, attempts, k))
  }

  /** The number of calls maxAttempts allows, and whether it is that number exactly. */
  datatype Cap = Cap(calls: int, whole: bool)

  /** A whole run: an honest mistake comes last only when the cap leaves no further call. */
  ghost predicate Course(w: World, question: string, cap: Cap, calls: seq<seq<Message>>, attempts: seq<Attempt>) {
    && Dialogue(w, question, calls, attempts)
    && |attempts| <= cap.calls
    && (Mistaken(attempts[|attempts| - 1]) ==> |attempts| == cap.calls)
  }

  /** What a run reports once its last attempt, the m-th, has been read from this reply. */
  ghost predicate Concludes(w: World, cap: Cap, m: nat, reply: Reply, last: Attempt, res: PlanResult) {
    if last.outcome.Approved? then
      && res.Planned? && last.sql.Some?
      && w.guard(last.sql.value) == Allowed(res.sql, res.tables, res.rowLimit)
      && reply.Completed? && reply.output.PlanObject? && res.chart == ReadChart(reply.output)
    else
      && res.Failed? && res.reason == ReasonFor(last.outcome)
      && var ranOut := Mistaken(last) && !(cap.whole && m == cap.calls);
         && res.detail == (if ranOut then w.say(RanOutOfAttempts) else last.detail)
         && res.code == (if ranOut then None else last.code)
         && res.sawVerdict == (1 < m || ranOut)
  }

  ghost predicate Reports(w: World, question: string, cap: Cap, calls: seq<seq<Message>>, res: PlanResult) {
    && Course(w, question, cap, calls, res.attempts)
    && res.usage == Total(res.attempts)
    && var m := |res.attempts|;
       Concludes(w, cap, m, w.model(calls[m - 1]), res.attempts[m - 1], res)
  }

  function MaxAttempts(option: Option<real>): (m: real)
    ensures 1.0 <= m
  {
    var n := option.GetOr(2.0);
    if n < 1.0 then 1.0 else n
  }

  function CapOf(max: real): Cap {
    Cap(max.Floor, max.Floor as real == max)
  }

  /** The two comparisons the loop makes with its counter. */
  lemma CapCounts(max: real, n: int)
    ensures n as real <= max <==> n <= CapOf(max).calls
    ensures n as real == max <==> CapOf(max).whole && n == CapOf(max).calls
  {
  }

  lemma {:induction false} SpentOnPrefix(attempts: seq<Attempt>, a: Attempt, n: nat)
    requires n <= |attempts|
    ensures Spent(attempts + [a], n) == Spent(attempts, n)
  {
    if n > 0 { SpentOnPrefix(attempts, a, n - 1); }
  }

  lemma Adds(attempts: seq<Attempt>, a: Attempt)
    ensures Total(attempts + [a]) == AddUsage(Total(attempts), a.usage)
  {
    SpentOnPrefix(attempts, a, |attempts|);
  }

  /** The state of the loop before call n: all calls so far were honest mistakes. */
  ghost predicate Open(w: World, question: string, calls: seq<seq<Message>>, attempts: seq<Attempt>,
                       messages: seq<Message>) {
    if attempts == [] then calls == [] && messages == [Message(User, question)]
    else
      && Dialogue(w, question, calls, attempts)
      && var last := |attempts| - 1;
         Mistaken(attempts[last]) && Extends(w, calls[last], attempts[last], messages)
  }

  lemma OneMore(w: World, question: string, calls: seq<seq<Message>>, attempts: seq<Attempt>, messages: seq<Message>,
                a: Attempt)
    requires Open(w, question, calls, attempts, messages)
    requires a == Judge(w, |attempts|, w.model(messages))
    ensures Dialogue(w, question, calls + [messages], attempts + [a])
  {
    var cs, as' := calls + [messages], attempts + [a];
    forall k | 0 <= k < |cs| ensures Read(w, cs, as', k) {
      if k < |calls| { assert Read(w, calls, attempts, k); }
    }
    forall k | 0 <= k < |cs| - 1 ensures Repaired(w, cs, as', k) {
      if k < |calls| - 1 { assert Repaired(w, calls, attempts, k); }
    }
  }

  method PlanQuery(w: World, question: string, maxAttempts: Option<real>)
    returns (res: PlanResult, events: seq<SecurityEvent>, ghost calls: seq<seq<Message>>)
    ensures Reports(w, question, CapOf(MaxAttempts(maxAttempts)), calls, res)
    ensures |calls| as real <= match maxAttempts case None => 2.0 case Some(m) => if m < 1.0 then 1.0 else m
    ensures var last := res.attempts[|res.attempts| - 1];
            events == if last.code in {Some(ENotSelect), Some(EMultiStatement), Some(ENulByte)}
                      then [SecurityEvent(question, last.sql.GetOr(""), last.code.value, last.detail)]
                      else []
  {
    var max := MaxAttempts(maxAttempts);
    ghost var cap := CapOf(max);
    var messages := [Message(User, question)];
    var attempts: seq<Attempt> := [];
    var sawVerdict := false;
    var usage := ZERO_USAGE;
    calls, events := [], [];
    var n := 1;
    CapCounts(max, n);
    while n as real <= max
      invariant n as real <= max <==> n <= cap.calls
      invariant n as real == max <==> cap.whole && n == cap.calls
      invariant 1 <= n && |attempts| == n - 1 && n - 1 <= cap.calls
      invariant Open(w, question, calls, attempts, messages)
      invariant sawVerdict == (1 < n) && usage == Total(attempts) && events == []
      invariant 1 < n ==> !(cap.whole && n - 1 == cap.calls)
      decreases cap.calls - n
    {
      var reply := w.model(messages);
      var a := Judge(w, n - 1, reply);
      OneMore(w, question, calls, attempts, messages, a);
      Adds(attempts, a);
      calls := calls + [messages];
      attempts := attempts + [a];
      usage := AddUsage(usage, a.usage);
      if a.outcome.Approved? {
        var verdict := w.guard(a.sql.value);
        res := Planned(verdict.sql, verdict.tables, verdict.rowLimit, ReadChart(reply.output), attempts, usage);
        return;
      }
      if !a.outcome.Refused? {
        res := Failed(ReasonFor(a.outcome), a.detail, None, sawVerdict, attempts, usage);
        return;
      }
      var code := a.code.value;
      if AttackShaped(code) {
        events := [SecurityEvent(question, a.sql.value, code, a.detail)];
        res := Failed(Rejected, a.detail, Some(code), sawVerdict, attempts, usage);
        return;
      }
      if !Repairable(code) || n as real == max {
        res := Failed(Rejected, a.detail, Some(code), sawVerdict, attempts, usage);
        return;
      }
      sawVerdict := true;
      messages := messages + [
        Message(Assistant, w.stringify(reply.output)), Message(User, w.repairTurn(code, a.detail))];
      n := n + 1;
      CapCounts(max, n);
    }
    res := Failed(Rejected, w.say(RanOutOfAttempts), None, sawVerdict, attempts, usage);
  }

  // ---- what follows for every run ----

  /** Reports leaves nothing open: the model, the guard, the question and the cap decide the calls and
      the result. */
  lemma RunIsDetermined(w: World, question: string, cap: Cap, cs: seq<seq<Message>>, r: PlanResult,
                        ds: seq<seq<Message>>, s: PlanResult)
    requires Reports(w, question, cap, cs, r) && Reports(w, question, cap, ds, s)
    ensures cs == ds && r == s
  {
    SameCourse(w, question, cap, cs, r.attempts, ds, s.attempts);
    var m := |r.attempts|;
    OneConclusion(w, cap, m, w.model(cs[m - 1]), r.attempts[m - 1], r, s);
  }

  lemma SameCourse(w: World, question: string, cap: Cap, cs: seq<seq<Message>>, a: seq<Attempt>,
                   ds: seq<seq<Message>>, b: seq<Attempt>)
    requires Course(w, question, cap, cs, a) && Course(w, question, cap, ds, b)
    ensures cs == ds && a == b
  {
    OneLength(w, question, cap, cs, a, ds, b);
    OneLength(w, question, cap, ds, b, cs, a);
    SameDialogue(w, question, cs, a, ds, b);
  }

  lemma SameDialogue(w: World, question: string, cs: seq<seq<Message>>, a: seq<Attempt>,
                     ds: seq<seq<Message>>, b: seq<Attempt>)
    requires Dialogue(w, question, cs, a) && Dialogue(w, question, ds, b) && |a| == |b|
    ensures cs == ds && a == b
  {
    forall k | 0 <= k < |a| ensures cs[k] == ds[k] && a[k] == b[k] {
      SameSoFar(w, question, cs, a, ds, b, k);
    }
  }

  lemma {:induction false} SameSoFar(w: World, question: string, cs: seq<seq<Message>>, a: seq<Attempt>,
                                     ds: seq<seq<Message>>, b: seq<Attempt>, k: nat)
    requires Dialogue(w, question, cs, a) && Dialogue(w, question, ds, b) && k < |a| && k < |b|
    ensures cs[k] == ds[k] && a[k] == b[k]
  {
    if k > 0 {
      SameSoFar(w, question, cs, a, ds, b, k - 1);
      assert Repaired(w, cs, a, k - 1) && Repaired(w, ds, b, k - 1);
      OneExtension(w, cs[k - 1], a[k - 1], cs[k], ds[k]);
    }
    assert Read(w, cs, a, k) && Read(w, ds, b, k);
  }

  lemma OneExtension(w: World, c: seq<Message>, a: Attempt, x: seq<Message>, y: seq<Message>)
    requires Extends(w, c, a, x) && Extends(w, c, a, y)
    ensures x == y
  {
    forall i | 0 <= i < |x| ensures x[i] == y[i] {
      if i < |c| { assert x[i] == c[i] == y[i]; }
    }
  }

  lemma OneLength(w: World, question: string, cap: Cap, cs: seq<seq<Message>>, a: seq<Attempt>,
                  ds: seq<seq<Message>>, b: seq<Attempt>)
    requires Course(w, question, cap, cs, a) && Course(w, question, cap, ds, b)
    ensures |b| <= |a|
  {
    MistakesBeforeTheLast(w, question, ds, b);
    var last := |a| - 1;
    if last < |b| {
      SameSoFar(w, question, cs, a, ds, b, last);
    }
  }

  lemma MistakesBeforeTheLast(w: World, question: string, calls: seq<seq<Message>>, attempts: seq<Attempt>)
    requires Dialogue(w, question, calls, attempts)
    ensures forall k :: 0 <= k < |attempts| - 1 ==> Mistaken(attempts[k])
  {
    forall k | 0 <= k < |attempts| - 1 ensures Mistaken(attempts[k]) {
      assert Repaired(w, calls, attempts, k);
    }
  }

  lemma OneConclusion(w: World, cap: Cap, m: nat, reply: Reply, last: Attempt, r: PlanResult, s: PlanResult)
    requires Concludes(w, cap, m, reply, last, r) && Concludes(w, cap, m, reply, last, s)
    requires r.attempts == s.attempts && r.usage == s.usage
    ensures r == s
  {
  }

  /** Every conversation starts with the question, alternates between the two sides and ends with the
      user, and call k is sent 2k + 1 messages. */
  lemma {:induction false} SidesAlternate(w: World, question: string, calls: seq<seq<Message>>,
                                          attempts: seq<Attempt>, k: nat)
    requires Dialogue(w, question, calls, attempts) && k < |calls|
    ensures var c := calls[k];
            && |c| == 2 * k + 1
            && c[0] == Message(User, question)
            && forall i :: 0 <= i < |c| ==> c[i].role == if i % 2 == 0 then User else Assistant
  {
    if k > 0 {
      SidesAlternate(w, question, calls, attempts, k - 1);
      assert Repaired(w, calls, attempts, k - 1);
      var c, before := calls[k], calls[k - 1];
      forall i | 0 <= i < |c| ensures c[i].role == if i % 2 == 0 then User else Assistant {
        if i < |before| { assert c[i] == before[i]; }
      }
    }
  }

  /** What any earlier call was sent stays at the head of every later one, followed by the model's own
      answer and the guard's words. */
  lemma {:induction false} EarlierTalkIsKept(w: World, question: string, calls: seq<seq<Message>>,
                                             attempts: seq<Attempt>, j: nat, k: nat)
    requires Dialogue(w, question, calls, attempts) && j < k < |calls|
    ensures |calls[j]| == 2 * j + 1 && |calls[k]| == 2 * k + 1
    ensures forall i :: 0 <= i < |calls[j]| ==> calls[k][i] == calls[j][i]
    ensures calls[k][2 * j + 1] == Message(Assistant, Verbatim(w, w.model(calls[j])))
    ensures calls[k][2 * j + 2] == Message(User, Correction(w, attempts[j]))
  {
    SidesAlternate(w, question, calls, attempts, j);
    SidesAlternate(w, question, calls, attempts, k);
    assert Repaired(w, calls, attempts, k - 1);
    if j < k - 1 {
      SidesAlternate(w, question, calls, attempts, k - 1);
      EarlierTalkIsKept(w, question, calls, attempts, j, k - 1);
      assert forall i :: 0 <= i < |calls[k - 1]| ==> calls[k][i] == calls[k - 1][i];
    }
  }

  /** No call follows a denial that no mistake produces, nor one of the guard's own failures. */
  lemma AttackEndsTheRun(w: World, question: string, cap: Cap, calls: seq<seq<Message>>, res: PlanResult, k: nat)
    requires Reports(w, question, cap, calls, res) && k < |res.attempts|
    requires var c := res.attempts[k].code; c.Some? && !Repairable(c.value)
    ensures k == |calls| - 1
    ensures res.Failed? && res.reason == Rejected && res.code == res.attempts[k].code
  {
    assert Read(w, calls, res.attempts, k);
    MistakesBeforeTheLast(w, question, calls, res.attempts);
  }

  /** The plan that reaches the database is the guard's text for the SQL the model proposed last, and its
      chart is the one proposed with it. */
  lemma PlansAreGuarded(w: World, question: string, cap: Cap, calls: seq<seq<Message>>, res: PlanResult)
    requires Reports(w, question, cap, calls, res) && res.Planned?
    ensures var reply := w.model(calls[|calls| - 1]);
            && reply.Completed? && reply.output.PlanObject? && reply.output.answerable == Some(true)
            && reply.output.sql.Some? && !Blank(reply.output.sql.value)
            && res.attempts[|res.attempts| - 1].sql == reply.output.sql
            && w.guard(reply.output.sql.value) == Allowed(res.sql, res.tables, res.rowLimit)
            && res.chart == ReadChart(reply.output)
  {
    LastApproved(w, question, calls, res.attempts);
  }

  lemma LastApproved(w: World, question: string, calls: seq<seq<Message>>, attempts: seq<Attempt>)
    requires Dialogue(w, question, calls, attempts) && attempts[|attempts| - 1].outcome.Approved?
    ensures var reply := w.model(calls[|calls| - 1]);
            && reply.Completed? && reply.output.PlanObject? && reply.output.answerable == Some(true)
            && reply.output.sql.Some? && !Blank(reply.output.sql.value)
            && attempts[|attempts| - 1].sql == reply.output.sql
  {
    var k := |calls| - 1;
    assert Read(w, calls, attempts, k);
    ApprovedIsRead(w, k, w.model(calls[k]));
  }

  lemma ApprovedIsRead(w: World, k: nat, reply: Reply)
    requires Judge(w, k, reply).outcome.Approved?
    ensures reply.Completed? && reply.output.PlanObject? && reply.output.answerable == Some(true)
    ensures reply.output.sql.Some? && !Blank(reply.output.sql.value) && Judge(w, k, reply).sql == reply.output.sql
  {
  }

  predicate SawDenial(attempts: seq<Attempt>) {
    exists a :: a in attempts && a.outcome == Refused
  }

  /** For an unanswerable result, the flag the planner keeps and what the wire layer recomputes from the
      attempts agree. */
  lemma TwoWaysToSeeADenial(w: World, question: string, cap: Cap, calls: seq<seq<Message>>, res: PlanResult)
    requires Reports(w, question, cap, calls, res) && res.Failed? && res.reason == CannotAnswer
    ensures res.sawVerdict <==> SawDenial(res.attempts)
  {
    var m := |res.attempts|;
    if 1 < m {
      assert Repaired(w, calls, res.attempts, 0);
      assert res.attempts[0] in res.attempts;
    }
  }

  /** A rejection that names no code: the statement after the loop. */
  predicate RanOut(res: PlanResult) {
    res.Failed? && res.reason == Rejected && res.code == None
  }

  ghost predicate CanRunOut(cap: Cap) {
    exists w, question, calls, res :: Reports(w, question, cap, calls, res) && RanOut(res)
  }

  /** Some run reaches the statement after the loop exactly when the cap is not a whole number: only
      then does the last permitted call fail to notice that it is the last. */
  lemma RunsOutExactlyForFractions(max: real)
    requires 1.0 <= max
    ensures CanRunOut(CapOf(max)) <==> max.Floor as real != max
  {
    var cap := CapOf(max);
    if !cap.whole {
      Stubborn(cap);
    } else if CanRunOut(cap) {
      var w, question, calls, res :| Reports(w, question, cap, calls, res) && RanOut(res);
      WholeCapsReportACode(w, question, cap, calls, res);
    }
  }

  lemma WholeCapsReportACode(w: World, question: string, cap: Cap, calls: seq<seq<Message>>, res: PlanResult)
    requires Reports(w, question, cap, calls, res) && cap.whole
    ensures !RanOut(res)
  {
    assert Read(w, calls, res.attempts, |calls| - 1);
  }

  /** A model that repeats one query the guard always refuses by its fields. */
  function StubbornWorld(): World {
    var o := PlanObject(Some(true), None, Some("q"), None, None, [], None, None);
    World(_ => Completed(o, ZERO_USAGE), _ => Denied(EFieldNotAllowed), _ => "", _ => "", (_, _) => "", _ => "")
  }

  lemma StubbornTurn(k: nat, c: seq<Message>)
    ensures Mistaken(Judge(StubbornWorld(), k, StubbornWorld().model(c)))
  {
    assert "q"[0] == 'q' && !IsSpace('q');
  }

  lemma {:induction false} StubbornTalk(n: nat)
    returns (calls: seq<seq<Message>>, attempts: seq<Attempt>, messages: seq<Message>)
    ensures |attempts| == n && Open(StubbornWorld(), "", calls, attempts, messages)
  {
    if n == 0 {
      return [], [], [Message(User, "")];
    }
    var cs, as', c := StubbornTalk(n - 1);
    var w := StubbornWorld();
    var a := Judge(w, n - 1, w.model(c));
    OneMore(w, "", cs, as', c, a);
    StubbornTurn(n - 1, c);
    calls, attempts := cs + [c], as' + [a];
    messages := c + [Message(Assistant, Verbatim(w, w.model(c))), Message(User, Correction(w, a))];
  }

  lemma Stubborn(cap: Cap)
    requires 1 <= cap.calls && !cap.whole
    ensures CanRunOut(cap)
  {
    var w := StubbornWorld();
    var calls, attempts, messages := StubbornTalk(cap.calls);
    var res := Failed(Rejected, w.say(RanOutOfAttempts), None, true, attempts, Total(attempts));
    assert Reports(w, "", cap, calls, res) && RanOut(res);
  }
}
