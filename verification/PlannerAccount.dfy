/** A planning run, reply by reply. */
module PlannerAccount {
  import opened Schema
  import opened SqlTypes
  import opened Text
  import opened Planner

  // What a run of packages/core/src/plan/planner.ts makes of each reply, told of the replies themselves.

  /** What a completed reply says: nothing that can be read, that there is no answer, or a statement. */
  datatype Said = Unreadable(detail: Phrase) | NoAnswer(reason: Option<string>) | Proposes(sql: string)

  predicate Filled(v: Option<string>) {
    match v
    case Some(s) => exists i | 0 <= i < |s| :: !IsSpace(s[i])
    case None => false
  }

  function WhatIsSaid(o: Output): Said {
    match o
    case NotAnObject => Unreadable(NotAPlanObject)
    case PlanObject(None, _, _, _, _, _, _, _) => Unreadable(AnswerableMissing)
    case PlanObject(Some(false), reason, _, _, _, _, _, _) => NoAnswer(if Filled(reason) then reason else None)
    case PlanObject(Some(true), _, sql, _, _, _, _, _) =>
      if Filled(sql) then Proposes(sql.value) else Unreadable(NoSql)
  }

  /** How an attempt records the reply to call k. */
  ghost predicate Records(w: World, k: nat, reply: Reply, a: Attempt) {
    a.n == k + 1 &&
    match reply
    case Threw(kind, message) =>
      && a.outcome == ModelError && a.sql == None && a.code == None && a.usage == [0, 0, 0, 0]
      && a.detail == Thrown(kind, message)
    case Completed(output, usage) =>
      && a.usage == usage
      && RecordsSaid(w, WhatIsSaid(output), a)
  }

  ghost predicate RecordsSaid(w: World, said: Said, a: Attempt) {
    match said
    case Unreadable(why) => a.outcome == Invalid && a.sql == None && a.code == None && a.detail == w.say(why)
    case NoAnswer(reason) =>
      a.outcome == Unanswerable && a.sql == None && a.code == None && a.detail == reason.GetOr(w.say(NoReasonGiven))
    case Proposes(sql) => a.sql == Some(sql) && RecordsVerdict(w, sql, w.guard(sql), a)
  }

  ghost predicate RecordsVerdict(w: World, sql: string, v: Verdict, a: Attempt) {
    match v
    case Allowed(_, _, _) => a.outcome == Approved && a.code == None && a.detail == w.say(ApprovedNote)
    case Denied(code) => a.outcome == Refused && a.code == Some(code) && a.detail == w.explain(sql)
  }

  lemma FilledIsText(v: Option<string>)
    ensures Str(v) == if Filled(v) then v else None
  {
  }

  lemma JudgeRecords(w: World, k: nat, reply: Reply)
    ensures Records(w, k, reply, Judge(w, k, reply))
  {
    if reply.Completed? && reply.output.PlanObject? {
      FilledIsText(reply.output.sql);
      FilledIsText(reply.output.reason);
    }
  }

  /** Every attempt records the reply to its call. */
  lemma AttemptsRecordReplies(w: World, question: string, cap: Cap, calls: seq<seq<Message>>, res: PlanResult, k: nat)
    requires Reports(w, question, cap, calls, res) && k < |calls|
    ensures |res.attempts| == |calls| && Records(w, k, w.model(calls[k]), res.attempts[k])
  {
    assert Read(w, calls, res.attempts, k);
    JudgeRecords(w, k, w.model(calls[k]));
  }

  // ---- what is counted ----

  /** The i-th token count of the first n replies together; a call that threw reports none. */
  function Counted(w: World, calls: seq<seq<Message>>, i: nat, n: nat): int
    requires n <= |calls| && i < 4
  {
    if n == 0 then 0
    else Counted(w, calls, i, n - 1) + match w.model(calls[n - 1])
                                       case Completed(_, usage) => usage[i]
                                       case Threw(_, _) => 0
  }

  lemma {:induction false} SpentIsCounted(w: World, question: string, cap: Cap, calls: seq<seq<Message>>,
                                          res: PlanResult, i: nat, n: nat)
    requires Reports(w, question, cap, calls, res) && i < 4 && n <= |calls|
    ensures n <= |res.attempts| && Spent(res.attempts, n)[i] == Counted(w, calls, i, n)
  {
    if n > 0 {
      SpentIsCounted(w, question, cap, calls, res, i, n - 1);
      AttemptsRecordReplies(w, question, cap, calls, res, n - 1);
    }
  }

  /** The usage reported is what the replies report, count by count. */
  lemma UsageIsCounted(w: World, question: string, cap: Cap, calls: seq<seq<Message>>, res: PlanResult, i: nat)
    requires Reports(w, question, cap, calls, res) && i < 4
    ensures res.usage[i] == Counted(w, calls, i, |calls|)
  {
    SpentIsCounted(w, question, cap, calls, res, i, |calls|);
  }

  // ---- when the run goes on ----

  /** A denial that the model is asked to mend. */
  predicate Mends(code: DenyCode) {
    code !in {ENotSelect, EMultiStatement, ENulByte, ERoundTripFailed, EInternal}
  }

  /** The model is asked again after a call if and only if it proposed a statement that was denied with a code
      to mend, and the cap leaves a call. */
  lemma AskedAgain(w: World, question: string, cap: Cap, calls: seq<seq<Message>>, res: PlanResult, k: nat)
    requires Reports(w, question, cap, calls, res) && k < |calls|
    ensures k + 1 < |calls| <==>
            && k + 1 < cap.calls && w.model(calls[k]).Completed?
            && var said := WhatIsSaid(w.model(calls[k]).output);
               said.Proposes? && w.guard(said.sql).Denied? && Mends(w.guard(said.sql).code)
  {
    AttemptsRecordReplies(w, question, cap, calls, res, k);
    if k + 1 < |calls| { assert Repaired(w, calls, res.attempts, k); }
  }

  /** And every later call then quotes the statement's reply whole, and the denial with the guard's words. */
  lemma RepliesAreQuoted(w: World, question: string, cap: Cap, calls: seq<seq<Message>>, res: PlanResult,
                         j: nat, k: nat)
    requires Reports(w, question, cap, calls, res) && j < k < |calls|
    ensures |calls[k]| == 2 * k + 1 && calls[k][0] == Message(User, question)
    ensures var reply := w.model(calls[j]);
            && reply.Completed?
            && var said := WhatIsSaid(reply.output);
               && said.Proposes? && w.guard(said.sql).Denied?
               && calls[k][2 * j + 1] == Message(Assistant, w.stringify(reply.output))
               && calls[k][2 * j + 2] == Message(User, w.repairTurn(w.guard(said.sql).code, w.explain(said.sql)))
  {
    EarlierTalkIsKept(w, question, calls, res.attempts, j, k);
    SidesAlternate(w, question, calls, res.attempts, k);
    AskedAgain(w, question, cap, calls, res, j);
    AttemptsRecordReplies(w, question, cap, calls, res, j);
  }

  /** What the result of a run is, from the last reply: a plan for an approved statement, with the guard's own
      text, tables and limit; and otherwise a failure that says which. */
  lemma ResultFollowsLastReply(w: World, question: string, cap: Cap, calls: seq<seq<Message>>, res: PlanResult)
    requires Reports(w, question, cap, calls, res)
    ensures match w.model(calls[|calls| - 1])
            case Threw(kind, message) => FailsWith(res, ModelFailed, None, Thrown(kind, message))
            case Completed(output, _) => Follows(w, cap, WhatIsSaid(output), res)
  {
    AttemptsRecordReplies(w, question, cap, calls, res, |calls| - 1);
  }

  ghost predicate Follows(w: World, cap: Cap, said: Said, res: PlanResult) {
    match said
    case Unreadable(why) => FailsWith(res, InvalidPlan, None, w.say(why))
    case NoAnswer(reason) => FailsWith(res, CannotAnswer, None, reason.GetOr(w.say(NoReasonGiven)))
    case Proposes(sql) => FollowsVerdict(w, cap, sql, w.guard(sql), res)
  }

  ghost predicate FollowsVerdict(w: World, cap: Cap, sql: string, v: Verdict, res: PlanResult) {
    match v
    case Allowed(text, tables, limit) =>
      res.Planned? && res.sql == text && res.tables == tables && res.rowLimit == limit
    case Denied(code) =>
      if Mends(code) && !cap.whole then FailsWith(res, Rejected, None, w.say(RanOutOfAttempts))
      else FailsWith(res, Rejected, Some(code), w.explain(sql))
  }

  function Thrown(kind: Option<string>, message: string): string {
    match kind
    case Some(s) => s + ": " + message
    case None => message
  }

  predicate FailsWith(res: PlanResult, reason: Reason, code: Option<DenyCode>, detail: string) {
    res.Failed? && res.reason == reason && res.code == code && res.detail == detail
  }

  /** The chart proposed with the plan: one of the five kinds, a table for want of one, and its texts where they
      say something. */
  lemma ChartIsProposed(o: Output)
    requires o.PlanObject?
    ensures var c := ReadChart(o);
            && c.kind == (if Filled(o.chartKind) && o.chartKind.value in ["bar", "line", "area", "table", "number"]
                          then o.chartKind.value else "table")
            && c.x == (if Filled(o.chartX) then o.chartX else None) && c.y == o.chartY
            && c.series == (if Filled(o.chartSeries) then o.chartSeries else None)
            && c.title == (if Filled(o.chartTitle) then o.chartTitle else None)
  {
    FilledIsText(o.chartKind);
    FilledIsText(o.chartX);
    FilledIsText(o.chartSeries);
    FilledIsText(o.chartTitle);
  }
}
