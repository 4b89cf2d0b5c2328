/** packages/eval/src/runner.ts: the corpus runner. */
module Runner {
  import opened Schema
  import opened Numbers

  // Cases are run by several workers that share a cursor, a running total and an abort flag. A worker
  // runs without interruption from one await to the next, so a schedule is a sequence of launches and of
  // settled cases.

  datatype Status = Pass | Fail | InfraError | SkippedCap

  datatype Case = Case(id: string, tier: string)

  datatype CaseOutcome = CaseOutcome(passed: bool, sql: string, costUsd: real, detail: Option<string>)

  datatype CaseResult = CaseResult(
    id: string,
    tier: string,
    status: Status,
    sql: Option<string>,
    costUsd: Option<real>,
    detail: Option<string>)

  // ---- one case: runCase ----

  /** What calling the case under test does: it settles with an outcome or it throws. */
  datatype Attempt = Returned(outcome: CaseOutcome) | Threw(transient: bool, message: string)

  function Reported(input: Case, o: CaseOutcome): CaseResult {
    CaseResult(input.id, input.tier, if o.passed then Pass else Fail, Some(o.sql), Some(o.costUsd), o.detail)
  }

  function Broken(input: Case, message: string): CaseResult {
    CaseResult(input.id, input.tier, InfraError, None, None, Some(message))
  }

  function Backoff(attempt: nat): nat {
    if attempt == 0 then 300 else 2 * Backoff(attempt - 1)
  }

  /** Attempt n is the last one: it returned, or it threw something that is not worth a retry. */
  predicate Decides(a: Attempt) {
    a.Returned? || !a.transient
  }

  method RunCase(input: Case, run: nat -> Attempt, maxAttempts: int)
      returns (result: CaseResult, calls: nat, sleeps: seq<int>)
    ensures calls <= if maxAttempts < 0 then 0 else maxAttempts
    // every attempt before the last threw a transient error, and the last is the last for a reason
    ensures forall n | 1 <= n < calls :: !Decides(run(n))
    ensures maxAttempts >= 1 ==> calls >= 1 && (calls == maxAttempts || Decides(run(calls)))
    ensures calls == 0 ==> result == CaseResult(input.id, input.tier, InfraError, None, None, Some("undefined"))
    ensures |sleeps| == if calls == 0 then 0 else calls - 1
    ensures |sleeps| > 0 ==> sleeps[0] == 600
    ensures forall n | 0 <= n < |sleeps| - 1 :: sleeps[n + 1] == 2 * sleeps[n]
    // what is reported is what the deciding attempt said
    ensures calls >= 1 && run(calls).Returned? ==>
              var o := run(calls).outcome;
              && (result.status == Pass <==> o.passed) && (result.status == Fail <==> !o.passed)
              && result.costUsd == Some(o.costUsd) && result.sql == Some(o.sql) && result.detail == o.detail
    ensures calls >= 1 && run(calls).Threw? ==>
              && result.status == InfraError && result.costUsd == None && result.sql == None
              && result.detail == Some(run(calls).message)
    // a cap skip is never the runner's verdict on a case that ran
    ensures result.status != SkippedCap && result.id == input.id && result.tier == input.tier
  {
    calls, sleeps := 0, [];
    var last := "undefined";
    while calls < maxAttempts
      invariant calls <= if maxAttempts < 0 then 0 else maxAttempts
      invariant forall n | 1 <= n <= calls :: !Decides(run(n))
      invariant calls >= 1 ==> calls < maxAttempts
      invariant calls == 0 ==> last == "undefined"
      invariant |sleeps| == calls
      invariant |sleeps| > 0 ==> sleeps[0] == 600 && sleeps[|sleeps| - 1] == Backoff(calls)
      invariant forall n | 0 <= n < |sleeps| - 1 :: sleeps[n + 1] == 2 * sleeps[n]
    {
      calls := calls + 1;
      match run(calls)
      case Returned(o) => return Reported(input, o), calls, sleeps;
      case Threw(transient, message) =>
        last := message;
        if !transient || calls == maxAttempts { break; }
        sleeps := sleeps + [Backoff(calls)];
    }
    result := Broken(input, last);
  }

  // ---- the corpus: one state, one function per uninterrupted stretch of a worker ----

  datatype Worker = Ready | Running(index: nat) | Finished

  /** `started` records, in order, the cases that were actually run. */
  datatype State = State(
    cursor: nat,
    spent: real,
    aborted: bool,
    results: seq<Option<CaseResult>>,
    workers: seq<Worker>,
    started: seq<int>)

  function Skipped(input: Case): CaseResult {
    CaseResult(input.id, input.tier, SkippedCap, None, None, None)
  }

  function Initial(cases: seq<Case>, concurrency: int): State {
    var wanted := if concurrency < 1 then 1 else concurrency;
    var n := if wanted <= |cases| then wanted else |cases|;
    State(0, 0.0, false, seq(|cases|, i => None), seq(n, i => Ready), [])
  }

  function Finish(s: State, w: nat): State
    requires w < |s.workers|
  {
    s.(cursor := s.cursor + 1, workers := s.workers[w := Finished])
  }

  function SkipNext(s: State, input: Case): State
    requires s.cursor < |s.results|
  {
    s.(cursor := s.cursor + 1, results := s.results[s.cursor := Some(Skipped(input))])
  }

  function StartNext(s: State, w: nat): State
    requires w < |s.workers|
  {
    s.(cursor := s.cursor + 1, workers := s.workers[w := Running(s.cursor)], started := s.started + [s.cursor])
  }

  /** Worker w from the top of its loop to its next await, or to its end. */
  function Turn(s: State, cases: seq<Case>, w: nat): (t: State)
    requires w < |s.workers| && |s.results| == |cases|
    ensures |t.workers| == |s.workers| && |t.results| == |cases|
    decreases |cases| - s.cursor
  {
    if s.cursor >= |cases| then Finish(s, w)
    else if s.aborted then Turn(SkipNext(s, cases[s.cursor]), cases, w)
    else StartNext(s, w)
  }

  /** The bookkeeping between a case settling and the worker's next trip round its loop. */
  function Record(s: State, cap: Option<real>, w: nat, result: CaseResult): State
    requires w < |s.workers| && s.workers[w].Running? && s.workers[w].index < |s.results|
  {
    var spent := s.spent + result.costUsd.GetOr(0.0);
    s.(results := s.results[s.workers[w].index := Some(result)],
       spent := spent,
       aborted := s.aborted || (cap.Some? && spent >= cap.value),
       workers := s.workers[w := Ready])
  }

  datatype Step = Launch(w: nat) | Settle(w: nat, result: CaseResult)

  predicate Enabled(s: State, cases: seq<Case>, step: Step) {
    && step.w < |s.workers|
    && |s.results| == |cases|
    && match step
       case Launch(w) => s.workers[w].Ready?
       case Settle(w, r) =>
         && s.workers[w].Running? && s.workers[w].index < |cases|
         && r.status != SkippedCap
         && r.id == cases[s.workers[w].index].id
  }

  function Apply(s: State, cases: seq<Case>, cap: Option<real>, step: Step): State
    requires Enabled(s, cases, step)
  {
    match step
    case Launch(w) => Turn(s, cases, w)
    case Settle(w, r) => Turn(Record(s, cap, w, r), cases, w)
  }

  /** The steps are a possible schedule from s, and they end in t. */
  ghost predicate Runs(s: State, cases: seq<Case>, cap: Option<real>, steps: seq<Step>, t: State)
    decreases |steps|
  {
    if steps == [] then s == t
    else Enabled(s, cases, steps[0]) && Runs(Apply(s, cases, cap, steps[0]), cases, cap, steps[1..], t)
  }

  // ---- the object the workers share ----

  class Corpus {
    const cases: seq<Case>
    const cap: Option<real>
    const results: array<Option<CaseResult>>
    var cursor: nat
    var spent: real
    var aborted: bool
    var workers: seq<Worker>
    var started: seq<int>

    ghost predicate Valid()
      reads this, results
    {
      results.Length == |cases|
    }

    ghost function Model(): State
      reads this, results
    {
      State(cursor, spent, aborted, results[..], workers, started)
    }

    constructor (cases: seq<Case>, cap: Option<real>, concurrency: int)
      ensures Valid() && fresh(results) && this.cases == cases && this.cap == cap
      ensures Model() == Initial(cases, concurrency)
    {
      this.cases, this.cap := cases, cap;
      results := new Option<CaseResult>[|cases|](i => None);
      cursor, spent, aborted, started := 0, 0.0, false, [];
      var wanted := if concurrency < 1 then 1 else concurrency;
      workers := seq(if wanted <= |cases| then wanted else |cases|, i => Ready);
      new;
      assert results[..] == seq(|cases|, i => None);
    }

    method Loop(w: nat)
      requires Valid() && w < |workers|
      modifies this, results
      ensures Valid()
      ensures Model() == Turn(old(Model()), cases, w)
    {
      while true
        invariant Valid() && w < |workers|
        invariant Turn(Model(), cases, w) == Turn(old(Model()), cases, w)
        decreases |cases| - cursor
      {
        ghost var before := Model();
        var index := cursor;
        cursor := cursor + 1;
        if index >= |cases| {
          workers := workers[w := Finished];
          return;
        }
        if aborted {
          results[index] := Some(Skipped(cases[index]));
          assert Model() == SkipNext(before, cases[index]);
          continue;
        }
        workers, started := workers[w := Running(index)], started + [index];
        return;
      }
    }

    method OnSettled(w: nat, result: CaseResult)
      requires Valid() && Enabled(Model(), cases, Settle(w, result))
      modifies this, results
      ensures Valid()
      ensures Model() == Apply(old(Model()), cases, cap, Settle(w, result))
    {
      var index := workers[w].index;
      results[index] := Some(result);
      spent := spent + result.costUsd.GetOr(0.0);
      if cap.Some? && spent >= cap.value { aborted := true; }
      workers := workers[w := Ready];
      assert Model() == Record(old(Model()), cap, w, result);
      Loop(w);
    }
  }

  // ---- what every schedule keeps ----

  ghost predicate Settled(s: State, i: int) {
    0 <= i < |s.results| && s.results[i].Some?
  }

  ghost predicate Claimant(s: State, w: int, i: int) {
    0 <= w < |s.workers| && s.workers[w].Running? && s.workers[w].index == i
  }

  function TotalCost(results: seq<Option<CaseResult>>): real {
    if results == [] then 0.0
    else TotalCost(results[..|results| - 1]) + match results[|results| - 1]
                                               case Some(r) => if r.costUsd.Some? then r.costUsd.value else 0.0
                                               case None => 0.0
  }

  /** Each claimed case is in exactly one place: settled, or in the hands of exactly one worker. */
  ghost predicate Claims(s: State, cases: seq<Case>) {
    && |s.results| == |cases|
    && (forall i | 0 <= i < |cases| :: s.cursor <= i ==> !Settled(s, i))
    && (forall w, i | Claimant(s, w, i) :: i < s.cursor && i < |cases| && !Settled(s, i))
    && (forall w, v, i | Claimant(s, w, i) && Claimant(s, v, i) :: w == v)
    && (forall i | 0 <= i < |cases| && i < s.cursor :: Settled(s, i) || exists w :: Claimant(s, w, i))
  }

  /** A result is at the index of its own case, and it is a skip exactly when the case never ran. */
  ghost predicate Placed(s: State, cases: seq<Case>) {
    && |s.results| == |cases|
    && (forall i | Settled(s, i) :: s.results[i].value.id == cases[i].id)
    && (forall i | Settled(s, i) :: s.results[i].value.status == SkippedCap <==> i !in s.started)
    && (forall i | Settled(s, i) && i !in s.started :: s.results[i].value == Skipped(cases[i]))
    && (forall w, i | Claimant(s, w, i) :: i in s.started)
  }

  /** Cases start in order, each once. */
  ghost predicate StartsOnce(s: State) {
    && (forall a, b | 0 <= a < b < |s.started| :: s.started[a] < s.started[b])
    && (forall a | 0 <= a < |s.started| :: 0 <= s.started[a] < s.cursor)
  }

  ghost predicate Inv(s: State, cases: seq<Case>) {
    && Claims(s, cases)
    && Placed(s, cases)
    && StartsOnce(s)
    && s.spent == TotalCost(s.results)
    && (forall w | 0 <= w < |s.workers| && s.workers[w].Finished? :: |cases| <= s.cursor)
  }

  lemma {:induction false} TotalCostUpdate(results: seq<Option<CaseResult>>, i: nat, r: CaseResult)
    requires i < |results| && results[i].None?
    ensures TotalCost(results[i := Some(r)]) == TotalCost(results) + r.costUsd.GetOr(0.0)
  {
    var n := |results| - 1;
    if i < n {
      TotalCostUpdate(results[..n], i, r);
      assert results[i := Some(r)][..n] == results[..n][i := Some(r)];
    } else {
      assert results[i := Some(r)][..n] == results[..n];
    }
  }

  lemma FinishKeeps(s: State, cases: seq<Case>, w: nat)
    requires Inv(s, cases) && w < |s.workers| && s.workers[w].Ready? && s.cursor >= |cases|
    ensures Inv(Finish(s, w), cases)
  {
    var u := Finish(s, w);
    assert forall v, i :: Claimant(u, v, i) <==> Claimant(s, v, i);
    assert forall i :: Settled(u, i) <==> Settled(s, i);
  }

  lemma SkipKeeps(s: State, cases: seq<Case>)
    requires Inv(s, cases) && s.cursor < |cases|
    ensures Inv(SkipNext(s, cases[s.cursor]), cases)
  {
    var index := s.cursor;
    var u := SkipNext(s, cases[index]);
    assert !Settled(s, index);
    TotalCostUpdate(s.results, index, Skipped(cases[index]));
    assert forall v, i :: Claimant(u, v, i) <==> Claimant(s, v, i);
    assert forall i :: Settled(u, i) <==> Settled(s, i) || i == index;
    assert index !in s.started;
  }

  lemma StartClaims(s: State, cases: seq<Case>, w: nat)
    requires Inv(s, cases) && w < |s.workers| && s.workers[w].Ready? && s.cursor < |cases|
    ensures Claims(StartNext(s, w), cases)
  {
    var u := StartNext(s, w);
    assert !Settled(s, s.cursor);
    assert forall i :: Settled(u, i) <==> Settled(s, i);
    assert forall v, i :: Claimant(u, v, i) <==> Claimant(s, v, i) || (v == w && i == s.cursor);
    assert Claimant(u, w, s.cursor);
  }

  lemma StartPlaces(s: State, cases: seq<Case>, w: nat)
    requires Inv(s, cases) && w < |s.workers| && s.workers[w].Ready? && s.cursor < |cases|
    ensures Placed(StartNext(s, w), cases) && StartsOnce(StartNext(s, w))
  {
    var u := StartNext(s, w);
    assert !Settled(s, s.cursor) && s.cursor !in s.started;
    assert forall i :: Settled(u, i) <==> Settled(s, i);
    assert forall i :: i in u.started <==> i in s.started || i == s.cursor;
    assert forall v, i :: Claimant(u, v, i) ==> Claimant(s, v, i) || i == s.cursor;
  }

  lemma StartKeeps(s: State, cases: seq<Case>, w: nat)
    requires Inv(s, cases) && w < |s.workers| && s.workers[w].Ready? && s.cursor < |cases|
    ensures Inv(StartNext(s, w), cases)
  {
    StartClaims(s, cases, w);
    StartPlaces(s, cases, w);
  }

  lemma {:induction false} TurnKeeps(s: State, cases: seq<Case>, w: nat)
    requires Inv(s, cases) && w < |s.workers| && s.workers[w].Ready?
    ensures Inv(Turn(s, cases, w), cases)
    decreases |cases| - s.cursor
  {
    var index := s.cursor;
    if index >= |cases| {
      FinishKeeps(s, cases, w);
    } else if s.aborted {
      SkipKeeps(s, cases);
      TurnKeeps(SkipNext(s, cases[index]), cases, w);
    } else {
      StartKeeps(s, cases, w);
    }
  }

  lemma RecordKeeps(s: State, cases: seq<Case>, cap: Option<real>, w: nat, r: CaseResult)
    requires Inv(s, cases) && Enabled(s, cases, Settle(w, r))
    ensures Inv(Record(s, cap, w, r), cases)
  {
    var index := s.workers[w].index;
    var u := Record(s, cap, w, r);
    assert Claimant(s, w, index);
    TotalCostUpdate(s.results, index, r);
    assert forall v, i :: Claimant(u, v, i) <==> Claimant(s, v, i) && v != w;
    assert forall i :: Settled(u, i) <==> Settled(s, i) || i == index;
    forall i | 0 <= i < |cases| && i < u.cursor ensures Settled(u, i) || exists v :: Claimant(u, v, i) {
      if !Settled(s, i) && i != index {
        var v :| Claimant(s, v, i);
        assert Claimant(u, v, i);
      }
    }
  }

  lemma InitialHolds(cases: seq<Case>, concurrency: int)
    ensures Inv(Initial(cases, concurrency), cases)
  {
    NothingSpent(Initial(cases, concurrency).results);
  }

  lemma {:induction false} NothingSpent(results: seq<Option<CaseResult>>)
    requires forall i | 0 <= i < |results| :: results[i].None?
    ensures TotalCost(results) == 0.0
  {
    if results != [] { NothingSpent(results[..|results| - 1]); }
  }

  lemma {:induction false} EveryScheduleKeeps(s: State, cases: seq<Case>, cap: Option<real>, steps: seq<Step>, t: State)
    requires Inv(s, cases) && Runs(s, cases, cap, steps, t)
    ensures Inv(t, cases) && |t.workers| == |s.workers|
    decreases |steps|
  {
    if steps != [] {
      StepKeeps(s, cases, cap, steps[0]);
      EveryScheduleKeeps(Apply(s, cases, cap, steps[0]), cases, cap, steps[1..], t);
    }
  }

  lemma StepKeeps(s: State, cases: seq<Case>, cap: Option<real>, step: Step)
    requires Inv(s, cases) && Enabled(s, cases, step)
    ensures Inv(Apply(s, cases, cap, step), cases)
  {
    match step {
      case Launch(w) => TurnKeeps(s, cases, w);
      case Settle(w, r) =>
        RecordKeeps(s, cases, cap, w, r);
        TurnKeeps(Record(s, cap, w, r), cases, w);
    }
  }

  ghost predicate Over(s: State) {
    forall w | 0 <= w < |s.workers| :: s.workers[w].Finished?
  }

  /** When the workers are done every case has its own result, each case ran at most once, the
      total is the sum of the reported costs, and the skipped cases are exactly those that never ran: none, unless
      the run was aborted. */
  lemma FinishedRun(cases: seq<Case>, cap: Option<real>, concurrency: int, steps: seq<Step>, t: State)
    requires Runs(Initial(cases, concurrency), cases, cap, steps, t) && Over(t)
    ensures |t.results| == |cases|
    ensures forall i | 0 <= i < |cases| :: t.results[i].Some? && t.results[i].value.id == cases[i].id
    ensures forall i | 0 <= i < |cases| :: t.results[i].value.status == SkippedCap <==> i !in t.started
    ensures forall a, b | 0 <= a < b < |t.started| :: t.started[a] < t.started[b]
    ensures t.spent == TotalCost(t.results)
    ensures !t.aborted ==> forall i | 0 <= i < |cases| :: i in t.started
  {
    NoAbortNoSkip(Initial(cases, concurrency), cases, cap, steps, t);
    InitialHolds(cases, concurrency);
    EveryScheduleKeeps(Initial(cases, concurrency), cases, cap, steps, t);
    forall i | 0 <= i < |cases| ensures Settled(t, i) {
      assert t.workers[0].Finished?;
      assert forall w :: !Claimant(t, w, i);
    }
    FinishedStarts(cases, t);
  }

  lemma FinishedStarts(cases: seq<Case>, t: State)
    requires Inv(t, cases) && SkipsOnlyAfterAbort(t) && forall i | 0 <= i < |cases| :: Settled(t, i)
    ensures !t.aborted ==> forall i | 0 <= i < |cases| :: i in t.started
    ensures forall i | 0 <= i < |cases| :: t.results[i].Some? && t.results[i].value.id == cases[i].id
    ensures forall i | 0 <= i < |cases| :: t.results[i].value.status == SkippedCap <==> i !in t.started
  {
    forall i | 0 <= i < |cases|
      ensures t.results[i].Some? && t.results[i].value.id == cases[i].id
      ensures t.results[i].value.status == SkippedCap <==> i !in t.started
      ensures !t.aborted ==> i in t.started
    {
      assert Settled(t, i);
    }
  }

  // ---- which result a case gets ----

  /** What was reported for case i: the result with which the worker that holds it settles. */
  function Delivered(s: State, cases: seq<Case>, cap: Option<real>, steps: seq<Step>, i: nat): Option<CaseResult>
    decreases |steps|
  {
    if steps == [] || !Enabled(s, cases, steps[0]) then None
    else if steps[0].Settle? && s.workers[steps[0].w] == Running(i) then Some(steps[0].result)
    else Delivered(Apply(s, cases, cap, steps[0]), cases, cap, steps[1..], i)
  }

  /** A turn leaves recorded results alone, and what it adds are skips. */
  lemma {:induction false} TurnOnlySkips(s: State, cases: seq<Case>, w: nat, i: nat)
    requires w < |s.workers| && |s.results| == |cases| && i < |cases|
    requires forall j | s.cursor <= j < |cases| :: s.results[j].None?
    ensures var r := Turn(s, cases, w).results[i];
            r == s.results[i] || (s.results[i].None? && r == Some(Skipped(cases[i])))
    decreases |cases| - s.cursor
  {
    if s.cursor < |cases| && s.aborted { TurnOnlySkips(SkipNext(s, cases[s.cursor]), cases, w, i); }
  }

  /** A step records the result it settles with where its worker's case is, and otherwise adds only skips. */
  lemma StepDelivers(s: State, cases: seq<Case>, cap: Option<real>, step: Step, i: nat)
    requires Inv(s, cases) && Enabled(s, cases, step) && i < |cases|
    ensures var r := Apply(s, cases, cap, step).results[i];
            if step.Settle? && s.workers[step.w] == Running(i) then r == Some(step.result)
            else r == s.results[i] || (s.results[i].None? && r == Some(Skipped(cases[i])))
  {
    Unsettled(s, cases);
    match step {
      case Launch(w) => TurnOnlySkips(s, cases, w, i);
      case Settle(w, r) =>
        RecordKeeps(s, cases, cap, w, r);
        Unsettled(Record(s, cap, w, r), cases);
        TurnOnlySkips(Record(s, cap, w, r), cases, w, i);
    }
  }

  lemma Unsettled(s: State, cases: seq<Case>)
    requires Inv(s, cases)
    ensures forall j | s.cursor <= j < |cases| :: s.results[j].None?
  {
    forall j | s.cursor <= j < |cases| ensures s.results[j].None? { assert !Settled(s, j); }
  }

  lemma NoneHolds(s: State, cases: seq<Case>, w: nat, i: nat)
    requires Inv(s, cases) && Settled(s, i) && w < |s.workers|
    ensures s.workers[w] != Running(i)
  {
    if s.workers[w] == Running(i) { assert Claimant(s, w, i); }
  }

  /** A recorded result stays, and nothing more is delivered for its case. */
  lemma {:induction false} RecordedStays(s: State, cases: seq<Case>, cap: Option<real>, steps: seq<Step>, t: State,
                                         i: nat)
    requires Inv(s, cases) && Runs(s, cases, cap, steps, t) && i < |cases| && s.results[i].Some?
    ensures |t.results| == |cases| && t.results[i] == s.results[i] && Delivered(s, cases, cap, steps, i) == None
    decreases |steps|
  {
    if steps != [] {
      NoneHolds(s, cases, steps[0].w, i);
      StepDelivers(s, cases, cap, steps[0], i);
      StepKeeps(s, cases, cap, steps[0]);
      RecordedStays(Apply(s, cases, cap, steps[0]), cases, cap, steps[1..], t, i);
    }
  }

  lemma {:induction false} EachGetsItsOwn(s: State, cases: seq<Case>, cap: Option<real>, steps: seq<Step>, t: State,
                                          i: nat)
    requires Inv(s, cases) && Runs(s, cases, cap, steps, t) && i < |cases| && s.results[i].None?
    ensures |t.results| == |cases|
    ensures t.results[i].Some? ==>
              t.results[i].value == Delivered(s, cases, cap, steps, i).GetOr(Skipped(cases[i]))
    decreases |steps|
  {
    if steps != [] {
      var u := Apply(s, cases, cap, steps[0]);
      StepDelivers(s, cases, cap, steps[0], i);
      StepKeeps(s, cases, cap, steps[0]);
      if u.results[i].None? {
        EachGetsItsOwn(u, cases, cap, steps[1..], t, i);
      } else {
        RecordedStays(u, cases, cap, steps[1..], t, i);
      }
    }
  }

  /** In a finished run the result of each case, even where cases share an id, is the one that was reported for
      it, and the skip if none was. */
  lemma ResultsAreDelivered(cases: seq<Case>, cap: Option<real>, concurrency: int, steps: seq<Step>, t: State, i: nat)
    requires Runs(Initial(cases, concurrency), cases, cap, steps, t) && Over(t) && i < |cases|
    ensures |t.results| == |cases|
    ensures t.results[i] == Some(Delivered(Initial(cases, concurrency), cases, cap, steps, i).GetOr(Skipped(cases[i])))
  {
    InitialHolds(cases, concurrency);
    FinishedRun(cases, cap, concurrency, steps, t);
    EachGetsItsOwn(Initial(cases, concurrency), cases, cap, steps, t, i);
  }

  // ---- every run finishes ----

  function ReadyWorkers(workers: seq<Worker>): nat {
    if workers == [] then 0 else ReadyWorkers(workers[..|workers| - 1]) + if workers[|workers| - 1].Ready? then 1 else 0
  }

  function OpenCases(results: seq<Option<CaseResult>>): nat {
    if results == [] then 0 else OpenCases(results[..|results| - 1]) + if results[|results| - 1].None? then 1 else 0
  }

  lemma {:induction false} ReadyUpdate(workers: seq<Worker>, w: nat, x: Worker)
    requires w < |workers|
    ensures ReadyWorkers(workers[w := x]) ==
            ReadyWorkers(workers) - (if workers[w].Ready? then 1 else 0) + (if x.Ready? then 1 else 0)
  {
    var n := |workers| - 1;
    if w < n {
      assert workers[w := x][..n] == workers[..n][w := x];
      ReadyUpdate(workers[..n], w, x);
    } else {
      assert workers[w := x][..n] == workers[..n];
    }
  }

  lemma {:induction false} OpenUpdate(results: seq<Option<CaseResult>>, i: nat, r: CaseResult)
    requires i < |results|
    ensures OpenCases(results[i := Some(r)]) == OpenCases(results) - (if results[i].None? then 1 else 0)
  {
    var n := |results| - 1;
    if i < n {
      assert results[i := Some(r)][..n] == results[..n][i := Some(r)];
      OpenUpdate(results[..n], i, r);
    } else {
      assert results[i := Some(r)][..n] == results[..n];
    }
  }

  /** What there is still to do: workers to launch and cases to record. */
  function Todo(s: State): nat {
    ReadyWorkers(s.workers) + OpenCases(s.results)
  }

  lemma {:induction false} TurnDoesSome(s: State, cases: seq<Case>, w: nat)
    requires w < |s.workers| && |s.results| == |cases| && s.workers[w].Ready?
    ensures Todo(Turn(s, cases, w)) < Todo(s)
    decreases |cases| - s.cursor
  {
    if s.cursor >= |cases| {
      ReadyUpdate(s.workers, w, Finished);
    } else if s.aborted {
      OpenUpdate(s.results, s.cursor, Skipped(cases[s.cursor]));
      TurnDoesSome(SkipNext(s, cases[s.cursor]), cases, w);
    } else {
      ReadyUpdate(s.workers, w, Running(s.cursor));
    }
  }

  lemma StepDoesSome(s: State, cases: seq<Case>, cap: Option<real>, step: Step)
    requires Inv(s, cases) && Enabled(s, cases, step)
    ensures Todo(Apply(s, cases, cap, step)) < Todo(s)
  {
    match step {
      case Launch(w) => TurnDoesSome(s, cases, w);
      case Settle(w, r) =>
        assert Claimant(s, w, s.workers[w].index);
        OpenUpdate(s.results, s.workers[w].index, r);
        ReadyUpdate(s.workers, w, Ready);
        TurnDoesSome(Record(s, cap, w, r), cases, w);
    }
  }

  /** No schedule goes on for more steps than there are workers to launch and cases to record. */
  lemma {:induction false} SchedulesAreFinite(s: State, cases: seq<Case>, cap: Option<real>, steps: seq<Step>, t: State)
    requires Inv(s, cases) && Runs(s, cases, cap, steps, t)
    ensures |steps| + Todo(t) <= Todo(s)
    decreases |steps|
  {
    if steps != [] {
      StepDoesSome(s, cases, cap, steps[0]);
      StepKeeps(s, cases, cap, steps[0]);
      SchedulesAreFinite(Apply(s, cases, cap, steps[0]), cases, cap, steps[1..], t);
    }
  }

  /** Until the run is over some step can be taken: a launch, or a case under way settling, in whichever way. */
  lemma SomeStepIsEnabled(s: State, cases: seq<Case>, result: Case -> CaseResult) returns (step: Step)
    requires Inv(s, cases) && !Over(s)
    requires forall c :: result(c).id == c.id && result(c).status != SkippedCap
    ensures Enabled(s, cases, step)
    ensures step.Settle? ==> exists c | c in cases :: step.result == result(c)
  {
    var w :| 0 <= w < |s.workers| && !s.workers[w].Finished?;
    if s.workers[w].Ready? {
      step := Launch(w);
    } else {
      var i := s.workers[w].index;
      assert Claimant(s, w, i);
      step := Settle(w, result(cases[i]));
    }
  }

  // ---- after the abort ----

  lemma {:induction false} TurnAfterAbort(s: State, cases: seq<Case>, w: nat)
    requires w < |s.workers| && |s.results| == |cases|
    ensures Turn(s, cases, w).aborted == s.aborted && Turn(s, cases, w).spent == s.spent
    ensures s.aborted ==> Turn(s, cases, w).started == s.started
    decreases |cases| - s.cursor
  {
    if s.cursor < |cases| && s.aborted {
      TurnAfterAbort(SkipNext(s, cases[s.cursor]), cases, w);
    }
  }

  /** The abort is final and no case starts after it. */
  lemma {:induction false} NothingStartsAfterAbort(s: State, cases: seq<Case>, cap: Option<real>, steps: seq<Step>,
                                                   t: State)
    requires s.aborted && Runs(s, cases, cap, steps, t)
    ensures t.aborted && t.started == s.started
    decreases |steps|
  {
    if steps != [] {
      match steps[0] {
        case Launch(w) => TurnAfterAbort(s, cases, w);
        case Settle(w, r) => TurnAfterAbort(Record(s, cap, w, r), cases, w);
      }
      NothingStartsAfterAbort(Apply(s, cases, cap, steps[0]), cases, cap, steps[1..], t);
    }
  }

  ghost predicate SkipsOnlyAfterAbort(s: State) {
    s.aborted || forall i | Settled(s, i) :: s.results[i].value.status != SkippedCap
  }

  lemma {:induction false} TurnSkipsOnlyAfterAbort(s: State, cases: seq<Case>, w: nat)
    requires w < |s.workers| && |s.results| == |cases| && SkipsOnlyAfterAbort(s)
    ensures SkipsOnlyAfterAbort(Turn(s, cases, w))
    decreases |cases| - s.cursor
  {
    if s.aborted {
      TurnAfterAbort(s, cases, w);
    } else {
      assert forall i :: Settled(Turn(s, cases, w), i) ==> Settled(s, i);
    }
  }

  /** As long as there is no abort no case is skipped: in a finished run every case ran. */
  lemma {:induction false} NoAbortNoSkip(s: State, cases: seq<Case>, cap: Option<real>, steps: seq<Step>, t: State)
    requires SkipsOnlyAfterAbort(s) && Runs(s, cases, cap, steps, t)
    ensures SkipsOnlyAfterAbort(t)
    decreases |steps|
  {
    if steps != [] {
      match steps[0] {
        case Launch(w) => TurnSkipsOnlyAfterAbort(s, cases, w);
        case Settle(w, r) =>
          assert forall i :: Settled(Record(s, cap, w, r), i) ==> Settled(s, i) || i == s.workers[w].index;
          TurnSkipsOnlyAfterAbort(Record(s, cap, w, r), cases, w);
      }
      NoAbortNoSkip(Apply(s, cases, cap, steps[0]), cases, cap, steps[1..], t);
    }
  }

  // ---- the total ----

  /** The running sums of what the settled results of a schedule report; those that report nothing add nothing. */
  ghost predicate SumsUp(steps: seq<Step>, sums: seq<real>) {
    && |sums| == |steps| + 1
    && forall k | 0 <= k < |steps| :: Adds(steps[k], sums[k], sums[k + 1])
  }

  ghost predicate Adds(step: Step, before: real, after: real) {
    after == if step.Settle? && step.result.costUsd.Some? then before + step.result.costUsd.value else before
  }

  /** Some case settled with the sum at the cap or past it. */
  ghost predicate CapReached(cap: Option<real>, steps: seq<Step>, sums: seq<real>)
    requires |sums| == |steps| + 1
  {
    exists k | 0 <= k < |steps| :: steps[k].Settle? && cap.Some? && sums[k + 1] >= cap.value
  }

  lemma ApplyCharges(s: State, cases: seq<Case>, cap: Option<real>, step: Step)
    requires Enabled(s, cases, step)
    ensures var u := Apply(s, cases, cap, step);
            && Adds(step, s.spent, u.spent)
            && (u.aborted <==> s.aborted || (step.Settle? && cap.Some? && u.spent >= cap.value))
  {
    match step
    case Launch(w) => TurnAfterAbort(s, cases, w);
    case Settle(w, r) => TurnAfterAbort(Record(s, cap, w, r), cases, w);
  }

  /** After any schedule the total is what its settled results said they cost, and the run is aborted if and
      only if that sum had reached the cap once some case had settled. */
  lemma {:induction false} TotalSumsUp(s: State, cases: seq<Case>, cap: Option<real>, steps: seq<Step>, t: State)
      returns (sums: seq<real>)
    requires Runs(s, cases, cap, steps, t)
    ensures SumsUp(steps, sums) && sums[0] == s.spent && t.spent == sums[|steps|]
    ensures t.aborted <==> s.aborted || CapReached(cap, steps, sums)
    decreases |steps|
  {
    if steps == [] { return [s.spent]; }
    var u := Apply(s, cases, cap, steps[0]);
    ApplyCharges(s, cases, cap, steps[0]);
    var rest := TotalSumsUp(u, cases, cap, steps[1..], t);
    sums := [s.spent] + rest;
    forall k | 0 <= k < |steps| ensures Adds(steps[k], sums[k], sums[k + 1]) {
      if k > 0 { assert Adds(steps[1..][k - 1], rest[k - 1], rest[k]); }
    }
    ReachedFirstOrLater(cap, steps, sums);
  }

  lemma ReachedFirstOrLater(cap: Option<real>, steps: seq<Step>, sums: seq<real>)
    requires steps != [] && |sums| == |steps| + 1
    ensures CapReached(cap, steps, sums) <==>
            (steps[0].Settle? && cap.Some? && sums[1] >= cap.value) || CapReached(cap, steps[1..], sums[1..])
  {
    if k :| 0 <= k < |steps[1..]| && steps[1..][k].Settle? && cap.Some? && sums[1..][k + 1] >= cap.value {
      var next := k + 1;
      assert steps[next].Settle? && sums[next + 1] >= cap.value;
    }
    if k :| 0 <= k < |steps| && steps[k].Settle? && cap.Some? && sums[k + 1] >= cap.value {
      if k > 0 { assert steps[1..][k - 1].Settle? && sums[1..][k - 1 + 1] >= cap.value; }
    }
  }

  /** There is only one way to add up. */
  lemma {:induction false} SumsAgree(steps: seq<Step>, a: seq<real>, b: seq<real>, k: nat)
    requires SumsUp(steps, a) && SumsUp(steps, b) && a[0] == b[0] && k <= |steps|
    ensures a[k] == b[k]
  {
    if k > 0 {
      SumsAgree(steps, a, b, k - 1);
      assert Adds(steps[k - 1], a[k - 1], a[k - 1 + 1]) && Adds(steps[k - 1], b[k - 1], b[k - 1 + 1]);
    }
  }

  lemma SumsUnique(steps: seq<Step>, a: seq<real>, b: seq<real>)
    requires SumsUp(steps, a) && SumsUp(steps, b) && a[0] == b[0]
    ensures a == b
  {
    forall k | 0 <= k < |a| ensures a[k] == b[k] {
      SumsAgree(steps, a, b, k);
    }
  }

  /** Of a whole run: its total, and whether it stopped for the cap. */
  lemma RunTotal(cases: seq<Case>, cap: Option<real>, concurrency: int, steps: seq<Step>, sums: seq<real>, t: State)
    requires Runs(Initial(cases, concurrency), cases, cap, steps, t)
    requires SumsUp(steps, sums) && sums[0] == 0.0
    ensures t.spent == sums[|steps|] && (t.aborted <==> CapReached(cap, steps, sums))
  {
    var mine := TotalSumsUp(Initial(cases, concurrency), cases, cap, steps, t);
    SumsUnique(steps, mine, sums);
  }

  lemma WorkersLaunched(cases: seq<Case>, cap: Option<real>, concurrency: int, steps: seq<Step>, t: State)
    requires Runs(Initial(cases, concurrency), cases, cap, steps, t)
    ensures |t.workers| <= |cases| && |t.workers| <= concurrency + AtLeastZero(1 - concurrency)
    ensures |t.workers| == |cases| || |t.workers| == concurrency || (concurrency < 1 && |t.workers| == 1)
  {
    InitialHolds(cases, concurrency);
    EveryScheduleKeeps(Initial(cases, concurrency), cases, cap, steps, t);
  }

  // ---- the cap ----

  function InHand(workers: seq<Worker>): nat {
    if workers == [] then 0
    else InHand(workers[..|workers| - 1]) + if workers[|workers| - 1].Running? then 1 else 0
  }

  lemma {:induction false} InHandUpdate(workers: seq<Worker>, w: nat, x: Worker)
    requires w < |workers|
    ensures InHand(workers[w := x]) ==
            InHand(workers) - (if workers[w].Running? then 1 else 0) + (if x.Running? then 1 else 0)
    ensures InHand(workers) <= |workers|
  {
    var n := |workers| - 1;
    InHandBounded(workers);
    if w < n {
      InHandUpdate(workers[..n], w, x);
      assert workers[w := x][..n] == workers[..n][w := x];
    } else {
      assert workers[w := x][..n] == workers[..n];
    }
  }

  lemma {:induction false} InHandBounded(workers: seq<Worker>)
    ensures InHand(workers) <= |workers|
  {
    if workers != [] { InHandBounded(workers[..|workers| - 1]); }
  }

  ghost predicate CostsWithin(steps: seq<Step>, most: real) {
    forall k | 0 <= k < |steps| && steps[k].Settle? && steps[k].result.costUsd.Some? ::
      0.0 <= steps[k].result.costUsd.value <= most
  }

  /** What n cases may still cost. */
  function Allowance(n: int, most: real): real {
    n as real * most
  }

  lemma OneFewer(n: int, most: real)
    ensures Allowance(n - 1, most) == Allowance(n, most) - most
  {
  }

  lemma AllowanceGrows(m: int, n: int, most: real)
    requires m <= n && most >= 0.0
    ensures Allowance(m, most) <= Allowance(n, most)
  {
    Scaled(m as real, n as real, most);
  }

  /** Before the abort the total is below the cap; after it every case still in hand may add at most `most`. */
  ghost predicate UnderCap(s: State, cap: real, most: real) {
    && (!s.aborted ==> s.spent < cap)
    && (s.aborted ==> s.spent >= cap)
    && (s.aborted ==> s.spent + Allowance(InHand(s.workers), most) < cap + Allowance(|s.workers|, most))
  }

  lemma {:induction false} TurnUnderCap(s: State, cases: seq<Case>, w: nat, cap: real, most: real)
    requires w < |s.workers| && |s.results| == |cases| && s.workers[w].Ready? && UnderCap(s, cap, most)
    ensures UnderCap(Turn(s, cases, w), cap, most)
    decreases |cases| - s.cursor
  {
    if s.cursor >= |cases| {
      InHandUpdate(s.workers, w, Finished);
    } else if s.aborted {
      TurnUnderCap(SkipNext(s, cases[s.cursor]), cases, w, cap, most);
    }
  }

  lemma RecordUnderCap(s: State, cap: real, most: real, w: nat, r: CaseResult)
    requires w < |s.workers| && s.workers[w].Running? && s.workers[w].index < |s.results|
    requires UnderCap(s, cap, most) && 0.0 <= most && (r.costUsd.Some? ==> 0.0 <= r.costUsd.value <= most)
    ensures UnderCap(Record(s, Some(cap), w, r), cap, most)
  {
    var held := InHand(s.workers);
    InHandUpdate(s.workers, w, Ready);
    InHandBounded(s.workers);
    OneFewer(held, most);
    AllowanceGrows(held, |s.workers|, most);
    var u := Record(s, Some(cap), w, r);
    assert u.workers == s.workers[w := Ready] && u.spent == s.spent + r.costUsd.GetOr(0.0);
  }

  lemma {:induction false} SpendStaysUnderCap(s: State, cases: seq<Case>, cap: real, most: real, steps: seq<Step>,
                                              t: State)
    requires UnderCap(s, cap, most) && most >= 0.0
    requires Runs(s, cases, Some(cap), steps, t) && CostsWithin(steps, most)
    ensures UnderCap(t, cap, most) && |t.workers| == |s.workers|
    decreases |steps|
  {
    if steps != [] {
      var u := Apply(s, cases, Some(cap), steps[0]);
      match steps[0] {
        case Launch(w) => TurnUnderCap(s, cases, w, cap, most);
        case Settle(w, r) =>
          RecordUnderCap(s, cap, most, w, r);
          TurnUnderCap(Record(s, Some(cap), w, r), cases, w, cap, most);
      }
      SpendStaysUnderCap(u, cases, cap, most, steps[1..], t);
    }
  }

  /** With a positive cap and costs in [0, most], the total stays below cap + workers * most, and
      the run reports the cap as exceeded exactly when the total reached it. */
  lemma CapBoundsTotal(cases: seq<Case>, cap: real, concurrency: int, most: real, steps: seq<Step>, t: State)
    requires cap > 0.0 && most >= 0.0
    requires Runs(Initial(cases, concurrency), cases, Some(cap), steps, t) && CostsWithin(steps, most)
    ensures t.spent < cap + Allowance(|t.workers|, most)
    ensures t.aborted <==> t.spent >= cap
  {
    SpendStaysUnderCap(Initial(cases, concurrency), cases, cap, most, steps, t);
    AllowanceGrows(0, InHand(t.workers), most);
    AllowanceGrows(0, |t.workers|, most);
  }
}
