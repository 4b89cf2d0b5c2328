/** packages/core/src/execute.ts and store/write.ts: sealed transactions. */
module Transactions {
  import opened Schema

  // The guarded read and the write transaction, against a server that may fail any statement. Its answer
  // may depend on everything sent before, so an arbitrary function of the log covers every schedule of
  // failures.

  type Cell = Option<string>

  datatype Answer = Rows(columns: seq<string>, rows: seq<seq<Cell>>) | Threw

  type Server = seq<string> -> Answer

  /** One connection: what was sent on it, and how often and how it was handed back. */
  class Client {
    const server: Server
    var sent: seq<string>
    var released: seq<bool>

    constructor (server: Server)
      ensures this.server == server && sent == [] && released == []
    {
      this.server, sent, released := server, [], [];
    }

    method Query(text: string) returns (a: Answer)
      modifies this`sent
      ensures sent == old(sent) + [text] && a == server(sent)
    {
      sent := sent + [text];
      a := server(sent);
    }

    method Release(destroy: bool)
      modifies this`released
      ensures released == old(released) + [destroy]
    {
      released := released + [destroy];
    }
  }

  const BEGIN_READ_ONLY := "BEGIN READ ONLY"
  const SHOW_READ_ONLY := "SHOW transaction_read_only"
  const BEGIN := "BEGIN"
  const COMMIT := "COMMIT"
  const ROLLBACK := "ROLLBACK"

  // ---- the sealed read ----

  predicate SaysOn(a: Answer) {
    a.Rows? && |a.rows| > 0 && |a.rows[0]| > 0 && a.rows[0][0] == Some("on")
  }

  /** Everything a read sends when nothing fails, but for the closing ROLLBACK. */
  function ReadScript(preamble: seq<string>, sql: string): seq<string> {
    [BEGIN_READ_ONLY] + preamble + [SHOW_READ_ONLY, sql]
  }

  /** What the server says to statement k when everything up to it has been sent. */
  function AnswerTo(server: Server, preamble: seq<string>, sql: string, k: int): Answer
    requires 0 <= k < |ReadScript(preamble, sql)|
  {
    server(ReadScript(preamble, sql)[..k + 1])
  }

  /** Statement k of the script was answered so that the next one may follow. */
  predicate Passed(server: Server, preamble: seq<string>, sql: string, k: int)
    requires 0 <= k < |ReadScript(preamble, sql)|
  {
    var a := AnswerTo(server, preamble, sql, k);
    a.Rows? && (k == |preamble| + 1 ==> SaysOn(a))
  }

  /** The read got as far as sending n statements of its script, and no further. */
  ghost predicate ReadStopsAt(server: Server, preamble: seq<string>, sql: string, n: int) {
    var script := ReadScript(preamble, sql);
    && 1 <= n <= |script|
    && (forall k :: 0 <= k < n - 1 ==> Passed(server, preamble, sql, k))
    && (n < |script| ==> !Passed(server, preamble, sql, n - 1))
  }

  datatype ReadResult = ReadResult(columns: seq<string>, rows: seq<seq<Cell>>, reachedLimit: bool,
                                   statements: seq<string>)

  method RunGuardedRead(client: Client, preamble: seq<string>, sql: string, rowLimit: Option<int>)
    returns (result: Option<ReadResult>, ghost n: int)
    requires client.sent == [] && client.released == []
    modifies client
    ensures ReadStopsAt(client.server, preamble, sql, n)
    ensures client.sent == ReadScript(preamble, sql)[..n] + [ROLLBACK]
    ensures client.released == [client.server(client.sent).Threw?]
    ensures result.Some? <==> n == |ReadScript(preamble, sql)| && Passed(client.server, preamble, sql, n - 1)
    ensures result.Some? ==>
              && var a := client.server(ReadScript(preamble, sql));
              && a.Rows? && result.value ==
                    ReadResult(a.columns, a.rows, rowLimit.Some? && |a.rows| >= rowLimit.value, client.sent)
  {
    result, n := TryRead(client, preamble, sql, rowLimit);
    var closing := client.Query(ROLLBACK);
    client.Release(closing.Threw?);
    if result.Some? { result := Some(result.value.(statements := client.sent)); }
  }

  /** The try block: everything before the finally. */
  method TryRead(client: Client, preamble: seq<string>, sql: string, rowLimit: Option<int>)
    returns (result: Option<ReadResult>, ghost n: int)
    requires client.sent == []
    modifies client`sent
    ensures ReadStopsAt(client.server, preamble, sql, n)
    ensures client.sent == ReadScript(preamble, sql)[..n]
    ensures result.Some? <==> n == |ReadScript(preamble, sql)| && Passed(client.server, preamble, sql, n - 1)
    ensures result.Some? ==>
              && var a := client.server(ReadScript(preamble, sql));
              && a.Rows? && result.value ==
                    ReadResult(a.columns, a.rows, rowLimit.Some? && |a.rows| >= rowLimit.value, client.sent)
  {
    ghost var script := ReadScript(preamble, sql);
    var a := client.Query(BEGIN_READ_ONLY);
    assert client.sent == script[..1];
    n := 1;
    if a.Threw? { return None, n; }
    var i := 0;
    while i < |preamble|
      invariant 0 <= i <= |preamble| && n == i + 1 && client.sent == script[..n]
      invariant forall k :: 0 <= k < n ==> Passed(client.server, preamble, sql, k)
    {
      a := client.Query(preamble[i]);
      assert client.sent == script[..n + 1];
      n := n + 1;
      if a.Threw? { return None, n; }
      i := i + 1;
    }
    var proof := client.Query(SHOW_READ_ONLY);
    assert client.sent == script[..n + 1];
    n := n + 1;
    if !SaysOn(proof) { return None, n; }
    a := client.Query(sql);
    assert client.sent == script[..n + 1] == script;
    n := n + 1;
    if a.Threw? { return None, n; }
    result := Some(ReadResult(a.columns, a.rows, rowLimit.Some? && |a.rows| >= rowLimit.value, client.sent));
  }

  /** Whatever fails, the guarded SQL is sent only inside a transaction the server itself called read only:
      BEGIN READ ONLY and every statement of the preamble were answered, and SHOW said on. */
  lemma SqlOnlyAfterProof(server: Server, preamble: seq<string>, sql: string, n: int)
    requires ReadStopsAt(server, preamble, sql, n)
    ensures ReadScript(preamble, sql) == ["BEGIN READ ONLY"] + preamble + ["SHOW transaction_read_only", sql]
    ensures n == |ReadScript(preamble, sql)| ==>
              && (forall k :: 0 <= k <= |preamble| ==> AnswerTo(server, preamble, sql, k).Rows?)
              && var shown := AnswerTo(server, preamble, sql, |preamble| + 1);
                 shown.Rows? && shown.rows != [] && shown.rows[0] != [] && shown.rows[0][0] == Some("on")
  {
    if n == |ReadScript(preamble, sql)| {
      forall k | 0 <= k <= |preamble| ensures AnswerTo(server, preamble, sql, k).Rows? {
        assert Passed(server, preamble, sql, k);
      }
      assert Passed(server, preamble, sql, |preamble| + 1);
    }
  }

  /** How far a read gets is decided by the server alone. */
  lemma ReadStopsOnce(server: Server, preamble: seq<string>, sql: string, m: int, n: int)
    requires ReadStopsAt(server, preamble, sql, m) && ReadStopsAt(server, preamble, sql, n)
    ensures m <= n
  {
    if n < |ReadScript(preamble, sql)| {
      assert !Passed(server, preamble, sql, n - 1);
    }
  }

  // ---- the write transaction ----

  /** What a body hands to `run`: a statement composeStatement made for some schema, or anything else. */
  datatype Handed = Composed(text: string, schema: string) | Forged(text: string)

  /** What a body does next, given the answers it has had; it may go on after a failed statement. */
  datatype Action<T> = Ask(handed: Handed) | Return(value: T) | Raise

  /** A body, as its successive wishes. Statements it issues without waiting are answered in the order in
      which they were sent, so such a body is one whose next wish does not look at the last answers. */
  type Body<!T> = seq<Answer> -> Action<T>

  /** Everything sent once the body has had its say, from a state of the log and of the body, and how the
      body ended, for want of anything else by raising an error after `turns` statements. `run` refuses what
      is not a statement before it reaches the server. */
  function BodyRuns<T>(server: Server, sent: seq<string>, body: Body<T>, answers: seq<Answer>,
                       isStatement: Handed -> bool,
                       turns: nat)
    : (r: (seq<string>, Action<T>))
    decreases turns
  {
    var action := body(answers);
    if !action.Ask? then (sent, action)
    else if turns == 0 then (sent, Raise)
    else
      var more := Asked(server, sent, action.handed, isStatement);
      BodyRuns(server, more.0, body, answers + [more.1], isStatement, turns - 1)
  }

  /** The log once the body has asked for one statement, and the answer it gets. */
  function Asked(server: Server, sent: seq<string>, handed: Handed, isStatement: Handed -> bool)
    : (seq<string>, Answer)
  {
    if isStatement(handed) then (sent + [handed.text], server(sent + [handed.text])) else (sent, Threw)
  }

  /** On this run the body asks for no more than `turns` statements. A body that ends has such a number; it
      may differ from one server to the next. */
  predicate EndsWithin<T>(server: Server, sent: seq<string>, body: Body<T>, answers: seq<Answer>,
                          isStatement: Handed -> bool,
                          turns: nat)
    decreases turns
  {
    var action := body(answers);
    !action.Ask? || (turns > 0 &&
                     var more := Asked(server, sent, action.handed, isStatement);
                     EndsWithin(server, more.0, body, answers + [more.1], isStatement, turns - 1))
  }

  /** If the body is run at all, it ends. */
  ghost predicate Finishes<T>(server: Server, script: seq<string>, body: Body<T>, isStatement: Handed -> bool,
                              turns: nat) {
    (forall k :: 0 <= k < |script| ==> Answered(server, script, k)) ==>
        EndsWithin(server, script, body, [], isStatement, turns)
  }

  /** The number is no part of the run: any other that is large enough gives the same. */
  lemma {:induction false} TurnsDoNotMatter<T>(server: Server, sent: seq<string>, body: Body<T>, answers: seq<Answer>,
                                               isStatement: Handed -> bool, m: nat, n: nat)
    requires EndsWithin(server, sent, body, answers, isStatement, m)
    requires EndsWithin(server, sent, body, answers, isStatement, n)
    ensures BodyRuns(server, sent, body, answers, isStatement, m) ==
              BodyRuns(server, sent, body, answers, isStatement, n)
    decreases m
  {
    var action := body(answers);
    if action.Ask? {
      var more := Asked(server, sent, action.handed, isStatement);
      TurnsDoNotMatter(server, more.0, body, answers + [more.1], isStatement, m - 1, n - 1);
    }
  }

  predicate Answered(server: Server, script: seq<string>, k: int)
    requires 0 <= k < |script|
  {
    server(script[..k + 1]).Rows?
  }

  /** The first n statements of a script were sent, and the last of them failed if any are left. */
  ghost predicate StopsAt(server: Server, script: seq<string>, n: int) {
    && 1 <= n <= |script|
    && (forall k :: 0 <= k < n - 1 ==> Answered(server, script, k))
    && (n < |script| ==> !Answered(server, script, n - 1))
  }

  predicate Opened(server: Server, script: seq<string>, n: int)
    requires 1 <= n <= |script|
  {
    n == |script| && Answered(server, script, n - 1)
  }

  datatype Outcome<T> = Value(value: T) | Failed

  /** The log and the outcome when the try block is left, the opening having stopped at n. */
  ghost predicate Tried<T>(server: Server, script: seq<string>, body: Body<T>, isStatement: Handed -> bool, turns: nat,
                           n: int, sent: seq<string>, outcome: Outcome<T>)
    requires 1 <= n <= |script|
  {
    if !Opened(server, script, n) then sent == script[..n] && outcome == Failed
    else
      var (said, end) := BodyRuns(server, script, body, [], isStatement, turns);
      if !end.Return? then sent == said && outcome == Failed
      else sent == said + [COMMIT] && outcome == if server(sent).Rows? then Value(end.value) else Failed
  }

  method Open(client: Client, preamble: seq<string>) returns (ok: bool, ghost n: int)
    requires client.sent == []
    modifies client`sent
    ensures StopsAt(client.server, [BEGIN] + preamble, n) && client.sent == ([BEGIN] + preamble)[..n]
    ensures ok == Opened(client.server, [BEGIN] + preamble, n)
  {
    ghost var script := [BEGIN] + preamble;
    var a := client.Query(BEGIN);
    assert client.sent == script[..1];
    n := 1;
    if a.Threw? { return false, n; }
    var i := 0;
    while i < |preamble|
      invariant 0 <= i <= |preamble| && n == i + 1 && client.sent == script[..n]
      invariant forall k :: 0 <= k < n ==> Answered(client.server, script, k)
    {
      a := client.Query(preamble[i]);
      assert client.sent == script[..n + 1];
      n := n + 1;
      if a.Threw? { return false, n; }
      i := i + 1;
    }
    ok := true;
  }

  /** The body at work. */
  method RunBody<T>(client: Client, body: Body<T>, isStatement: Handed -> bool, ghost turns: nat)
      returns (end: Action<T>)
    requires EndsWithin(client.server, client.sent, body, [], isStatement, turns)
    modifies client`sent
    ensures (client.sent, end) == BodyRuns(client.server, old(client.sent), body, [], isStatement, turns)
    ensures !end.Ask?
  {
    var answers: seq<Answer> := [];
    end := body(answers);
    ghost var left := turns;
    while end.Ask?
      invariant end == body(answers)
      invariant EndsWithin(client.server, client.sent, body, answers, isStatement, left)
      invariant BodyRuns(client.server, client.sent, body, answers, isStatement, left)
             == BodyRuns(client.server, old(client.sent), body, [], isStatement, turns)
      decreases left
    {
      var reply := Threw;
      if isStatement(end.handed) {
        reply := client.Query(end.handed.text);
      }
      answers := answers + [reply];
      end := body(answers);
      left := left - 1;
    }
  }

  method TryWrite<T>(client: Client, preamble: seq<string>, body: Body<T>, isStatement: Handed -> bool,
                     ghost turns: nat)
    returns (outcome: Outcome<T>, ghost n: int)
    requires client.sent == [] && Finishes(client.server, [BEGIN] + preamble, body, isStatement, turns)
    modifies client`sent
    ensures StopsAt(client.server, [BEGIN] + preamble, n)
    ensures Tried(client.server, [BEGIN] + preamble, body, isStatement, turns, n, client.sent, outcome)
  {
    var ok;
    ok, n := Open(client, preamble);
    ghost var script := [BEGIN] + preamble;
    if !ok { return Failed, n; }
    assert script[..n] == script && client.sent == script;
    var end := RunBody(client, body, isStatement, turns);
    if !end.Return? { return Failed, n; }
    var a := client.Query(COMMIT);
    outcome := if a.Threw? then Failed else Value(end.value);
  }

  /** try, catch and finally: roll back whatever did not commit, and keep the connection only if the last
      word on the transaction, COMMIT or ROLLBACK, was heard. */
  method InWriteTransaction<T>(client: Client, preamble: seq<string>, body: Body<T>, isStatement: Handed -> bool,
                               ghost turns: nat)
    returns (outcome: Outcome<T>, ghost n: int, ghost tried: seq<string>)
    requires client.sent == [] && client.released == []
    requires Finishes(client.server, [BEGIN] + preamble, body, isStatement, turns)
    modifies client
    ensures StopsAt(client.server, [BEGIN] + preamble, n)
    ensures Tried(client.server, [BEGIN] + preamble, body, isStatement, turns, n, tried, outcome)
    ensures client.sent == if outcome.Value? then tried else tried + [ROLLBACK]
    ensures client.released == [client.server(client.sent).Threw?]
  {
    var settled, broken := false, false;
    outcome, n := TryWrite(client, preamble, body, isStatement, turns);
    tried := client.sent;
    if outcome.Value? {
      settled := true;
    } else {
      var a := client.Query(ROLLBACK);
      if a.Threw? { broken := true; } else { settled := true; }
    }
    client.Release(broken || !settled);
  }

  // ---- what that means ----

  /** Nothing a body gets past `run` strays: ends the transaction, say, or does anything else that is not one
      of the things statements are for. */
  ghost predicate Keeps<T>(body: Body<T>, isStatement: Handed -> bool, strays: string -> bool) {
    forall answers :: body(answers).Ask? && isStatement(body(answers).handed) ==> !strays(body(answers).handed.text)
  }

  /** Every opening statement was answered and the body returned. */
  ghost predicate Succeeded<T>(server: Server, script: seq<string>, body: Body<T>, isStatement: Handed -> bool,
                               turns: nat) {
    && (forall k :: 0 <= k < |script| ==> Answered(server, script, k))
    && BodyRuns(server, script, body, [], isStatement, turns).1.Return?
  }

  /** COMMIT is sent exactly when the opening was answered and the body returned, as the last word, and it is
      the only thing sent after BEGIN that strays; and the caller gets the body's value exactly when it was
      heard. */
  lemma CommitOnlyAfterSuccess<T>(server: Server, preamble: seq<string>, body: Body<T>, isStatement: Handed -> bool,
                                  turns: nat,
                                  n: int, tried: seq<string>, outcome: Outcome<T>, strays: string -> bool)
    requires StopsAt(server, [BEGIN] + preamble, n)
    requires Tried(server, [BEGIN] + preamble, body, isStatement, turns, n, tried, outcome)
    requires strays(COMMIT) && Keeps(body, isStatement, strays) && forall text | text in preamble :: !strays(text)
    ensures var succeeded := Succeeded(server, [BEGIN] + preamble, body, isStatement, turns);
            && (succeeded ==> |tried| > 1 && tried[|tried| - 1] == COMMIT)
            && forall k | 1 <= k < |tried| :: strays(tried[k]) <==> succeeded && k == |tried| - 1
    ensures outcome.Value? <==>
              Succeeded(server, [BEGIN] + preamble, body, isStatement, turns) && server(tried).Rows?
    ensures outcome.Value? ==>
              Return(outcome.value) == BodyRuns(server, [BEGIN] + preamble, body, [], isStatement, turns).1
  {
    var script := [BEGIN] + preamble;
    assert forall k | 1 <= k < |script| :: script[k] == preamble[k - 1];
    if !Opened(server, script, n) {
      assert !Answered(server, script, n - 1);
    } else {
      BodyNeverCommits(server, script, body, [], isStatement, turns, strays);
    }
  }

  lemma {:induction false} BodyNeverCommits<T>(server: Server, sent: seq<string>, body: Body<T>, answers: seq<Answer>,
                                               isStatement: Handed -> bool, turns: nat, strays: string -> bool)
    requires Keeps(body, isStatement, strays)
    ensures var said := BodyRuns(server, sent, body, answers, isStatement, turns).0;
            sent <= said && forall k | |sent| <= k < |said| :: !strays(said[k])
    decreases turns
  {
    var action := body(answers);
    if action.Ask? && turns > 0 {
      var more := Asked(server, sent, action.handed, isStatement);
      BodyNeverCommits(server, more.0, body, answers + [more.1], isStatement, turns - 1, strays);
    }
  }

  /** Asks for one statement and does not look at the answer. */
  function Heedless<T>(h: Handed, value: T): Body<T> {
    answers => if answers == [] then Ask(h) else Return(value)
  }

  /** That is not the same as everything before COMMIT having been answered: a body may swallow a failure. */
  lemma FailureCanBeSwallowed<T>(server: Server, preamble: seq<string>, h: Handed, value: T,
                                 isStatement: Handed -> bool, n: int, tried: seq<string>, outcome: Outcome<T>)
    requires isStatement(h) && server([BEGIN] + preamble + [h.text]).Threw?
    requires StopsAt(server, [BEGIN] + preamble, n) && Opened(server, [BEGIN] + preamble, n)
    requires Tried(server, [BEGIN] + preamble, Heedless(h, value), isStatement, 1, n, tried, outcome)
    ensures Finishes(server, [BEGIN] + preamble, Heedless(h, value), isStatement, 1)
    ensures tried == [BEGIN] + preamble + [h.text, COMMIT]
    ensures outcome == if server(tried).Rows? then Value(value) else Failed
  {
    var script := [BEGIN] + preamble;
    var body := Heedless(h, value);
    assert body([]) == Ask(h) && body([] + [Threw]) == Return(value);
    assert BodyRuns(server, script, body, [], isStatement, 1) == (script + [h.text], Return(value));
    assert script + [h.text] + [COMMIT] == script + [h.text, COMMIT];
  }
}
