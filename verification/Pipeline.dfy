/** From a question to the statement that is run. */
module Pipeline {
  import opened Schema
  import opened SqlTypes
  import opened SqlGuard
  import opened GuardPaths
  import opened Planner

  /** A planned statement, whatever the model proposed and however often, parses to one SELECT that is allowed
      along every path, names only tables the policy allows and carries a literal limit within the cap. */
  lemma PlannedSqlIsOneAllowedSelect(
    w: World, question: string, cap: Cap, calls: seq<seq<Message>>, res: PlanResult,
    policy: Policy, lists: Allowlists, f: Foreign)
    requires Reports(w, question, cap, calls, res) && res.Planned?
    requires forall sql :: w.guard(sql) == GuardSql(sql, policy, lists, f)
    ensures f.parse(res.sql).Ok? && OneAllowedSelect(f.parse(res.sql).value, policy, lists)
    ensures ListsTables(f.parse(res.sql).value.stmts[0].stmt, res.tables)
    ensures policy.maxRows.Some? ==>
              && res.rowLimit.Some? && res.rowLimit.value <= policy.maxRows.value
              && exists n | n <= policy.maxRows.value :: Literal(LimitOf(f.parse(res.sql).value), n, f.toNumber)
  {
    PlansAreGuarded(w, question, cap, calls, res);
    AllowedMeans(w.model(calls[|calls| - 1]).output.sql.value, policy, lists, f);
    AllowedReaches(w.model(calls[|calls| - 1]).output.sql.value, policy, lists, f);
  }
}
