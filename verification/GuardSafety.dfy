/** What every run of the remediation guard keeps: the transition graph, the action budget, and
    the conditions under which an executor is called. */
module GuardSafety {
  import opened RemediationGuard

  datatype Op = ProposeOp(tenant: string, p: Proposal, subject: string, key: string, penv: ProposeEnv)
              | ApproveOp(tenant: string, id: string, subject: string, aenv: ApproveEnv)
              | RejectOp(tenant: string, id: string, reason: string, now: int)
              | ExecuteOp(tenant: string, id: string, key: string, xenv: ExecuteEnv)
              | VerifyOp(tenant: string, id: string, verified: bool, now: int)
              | RollbackOp(tenant: string, id: string, reason: string, live: Option<Target>, now: int)
              | ExpireOp(now: int)

  function Perform(cfg: Config, d: Deps, s: State, op: Op): State {
    match op
    case ProposeOp(t, p, who, key, env) => Propose(cfg, d, s, t, p, who, key, env).state
    case ApproveOp(t, id, who, env) => Approve(cfg, d, s, t, id, who, env).state
    case RejectOp(t, id, reason, now) => Reject(s, t, id, reason, now).state
    case ExecuteOp(t, id, key, env) => Execute(cfg, d, s, t, id, key, env).state
    case VerifyOp(t, id, verified, now) => Verify(s, t, id, verified, now).state
    case RollbackOp(t, id, reason, live, now) => Rollback(d, s, t, id, reason, live, now).state
    case ExpireOp(now) => ExpireDue(cfg, s, now)
  }

  // ---------- One action ----------

  /** The states a step can take an action to; executing never outlasts its step. */
  predicate Legal(from: ActionState, to: ActionState) {
    from == to ||
    (from == Proposed && to in {Approved, Rejected, Expired}) ||
    (from == Approved && to in {Verifying, Failed, Rejected, Expired}) ||
    (from == Verifying && to in {Succeeded, Failed, RolledBack}) ||
    (from == Failed && to == RolledBack)
  }

  /** States an action can be in once its executor has been called. */
  predicate Spent(st: ActionState) { st in {Verifying, Failed, Succeeded, RolledBack} }

  /** An approval by someone other than the recorded proposer, and its own deadline. */
  predicate WellApproved(cfg: Config, d: Deps, a: Action) {
    a.state == Approved ==>
      a.expiresAt == a.approvedAt + cfg.approvalTTL && (!d.authzWired ==> a.approvedBy != a.proposedBy)
  }

  /** The identity of the object the action is aimed at, once known. */
  function UID(a: Action): string { a.proposal.target.resolvedUID }

  predicate Evolves(cfg: Config, d: Deps, a: Action, b: Action) {
    b.id == a.id && b.tenant == a.tenant && b.incident == a.incident && b.proposedBy == a.proposedBy &&
    b.createdAt == a.createdAt && Legal(a.state, b.state) && (WellApproved(cfg, d, a) ==> WellApproved(cfg, d, b)) &&
    (UID(a) != "" ==> UID(b) == UID(a)) && (Spent(a.state) ==> b.proposal == a.proposal)
  }

  /** Every action there was is still there and has taken a legal step at most. */
  ghost predicate Advances(cfg: Config, d: Deps, before: map<string, Action>, after: map<string, Action>) {
    forall id <- before :: id in after && Evolves(cfg, d, before[id], after[id])
  }

  // ---------- One state ----------

  ghost predicate OwnIds(actions: map<string, Action>) { forall id <- actions :: actions[id].id == id }

  ghost predicate Approvals(cfg: Config, d: Deps, actions: map<string, Action>) {
    forall id <- actions :: WellApproved(cfg, d, actions[id]) && actions[id].state != Executing
  }

  ghost predicate Budgeted(actions: map<string, Action>, cap: string -> nat) {
    forall tenant, incident :: |BudgetSet(actions, tenant, incident)| <= cap(tenant)
  }

  /** What held when the executor was called. */
  predicate CallOk(cfg: Config, d: Deps, c: Call) {
    c.checkedAt < c.expiresAt && (!d.authzWired ==> c.approvedBy != c.proposedBy) &&
    (d.snapshotWired ==> c.snapshot.Some?) && (c.policy.Some? ==> d.allowed(c.proposal, c.policy.value)) &&
    d.payloadOk(c.proposal) && c.executorKind in d.executors
  }

  /** A call belongs to an action that has left Approved for good. */
  predicate CallRecorded(actions: map<string, Action>, c: Call) {
    c.id in actions && actions[c.id].tenant == c.tenant && actions[c.id].incident == c.incident &&
    actions[c.id].proposedBy == c.proposedBy && actions[c.id].proposal == c.proposal && Spent(actions[c.id].state)
  }

  ghost predicate CallsOk(cfg: Config, d: Deps, actions: map<string, Action>, calls: seq<Call>) {
    (forall i :: 0 <= i < |calls| ==> CallOk(cfg, d, calls[i]) && CallRecorded(actions, calls[i])) &&
    forall i, j :: 0 <= i < j < |calls| ==> calls[i].id != calls[j].id
  }

  ghost predicate Safe(cfg: Config, d: Deps, cap: string -> nat, s: State) {
    OwnIds(s.actions) && Approvals(cfg, d, s.actions) && Budgeted(s.actions, cap) && CallsOk(cfg, d, s.actions, s.calls)
  }

  // ---------- Steps ----------

  /** Ids are fresh, and no policy the step meets allows more actions per incident than cap. */
  predicate Allowed(cfg: Config, cap: string -> nat, s: State, op: Op) {
    op.ProposeOp? ==> op.penv.newID !in s.actions &&
                      (op.penv.policy.Some? ==> BudgetCap(cfg, op.penv.policy.value) <= cap(op.tenant))
  }

  lemma SubsetSize(a: set<string>, b: set<string>)
    requires a <= b
    ensures |a| <= |b|
  {
    if a != b {
      assert b == a + (b - a);
    }
  }

  /** Steps that only advance existing actions keep the ids, the approvals and the budget. */
  lemma AdvanceKeeps(cfg: Config, d: Deps, cap: string -> nat, before: map<string, Action>, after: map<string, Action>)
    requires OwnIds(before) && Approvals(cfg, d, before) && Budgeted(before, cap)
    requires Advances(cfg, d, before, after) && after.Keys == before.Keys
    ensures OwnIds(after) && Approvals(cfg, d, after) && Budgeted(after, cap)
  {
    hide Budgeted;
    AdvanceKeepsBudget(cfg, d, cap, before, after);
  }

  lemma AdvanceKeepsBudget(cfg: Config, d: Deps, cap: string -> nat, before: map<string, Action>,
                           after: map<string, Action>)
    requires Budgeted(before, cap) && Advances(cfg, d, before, after) && after.Keys == before.Keys
    ensures Budgeted(after, cap)
  {
    forall tenant, incident ensures |BudgetSet(after, tenant, incident)| <= cap(tenant) {
      BudgetNarrows(cfg, d, before, after, tenant, incident);
      hide BudgetSet;
      SubsetSize(BudgetSet(after, tenant, incident), BudgetSet(before, tenant, incident));
    }
  }

  lemma BudgetNarrows(cfg: Config, d: Deps, before: map<string, Action>, after: map<string, Action>, tenant: string,
                      incident: string)
    requires Advances(cfg, d, before, after) && after.Keys == before.Keys
    ensures BudgetSet(after, tenant, incident) <= BudgetSet(before, tenant, incident)
  {
  }

  lemma AdvanceKeepsCalls(cfg: Config, d: Deps, before: map<string, Action>, after: map<string, Action>,
                          calls: seq<Call>)
    requires CallsOk(cfg, d, before, calls) && Advances(cfg, d, before, after)
    ensures CallsOk(cfg, d, after, calls)
  {
    forall i | 0 <= i < |calls| ensures CallOk(cfg, d, calls[i]) && CallRecorded(after, calls[i]) {
      assert CallRecorded(before, calls[i]) && Evolves(cfg, d, before[calls[i].id], after[calls[i].id]);
    }
  }

  lemma PutAdvances(cfg: Config, d: Deps, s: State, b: Action)
    requires OwnIds(s.actions) && b.id in s.actions && Evolves(cfg, d, s.actions[b.id], b)
    ensures Advances(cfg, d, s.actions, Put(s, b).actions) && Put(s, b).actions.Keys == s.actions.Keys
  {
  }

  lemma PutKeepsSafe(cfg: Config, d: Deps, cap: string -> nat, s: State, b: Action)
    requires Safe(cfg, d, cap, s) && b.id in s.actions && Evolves(cfg, d, s.actions[b.id], b)
    ensures Safe(cfg, d, cap, Put(s, b)) && Advances(cfg, d, s.actions, Put(s, b).actions)
  {
    hide Evolves, Advances, OwnIds, Approvals, Budgeted, CallsOk;
    PutAdvances(cfg, d, s, b);
    AdvanceKeeps(cfg, d, cap, s.actions, Put(s, b).actions);
    AdvanceKeepsCalls(cfg, d, s.actions, Put(s, b).actions, s.calls);
  }

  lemma SameAdvances(cfg: Config, d: Deps, actions: map<string, Action>)
    ensures Advances(cfg, d, actions, actions)
  {
  }

  lemma ApproveSafe(cfg: Config, d: Deps, cap: string -> nat, s: State, op: Op)
    requires op.ApproveOp? && Safe(cfg, d, cap, s)
    ensures Safe(cfg, d, cap, Perform(cfg, d, s, op)) && Advances(cfg, d, s.actions, Perform(cfg, d, s, op).actions)
  {
    hide Safe, Advances;
    SameAdvances(cfg, d, s.actions);
    if Known(s, op.tenant, op.id) {
      OwnId(cfg, d, cap, s, op.id);
      var r := Approve(cfg, d, s, op.tenant, op.id, op.subject, op.aenv).result;
      if !r.Err? { PutKeepsSafe(cfg, d, cap, s, r.action); }
    }
  }

  lemma OwnId(cfg: Config, d: Deps, cap: string -> nat, s: State, id: string)
    requires Safe(cfg, d, cap, s) && id in s.actions
    ensures s.actions[id].id == id && WellApproved(cfg, d, s.actions[id]) && s.actions[id].state != Executing
  {
  }

  lemma OthersSafe(cfg: Config, d: Deps, cap: string -> nat, s: State, op: Op)
    requires (op.RejectOp? || op.VerifyOp? || op.RollbackOp?) && Safe(cfg, d, cap, s)
    ensures Safe(cfg, d, cap, Perform(cfg, d, s, op)) && Advances(cfg, d, s.actions, Perform(cfg, d, s, op).actions)
  {
    hide Safe, Advances;
    SameAdvances(cfg, d, s.actions);
    if Known(s, op.tenant, op.id) {
      OwnId(cfg, d, cap, s, op.id);
      var r := match op
        case RejectOp(t, id, reason, now) => Reject(s, t, id, reason, now).result
        case VerifyOp(t, id, verified, now) => Verify(s, t, id, verified, now).result
        case RollbackOp(t, id, reason, live, now) => Rollback(d, s, t, id, reason, live, now).result
        case _ => Err(NotFound);
      if !r.Err? { PutKeepsSafe(cfg, d, cap, s, r.action); }
    }
  }

  lemma ExpireSafe(cfg: Config, d: Deps, cap: string -> nat, s: State, now: int)
    requires Safe(cfg, d, cap, s)
    ensures Safe(cfg, d, cap, ExpireDue(cfg, s, now)) && Advances(cfg, d, s.actions, ExpireDue(cfg, s, now).actions)
  {
    hide OwnIds, Approvals, Budgeted, CallsOk;
    var t := ExpireDue(cfg, s, now);
    assert Advances(cfg, d, s.actions, t.actions) && t.actions.Keys == s.actions.Keys;
    AdvanceKeeps(cfg, d, cap, s.actions, t.actions);
    AdvanceKeepsCalls(cfg, d, s.actions, t.actions, s.calls);
  }

  lemma BudgetAdd(actions: map<string, Action>, a: Action, tenant: string, incident: string)
    requires a.id !in actions
    ensures |BudgetSet(actions[a.id := a], tenant, incident)| <=
            |BudgetSet(actions, tenant, incident)| + if a.tenant == tenant && a.incident == incident then 1 else 0
  {
    var more := if CountsToBudget(a, tenant, incident) then {a.id} else {};
    assert BudgetSet(actions[a.id := a], tenant, incident) == BudgetSet(actions, tenant, incident) + more;
  }

  lemma AddKeepsBudget(cap: string -> nat, actions: map<string, Action>, a: Action)
    requires Budgeted(actions, cap) && a.id !in actions && |BudgetSet(actions, a.tenant, a.incident)| < cap(a.tenant)
    ensures Budgeted(actions[a.id := a], cap)
  {
    hide BudgetSet;
    var after := actions[a.id := a];
    forall tenant, incident ensures |BudgetSet(after, tenant, incident)| <= cap(tenant) {
      BudgetAdd(actions, a, tenant, incident);
      assert |BudgetSet(actions, tenant, incident)| <= cap(tenant);
    }
  }

  lemma AddKeepsRest(cfg: Config, d: Deps, actions: map<string, Action>, calls: seq<Call>, a: Action)
    requires OwnIds(actions) && Approvals(cfg, d, actions) && CallsOk(cfg, d, actions, calls)
    requires a.id !in actions && a.state == Proposed
    ensures var after := actions[a.id := a];
            OwnIds(after) && Approvals(cfg, d, after) && CallsOk(cfg, d, after, calls) &&
              Advances(cfg, d, actions, after)
  {
    assert Advances(cfg, d, actions, actions[a.id := a]);
    AdvanceKeepsCalls(cfg, d, actions, actions[a.id := a], calls);
  }

  lemma ProposeSafe(cfg: Config, d: Deps, cap: string -> nat, s: State, op: Op)
    requires op.ProposeOp? && Safe(cfg, d, cap, s) && Allowed(cfg, cap, s, op)
    ensures Safe(cfg, d, cap, Perform(cfg, d, s, op)) && Advances(cfg, d, s.actions, Perform(cfg, d, s, op).actions)
  {
    hide OwnIds, Approvals, CallsOk, Budgeted, Advances, IdemKey, Stamped;
    SameAdvances(cfg, d, s.actions);
    var o := Propose(cfg, d, s, op.tenant, op.p, op.subject, op.key, op.penv);
    if o.state != s {
      var a := NewAction(cfg, d, s, op.tenant, op.p, op.subject, op.penv);
      AddKeepsBudget(cap, s.actions, a);
      AddKeepsRest(cfg, d, s.actions, s.calls, a);
    }
  }

  /** b is a with the same identity and the same approval. */
  predicate SameApproval(a: Action, b: Action) {
    b.id == a.id && b.tenant == a.tenant && b.incident == a.incident && b.proposedBy == a.proposedBy &&
    b.createdAt == a.createdAt && b.approvedBy == a.approvedBy && b.approvedAt == a.approvedAt &&
    b.expiresAt == a.expiresAt && (UID(a) != "" ==> UID(b) == UID(a))
  }

  lemma ResolveShape(d: Deps, a: Action, env: ExecuteEnv)
    ensures var r := Resolve(d, a, env);
            SameApproval(a, r.action) && r.action.state == if r.Stopped? then Failed else a.state
  {
  }

  lemma RecheckShape(d: Deps, a: Action, env: ExecuteEnv)
    requires a.state == Approved
    ensures var r := Recheck(d, a, env);
            SameApproval(a, r.action) && (r.Stopped? ==> r.action.state in {Failed, Approved}) &&
            (r.Ready? && d.snapshotWired ==> r.action.preSnapshot.Some?) &&
            (r.Ready? && env.policy.Some? ==> d.allowed(r.action.proposal, env.policy.value))
  {
  }

  lemma PrepareShape(cfg: Config, d: Deps, a: Action, env: ExecuteEnv)
    requires a.state == Approved
    ensures var r := Prepare(d, a, env);
            SameApproval(a, r.action) && (r.Stopped? ==> r.action.state in {Failed, Approved}) &&
            (r.Ready? ==> ReadyOk(d, r.action, env))
  {
    hide Resolve, Recheck;
    ResolveShape(d, a, env);
    if Resolve(d, a, env).Ready? { RecheckShape(d, Resolve(d, a, env).action, env); }
  }

  /** What preparing has made sure of. */
  predicate ReadyOk(d: Deps, a: Action, env: ExecuteEnv) {
    (d.snapshotWired ==> a.preSnapshot.Some?) && (env.policy.Some? ==> d.allowed(a.proposal, env.policy.value)) &&
    d.payloadOk(a.proposal) && a.executorKind in d.executors
  }

  lemma CallSafe(cfg: Config, d: Deps, cap: string -> nat, s: State, b: Action, c: Call)
    requires Safe(cfg, d, cap, s) && b.id in s.actions && s.actions[b.id].state == Approved
    requires Evolves(cfg, d, s.actions[b.id], b) && Spent(b.state)
    requires CallOk(cfg, d, c) && c.id == b.id && c.tenant == b.tenant && c.incident == b.incident
    requires c.proposedBy == b.proposedBy && c.proposal == b.proposal
    ensures var t := Put(s, b); Safe(cfg, d, cap, State(t.actions, t.idem, s.calls + [c]))
  {
    PutKeepsSafe(cfg, d, cap, s, b);
    hide Budgeted, OwnIds, Approvals;
    var t, more := Put(s, b), s.calls + [c];
    forall i | 0 <= i < |s.calls| ensures s.calls[i].id != c.id {
      assert CallRecorded(s.actions, s.calls[i]);
    }
    forall i | 0 <= i < |more| ensures CallOk(cfg, d, more[i]) && CallRecorded(t.actions, more[i]) {
      if i < |s.calls| { assert CallRecorded(t.actions, s.calls[i]); }
    }
  }

  lemma ExecuteSafe(cfg: Config, d: Deps, cap: string -> nat, s: State, op: Op)
    requires op.ExecuteOp? && Safe(cfg, d, cap, s)
    ensures Safe(cfg, d, cap, Perform(cfg, d, s, op)) && Advances(cfg, d, s.actions, Perform(cfg, d, s, op).actions)
  {
    hide Safe, Advances, IdemKey, Prepare;
    SameAdvances(cfg, d, s.actions);
    var o := Execute(cfg, d, s, op.tenant, op.id, op.key, op.xenv);
    if o.state != s {
      var a := s.actions[op.id];
      OwnId(cfg, d, cap, s, op.id);
      if a.expiresAt > op.xenv.now {
        PrepareShape(cfg, d, a, op.xenv);
        var r := Prepare(d, a, op.xenv);
        if r.Stopped? {
          PutKeepsSafe(cfg, d, cap, s, r.action);
        } else {
          var b := Called(cfg, r.action, op.xenv);
          PutKeepsSafe(cfg, d, cap, s, b);
          CallSafe(cfg, d, cap, s, b, CallOn(r.action, op.xenv));
          SafeIgnoresIdem(cfg, d, cap, State(Put(s, b).actions, s.idem, s.calls + [CallOn(r.action, op.xenv)]),
                          o.state);
        }
      } else {
        PutKeepsSafe(cfg, d, cap, s, o.result.action);
      }
    }
  }

  lemma SafeIgnoresIdem(cfg: Config, d: Deps, cap: string -> nat, s: State, t: State)
    requires Safe(cfg, d, cap, s) && t.actions == s.actions && t.calls == s.calls
    ensures Safe(cfg, d, cap, t)
  {
  }

  /** Every operation keeps the guard safe and moves each action by a legal transition at most. */
  lemma PerformSafe(cfg: Config, d: Deps, cap: string -> nat, s: State, op: Op)
    requires Safe(cfg, d, cap, s) && Allowed(cfg, cap, s, op)
    ensures Safe(cfg, d, cap, Perform(cfg, d, s, op)) && Advances(cfg, d, s.actions, Perform(cfg, d, s, op).actions)
  {
    hide Safe, Advances;
    if op.ProposeOp? {
      ProposeSafe(cfg, d, cap, s, op);
    } else if op.ApproveOp? {
      ApproveSafe(cfg, d, cap, s, op);
    } else if op.ExecuteOp? {
      ExecuteSafe(cfg, d, cap, s, op);
    } else if op.ExpireOp? {
      ExpireSafe(cfg, d, cap, s, op.now);
    } else {
      OthersSafe(cfg, d, cap, s, op);
    }
  }

  // ---------- Whole runs ----------

  ghost predicate IsRun(cfg: Config, d: Deps, cap: string -> nat, ops: seq<Op>, states: seq<State>) {
    |states| == |ops| + 1 && states[0] == Start &&
    forall i: nat {:trigger Follows(cfg, d, cap, ops, states, i)} :: i < |ops| ==> Follows(cfg, d, cap, ops, states, i)
  }

  ghost predicate Follows(cfg: Config, d: Deps, cap: string -> nat, ops: seq<Op>, states: seq<State>, i: nat)
    requires i < |ops| && |states| == |ops| + 1
  {
    Allowed(cfg, cap, states[i], ops[i]) && states[i + 1] == Perform(cfg, d, states[i], ops[i])
  }

  lemma StartSafe(cfg: Config, d: Deps, cap: string -> nat)
    ensures Safe(cfg, d, cap, Start)
  {
    assert forall tenant, incident :: BudgetSet(Start.actions, tenant, incident) == {};
  }

  lemma {:induction false} AlwaysSafe(cfg: Config, d: Deps, cap: string -> nat, ops: seq<Op>, states: seq<State>,
                                      n: nat)
    requires IsRun(cfg, d, cap, ops, states) && n <= |ops|
    ensures Safe(cfg, d, cap, states[n])
  {
    hide Safe, Start;
    if n == 0 {
      StartSafe(cfg, d, cap);
    } else {
      AlwaysSafe(cfg, d, cap, ops, states, n - 1);
      assert Follows(cfg, d, cap, ops, states, n - 1);
      PerformSafe(cfg, d, cap, states[n - 1], ops[n - 1]);
    }
  }

  /** Each action is executed at most once, only on an approval by someone other than its
      recorded proposer, strictly before the approval expires, and after a snapshot when a
      snapshotter is wired. */
  lemma ExecutedOnceAndApproved(cfg: Config, d: Deps, cap: string -> nat, ops: seq<Op>, states: seq<State>, n: nat)
    requires IsRun(cfg, d, cap, ops, states) && n <= |ops|
    ensures forall i, j :: 0 <= i < j < |states[n].calls| ==> states[n].calls[i].id != states[n].calls[j].id
    ensures forall i :: 0 <= i < |states[n].calls| ==> CallOk(cfg, d, states[n].calls[i])
  {
    AlwaysSafe(cfg, d, cap, ops, states, n);
  }

  /** Every call was made by an execution of its action, approved at the time, on the target as
      resolved and under the policy as read for it, with the executor's answer in the state. */
  lemma {:induction false} CallsAreExecutions(cfg: Config, d: Deps, cap: string -> nat, ops: seq<Op>,
                                              states: seq<State>, n: nat, i: nat) returns (m: nat)
    requires IsRun(cfg, d, cap, ops, states) && n <= |ops| && i < |states[n].calls|
    ensures m < n && ops[m].ExecuteOp? && |states[m].calls| == i < |states[m + 1].calls|
    ensures var c, env, a := states[n].calls[i], ops[m].xenv, ops[m].id;
            && c.id == a && a in states[m].actions && states[m].actions[a].state == Approved
            && c.checkedAt == env.now && c.policy == env.policy
            && c.proposal == (if d.resolverWired && env.resolved.Some?
                              then states[m].actions[a].proposal.(target := env.resolved.value)
                              else states[m].actions[a].proposal)
            && a in states[m + 1].actions && states[m + 1].actions[a].executedAt == env.later
            && states[m + 1].actions[a].verifyDeadline == env.later + cfg.verifyWindow
            && states[m + 1].actions[a].state == if env.executorOk then Verifying else Failed
    decreases n
  {
    hide IdemKey, Prepare, Safe, Perform, Start;
    assert n > 0 by { StartQuiet(); }
    assert Follows(cfg, d, cap, ops, states, n - 1);
    AlwaysSafe(cfg, d, cap, ops, states, n - 1);
    CallsGrow(cfg, d, cap, states[n - 1], ops[n - 1]);
    if i < |states[n - 1].calls| {
      m := CallsAreExecutions(cfg, d, cap, ops, states, n - 1, i);
    } else {
      m := n - 1;
    }
  }

  lemma StartQuiet()
    ensures Start.calls == []
  {
  }

  /** An operation makes one call at most, and only an execution makes one. */
  lemma CallsGrow(cfg: Config, d: Deps, cap: string -> nat, s: State, op: Op)
    requires Safe(cfg, d, cap, s)
    ensures var t := Perform(cfg, d, s, op);
            && s.calls <= t.calls && |t.calls| <= |s.calls| + 1
            && (|t.calls| > |s.calls| ==>
                  && op.ExecuteOp? && op.id in s.actions && s.actions[op.id].state == Approved && op.id in t.actions
                  && var c, env, a := t.calls[|s.calls|], op.xenv, s.actions[op.id];
                  && c.id == op.id && c.checkedAt == env.now && c.policy == env.policy
                  && c.proposal == (if d.resolverWired && env.resolved.Some?
                                    then a.proposal.(target := env.resolved.value) else a.proposal)
                  && t.actions[op.id].executedAt == env.later
                  && t.actions[op.id].verifyDeadline == env.later + cfg.verifyWindow
                  && t.actions[op.id].state == if env.executorOk then Verifying else Failed)
  {
    if op.ExecuteOp? {
      if op.id in s.actions {
        OwnId(cfg, d, cap, s, op.id);
        PreparedFor(d, s.actions[op.id], op.xenv);
      }
      hide Safe, IdemKey, Prepare;
    } else {
      hide Safe, IdemKey, Stamped, ProposeRefusal;
    }
  }

  lemma PreparedFor(d: Deps, a: Action, env: ExecuteEnv)
    ensures var r := Prepare(d, a, env);
            r.Ready? ==> r.action.id == a.id &&
                         r.action.proposal == if d.resolverWired && env.resolved.Some?
                                              then a.proposal.(target := env.resolved.value) else a.proposal
  {
    hide Moved;
  }

  /** Over every run each call's target is allowed by the policy read for it whenever that could be
      read; its payload was accepted and its executor is wired; and it is aimed at the object the
      action was aimed at before, at whatever earlier or later time that object is known. */
  lemma CallsAsApproved(cfg: Config, d: Deps, cap: string -> nat, ops: seq<Op>, states: seq<State>,
                        m: nat, n: nat, i: nat)
    requires IsRun(cfg, d, cap, ops, states) && m <= n <= |ops| && i < |states[n].calls|
    ensures var c := states[n].calls[i];
            && (c.policy.Some? ==> d.allowed(c.proposal, c.policy.value))
            && d.payloadOk(c.proposal) && c.executorKind in d.executors
            && (c.id in states[m].actions && UID(states[m].actions[c.id]) != "" ==>
                  c.proposal.target.resolvedUID == UID(states[m].actions[c.id]))
  {
    AlwaysSafe(cfg, d, cap, ops, states, n);
    hide OwnIds, Approvals, Budgeted, IsRun;
    var c := states[n].calls[i];
    assert CallOk(cfg, d, c) && CallRecorded(states[n].actions, c);
    if c.id in states[m].actions { FinalStatesLast(cfg, d, cap, ops, states, m, n, c.id); }
  }

  /** An execution calls its executor exactly when: the tenant has the action, the key is given and
      new, the action is approved and its approval not expired; the target, where a resolver is
      wired, resolves to the object approved if one was named; the allowlists, where the policy can
      be read, allow that target; the snapshot, where a snapshotter is wired, is taken; and the
      executor is wired and accepts the payload. */
  lemma CallsExactly(cfg: Config, d: Deps, s: State, tenant: string, id: string, key: string, env: ExecuteEnv)
    ensures |Execute(cfg, d, s, tenant, id, key, env).state.calls| > |s.calls| <==>
            && id in s.actions && s.actions[id].tenant == tenant
            && key != "" && (tenant + "|execute|" + key) !in s.idem
            && s.actions[id].state == Approved && env.now < s.actions[id].expiresAt
            && (d.resolverWired ==>
                  env.resolved.Some? && (UID(s.actions[id]) == "" ||
                                         env.resolved.value.resolvedUID == UID(s.actions[id])))
            && var p := if d.resolverWired && env.resolved.Some?
                        then s.actions[id].proposal.(target := env.resolved.value) else s.actions[id].proposal;
            && (env.policy.Some? ==> d.allowed(p, env.policy.value))
            && (d.snapshotWired ==> env.snapshot.Some?)
            && s.actions[id].executorKind in d.executors && d.payloadOk(p)
  {
    ExecuteSlot(tenant, key);
    if id in s.actions { PreparesExactly(d, s.actions[id], env); }
    hide IdemKey, Prepare, Called;
  }

  lemma ExecuteSlot(tenant: string, key: string)
    ensures IdemKey(tenant, "execute", key) == tenant + "|execute|" + key
  {
    assert "|" + ("execute" + "|") == "|execute|";
    assert IdemKey(tenant, "execute", key) == tenant + ("|" + ("execute" + "|")) + key;
  }

  lemma PreparesExactly(d: Deps, a: Action, env: ExecuteEnv)
    ensures Prepare(d, a, env).Ready? <==>
            && (d.resolverWired ==>
                  env.resolved.Some? && (UID(a) == "" || env.resolved.value.resolvedUID == UID(a)))
            && var p := if d.resolverWired && env.resolved.Some? then a.proposal.(target := env.resolved.value)
                        else a.proposal;
            && (env.policy.Some? ==> d.allowed(p, env.policy.value))
            && (d.snapshotWired ==> env.snapshot.Some?)
            && a.executorKind in d.executors && d.payloadOk(p)
  {
    hide Moved;
  }

  function CallsFor(calls: seq<Call>, tenant: string, incident: string): set<string> {
    set i | 0 <= i < |calls| && calls[i].tenant == tenant && calls[i].incident == incident :: calls[i].id
  }

  /** How many times an executor has been called for an incident. */
  function CallCount(calls: seq<Call>, tenant: string, incident: string): nat {
    if calls == [] then 0
    else
      var c := calls[|calls| - 1];
      CallCount(calls[..|calls| - 1], tenant, incident) + if c.tenant == tenant && c.incident == incident then 1 else 0
  }

  lemma {:induction false} CountIsSize(calls: seq<Call>, tenant: string, incident: string)
    requires forall i, j :: 0 <= i < j < |calls| ==> calls[i].id != calls[j].id
    ensures CallCount(calls, tenant, incident) == |CallsFor(calls, tenant, incident)|
    decreases |calls|
  {
    if calls != [] {
      var front, c := calls[..|calls| - 1], calls[|calls| - 1];
      CountIsSize(front, tenant, incident);
      var more := if c.tenant == tenant && c.incident == incident then {c.id} else {};
      LastCall(calls, tenant, incident);
      assert CallsFor(front, tenant, incident) !! more;
    }
  }

  lemma LastCall(calls: seq<Call>, tenant: string, incident: string)
    requires calls != []
    ensures var front, c := calls[..|calls| - 1], calls[|calls| - 1];
            CallsFor(calls, tenant, incident) ==
            CallsFor(front, tenant, incident) + if c.tenant == tenant && c.incident == incident then {c.id} else {}
  {
    var front, c := calls[..|calls| - 1], calls[|calls| - 1];
    forall id ensures id in CallsFor(calls, tenant, incident) <==>
      id in CallsFor(front, tenant, incident) || (c.tenant == tenant && c.incident == incident && id == c.id) {
      forall i | 0 <= i < |front| ensures front[i] == calls[i] {
      }
    }
  }

  /** However actions are overridden, rejected, expired or retried, an incident never sees more
      executor calls than the largest budget in force. */
  lemma CallsWithinBudget(cfg: Config, d: Deps, cap: string -> nat, ops: seq<Op>, states: seq<State>, n: nat,
                          tenant: string, incident: string)
    requires IsRun(cfg, d, cap, ops, states) && n <= |ops|
    ensures CallCount(states[n].calls, tenant, incident) <= cap(tenant)
  {
    AlwaysSafe(cfg, d, cap, ops, states, n);
    var s := states[n];
    CountIsSize(s.calls, tenant, incident);
    forall id | id in CallsFor(s.calls, tenant, incident) ensures id in BudgetSet(s.actions, tenant, incident) {
      var i :| 0 <= i < |s.calls| && s.calls[i].tenant == tenant && s.calls[i].incident == incident &&
        s.calls[i].id == id;
      assert CallRecorded(s.actions, s.calls[i]);
    }
    SubsetSize(CallsFor(s.calls, tenant, incident), BudgetSet(s.actions, tenant, incident));
  }

  /** Under a policy that does not change, approval's own budget check never refuses anything. */
  lemma ApprovalBudgetIdle(cfg: Config, d: Deps, cap: string -> nat, ops: seq<Op>, states: seq<State>, n: nat,
                           tenant: string, id: string, subject: string, env: ApproveEnv)
    requires IsRun(cfg, d, cap, ops, states) && n <= |ops|
    requires env.policy.Some? && BudgetCap(cfg, env.policy.value) >= cap(tenant)
    ensures Approve(cfg, d, states[n], tenant, id, subject, env).result.ErrWith? ==>
            Approve(cfg, d, states[n], tenant, id, subject, env).result.error == ActionExpired
  {
    AlwaysSafe(cfg, d, cap, ops, states, n);
    var s := states[n];
    if Known(s, tenant, id) {
      assert |BudgetSet(s.actions, tenant, s.actions[id].incident)| <= cap(tenant);
    }
  }

  /** Across any stretch of a run an action keeps its identity, and one that has succeeded, been
      rolled back, rejected or expired never changes state again. */
  lemma {:induction false} FinalStatesLast(cfg: Config, d: Deps, cap: string -> nat, ops: seq<Op>, states: seq<State>,
                                           m: nat, n: nat, id: string)
    requires IsRun(cfg, d, cap, ops, states) && m <= n <= |ops| && id in states[m].actions
    ensures id in states[n].actions
    ensures var a, b := states[m].actions[id], states[n].actions[id];
            b.tenant == a.tenant && b.incident == a.incident && b.proposedBy == a.proposedBy &&
            (a.state in {Succeeded, RolledBack, Rejected, Expired} ==> b.state == a.state) &&
            (Spent(a.state) ==> Spent(b.state) && b.proposal == a.proposal) && (UID(a) != "" ==> UID(b) == UID(a))
    decreases n
  {
    hide Safe, Allowed, Perform;
    if m < n {
      FinalStatesLast(cfg, d, cap, ops, states, m, n - 1, id);
      AlwaysSafe(cfg, d, cap, ops, states, n - 1);
      assert Follows(cfg, d, cap, ops, states, n - 1);
      PerformSafe(cfg, d, cap, states[n - 1], ops[n - 1]);
      assert Evolves(cfg, d, states[n - 1].actions[id], states[n].actions[id]);
    }
  }

  // ---------- Separation of duty ----------

  /** A request may name its own proposer; the submitter is the recorded one exactly when it
      names none or names the submitter. */
  predicate NamesSubmitter(p: Proposal, subject: string) { p.proposedBy == "" || p.proposedBy == subject }

  /** Every executor call of a submitted action carries the proposer its request named, so with
      a request that names its submitter the executed action was approved by someone else. */
  lemma SubmitterNeverApproves(cfg: Config, d: Deps, cap: string -> nat, ops: seq<Op>, states: seq<State>,
                               m: nat, n: nat, i: nat)
    requires IsRun(cfg, d, cap, ops, states) && m < n <= |ops| && i < |states[n].calls|
    requires ops[m].ProposeOp? && ops[m].penv.newID in states[m + 1].actions
    requires states[n].calls[i].id == ops[m].penv.newID
    ensures var op, c := ops[m], states[n].calls[i];
            && (c.proposedBy == op.subject <==> NamesSubmitter(op.p, op.subject))
            && (NamesSubmitter(op.p, op.subject) && !d.authzWired ==> c.approvedBy != op.subject)
  {
    assert Follows(cfg, d, cap, ops, states, m);
    FinalStatesLast(cfg, d, cap, ops, states, m + 1, n, ops[m].penv.newID);
    AlwaysSafe(cfg, d, cap, ops, states, n);
    hide IdemKey, ProposeRefusal, OwnIds, Approvals, Budgeted;
    assert CallOk(cfg, d, states[n].calls[i]) && CallRecorded(states[n].actions, states[n].calls[i]);
  }

  /** And otherwise the submitter can approve the action: straight after the proposal, under
      the same policy, an approval by the submitter is refused exactly when the request named
      the submitter or no one. */
  lemma SubmitterApprovesExactly(cfg: Config, d: Deps, s: State, tenant: string, p: Proposal, subject: string,
                                 key: string, penv: ProposeEnv, aenv: ApproveEnv)
    requires !d.authzWired && penv.newID !in s.actions
    requires Propose(cfg, d, s, tenant, p, subject, key, penv).state.actions != s.actions
    requires aenv.policy == penv.policy && !aenv.wantsOverride && aenv.now < penv.now + cfg.proposalTTL
    ensures var after := Propose(cfg, d, s, tenant, p, subject, key, penv).state;
            var result := Approve(cfg, d, after, tenant, penv.newID, subject, aenv).result;
            && (result == Err(ApproverMustDiffer) <==> NamesSubmitter(p, subject))
            && (result.Ok? <==> !NamesSubmitter(p, subject))
  {
    hide IdemKey, BudgetSet;
    BudgetAdd(s.actions, NewAction(cfg, d, s, tenant, p, subject, penv), tenant, p.incident);
  }

  // ---------- What the other operations ask ----------

  lemma ProposeSlot(tenant: string, key: string)
    ensures IdemKey(tenant, "propose", key) == tenant + "|propose|" + key
  {
    assert "|" + ("propose" + "|") == "|propose|";
    assert IdemKey(tenant, "propose", key) == tenant + ("|" + ("propose" + "|")) + key;
  }

  /** The tenant's actions for an incident that are neither rejected nor expired. */
  function Standing(s: State, tenant: string, incident: string): set<string> {
    set id | id in s.actions && s.actions[id].tenant == tenant && s.actions[id].incident == incident &&
             s.actions[id].state != Rejected && s.actions[id].state != Expired
  }

  /** What a proposal becomes: its id, target, risk tier, time and, if none is named, its proposer
      are the guard's. */
  function AsProposed(d: Deps, p: Proposal, subject: string, env: ProposeEnv): Proposal {
    Proposal(env.newID, p.incident, p.investigation, p.actionType,
             if d.resolverWired && env.resolved.Some? then env.resolved.value else p.target,
             d.tier(p.actionType), p.rationale, if p.proposedBy != "" then p.proposedBy else subject, env.now, p.spec)
  }

  /** A proposal makes an action exactly when its key is given and new, the policy can be read and
      finds it valid, its target resolves where a resolver is wired and is allowed, and the incident
      has fewer standing actions than the policy's budget, or than the default where that is zero. */
  lemma ProposesExactly(cfg: Config, d: Deps, s: State, tenant: string, p: Proposal, subject: string, key: string,
                        env: ProposeEnv)
    requires env.newID !in s.actions
    ensures var after, q := Propose(cfg, d, s, tenant, p, subject, key, env).state, AsProposed(d, p, subject, env);
            && (env.newID in after.actions <==>
                  && key != "" && (tenant + "|propose|" + key) !in s.idem
                  && env.policy.Some? && d.valid(p, env.policy.value)
                  && (d.resolverWired ==> env.resolved.Some?)
                  && d.allowed(p.(target := q.target), env.policy.value)
                  && |Standing(s, tenant, p.incident)| <
                     (if env.policy.value.actionBudget != 0 then env.policy.value.actionBudget else cfg.defaultBudget))
            && (env.newID in after.actions ==>
                  var a := after.actions[env.newID];
                  && after.actions == s.actions[env.newID := a] && a.state == Proposed && a.proposal == q
                  && a.id == env.newID && a.tenant == tenant && a.incident == p.incident && a.createdAt == env.now
                  && a.proposedBy == q.proposedBy && a.executorKind == cfg.defaultExecutor && !a.overrideUsed
                  && a.budgetIndex == |Standing(s, tenant, p.incident)| + 1 && a.updatedAt == env.now
                  && a.approvedBy == "" && a.approvedAt == 0 && a.expiresAt == 0 && a.preSnapshot == None
                  && a.executedAt == 0 && a.verifyDeadline == 0 && !a.verified && !a.autoExecute
                  && a.overriddenBy == "" && a.overriddenAt == 0 && a.overrideJustification == "")
  {
    ProposeSlot(tenant, key);
    SameStanding(s, tenant, p.incident);
    hide IdemKey, BudgetSet, Standing;
  }

  lemma SameStanding(s: State, tenant: string, incident: string)
    ensures BudgetSet(s.actions, tenant, incident) == Standing(s, tenant, incident)
  {
  }

  /** An approval goes through exactly when the tenant has the action, still proposed and younger
      than the proposal deadline, the approver is separated from the proposer, the policy can be
      read, and either an override is asked for with a justification of forty characters and one is
      left, or the incident is within its budget. It then stands until its own deadline, and runs by
      itself only if configured, allowed by the policy and not of risk tier 3. */
  lemma ApprovesExactly(cfg: Config, d: Deps, s: State, tenant: string, id: string, subject: string, env: ApproveEnv)
    requires OwnIds(s.actions)
    ensures var o := Approve(cfg, d, s, tenant, id, subject, env);
            && (o.result.Ok? <==>
                  && id in s.actions && s.actions[id].tenant == tenant
                  && s.actions[id].state == Proposed && env.now < s.actions[id].createdAt + cfg.proposalTTL
                  && (if d.authzWired then env.separated else s.actions[id].proposedBy != subject)
                  && env.policy.Some?
                  && if env.wantsOverride
                     then |env.justification| >= 40 &&
                          |OverrideSet(s.actions, tenant, s.actions[id].incident)| < cfg.maxBudgetOverrides
                     else |Standing(s, tenant, s.actions[id].incident)| <=
                          (if env.policy.value.actionBudget != 0 then env.policy.value.actionBudget
                           else cfg.defaultBudget))
            && (o.result.Ok? ==>
                  && id in o.state.actions && o.state.actions == s.actions[id := o.state.actions[id]]
                  && var a, b := s.actions[id], o.state.actions[id];
                  && b.state == Approved && b.approvedBy == subject && b.approvedAt == env.now
                  && b.expiresAt == env.now + cfg.approvalTTL && b.proposal == a.proposal
                  && (b.autoExecute <==> cfg.autoExecuteOnApprove && env.policy.value.autoExecuteAllowed &&
                                         a.proposal.riskTier != 3)
                  && (b.overrideUsed <==> env.wantsOverride || a.overrideUsed)
                  && (env.wantsOverride ==> b.overriddenBy == subject && b.overrideJustification == env.justification))
  {
    if id in s.actions { SameStanding(s, tenant, s.actions[id].incident); }
    hide BudgetSet, OverrideSet, Standing;
  }

  /** A rejection goes through exactly on a proposed or approved action of the tenant's. */
  lemma RejectsExactly(s: State, tenant: string, id: string, reason: string, now: int)
    requires OwnIds(s.actions)
    ensures var o := Reject(s, tenant, id, reason, now);
            && (o.result.Ok? <==> id in s.actions && s.actions[id].tenant == tenant &&
                                  s.actions[id].state in {Proposed, Approved})
            && (o.result.Ok? ==> o.state.actions == s.actions[id := s.actions[id].(state := Rejected,
                                                                                    stateReason := reason,
                                                                                    updatedAt := now)])
  {
  }

  /** A rollback goes through exactly on a verifying or failed action of the tenant's whose live
      object, where it can be read and a snapshot names a version, is still at that version. */
  lemma RollsBackExactly(d: Deps, s: State, tenant: string, id: string, reason: string, live: Option<Target>, now: int)
    requires OwnIds(s.actions)
    ensures var o := Rollback(d, s, tenant, id, reason, live, now);
            && (o.result.Ok? <==>
                  && id in s.actions && s.actions[id].tenant == tenant && s.actions[id].state in {Verifying, Failed}
                  && var snap := s.actions[id].preSnapshot;
                  && (d.resolverWired && live.Some? && snap.Some? ==>
                        snap.value.resourceVersion in {"", live.value.resolvedVersion}))
            && (o.result.Ok? ==> o.state.actions == s.actions[id := s.actions[id].(state := RolledBack,
                                                                                    stateReason := reason,
                                                                                    updatedAt := now)])
  {
  }

  /** Verification settles an action exactly if the tenant has it and it is verifying: it succeeds
      or fails by the answer. */
  lemma VerifiesExactly(s: State, tenant: string, id: string, verified: bool, now: int)
    requires OwnIds(s.actions)
    ensures var o := Verify(s, tenant, id, verified, now);
            && (o.result.Ok? <==> id in s.actions && s.actions[id].tenant == tenant && s.actions[id].state == Verifying)
            && (o.result.Ok? ==> id in o.state.actions && o.state.actions[id].verified == verified &&
                                 o.state.actions[id].state == if verified then Succeeded else Failed)
  {
  }

  /** The sweep expires exactly the proposals past the proposal deadline and the approvals past
      their own, and leaves everything else as it is. */
  lemma ExpiresExactly(cfg: Config, s: State, now: int, id: string)
    requires id in s.actions
    ensures var a, t := s.actions[id], ExpireDue(cfg, s, now);
            && t.actions.Keys == s.actions.Keys && t.idem == s.idem && t.calls == s.calls
            && t.actions[id] ==
               if (a.state == Proposed && now >= a.createdAt + cfg.proposalTTL) ||
                  (a.state == Approved && a.expiresAt != 0 && now >= a.expiresAt)
               then a.(state := Expired, updatedAt := now) else a
  {
  }

  // ---------- Budget overrides ----------

  function OverrideCap(cfg: Config): nat { if cfg.maxBudgetOverrides > 0 then cfg.maxBudgetOverrides else 0 }

  ghost predicate OverridesLimited(cfg: Config, actions: map<string, Action>) {
    forall tenant, incident :: |OverrideSet(actions, tenant, incident)| <= OverrideCap(cfg)
  }

  predicate SameOverride(a: Action, b: Action) {
    b.overrideUsed == a.overrideUsed && b.tenant == a.tenant && b.incident == a.incident
  }

  /** Every override there is was there before. */
  ghost predicate NoNewOverride(before: map<string, Action>, after: map<string, Action>) {
    forall id <- after :: after[id].overrideUsed ==> id in before && SameOverride(before[id], after[id])
  }

  lemma NoNewKeepsLimit(cfg: Config, before: map<string, Action>, after: map<string, Action>)
    requires OverridesLimited(cfg, before) && NoNewOverride(before, after)
    ensures OverridesLimited(cfg, after)
  {
    forall tenant, incident ensures |OverrideSet(after, tenant, incident)| <= OverrideCap(cfg) {
      SubsetSize(OverrideSet(after, tenant, incident), OverrideSet(before, tenant, incident));
    }
  }

  lemma SameNoOverride(actions: map<string, Action>)
    ensures NoNewOverride(actions, actions)
  {
  }

  lemma PutNoOverride(actions: map<string, Action>, b: Action)
    requires b.id in actions && SameOverride(actions[b.id], b)
    ensures NoNewOverride(actions, actions[b.id := b])
  {
  }

  lemma ExecuteNoOverride(cfg: Config, d: Deps, s: State, op: Op)
    requires op.ExecuteOp? && (op.id in s.actions ==> s.actions[op.id].id == op.id)
    ensures NoNewOverride(s.actions, Perform(cfg, d, s, op).actions)
  {
    hide IdemKey, Prepare, NoNewOverride;
    SameNoOverride(s.actions);
    var o := Execute(cfg, d, s, op.tenant, op.id, op.key, op.xenv);
    if o.state != s {
      PrepareOverride(d, s.actions[op.id], op.xenv);
      PutNoOverride(s.actions, o.result.action);
    }
  }

  lemma PrepareOverride(d: Deps, a: Action, env: ExecuteEnv)
    ensures SameOverride(a, Prepare(d, a, env).action) && Prepare(d, a, env).action.id == a.id
  {
    hide Resolve, Recheck;
    ResolveOverride(d, a, env);
    RecheckOverride(d, Resolve(d, a, env).action, env);
  }

  lemma ResolveOverride(d: Deps, a: Action, env: ExecuteEnv)
    ensures SameOverride(a, Resolve(d, a, env).action) && Resolve(d, a, env).action.id == a.id
  {
  }

  lemma RecheckOverride(d: Deps, a: Action, env: ExecuteEnv)
    ensures SameOverride(a, Recheck(d, a, env).action) && Recheck(d, a, env).action.id == a.id
  {
  }

  lemma OthersNoOverride(cfg: Config, d: Deps, s: State, op: Op)
    requires (op.RejectOp? || op.VerifyOp? || op.RollbackOp?) && (op.id in s.actions ==> s.actions[op.id].id == op.id)
    ensures NoNewOverride(s.actions, Perform(cfg, d, s, op).actions)
  {
    hide NoNewOverride;
    SameNoOverride(s.actions);
    var r := match op
      case RejectOp(t, id, reason, now) => Reject(s, t, id, reason, now).result
      case VerifyOp(t, id, verified, now) => Verify(s, t, id, verified, now).result
      case RollbackOp(t, id, reason, live, now) => Rollback(d, s, t, id, reason, live, now).result
      case _ => Err(NotFound);
    if !r.Err? { PutNoOverride(s.actions, r.action); }
  }

  lemma ProposeNoOverride(cfg: Config, d: Deps, s: State, op: Op)
    requires op.ProposeOp?
    ensures NoNewOverride(s.actions, Perform(cfg, d, s, op).actions)
  {
    hide IdemKey, Stamped, ProposeRefusal;
  }

  lemma ExpireNoOverride(cfg: Config, s: State, now: int)
    ensures NoNewOverride(s.actions, ExpireDue(cfg, s, now).actions)
  {
  }

  lemma PerformNoOverride(cfg: Config, d: Deps, s: State, op: Op)
    requires OwnIds(s.actions) && !op.ApproveOp?
    ensures NoNewOverride(s.actions, Perform(cfg, d, s, op).actions)
  {
    hide NoNewOverride;
    if op.ProposeOp? {
      ProposeNoOverride(cfg, d, s, op);
    } else if op.ExecuteOp? {
      ExecuteNoOverride(cfg, d, s, op);
    } else if op.ExpireOp? {
      ExpireNoOverride(cfg, s, op.now);
    } else {
      OthersNoOverride(cfg, d, s, op);
    }
  }

  lemma OverrideAdd(actions: map<string, Action>, b: Action, tenant: string, incident: string)
    requires b.id in actions && b.tenant == actions[b.id].tenant && b.incident == actions[b.id].incident
    ensures OverrideSet(actions[b.id := b], tenant, incident) <=
            OverrideSet(actions, tenant, incident) + if b.tenant == tenant && b.incident == incident then {b.id} else {}
  {
  }

  lemma ApproveKeepsLimit(cfg: Config, d: Deps, s: State, op: Op)
    requires op.ApproveOp? && OwnIds(s.actions) && OverridesLimited(cfg, s.actions)
    ensures OverridesLimited(cfg, Perform(cfg, d, s, op).actions)
  {
    hide OverrideSet, OverridesLimited;
    var o := Approve(cfg, d, s, op.tenant, op.id, op.subject, op.aenv);
    if o.result.Ok? && op.aenv.wantsOverride {
      ApprovedOverride(cfg, s.actions, o.result.action);
    } else {
      assert NoNewOverride(s.actions, o.state.actions);
      NoNewKeepsLimit(cfg, s.actions, o.state.actions);
    }
  }

  lemma ApprovedOverride(cfg: Config, actions: map<string, Action>, b: Action)
    requires OverridesLimited(cfg, actions) && b.id in actions && b.tenant == actions[b.id].tenant &&
             b.incident == actions[b.id].incident
    requires |OverrideSet(actions, b.tenant, b.incident)| < OverrideCap(cfg)
    ensures OverridesLimited(cfg, actions[b.id := b])
  {
    hide OverrideSet;
    var after := actions[b.id := b];
    forall tenant, incident ensures |OverrideSet(after, tenant, incident)| <= OverrideCap(cfg) {
      OverrideAdd(actions, b, tenant, incident);
      var more := if b.tenant == tenant && b.incident == incident then {b.id} else {};
      SubsetSize(OverrideSet(after, tenant, incident), OverrideSet(actions, tenant, incident) + more);
      assert |OverrideSet(actions, tenant, incident) + more| <= |OverrideSet(actions, tenant, incident)| + |more|;
      assert |OverrideSet(actions, tenant, incident)| <= OverrideCap(cfg);
    }
  }

  /** No incident is ever granted more budget overrides than the configured limit. */
  lemma {:induction false} OverridesAlwaysLimited(cfg: Config, d: Deps, cap: string -> nat, ops: seq<Op>,
                                                  states: seq<State>, n: nat)
    requires IsRun(cfg, d, cap, ops, states) && n <= |ops|
    ensures OverridesLimited(cfg, states[n].actions)
  {
    hide OverridesLimited, Perform, NoNewOverride, Approvals, Budgeted, CallsOk, Allowed;
    if n == 0 {
      StartLimited(cfg);
    } else {
      OverridesAlwaysLimited(cfg, d, cap, ops, states, n - 1);
      AlwaysSafe(cfg, d, cap, ops, states, n - 1);
      assert Follows(cfg, d, cap, ops, states, n - 1);
      var s, op := states[n - 1], ops[n - 1];
      if op.ApproveOp? {
        ApproveKeepsLimit(cfg, d, s, op);
      } else {
        PerformNoOverride(cfg, d, s, op);
        NoNewKeepsLimit(cfg, s.actions, states[n].actions);
      }
    }
  }

  lemma StartLimited(cfg: Config)
    ensures OverridesLimited(cfg, Start.actions)
  {
    assert forall tenant, incident :: OverrideSet(Start.actions, tenant, incident) == {};
  }

  // ---------- Idempotency ----------

  /** A record, once made, is never replaced. */
  lemma RecordsStay(cfg: Config, d: Deps, s: State, op: Op, slot: string)
    requires slot in s.idem
    ensures slot in Perform(cfg, d, s, op).idem && Perform(cfg, d, s, op).idem[slot] == s.idem[slot]
  {
    hide IdemKey, ProposeRefusal, NewAction, Prepare;
  }

  lemma {:induction false} RecordsStayForever(cfg: Config, d: Deps, cap: string -> nat, ops: seq<Op>,
                                              states: seq<State>,
                                              m: nat, n: nat, slot: string)
    requires IsRun(cfg, d, cap, ops, states) && m <= n <= |ops| && slot in states[m].idem
    ensures slot in states[n].idem && states[n].idem[slot] == states[m].idem[slot]
    decreases n
  {
    hide Perform;
    if m < n {
      RecordsStayForever(cfg, d, cap, ops, states, m, n - 1, slot);
      assert Follows(cfg, d, cap, ops, states, n - 1);
      RecordsStay(cfg, d, states[n - 1], ops[n - 1], slot);
    }
  }

  /** An execution that reached the executor, repeated at any later time under the same key,
      returns the recorded outcome and calls nothing. */
  lemma ExecuteReplays(cfg: Config, d: Deps, cap: string -> nat, ops: seq<Op>, states: seq<State>, m: nat, n: nat,
                       tenant: string, id: string, key: string, env: ExecuteEnv)
    requires IsRun(cfg, d, cap, ops, states) && m < n <= |ops|
    requires ops[m].ExecuteOp? && ops[m].tenant == tenant && ops[m].id == id && ops[m].key == key
    requires |states[m + 1].calls| > |states[m].calls|
    ensures id in states[m + 1].actions
    ensures Execute(cfg, d, states[n], tenant, id, key, env) == Outcome(states[n], Ok(states[m + 1].actions[id]))
  {
    hide IdemKey, Prepare;
    assert Follows(cfg, d, cap, ops, states, m);
    AlwaysSafe(cfg, d, cap, ops, states, m);
    var s, slot := states[m], IdemKey(tenant, "execute", key);
    OwnId(cfg, d, cap, s, id);
    PrepareShape(cfg, d, s.actions[id], ops[m].xenv);
    hide Safe;
    RecordsStayForever(cfg, d, cap, ops, states, m + 1, n, slot);
    FinalStatesLast(cfg, d, cap, ops, states, m + 1, n, id);
  }

  /** A proposal repeated under its key never makes a second action. It is answered with the
      recorded action exactly when its digest equals that of the proposal as the guard stamped
      it, and refused as a reuse otherwise: the record is made of the stamped proposal. */
  lemma ProposeReplaysExactly(cfg: Config, d: Deps, cap: string -> nat, ops: seq<Op>, states: seq<State>, m: nat,
                              n: nat,
                              tenant: string, key: string, p: Proposal, subject: string, env: ProposeEnv)
    requires IsRun(cfg, d, cap, ops, states) && m < n <= |ops|
    requires ops[m].ProposeOp? && ops[m].tenant == tenant && ops[m].key == key
    requires ops[m].penv.newID in states[m + 1].actions
    ensures var made := states[m + 1].actions[ops[m].penv.newID];
            Propose(cfg, d, states[n], tenant, p, subject, key, env) ==
            Outcome(states[n], if d.hashProposal(p) == d.hashProposal(made.proposal) then Ok(made)
                    else Err(IdempotencyReused))
  {
    hide IdemKey, Stamped, ProposeRefusal;
    assert Follows(cfg, d, cap, ops, states, m);
    RecordsStayForever(cfg, d, cap, ops, states, m + 1, n, IdemKey(tenant, "propose", key));
  }

  /** So the very same request, sent twice, is refused the second time unless the caller had
      already filled in everything the guard stamps, the new id and the time included. */
  lemma SameProposalRefused(cfg: Config, d: Deps, cap: string -> nat, ops: seq<Op>, states: seq<State>,
                            m: nat, n: nat, env: ProposeEnv)
    requires IsRun(cfg, d, cap, ops, states) && m < n <= |ops|
    requires ops[m].ProposeOp? && ops[m].penv.newID in states[m + 1].actions
    requires forall p, q :: d.hashProposal(p) == d.hashProposal(q) ==> p == q
    ensures var op := ops[m];
            Propose(cfg, d, states[n], op.tenant, op.p, op.subject, op.key, env).result.Ok? <==>
            && op.p.id == op.penv.newID && op.p.proposedAt == op.penv.now && op.p.riskTier == d.tier(op.p.actionType)
            && (op.p.proposedBy == "" ==> op.subject == "")
            && (d.resolverWired && op.penv.resolved.Some? ==> op.p.target == op.penv.resolved.value)
  {
    var op := ops[m];
    ProposeReplaysExactly(cfg, d, cap, ops, states, m, n, op.tenant, op.key, op.p, op.subject, env);
    hide IdemKey, ProposeRefusal;
    assert Follows(cfg, d, cap, ops, states, m);
  }

  /** What a caller can tell beforehand: whatever is sent under a key that has made an action,
      unless it carries that action's own id, is refused as a reused key. The HTTP handler
      sends no id. */
  lemma RepeatWithoutIdRefused(cfg: Config, d: Deps, cap: string -> nat, ops: seq<Op>, states: seq<State>,
                               m: nat, n: nat, p: Proposal, subject: string, env: ProposeEnv)
    requires IsRun(cfg, d, cap, ops, states) && m < n <= |ops|
    requires ops[m].ProposeOp? && ops[m].penv.newID in states[m + 1].actions
    requires forall p, q :: d.hashProposal(p) == d.hashProposal(q) ==> p == q
    requires p.id != ops[m].penv.newID
    ensures Propose(cfg, d, states[n], ops[m].tenant, p, subject, ops[m].key, env) ==
            Outcome(states[n], Err(IdempotencyReused))
  {
    ProposeReplaysExactly(cfg, d, cap, ops, states, m, n, ops[m].tenant, ops[m].key, p, subject, env);
    hide IdemKey, ProposeRefusal;
    assert Follows(cfg, d, cap, ops, states, m);
  }
}
