/** The remediation guard: what each operation does to an action, to the idempotency table and
    to the executor. Everything the guard learns from outside is a parameter of the step. */
module RemediationGuard {

  datatype ActionState = Proposed | Approved | Rejected | Executing | Verifying | Succeeded | Failed
                       | RolledBack | Expired

  datatype Target = Target(namespace: string, kind: string, name: string, resolvedUID: string, resolvedVersion: string)

  datatype Proposal = Proposal(id: string, incident: string, investigation: string, actionType: string, target: Target,
                               riskTier: nat, rationale: string, proposedBy: string, proposedAt: int, spec: string)

  datatype Snapshot = Snapshot(resourceVersion: string)
  datatype Option<T> = None | Some(value: T)

  datatype Action = Action(id: string, tenant: string, incident: string, proposal: Proposal, state: ActionState,
                           stateReason: string, proposedBy: string, approvedBy: string, approvedAt: int, expiresAt: int,
                           executorKind: string, preSnapshot: Option<Snapshot>, executedAt: int, verifyDeadline: int,
                           verified: bool, autoExecute: bool, budgetIndex: int, overrideUsed: bool,
                           overrideJustification: string, overriddenBy: string, overriddenAt: int,
                           createdAt: int, updatedAt: int)

  datatype Policy = Policy(actionBudget: int, autoExecuteAllowed: bool, rules: string)

  datatype Config = Config(approvalTTL: int, proposalTTL: int, verifyWindow: int, autoExecuteOnApprove: bool,
                           defaultExecutor: string, defaultBudget: int, maxBudgetOverrides: int)

  datatype Error = NotFound | IdempotencyRequired | IdempotencyReused | PolicyUnavailable | InvalidProposal
                 | TargetNotResolvable | TargetReplaced | NotAllowlisted | BudgetExceeded | ActionExpired
                 | IllegalTransition | ApproverMustDiffer | OverrideJustificationTooShort | OverrideLimit
                 | SnapshotFailed | UnknownExecutor | BadPayload | ExecutorFailed | ConcurrentModification

  /** The source's own zero value stands in the action of a bare error. */
  datatype Result = Ok(action: Action) | Err(error: Error) | ErrWith(error: Error, action: Action)

  datatype IdemRecord = IdemRecord(hash: string, action: Action)

  /** One call made to an executor: the proposal with its target as resolved for the call, and the
      policy as read for it. */
  datatype Call = Call(id: string, tenant: string, incident: string, proposedBy: string, approvedBy: string,
                       checkedAt: int, expiresAt: int, snapshot: Option<Snapshot>, proposal: Proposal,
                       policy: Option<Policy>, executorKind: string)

  /** calls records every executor call ever made, oldest first. */
  datatype State = State(actions: map<string, Action>, idem: map<string, IdemRecord>, calls: seq<Call>)

  const Start := State(map[], map[], [])

  /** The collaborators that do not change: the request digests, the proposal checks, and
      which optional ones are wired. */
  datatype Deps = Deps(hashProposal: Proposal -> string, hashID: string -> string,
                       valid: (Proposal, Policy) -> bool, allowed: (Proposal, Policy) -> bool, tier: string -> nat,
                       payloadOk: Proposal -> bool, executors: set<string>,
                       resolverWired: bool, snapshotWired: bool, authzWired: bool)

  datatype Outcome = Outcome(state: State, result: Result)

  function IdemKey(tenant: string, endpoint: string, key: string): string { tenant + "|" + endpoint + "|" + key }

  predicate Known(s: State, tenant: string, id: string) { id in s.actions && s.actions[id].tenant == tenant }

  predicate CountsToBudget(a: Action, tenant: string, incident: string) {
    a.tenant == tenant && a.incident == incident && a.state != Rejected && a.state != Expired
  }

  function BudgetSet(actions: map<string, Action>, tenant: string, incident: string): set<string> {
    set id | id in actions && CountsToBudget(actions[id], tenant, incident)
  }

  function BudgetUsed(s: State, tenant: string, incident: string): nat { |BudgetSet(s.actions, tenant, incident)| }

  function OverrideSet(actions: map<string, Action>, tenant: string, incident: string): set<string> {
    set id | id in actions && actions[id].tenant == tenant && actions[id].incident == incident &&
             actions[id].overrideUsed
  }

  function BudgetCap(cfg: Config, pol: Policy): int {
    if pol.actionBudget == 0 then cfg.defaultBudget else pol.actionBudget
  }

  function Put(s: State, a: Action): State { State(s.actions[a.id := a], s.idem, s.calls) }

  function Moved(a: Action, to: ActionState, reason: string, at: int): Action {
    a.(state := to, stateReason := reason, updatedAt := at)
  }

  // ---------- Propose ----------

  /** What a proposal meets: the tenant's policy, the re-resolved target, the clock and a new id. */
  datatype ProposeEnv = ProposeEnv(policy: Option<Policy>, resolved: Option<Target>, now: int, newID: string)

  function Stamped(d: Deps, p: Proposal, subject: string, env: ProposeEnv): Proposal {
    p.(id := env.newID, target := if d.resolverWired && env.resolved.Some? then env.resolved.value else p.target,
       riskTier := d.tier(p.actionType), proposedAt := env.now,
       proposedBy := if p.proposedBy == "" then subject else p.proposedBy)
  }

  function NewAction(cfg: Config, d: Deps, s: State, tenant: string, p: Proposal, subject: string,
                     env: ProposeEnv): Action {
    var q := Stamped(d, p, subject, env);
    Action(env.newID, tenant, p.incident, q, Proposed, "", q.proposedBy, "", 0, 0, cfg.defaultExecutor, None, 0, 0,
           false, false, BudgetUsed(s, tenant, p.incident) + 1, false, "", "", 0, env.now, env.now)
  }

  /** Why a proposal with a fresh key is refused, if it is. */
  function ProposeRefusal(cfg: Config, d: Deps, s: State, tenant: string, p: Proposal, env: ProposeEnv): Option<Error> {
    if env.policy.None? then Some(PolicyUnavailable)
    else if !d.valid(p, env.policy.value) then Some(InvalidProposal)
    else if d.resolverWired && env.resolved.None? then Some(TargetNotResolvable)
    else if !d.allowed(p.(target := if d.resolverWired then env.resolved.value else p.target), env.policy.value)
    then Some(NotAllowlisted)
    else if BudgetUsed(s, tenant, p.incident) >= BudgetCap(cfg, env.policy.value) then Some(BudgetExceeded)
    else None
  }

  /** What the idempotency table says of a request: a cached result, a refusal, or nothing. */
  function Replayed(s: State, key: string, slot: string, hash: string): Option<Result> {
    if key == "" then Some(Err(IdempotencyRequired))
    else if slot in s.idem then
      Some(if s.idem[slot].hash != hash then Err(IdempotencyReused) else Ok(s.idem[slot].action))
    else None
  }

  function Propose(cfg: Config, d: Deps, s: State, tenant: string, p: Proposal, subject: string, key: string,
                   env: ProposeEnv): Outcome {
    var slot := IdemKey(tenant, "propose", key);
    var replay := Replayed(s, key, slot, d.hashProposal(p));
    if replay.Some? then Outcome(s, replay.value)
    else
      var refusal := ProposeRefusal(cfg, d, s, tenant, p, env);
      if refusal.Some? then Outcome(s, Err(refusal.value))
      else
        var a := NewAction(cfg, d, s, tenant, p, subject, env);
        Outcome(State(s.actions[a.id := a], s.idem[slot := IdemRecord(d.hashProposal(a.proposal), a)], s.calls), Ok(a))
  }

  // ---------- Approve and Reject ----------

  datatype ApproveEnv = ApproveEnv(policy: Option<Policy>, separated: bool, now: int, wantsOverride: bool,
                                   justification: string)

  predicate DutySeparated(d: Deps, a: Action, subject: string, env: ApproveEnv) {
    if d.authzWired then env.separated else a.proposedBy != subject
  }

  function Approval(cfg: Config, a: Action, subject: string, pol: Policy, env: ApproveEnv): Action {
    var b := if env.wantsOverride
      then a.(overrideUsed := true, overrideJustification := env.justification, overriddenBy := subject,
              overriddenAt := env.now)
      else a;
    b.(state := Approved, approvedBy := subject, approvedAt := env.now, expiresAt := env.now + cfg.approvalTTL,
       autoExecute := cfg.autoExecuteOnApprove && pol.autoExecuteAllowed && a.proposal.riskTier != 3,
       updatedAt := env.now)
  }

  function Approve(cfg: Config, d: Deps, s: State, tenant: string, id: string, subject: string,
                   env: ApproveEnv): Outcome {
    if !Known(s, tenant, id) then Outcome(s, Err(NotFound))
    else
      var a := s.actions[id];
      if a.state == Proposed && a.createdAt + cfg.proposalTTL <= env.now then
        var b := a.(state := Expired, updatedAt := env.now);
        Outcome(Put(s, b), ErrWith(ActionExpired, b))
      else if a.state != Proposed then Outcome(s, Err(IllegalTransition))
      else if !DutySeparated(d, a, subject, env) then Outcome(s, Err(ApproverMustDiffer))
      else if env.policy.None? then Outcome(s, Err(PolicyUnavailable))
      else if env.wantsOverride && |env.justification| < 40 then Outcome(s, Err(OverrideJustificationTooShort))
      else if env.wantsOverride && |OverrideSet(s.actions, tenant, a.incident)| >= cfg.maxBudgetOverrides then
        Outcome(s, Err(OverrideLimit))
      else if !env.wantsOverride && BudgetUsed(s, tenant, a.incident) > BudgetCap(cfg, env.policy.value) then
        var b := Moved(a, Rejected, "budget_exceeded", env.now);
        Outcome(Put(s, b), ErrWith(BudgetExceeded, b))
      else
        var b := Approval(cfg, a, subject, env.policy.value, env);
        Outcome(Put(s, b), Ok(b))
  }

  function Reject(s: State, tenant: string, id: string, reason: string, now: int): Outcome {
    if !Known(s, tenant, id) then Outcome(s, Err(NotFound))
    else
      var a := s.actions[id];
      if a.state != Proposed && a.state != Approved then Outcome(s, Err(IllegalTransition))
      else
        var b := Moved(a, Rejected, reason, now);
        Outcome(Put(s, b), Ok(b))
  }

  // ---------- Execute ----------

  /** What an execution meets, in the order it asks; later is the clock after the executor returns. */
  datatype ExecuteEnv = ExecuteEnv(now: int, resolved: Option<Target>, policy: Option<Policy>,
                                   snapshot: Option<Snapshot>,
                                   executorOk: bool, later: int)

  /** An approved, unexpired action is brought to the point of being called, or fails on the way. */
  datatype Prepared = Ready(action: Action) | Stopped(error: Error, action: Action)

  function Resolve(d: Deps, a: Action, env: ExecuteEnv): Prepared {
    if !d.resolverWired then Ready(a)
    else if env.resolved.None? then Stopped(TargetNotResolvable, Moved(a, Failed, "target_not_resolvable", env.now))
    else if a.proposal.target.resolvedUID != "" && env.resolved.value.resolvedUID != a.proposal.target.resolvedUID then
      Stopped(TargetReplaced, Moved(a, Failed, "target_replaced", env.now))
    else Ready(a.(proposal := a.proposal.(target := env.resolved.value)))
  }

  /** The allowlists are consulted again only when the policy can be read. */
  function Recheck(d: Deps, a: Action, env: ExecuteEnv): Prepared {
    if env.policy.Some? && !d.allowed(a.proposal, env.policy.value) then
      Stopped(NotAllowlisted, Moved(a, Failed, "allowlist_revoked", env.now))
    else if d.snapshotWired && env.snapshot.None? then Stopped(SnapshotFailed, a.(updatedAt := env.now))
    else
      Ready((if d.snapshotWired then a.(preSnapshot := env.snapshot) else a).(state := Executing, updatedAt := env.now))
  }

  function Prepare(d: Deps, a: Action, env: ExecuteEnv): Prepared {
    var r := Resolve(d, a, env);
    if r.Stopped? then r
    else
      var q := Recheck(d, r.action, env);
      if q.Stopped? then q
      else if q.action.executorKind !in d.executors
      then Stopped(UnknownExecutor, Moved(q.action, Failed, "unknown_executor", env.later))
      else if !d.payloadOk(q.action.proposal)
      then Stopped(BadPayload, Moved(q.action, Failed, "bad_payload", env.later))
      else q
  }

  function CallOn(a: Action, env: ExecuteEnv): Call {
    Call(a.id, a.tenant, a.incident, a.proposedBy, a.approvedBy, env.now, a.expiresAt, a.preSnapshot, a.proposal,
         env.policy, a.executorKind)
  }

  function Called(cfg: Config, a: Action, env: ExecuteEnv): Action {
    Moved(a.(executedAt := env.later, verifyDeadline := env.later + cfg.verifyWindow),
          if env.executorOk then Verifying else Failed,
          if env.executorOk then a.stateReason else "executor_failed", env.later)
  }

  function Execute(cfg: Config, d: Deps, s: State, tenant: string, id: string, key: string, env: ExecuteEnv): Outcome {
    if !Known(s, tenant, id) then Outcome(s, Err(NotFound))
    else
      var slot := IdemKey(tenant, "execute", key);
      var replay := Replayed(s, key, slot, d.hashID(id));
      var a := s.actions[id];
      if replay.Some? then Outcome(s, replay.value)
      else if a.state == Approved && a.expiresAt <= env.now then
        var b := a.(state := Expired, updatedAt := env.now);
        Outcome(Put(s, b), ErrWith(ActionExpired, b))
      else if a.state != Approved then Outcome(s, Err(IllegalTransition))
      else
        var ready := Prepare(d, a, env);
        if ready.Stopped? then Outcome(Put(s, ready.action), ErrWith(ready.error, ready.action))
        else
          var b := Called(cfg, ready.action, env);
          Outcome(State(s.actions[b.id := b], s.idem[slot := IdemRecord(d.hashID(id), b)],
                        s.calls + [CallOn(ready.action, env)]),
                  if env.executorOk then Ok(b) else ErrWith(ExecutorFailed, b))
  }

  // ---------- Verify, Rollback, ExpireDue ----------

  function Verify(s: State, tenant: string, id: string, verified: bool, now: int): Outcome {
    if !Known(s, tenant, id) then Outcome(s, Err(NotFound))
    else
      var a := s.actions[id];
      if a.state != Verifying then Outcome(s, Err(IllegalTransition))
      else
        var b := Moved(a.(verified := verified), if verified then Succeeded else Failed,
                       if verified then a.stateReason else "verify_failed", now);
        Outcome(Put(s, b), Ok(b))
  }

  function Rollback(d: Deps, s: State, tenant: string, id: string, reason: string, live: Option<Target>,
                    now: int): Outcome {
    if !Known(s, tenant, id) then Outcome(s, Err(NotFound))
    else
      var a := s.actions[id];
      if a.state != Verifying && a.state != Failed then Outcome(s, Err(IllegalTransition))
      else if d.resolverWired && live.Some? && a.preSnapshot.Some? && a.preSnapshot.value.resourceVersion != "" &&
              live.value.resolvedVersion != a.preSnapshot.value.resourceVersion then
        var b := Moved(a, Failed, "concurrent_modification", now);
        Outcome(Put(s, b), ErrWith(ConcurrentModification, b))
      else
        var b := Moved(a, RolledBack, reason, now);
        Outcome(Put(s, b), Ok(b))
  }

  predicate Due(cfg: Config, a: Action, now: int) {
    (a.state == Proposed && a.createdAt + cfg.proposalTTL <= now) ||
    (a.state == Approved && a.expiresAt != 0 && a.expiresAt <= now)
  }

  function Swept(cfg: Config, a: Action, now: int): Action {
    if Due(cfg, a, now) then a.(state := Expired, updatedAt := now) else a
  }

  function DueSet(cfg: Config, actions: map<string, Action>, now: int): set<string> {
    set id | id in actions && Due(cfg, actions[id], now)
  }

  function SweptAll(cfg: Config, actions: map<string, Action>, now: int): map<string, Action> {
    map id | id in actions :: Swept(cfg, actions[id], now)
  }

  function ExpireDue(cfg: Config, s: State, now: int): State { State(SweptAll(cfg, s.actions, now), s.idem, s.calls) }

  /** A sweep with some actions still to look at. */
  ghost predicate PartlySwept(cfg: Config, was: map<string, Action>, now: int, todo: set<string>,
                              actions: map<string, Action>, n: nat) {
    todo <= was.Keys == actions.Keys && n == |DueSet(cfg, was, now) - todo| &&
    forall id <- was :: actions[id] == if id in todo then was[id] else Swept(cfg, was[id], now)
  }

  lemma SweepStarts(cfg: Config, was: map<string, Action>, now: int)
    ensures PartlySwept(cfg, was, now, was.Keys, was, 0)
  {
    assert DueSet(cfg, was, now) - was.Keys == {};
  }

  lemma SweepStep(cfg: Config, was: map<string, Action>, now: int, todo: set<string>, actions: map<string, Action>,
                  n: nat, id: string)
    requires PartlySwept(cfg, was, now, todo, actions, n) && id in todo
    ensures id in was && id in actions && actions[id] == was[id]
    ensures PartlySwept(cfg, was, now, todo - {id}, actions[id := Swept(cfg, was[id], now)],
                        if Due(cfg, was[id], now) then n + 1 else n)
  {
    hide Due, Swept, DueSet;
    OneLessDue(cfg, was, now, todo, id);
  }

  lemma OneLessDue(cfg: Config, was: map<string, Action>, now: int, todo: set<string>, id: string)
    requires id in todo && todo <= was.Keys
    ensures var due := DueSet(cfg, was, now);
            |due - (todo - {id})| == |due - todo| + if Due(cfg, was[id], now) then 1 else 0
  {
    hide Due;
    var due := DueSet(cfg, was, now);
    assert due - (todo - {id}) == (due - todo) + if id in due then {id} else {};
  }

  lemma SweepEnds(cfg: Config, was: map<string, Action>, now: int, actions: map<string, Action>, n: nat)
    requires PartlySwept(cfg, was, now, {}, actions, n)
    ensures actions == SweptAll(cfg, was, now) && n == |DueSet(cfg, was, now)|
  {
    assert DueSet(cfg, was, now) - {} == DueSet(cfg, was, now);
  }

  // ---------- The code ----------

  class Guard {
    const cfg: Config
    const deps: Deps
    var actions: map<string, Action>
    var idem: map<string, IdemRecord>
    /** Every executor call made. */
    var calls: seq<Call>

    function Current(): State
      reads this
    {
      State(actions, idem, calls)
    }

    constructor (cfg: Config, deps: Deps)
      ensures this.cfg == cfg && this.deps == deps && Current() == Start
    {
      this.cfg, this.deps := cfg, deps;
      actions, idem, calls := map[], map[], [];
    }

    /** Walks the actions in any order, counting those that use the incident's budget. */
    method CountBudget(tenant: string, incident: string) returns (n: nat)
      ensures n == BudgetUsed(Current(), tenant, incident)
    {
      n := 0;
      var todo := actions.Keys;
      ghost var counted: set<string> := {};
      while todo != {}
        invariant todo <= actions.Keys && n == |counted|
        invariant forall id :: id in counted <==>
                    id in actions && id !in todo && CountsToBudget(actions[id], tenant, incident)
        decreases |todo|
      {
        var id :| id in todo;
        todo := todo - {id};
        if CountsToBudget(actions[id], tenant, incident) {
          counted := counted + {id};
          n := n + 1;
        }
      }
      assert counted == BudgetSet(actions, tenant, incident);
    }

    method CountOverrides(tenant: string, incident: string) returns (n: nat)
      ensures n == |OverrideSet(actions, tenant, incident)|
    {
      n := 0;
      var todo := actions.Keys;
      ghost var counted: set<string> := {};
      while todo != {}
        invariant todo <= actions.Keys && n == |counted|
        invariant forall id :: id in counted <==> id !in todo && id in OverrideSet(actions, tenant, incident)
        decreases |todo|
      {
        var id :| id in todo;
        todo := todo - {id};
        if actions[id].tenant == tenant && actions[id].incident == incident && actions[id].overrideUsed {
          counted := counted + {id};
          n := n + 1;
        }
      }
      assert counted == OverrideSet(actions, tenant, incident);
    }

    method CheckIdempotency(key: string, slot: string, hash: string) returns (r: Option<Result>)
      ensures r == Replayed(Current(), key, slot, hash)
    {
      if key == "" { return Some(Err(IdempotencyRequired)); }
      if slot in idem {
        var rec := idem[slot];
        if rec.hash != hash { return Some(Err(IdempotencyReused)); }
        return Some(Ok(rec.action));
      }
      return None;
    }

    method ProposeAction(tenant: string, p: Proposal, subject: string, key: string, env: ProposeEnv)
        returns (result: Result)
      modifies this
      ensures Outcome(Current(), result) == Propose(cfg, deps, old(Current()), tenant, p, subject, key, env)
    {
      hide IdemKey;
      var slot := IdemKey(tenant, "propose", key);
      var replay := CheckIdempotency(key, slot, deps.hashProposal(p));
      if replay.Some? { return replay.value; }
      if env.policy.None? { return Err(PolicyUnavailable); }
      var pol := env.policy.value;
      if !deps.valid(p, pol) { return Err(InvalidProposal); }
      var resolved := p.target;
      if deps.resolverWired {
        if env.resolved.None? { return Err(TargetNotResolvable); }
        resolved := env.resolved.value;
      }
      var q := p.(target := resolved);
      if !deps.allowed(q, pol) { return Err(NotAllowlisted); }
      var budgetCap := if pol.actionBudget == 0 then cfg.defaultBudget else pol.actionBudget;
      var used := CountBudget(tenant, q.incident);
      if used >= budgetCap { return Err(BudgetExceeded); }
      q := q.(riskTier := deps.tier(p.actionType), proposedAt := env.now,
              proposedBy := if p.proposedBy == "" then subject else p.proposedBy, id := env.newID);
      var a := Action(q.id, tenant, q.incident, q, Proposed, "", q.proposedBy, "", 0, 0, cfg.defaultExecutor, None, 0,
                      0,
                      false, false, used + 1, false, "", "", 0, env.now, env.now);
      actions := actions[a.id := a];
      idem := idem[slot := IdemRecord(deps.hashProposal(q), a)];
      return Ok(a);
    }

    method ApproveAction(tenant: string, id: string, subject: string, env: ApproveEnv) returns (result: Result)
      modifies this`actions
      ensures Outcome(Current(), result) == Approve(cfg, deps, old(Current()), tenant, id, subject, env)
    {
      if id !in actions || actions[id].tenant != tenant { return Err(NotFound); }
      var a := actions[id];
      if a.state == Proposed && a.createdAt + cfg.proposalTTL <= env.now {
        a := a.(state := Expired, updatedAt := env.now);
        actions := actions[a.id := a];
        return ErrWith(ActionExpired, a);
      }
      if a.state != Proposed { return Err(IllegalTransition); }
      if !DutySeparated(deps, a, subject, env) { return Err(ApproverMustDiffer); }
      if env.policy.None? { return Err(PolicyUnavailable); }
      if env.wantsOverride {
        if |env.justification| < 40 { return Err(OverrideJustificationTooShort); }
        var used := CountOverrides(tenant, a.incident);
        if used >= cfg.maxBudgetOverrides { return Err(OverrideLimit); }
        a := a.(overrideUsed := true, overrideJustification := env.justification, overriddenBy := subject,
                overriddenAt := env.now);
      } else {
        var budgetCap := BudgetCap(cfg, env.policy.value);
        var used := CountBudget(tenant, a.incident);
        if used > budgetCap {
          a := a.(state := Rejected, stateReason := "budget_exceeded", updatedAt := env.now);
          actions := actions[a.id := a];
          return ErrWith(BudgetExceeded, a);
        }
      }
      var auto := cfg.autoExecuteOnApprove && env.policy.value.autoExecuteAllowed;
      if a.proposal.riskTier == 3 { auto := false; }
      a := a.(state := Approved, approvedBy := subject, approvedAt := env.now, expiresAt := env.now + cfg.approvalTTL,
              autoExecute := auto, updatedAt := env.now);
      actions := actions[a.id := a];
      return Ok(a);
    }

    method RejectAction(tenant: string, id: string, reason: string, now: int) returns (result: Result)
      modifies this`actions
      ensures Outcome(Current(), result) == Reject(old(Current()), tenant, id, reason, now)
    {
      if id !in actions || actions[id].tenant != tenant { return Err(NotFound); }
      var a := actions[id];
      if a.state != Proposed && a.state != Approved { return Err(IllegalTransition); }
      a := a.(state := Rejected, stateReason := reason, updatedAt := now);
      actions := actions[a.id := a];
      return Ok(a);
    }

    static method ResolveAgain(d: Deps, a: Action, env: ExecuteEnv) returns (r: Prepared)
      ensures r == Resolve(d, a, env)
    {
      hide Moved;
      if d.resolverWired {
        if env.resolved.None? {
          return Stopped(TargetNotResolvable, Moved(a, Failed, "target_not_resolvable", env.now));
        }
        if a.proposal.target.resolvedUID != "" && env.resolved.value.resolvedUID != a.proposal.target.resolvedUID {
          return Stopped(TargetReplaced, Moved(a, Failed, "target_replaced", env.now));
        }
        return Ready(a.(proposal := a.proposal.(target := env.resolved.value)));
      }
      return Ready(a);
    }

    static method CheckAgain(d: Deps, action: Action, env: ExecuteEnv) returns (r: Prepared)
      ensures r == Recheck(d, action, env)
    {
      hide Moved;
      var a := action;
      if env.policy.Some? && !d.allowed(a.proposal, env.policy.value) {
        return Stopped(NotAllowlisted, Moved(a, Failed, "allowlist_revoked", env.now));
      }
      if d.snapshotWired {
        if env.snapshot.None? { return Stopped(SnapshotFailed, a.(updatedAt := env.now)); }
        a := a.(preSnapshot := env.snapshot);
      }
      return Ready(a.(state := Executing, updatedAt := env.now));
    }

    static method PrepareCall(d: Deps, action: Action, env: ExecuteEnv) returns (r: Prepared)
      ensures r == Prepare(d, action, env)
    {
      hide Resolve, Recheck, Moved;
      r := ResolveAgain(d, action, env);
      if r.Stopped? { return r; }
      r := CheckAgain(d, r.action, env);
      if r.Stopped? { return r; }
      var a := r.action;
      if a.executorKind !in d.executors {
        return Stopped(UnknownExecutor, Moved(a, Failed, "unknown_executor", env.later));
      }
      if !d.payloadOk(a.proposal) { return Stopped(BadPayload, Moved(a, Failed, "bad_payload", env.later)); }
      return Ready(a);
    }

    method ExecuteAction(tenant: string, id: string, key: string, env: ExecuteEnv) returns (result: Result)
      modifies this
      ensures Outcome(Current(), result) == Execute(cfg, deps, old(Current()), tenant, id, key, env)
    {
      hide IdemKey, Prepare;
      if id !in actions || actions[id].tenant != tenant { return Err(NotFound); }
      var a := actions[id];
      var slot := IdemKey(tenant, "execute", key);
      var replay := CheckIdempotency(key, slot, deps.hashID(id));
      if replay.Some? { return replay.value; }
      if a.state == Approved && a.expiresAt <= env.now {
        a := a.(state := Expired, updatedAt := env.now);
        actions := actions[a.id := a];
        return ErrWith(ActionExpired, a);
      }
      if a.state != Approved { return Err(IllegalTransition); }
      var ready := PrepareCall(deps, a, env);
      a := ready.action;
      if ready.Stopped? {
        actions := actions[a.id := a];
        return ErrWith(ready.error, a);
      }
      calls := calls + [CallOn(a, env)];
      a := a.(executedAt := env.later, verifyDeadline := env.later + cfg.verifyWindow, updatedAt := env.later);
      a := if env.executorOk then a.(state := Verifying) else a.(state := Failed, stateReason := "executor_failed");
      actions := actions[a.id := a];
      idem := idem[slot := IdemRecord(deps.hashID(id), a)];
      return if env.executorOk then Ok(a) else ErrWith(ExecutorFailed, a);
    }

    method VerifyAction(tenant: string, id: string, verified: bool, now: int) returns (result: Result)
      modifies this`actions
      ensures Outcome(Current(), result) == Verify(old(Current()), tenant, id, verified, now)
    {
      if id !in actions || actions[id].tenant != tenant { return Err(NotFound); }
      var a := actions[id];
      if a.state != Verifying { return Err(IllegalTransition); }
      a := a.(verified := verified, updatedAt := now);
      if verified {
        a := a.(state := Succeeded);
      } else {
        a := a.(state := Failed, stateReason := "verify_failed");
      }
      actions := actions[a.id := a];
      return Ok(a);
    }

    method RollbackAction(tenant: string, id: string, reason: string, live: Option<Target>, now: int)
        returns (result: Result)
      modifies this`actions
      ensures Outcome(Current(), result) == Rollback(deps, old(Current()), tenant, id, reason, live, now)
    {
      if id !in actions || actions[id].tenant != tenant { return Err(NotFound); }
      var a := actions[id];
      if a.state != Verifying && a.state != Failed { return Err(IllegalTransition); }
      if deps.resolverWired && live.Some? && a.preSnapshot.Some? && a.preSnapshot.value.resourceVersion != "" &&
         live.value.resolvedVersion != a.preSnapshot.value.resourceVersion {
        a := a.(state := Failed, stateReason := "concurrent_modification", updatedAt := now);
        actions := actions[a.id := a];
        return ErrWith(ConcurrentModification, a);
      }
      a := a.(state := RolledBack, stateReason := reason, updatedAt := now);
      actions := actions[a.id := a];
      return Ok(a);
    }

    static method ExpireOne(cfg: Config, a: Action, now: int) returns (expired: bool, b: Action)
      ensures expired == Due(cfg, a, now) && b == Swept(cfg, a, now)
    {
      if a.state == Proposed {
        if a.createdAt + cfg.proposalTTL <= now { return true, a.(state := Expired, updatedAt := now); }
      } else if a.state == Approved {
        if a.expiresAt != 0 && a.expiresAt <= now { return true, a.(state := Expired, updatedAt := now); }
      }
      return false, a;
    }

    static method ExpireAll(cfg: Config, was: map<string, Action>, now: int)
        returns (actions: map<string, Action>, n: nat)
      ensures actions == SweptAll(cfg, was, now) && n == |DueSet(cfg, was, now)|
    {
      hide Due, Swept, DueSet, SweptAll, PartlySwept;
      actions, n := was, 0;
      var todo := was.Keys;
      SweepStarts(cfg, was, now);
      while todo != {}
        invariant PartlySwept(cfg, was, now, todo, actions, n)
        decreases |todo|
      {
        var id :| id in todo;
        SweepStep(cfg, was, now, todo, actions, n, id);
        todo := todo - {id};
        var due, a := ExpireOne(cfg, actions[id], now);
        actions := actions[id := a];
        if due { n := n + 1; }
      }
      SweepEnds(cfg, was, now, actions, n);
    }

    method ExpireDueActions(now: int) returns (n: nat)
      modifies this`actions
      ensures Current() == ExpireDue(cfg, old(Current()), now)
      ensures n == |DueSet(cfg, old(actions), now)|
    {
      actions, n := ExpireAll(cfg, actions, now);
    }
  }
}
