/** What must have happened before an operation is executed. */
module WalletOperationHistory {
  import opened Bytes
  import opened WalletState
  import opened WalletReducer
  import opened WalletInvariant
  import opened WalletProtocol
  import opened WalletRuns

  predicate InOperation(s: State, id: OperationId) {
    s.flow.Operation? && s.flow.pending.id == id && s.auth.Unlocked?
  }

  /** From step `p`, which accepted the request for operation `id`, up to state `n`
      the session, the policy and the operation are the same, and nothing else was
      requested. */
  predicate Unbroken(r: Run, p: nat, n: nat, id: OperationId)
    requires IsRun(r) && n <= |r.inputs|
  {
    && p < n && r.states[n].auth.Unlocked?
    && r.inputs[p] == Handle(OperationRequested(id, r.states[n].auth.session.host))
    && r.effects[p] == PrepareOperationReview(id) && r.states[p].auth == r.states[n].auth
    && (forall i :: p < i <= n ==>
          InOperation(r.states[i], id) && r.states[i].auth == r.states[n].auth
              && r.states[i].policy == r.states[n].policy)
    && (forall i :: p < i < n ==> !r.effects[i].PrepareOperationReview?)
  }

  predicate NotExecuted(r: Run, p: nat, n: nat)
    requires IsRun(r) && n <= |r.inputs|
  {
    forall i :: p < i < n ==> !r.effects[i].ExecuteOperation?
  }

  /** At step `v` the plan for the operation was accepted under the policy in force. */
  predicate Planned(r: Run, v: nat, n: nat, id: OperationId)
    requires IsRun(r) && n <= |r.inputs|
  {
    && v < n && r.inputs[v].Handle? && r.inputs[v].event.ReviewPrepared? && r.inputs[v].event.operation == id
    && r.states[v].auth.Unlocked? && Permits(r.states[v].policy, r.states[v].auth.session, r.inputs[v].event.plan)
  }

  function PlanAt(r: Run, v: nat): ReviewPlan
    requires v < |r.inputs| && r.inputs[v].Handle? && r.inputs[v].event.ReviewPrepared?
  {
    r.inputs[v].event.plan
  }

  /** How far an operation not yet executing has come at state `n`. */
  predicate Progressed(r: Run, p: nat, v: nat, d: nat, n: nat, id: OperationId)
    requires IsRun(r) && n <= |r.inputs| && r.states[n].flow.Operation?
  {
    match r.states[n].flow.pending.stage
    case PreparingReview => true
    case Displaying(plan) =>
      p < v && Planned(r, v, n, id) && plan == Strengthened(PlanAt(r, v)) && r.effects[v] == RenderOperationReview(id)
    case Reviewing(plan) =>
      && p < v && Planned(r, v, n, id) && plan == Strengthened(PlanAt(r, v)) && r.effects[v] == RenderOperationReview(id)
      && v < d < n && r.inputs[d] == Handle(ReviewDisplayed(id))
    case Executing => true
  }

  /** How the step before a pending operation got there. */
  lemma StepInto(r: Run, n: nat)
    requires IsRun(r) && n < |r.inputs| && r.states[n + 1].flow.Operation?
    ensures r.inputs[n].Handle? && OperationFollows(r.states[n], r.inputs[n].event, r.states[n + 1], r.effects[n])
  {
    StepFollows(r, n);
  }

  lemma UnbrokenExtends(r: Run, p: nat, n: nat, id: OperationId)
    requires IsRun(r) && n < |r.inputs| && Unbroken(r, p, n, id)
    requires InOperation(r.states[n + 1], id) && !r.effects[n].PrepareOperationReview?
    requires r.states[n + 1].auth == r.states[n].auth && r.states[n + 1].policy == r.states[n].policy
    ensures Unbroken(r, p, n + 1, id)
  {
  }

  lemma ProgressedExtends(r: Run, p: nat, v: nat, d: nat, n: nat, id: OperationId) returns (v': nat, d': nat)
    requires IsRun(r) && n < |r.inputs| && r.states[n].flow.Operation? && r.states[n].flow.pending.id == id && p < n
    requires Progressed(r, p, v, d, n, id)
    requires r.inputs[n].Handle? && r.states[n].auth.Unlocked? && r.states[n + 1].flow.Operation?
    requires OperationAdvances(r.states[n], r.inputs[n].event, r.states[n + 1], r.effects[n])
    ensures Progressed(r, p, v', d', n + 1, id)
  {
    v', d' := v, d;
    if r.states[n + 1].flow.pending.stage != r.states[n].flow.pending.stage {
      if r.states[n].flow.pending.stage.PreparingReview? {
        v' := n;
      } else if r.states[n].flow.pending.stage.Displaying? {
        d' := n;
      }
    }
  }

  /** A state with a pending operation has its history. */
  lemma {:induction false} OperationHistory(r: Run, n: nat) returns (p: nat, v: nat, d: nat)
    requires IsRun(r) && n <= |r.inputs| && r.states[n].flow.Operation?
    ensures Unbroken(r, p, n, r.states[n].flow.pending.id)
    ensures Progressed(r, p, v, d, n, r.states[n].flow.pending.id)
    ensures !r.states[n].flow.pending.stage.Executing? ==> NotExecuted(r, p, n)
  {
    if n > 0 {
      StepInto(r, n - 1);
      if r.states[n - 1].flow.Operation? {
        p, v, d := OperationHistory(r, n - 1);
        UnbrokenExtends(r, p, n - 1, r.states[n].flow.pending.id);
        v, d := ProgressedExtends(r, p, v, d, n - 1, r.states[n].flow.pending.id);
      } else {
        p, v, d := n - 1, 0, 0;
      }
    }
  }

  /** Signing plans and public-key exports are never executed silently. */
  predicate NeedsConfirmation(plan: ReviewPlan) {
    plan.Signs() || plan.kind.RequiresConfirmation() || plan.interaction == Confirm
  }

  /** What preceded the execution at step `k`: the request at `p`, the accepted plan
      at `v` and, unless the plan is silent, its rendering there; and for a plan that
      needs confirmation the display at `d` and the confirmation at `k` itself. */
  predicate Authorized(r: Run, p: nat, v: nat, d: nat, k: nat, id: OperationId)
    requires IsRun(r) && k < |r.inputs|
  {
    && Unbroken(r, p, k, id) && NotExecuted(r, p, k)
    && p < v <= k && Planned(r, v, k + 1, id)
    && Permits(r.states[k].policy, r.states[k].auth.session, PlanAt(r, v))
    && (v < k ==> r.effects[v] == RenderOperationReview(id))
    && (v == k ==> Strengthened(PlanAt(r, v)).interaction == Silent)
    && (v < k && !NeedsConfirmation(PlanAt(r, v)) ==> r.inputs[k] == Handle(ReviewDisplayed(id)))
    && (NeedsConfirmation(PlanAt(r, v)) ==>
          v < d < k && r.inputs[d] == Handle(ReviewDisplayed(id)) && r.inputs[k] == Handle(OperationConfirmed(id)))
  }

  /** A plan is confirmed exactly when it needs to be, and silent exactly when it asks
      to be, signs nothing and is of a custom kind. */
  lemma ConfirmIffNeeded(plan: ReviewPlan)
    ensures Strengthened(plan).interaction == Confirm <==> NeedsConfirmation(plan)
    ensures Strengthened(plan).interaction == Silent <==>
            plan.interaction == Silent && !plan.Signs() && plan.kind.CustomOperation?
  {
  }

  /** Nothing is executed without authorization. Every `ExecuteOperation` follows
      the latest request, inside one unbroken session under one policy that admits
      the plan; and a plan that signs, by its flag or by its kind, was rendered,
      displayed and then confirmed. */
  lemma ExecutionIsAuthorized(r: Run, k: nat) returns (p: nat, v: nat, d: nat)
    requires IsRun(r) && k < |r.inputs| && r.effects[k].ExecuteOperation?
    ensures Authorized(r, p, v, d, k, r.effects[k].operation)
  {
    var id := r.effects[k].operation;
    StepFollows(r, k);
    ExecutingStep(r, k);
    p, v, d := OperationHistory(r, k);
    if r.states[k].flow.pending.stage.PreparingReview? {
      v := k;
    }
    ConfirmIffNeeded(PlanAt(r, v));
  }

  /** What an executing step looks like. */
  lemma ExecutingStep(r: Run, k: nat)
    requires IsRun(r) && k < |r.inputs| && r.effects[k].ExecuteOperation?
    ensures var id := r.effects[k].operation;
            && r.inputs[k].Handle? && InOperation(r.states[k], id)
            && r.states[k + 1].flow.Operation? && r.states[k + 1].flow.pending.stage.Executing?
            && match r.states[k].flow.pending.stage
               case PreparingReview =>
                 && r.inputs[k].event.ReviewPrepared? && r.inputs[k].event.operation == id
                 && Permits(r.states[k].policy, r.states[k].auth.session, r.inputs[k].event.plan)
                 && Strengthened(r.inputs[k].event.plan).interaction == Silent
               case Displaying(plan) => plan.interaction == Display && r.inputs[k].event == ReviewDisplayed(id)
               case Reviewing(plan) => plan.interaction == Confirm && r.inputs[k].event == OperationConfirmed(id)
               case Executing => false
  {
    StepFollows(r, k);
  }

  /** A request is executed at most once: between two executions lies a new request. */
  lemma ExecutedAtMostOnce(r: Run, k1: nat, k2: nat) returns (p: nat)
    requires IsRun(r) && k1 < k2 < |r.inputs|
    requires r.effects[k1].ExecuteOperation? && r.effects[k2].ExecuteOperation?
    ensures k1 < p < k2 && r.effects[p] == PrepareOperationReview(r.effects[k2].operation)
  {
    var v, d;
    p, v, d := ExecutionIsAuthorized(r, k2);
  }
}
