/** What must have happened before a host is trusted, a wallet wiped or an operation
    reported as completed. */
module WalletFlowHistory {
  import opened Bytes
  import opened WalletState
  import opened WalletReducer
  import opened WalletInvariant
  import opened WalletProtocol
  import opened WalletRuns

  lemma FlowStep(r: Run, n: nat)
    requires IsRun(r) && n < |r.inputs|
    requires r.states[n + 1].flow.Pairing? || r.states[n + 1].flow.FactoryReset?
    ensures r.inputs[n].Handle? && r.states[n].auth.Unlocked?
    ensures FlowFollows(r.states[n], r.inputs[n].event, r.states[n + 1], r.effects[n])
  {
    StepFollows(r, n);
  }

  /** From state `a` on, up to state `n`, one and the same session is open. */
  predicate SameSession(r: Run, a: nat, n: nat)
    requires IsRun(r) && n <= |r.inputs|
  {
    r.states[n].auth.Unlocked? && forall m :: a <= m <= n ==> r.states[m].auth == r.states[n].auth
  }

  // ----- Pairing -----

  /** The pairing was requested by the session's host and rendered at step `a`, and
      is the running flow since. */
  predicate PairingRendered(r: Run, a: nat, n: nat, id: PairingId, host: HostId)
    requires IsRun(r) && n <= |r.inputs|
  {
    && a < n && SameSession(r, a, n) && r.states[n].auth.session.host == host
    && r.inputs[a] == Handle(PairingRequested(id, host)) && r.effects[a] == RenderPairing(id, host)
    && forall m :: a < m <= n ==>
         r.states[m].flow.Pairing? && r.states[m].flow.pairing == id && r.states[m].flow.host == host
  }

  /** The pairing was confirmed, and its host handed to the storage, at step `b`. */
  predicate PairingStored(r: Run, a: nat, b: nat, n: nat, id: PairingId, host: HostId)
    requires IsRun(r) && n <= |r.inputs|
  {
    a < b < n && r.inputs[b] == Handle(PairingConfirmed(id)) && r.effects[b] == PersistTrustedHost(id, host)
  }

  /** A pending pairing has its history. */
  lemma {:induction false} PairingHistory(r: Run, n: nat) returns (a: nat, b: nat)
    requires IsRun(r) && n <= |r.inputs| && r.states[n].flow.Pairing?
    ensures PairingRendered(r, a, n, r.states[n].flow.pairing, r.states[n].flow.host)
    ensures r.states[n].flow.persisted ==> PairingStored(r, a, b, n, r.states[n].flow.pairing, r.states[n].flow.host)
  {
    a, b := 0, 0;
    if n > 0 {
      FlowStep(r, n - 1);
      if r.states[n - 1].flow.Pairing? {
        a, b := PairingHistory(r, n - 1);
        if r.states[n].flow != r.states[n - 1].flow {
          b := n - 1;
        }
      } else {
        a := n - 1;
      }
    }
  }

  lemma StoringStep(r: Run, k: nat)
    requires IsRun(r) && k < |r.inputs| && r.effects[k].PersistTrustedHost?
    ensures r.states[k].flow.Pairing? && r.inputs[k] == Handle(PairingConfirmed(r.effects[k].pairing))
    ensures r.states[k].flow.pairing == r.effects[k].pairing && r.states[k].flow.host == r.effects[k].host
  {
    StepFollows(r, k);
  }

  /** A host goes to the trusted storage only when the user confirms the pairing that
      this host, the session's own, requested and that was rendered in this session. */
  lemma TrustedHostIsConfirmed(r: Run, k: nat) returns (a: nat)
    requires IsRun(r) && k < |r.inputs| && r.effects[k].PersistTrustedHost?
    ensures r.inputs[k] == Handle(PairingConfirmed(r.effects[k].pairing))
    ensures PairingRendered(r, a, k, r.effects[k].pairing, r.effects[k].host)
  {
    StoringStep(r, k);
    var b;
    a, b := PairingHistory(r, k);
  }

  lemma PairingEnd(r: Run, k: nat)
    requires IsRun(r) && k < |r.inputs| && r.effects[k].PairingComplete?
    ensures r.states[k].flow.Pairing? && r.states[k].flow.persisted && r.states[k].flow.pairing == r.effects[k].pairing
  {
    StepFollows(r, k);
  }

  /** A pairing is complete only after its host went to the storage. */
  lemma CompletePairingIsStored(r: Run, k: nat) returns (a: nat, b: nat)
    requires IsRun(r) && k < |r.inputs| && r.effects[k].PairingComplete?
    ensures r.states[k].flow.Pairing?
    ensures PairingStored(r, a, b, k, r.effects[k].pairing, r.states[k].flow.host)
  {
    PairingEnd(r, k);
    a, b := PairingHistory(r, k);
  }

  // ----- Wiping -----

  /** The reset was requested by the session's host and its warning rendered at step
      `a`, and is the running flow since. */
  predicate ResetRendered(r: Run, a: nat, n: nat, id: MaintenanceId)
    requires IsRun(r) && n <= |r.inputs|
  {
    && a < n && SameSession(r, a, n)
    && r.inputs[a] == Handle(FactoryResetRequested(id, r.states[n].auth.session.host))
    && r.effects[a] == RenderFactoryResetWarning(id)
    && forall m :: a < m <= n ==> r.states[m].flow.FactoryReset? && r.states[m].flow.maintenance == id
  }

  lemma {:induction false} ResetHistory(r: Run, n: nat) returns (a: nat)
    requires IsRun(r) && n <= |r.inputs| && r.states[n].flow.FactoryReset?
    ensures ResetRendered(r, a, n, r.states[n].flow.maintenance)
  {
    a := 0;
    if n > 0 {
      FlowStep(r, n - 1);
      if r.states[n - 1].flow.FactoryReset? {
        a := ResetHistory(r, n - 1);
      } else {
        a := n - 1;
      }
    }
  }

  lemma WipingStep(r: Run, k: nat)
    requires IsRun(r) && k < |r.inputs| && r.states[k + 1].lifecycle.Wiping? && !r.states[k].lifecycle.Wiping?
    ensures r.effects[k] == WipeWallet && r.inputs[k].Handle?
    ensures var s, e := r.states[k], r.inputs[k].event;
            e.TamperDetected? || ExhaustingRejection(s, e) || (s.flow.FactoryReset?
                && e == FactoryResetConfirmed(s.flow.maintenance))
  {
    StepFollows(r, k);
  }

  /** A wallet is wiped only on tampering, on a counted rejection that uses up the
      attempts of a wiping policy, or on a confirmed reset whose warning was rendered
      in the same session for the session's host. */
  lemma WipeIsJustified(r: Run, k: nat) returns (a: nat)
    requires IsRun(r) && k < |r.inputs| && r.states[k + 1].lifecycle.Wiping? && !r.states[k].lifecycle.Wiping?
    ensures r.effects[k] == WipeWallet && r.inputs[k].Handle?
    ensures var e := r.inputs[k].event;
            || e.TamperDetected?
            || ExhaustingRejection(r.states[k], e)
            || (e.FactoryResetConfirmed? && ResetRendered(r, a, k, e.maintenance))
  {
    WipingStep(r, k);
    a := 0;
    if r.states[k].flow.FactoryReset? {
      a := ResetHistory(r, k);
    }
  }

  // ----- Completed operations -----

  /** The operation was handed out for execution at step `x` and executes since. */
  predicate Executes(r: Run, x: nat, n: nat, id: OperationId)
    requires IsRun(r) && n <= |r.inputs|
  {
    && x < n && r.effects[x] == ExecuteOperation(id)
    && (forall m :: x < m <= n ==>
          r.states[m].flow.Operation? && r.states[m].flow.pending.id == id && r.states[m].flow.pending.stage.Executing?)
    && (forall m :: x < m < n ==> !r.effects[m].ExecuteOperation?)
  }

  lemma ExecutionStep(r: Run, n: nat)
    requires IsRun(r) && n < |r.inputs|
    requires r.states[n + 1].flow.Operation? && r.states[n + 1].flow.pending.stage.Executing?
    ensures r.states[n].flow.Operation? && r.states[n].flow.pending.id == r.states[n + 1].flow.pending.id
    ensures if r.states[n].flow.pending.stage.Executing? then !r.effects[n].ExecuteOperation?
            else r.effects[n] == ExecuteOperation(r.states[n].flow.pending.id)
  {
    StepFollows(r, n);
  }

  lemma {:induction false} ExecutionHistory(r: Run, n: nat) returns (x: nat)
    requires IsRun(r) && n <= |r.inputs| && r.states[n].flow.Operation? && r.states[n].flow.pending.stage.Executing?
    ensures Executes(r, x, n, r.states[n].flow.pending.id)
  {
    x := 0;
    if n > 0 {
      ExecutionStep(r, n - 1);
      if r.states[n - 1].flow.pending.stage.Executing? {
        x := ExecutionHistory(r, n - 1);
      } else {
        x := n - 1;
      }
    }
  }

  lemma CompletionStep(r: Run, k: nat)
    requires IsRun(r) && k < |r.inputs| && r.effects[k].CompleteOperation?
    ensures r.states[k].flow.Operation? && r.states[k].flow.pending.id == r.effects[k].operation
    ensures r.states[k].flow.pending.stage.Executing? && r.states[k + 1].flow.Idle?
  {
    StepFollows(r, k);
  }

  /** An operation is completed only after it was handed out for execution, once, and
      nothing else was in between. */
  lemma CompletionFollowsExecution(r: Run, k: nat) returns (x: nat)
    requires IsRun(r) && k < |r.inputs| && r.effects[k].CompleteOperation?
    ensures Executes(r, x, k, r.effects[k].operation) && r.states[k + 1].flow.Idle?
  {
    CompletionStep(r, k);
    x := ExecutionHistory(r, k);
  }

  // ----- Answers -----

  /** Whatever flow ends, its end is reported under its own id, unless the session
      ended with it and its secrets were cleared or wiped. */
  lemma EndedFlowIsAnswered(r: Run, k: nat)
    requires IsRun(r) && k < |r.inputs| && r.inputs[k].Handle?
    requires !r.states[k].flow.Idle? && r.states[k + 1].flow.Idle?
    ensures || Answers(r.states[k].flow, r.effects[k])
            || (!r.states[k + 1].auth.Unlocked? && (r.effects[k] == ClearSensitiveState || r.effects[k] == WipeWallet))
  {
    StepFollows(r, k);
  }

  // ----- Secrets -----

  /** Whenever a session or an unlock attempt ends, other than by a reboot, the
      runtime is told to clear its secrets, to wipe the wallet, or that the PIN was
      wrong. */
  lemma EndedSessionIsCleared(r: Run, k: nat)
    requires IsRun(r) && k < |r.inputs| && r.inputs[k].Handle?
    requires BoundHost(r.states[k].auth).Some? && BoundHost(r.states[k + 1].auth).None?
    ensures r.effects[k] == ClearSensitiveState || r.effects[k] == WipeWallet || r.effects[k].AuthenticationFailed?
  {
    StepFollows(r, k);
  }
}
