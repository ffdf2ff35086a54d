/** What holds in every reachable wallet state, and what follows for one event. */
module WalletInvariant {
  import opened Bytes
  import opened WalletState
  import opened WalletReducer

  /** A stage belongs to the mode it is reached in. */
  predicate StageFits(mode: ProvisioningMode, stage: ProvisioningStage) {
    match stage
    case CreatingKeyMaterial => mode.Create?
    case ShowingBackup => mode.Create?
    case VerifyingBackup => mode.Create?
    case CapturingRecoveryMaterial => mode.Recover?
    case DerivingRecoveredKeyMaterial => mode.Recover?
    case _ => true
  }

  predicate LifecycleInv(s: State) {
    && (s.auth.Unavailable? <==> !s.lifecycle.Provisioned?)
    && (!s.flow.Idle? ==> s.auth.Unlocked?)
    && (s.lifecycle.Provisioning? ==> StageFits(s.lifecycle.mode, s.lifecycle.stage))
    && (s.auth.AwaitingPassphrase? || s.auth.OpeningSession? ==> s.auth.failedAttempts == 0)
  }

  /** A plan that is on the screen: its key use is explicit, its interaction is at
      least the minimum of its kind, and never silent. */
  predicate ShownPlan(plan: ReviewPlan) {
    && plan.usesPrivateKey == plan.Signs()
    && plan.interaction != Silent
    && (plan.Signs() || plan.kind.RequiresConfirmation() ==> plan.interaction == Confirm)
  }

  predicate OperationInv(pending: PendingOperation, session: Session) {
    && pending.host == session.host && pending.wallet == session.wallet
    && match pending.stage
       case PreparingReview => pending.kind == None
       case Displaying(plan) => ShownPlan(plan) && pending.kind == Some(plan.kind)
       case Reviewing(plan) => ShownPlan(plan) && plan.interaction == Confirm && pending.kind == Some(plan.kind)
       case Executing => pending.kind.Some?
  }

  /** A running flow belongs to the session's host and wallet. */
  predicate FlowInv(flow: FlowState, session: Session) {
    match flow
    case Idle => true
    case Operation(pending) => OperationInv(pending, session)
    case Pairing(_, host, _) => host == session.host
    case Maintenance(_, _) => true
    case Settings(_, host, _, _) => host == session.host
    case FactoryReset(_, host) => host == session.host
  }

  /** No state records as many failures as a wiping policy admits. */
  predicate PinInv(s: State) {
    s.policy.pinExhaustion == WipeOnExhaustion && s.policy.maxPinAttempts >= 1 ==>
      s.auth.Failures() < s.policy.maxPinAttempts
  }

  predicate Inv(s: State) {
    LifecycleInv(s) && PinInv(s) && (s.auth.Unlocked? ==> FlowInv(s.flow, s.auth.session))
  }

  lemma InitialStates(policy: SecurityPolicy, persistent: PersistentState)
    ensures Inv(New(policy)) && Inv(Restore(persistent))
  {
  }

  // ----- Rejections -----

  /** A settings or maintenance flow whose wallet is gone. */
  predicate Stray(s: State, e: Event) {
    && !s.lifecycle.Provisioned?
    && match e
       case SettingChangePersisted(id) =>
         s.flow.Settings? && s.flow.stage == PersistingSetting && s.flow.settings == id && s.flow.change.Passphrase?
       case BackupCheckCompleted(id, valid) =>
         s.flow.Maintenance? && s.flow.kind == VerifyBackupKind && s.flow.maintenance == id && valid
       case _ => false
  }

  /** On any state at all, a `Reject` changes something exactly when it answers the
      end of a flow whose wallet is gone. */
  lemma RejectUnchangedIff(s: State, e: Event)
    requires Update(s, e).effect.Reject?
    ensures Update(s, e).state == s <==> !Stray(s, e)
  {
  }

  /** In a reachable state a `Reject` leaves everything as it was. */
  lemma RejectLeavesState(s: State, e: Event)
    requires Inv(s) && Update(s, e).effect.Reject?
    ensures Update(s, e).state == s
  {
    RejectUnchangedIff(s, e);
  }

  /** `t` is `s` with the change made, the flow ended, and nothing else touched. */
  predicate Applies(s: State, change: SettingChange, t: State) {
    match change
    case Security(setting) => t == s.(flow := Idle, policy := s.policy.Apply(setting))
    case Passphrase(mode) =>
      && s.lifecycle.Provisioned?
      && t == s.(flow := Idle, lifecycle := Provisioned(s.lifecycle.metadata.(passphrase := mode)))
    case RevokeHost(host) =>
      && s.auth.Unlocked?
      && t == s.(flow := Idle,
                 auth := if s.auth.session.host == host then Unlocked(s.auth.session.(trust := Untrusted)) else s.auth)
    case RevokeAllHosts =>
      && s.auth.Unlocked?
      && t == s.(flow := Idle, auth := Unlocked(s.auth.session.(trust := Untrusted)))
  }

  /** The re-checks made on the way are never what stops a flow: in a reachable
      state the confirmation of what is under review always takes effect, and what is
      prepared is refused for one of two reasons only. */
  lemma ConfirmationsTakeEffect(s: State, e: Event)
    requires Inv(s)
    ensures s.flow.Operation? && s.flow.pending.stage.Reviewing? && e == OperationConfirmed(s.flow.pending.id) ==>
              Update(s, e) == Transition(s.(flow := Operation(s.flow.pending.(stage := Executing))),
                                         ExecuteOperation(s.flow.pending.id))
    ensures s.flow.Operation? && s.flow.pending.stage.Displaying? && e == ReviewDisplayed(s.flow.pending.id) ==>
              var plan := s.flow.pending.stage.plan;
              Update(s, e).state
              == s.(flow := Operation(s.flow.pending.(stage := if plan.interaction == Confirm then Reviewing(plan) else Executing)))
    ensures s.flow.Operation? && s.flow.pending.stage.PreparingReview? && e.ReviewPrepared? && e.operation == s.flow.pending.id ==>
              Update(s, e).effect in {ExecuteOperation(e.operation), RenderOperationReview(e.operation),
                                      RejectOperation(e.operation, BlindSigningDisabled),
                                      RejectOperation(e.operation, UntrustedHost)}
    ensures s.flow.Settings? && s.flow.stage == ReviewingSetting && e == SettingChangeConfirmed(s.flow.settings) ==>
              Update(s, e) == Transition(s.(flow := s.flow.(stage := PersistingSetting)),
                                         PersistSettingChange(s.flow.settings, s.flow.change))
  {
  }

  /** So do the answers of the runtime that a reachable state waits for: a stored
      change is made, a valid check verifies the backup, a verified PIN leads on to
      the passphrase or to the session. */
  lemma AwaitedAnswersTakeEffect(s: State, e: Event)
    requires Inv(s)
    ensures s.flow.Settings? && s.flow.stage == PersistingSetting && e == SettingChangePersisted(s.flow.settings) ==>
              Applies(s, s.flow.change, Update(s, e).state) && Update(s, e).effect == SettingChangeComplete(s.flow.settings)
    ensures s.flow.Maintenance? && s.flow.kind == VerifyBackupKind && e == BackupCheckCompleted(s.flow.maintenance, true) ==>
              && s.lifecycle.Provisioned?
              && Update(s, e) == Transition(s.(flow := Idle,
                                               lifecycle := Provisioned(s.lifecycle.metadata.(backup := Verified))),
                                            MaintenanceComplete(s.flow.maintenance))
    ensures s.auth.VerifyingPin? && e == PinVerified(s.auth.id) ==>
              && s.lifecycle.Provisioned?
              && Update(s, e).state.auth
                 == (if s.lifecycle.metadata.passphrase == Disabled then OpeningSession(s.auth.id, s.auth.host, s.auth.trust, 0)
                     else AwaitingPassphrase(s.auth.id, s.auth.host, s.auth.trust, 0))
    ensures s.lifecycle.Provisioning? && s.lifecycle.stage == CapturingRecoveryMaterial
            && e == RecoveryMaterialCaptured(s.lifecycle.id) ==>
              Update(s, e) == Transition(s.(lifecycle := s.lifecycle.(stage := DerivingRecoveredKeyMaterial)),
                                         DeriveRecoveredKeyMaterial(s.lifecycle.id))
  {
  }

  // ----- Who is listened to -----

  /** The host a request to start a flow comes from. */
  function RequestingHost(e: Event): Option<HostId> {
    match e
    case PairingRequested(_, host) => Some(host)
    case OperationRequested(_, host) => Some(host)
    case SettingChangeRequested(_, host, _) => Some(host)
    case ChangePinRequested(_, host) => Some(host)
    case BackupCheckRequested(_, host) => Some(host)
    case FactoryResetRequested(_, host) => Some(host)
    case _ => None
  }

  /** The flow a request starts in a session, and what it asks the runtime for. */
  function StartedFlow(e: Event, session: Session): (FlowState, Effect)
    requires RequestingHost(e).Some?
  {
    match e
    case PairingRequested(id, host) => (Pairing(id, host, false), RenderPairing(id, host))
    case OperationRequested(id, host) =>
      (Operation(PendingOperation(id, host, session.wallet, None, PreparingReview)), PrepareOperationReview(id))
    case SettingChangeRequested(id, host, change) =>
      (Settings(id, host, change, ReviewingSetting), RenderSettingChange(id, change))
    case ChangePinRequested(id, _) => (Maintenance(id, ChangePinKind), ChangePin(id))
    case BackupCheckRequested(id, _) => (Maintenance(id, VerifyBackupKind), VerifyBackup(id))
    case FactoryResetRequested(id, host) => (FactoryReset(id, host), RenderFactoryResetWarning(id))
  }

  function ReasonOf(f: Effect): Option<RejectReason> {
    if f.Reject? || f.RejectOperation? then Some(f.reason) else None
  }

  /** A host's request starts the flow it names exactly when the wallet is unlocked for that
      host and idle, whatever is asked for; otherwise it is refused, a locked wallet
      first, then another host, then a running flow, and nothing changes. */
  lemma RequestStartsFlowIff(s: State, e: Event)
    requires RequestingHost(e).Some?
    ensures var t, host := Update(s, e), RequestingHost(e).value;
            if !s.auth.Unlocked? then ReasonOf(t.effect) == Some(IsLocked) && t.state == s
            else if s.auth.session.host != host then ReasonOf(t.effect) == Some(WrongHost) && t.state == s
            else if !s.flow.Idle? then ReasonOf(t.effect) == Some(Busy) && t.state == s
            else
              var (flow, asked) := StartedFlow(e, s.auth.session);
              t == Transition(s.(flow := flow), asked) && !flow.Idle?
  {
  }

  /** The event answers something, and it is what the state waits for. */
  predicate Addressed(s: State, e: Event) {
    match e
    case RecoveryMaterialCaptured(id) => s.lifecycle.Provisioning? && s.lifecycle.id == id
    case KeyMaterialReady(id) => s.lifecycle.Provisioning? && s.lifecycle.id == id
    case BackupShown(id) => s.lifecycle.Provisioning? && s.lifecycle.id == id
    case BackupVerified(id) => s.lifecycle.Provisioning? && s.lifecycle.id == id
    case PinConfigured(id) => s.lifecycle.Provisioning? && s.lifecycle.id == id
    case ProvisioningPersisted(id) => s.lifecycle.Provisioning? && s.lifecycle.id == id
    case HostTrustResolved(id, _) => s.auth.ResolvingHost? && s.auth.id == id
    case PinVerified(id) => s.auth.VerifyingPin? && s.auth.id == id
    case PinRejected(id, _) => s.auth.VerifyingPin? && s.auth.id == id
    case PassphraseProvided(id) => s.auth.AwaitingPassphrase? && s.auth.id == id
    case PassphraseSkipped(id) => s.auth.AwaitingPassphrase? && s.auth.id == id
    case SessionOpened(id, _, _) => s.auth.OpeningSession? && s.auth.id == id
    case SessionExpired(id) => s.auth.Unlocked? && s.auth.session.id == id
    case PairingConfirmed(id) => s.flow.Pairing? && s.flow.pairing == id
    case PairingRejected(id) => s.flow.Pairing? && s.flow.pairing == id
    case TrustedHostPersisted(id) => s.flow.Pairing? && s.flow.pairing == id
    case ReviewPrepared(id, _) => s.flow.Operation? && s.flow.pending.id == id
    case ReviewDisplayed(id) => s.flow.Operation? && s.flow.pending.id == id
    case OperationConfirmed(id) => s.flow.Operation? && s.flow.pending.id == id
    case OperationRejected(id) => s.flow.Operation? && s.flow.pending.id == id
    case OperationCompleted(id) => s.flow.Operation? && s.flow.pending.id == id
    case OperationFailed(id) => s.flow.Operation? && s.flow.pending.id == id
    case OperationCancelled(id) => s.flow.Operation? && s.flow.pending.id == id
    case SettingChangeConfirmed(id) => s.flow.Settings? && s.flow.settings == id
    case SettingChangeRejected(id) => s.flow.Settings? && s.flow.settings == id
    case SettingChangePersisted(id) => s.flow.Settings? && s.flow.settings == id
    case PinChanged(id) => s.flow.Maintenance? && s.flow.maintenance == id
    case BackupCheckCompleted(id, _) => s.flow.Maintenance? && s.flow.maintenance == id
    case FactoryResetConfirmed(id) => s.flow.FactoryReset? && s.flow.maintenance == id
    case FactoryResetRejected(id) => s.flow.FactoryReset? && s.flow.maintenance == id
    case _ => true
  }

  /** A late or misdirected answer is rejected and changes nothing, in any state. */
  lemma UnaddressedIsRejected(s: State, e: Event)
    requires !Addressed(s, e)
    ensures Update(s, e).state == s
    ensures Update(s, e).effect == Reject(InvalidState) || Update(s, e).effect == Reject(CorrelationMismatch)
  {
  }

  // ----- Settings -----

  function ApplyAll(policy: SecurityPolicy, settings: seq<SecuritySetting>): SecurityPolicy {
    if settings == [] then policy
    else ApplyAll(policy, settings[..|settings| - 1]).Apply(settings[|settings| - 1])
  }

  /** Both settings choose the same part of the policy. */
  predicate SameSubject(a: SecuritySetting, b: SecuritySetting) {
    || (a.PinExhaustionSetting? && b.PinExhaustionSetting?)
    || (a.DisconnectSetting? && b.DisconnectSetting?)
    || (a.SigningHostsSetting? && b.SigningHostsSetting?)
    || (a.BlindSigningSetting? && b.BlindSigningSetting?)
  }

  /** Of two settings on one subject the later wins; on different subjects their order
      is of no account. Their order matters exactly when they contradict each other. */
  lemma SettingsCommuteIff(policy: SecurityPolicy, a: SecuritySetting, b: SecuritySetting)
    ensures SameSubject(a, b) ==> policy.Apply(a).Apply(b) == policy.Apply(b)
    ensures policy.Apply(a).Apply(b) == policy.Apply(b).Apply(a) <==> !SameSubject(a, b) || a == b
  {
  }

  /** Settings reach every policy with the same attempt limit, and no other. */
  lemma PolicyReachableIff(from: SecurityPolicy, to: SecurityPolicy)
    ensures (exists settings :: ApplyAll(from, settings) == to) <==> from.maxPinAttempts == to.maxPinAttempts
  {
    if from.maxPinAttempts == to.maxPinAttempts {
      var settings := [PinExhaustionSetting(to.pinExhaustion), DisconnectSetting(to.disconnect),
                       SigningHostsSetting(to.signingHosts), BlindSigningSetting(to.blindSigning)];
      assert settings[..3][..2] == settings[..2] && settings[..2][..1] == settings[..1] && settings[..1][..0] == [];
      assert ApplyAll(from, settings[..1]) == from.Apply(settings[0]);
      assert ApplyAll(from, settings[..2]) == from.Apply(settings[0]).Apply(settings[1]);
      assert ApplyAll(from, settings[..3]) == from.Apply(settings[0]).Apply(settings[1]).Apply(settings[2]);
      assert ApplyAll(from, settings) == to;
    }
    if settings :| ApplyAll(from, settings) == to {
      LimitIsKept(from, settings);
    }
  }

  lemma {:induction false} LimitIsKept(policy: SecurityPolicy, settings: seq<SecuritySetting>)
    ensures ApplyAll(policy, settings).maxPinAttempts == policy.maxPinAttempts
  {
    if settings != [] {
      LimitIsKept(policy, settings[..|settings| - 1]);
    }
  }

  // ----- Locking -----

  /** What remains of a wallet that is locked: its metadata, its policy and the count
      of wrong PINs. */
  function LockedState(s: State): State {
    s.(auth := if s.lifecycle.Provisioned? then Locked(s.auth.Failures()) else s.auth, flow := Idle)
  }

  /** Locking ends every session, attempt and flow and takes the capability away; a
      second lock changes nothing. An expired session, a lost host under a locking
      policy and a runtime failure of a provisioned wallet are nothing but a lock. */
  lemma LockingSeals(s: State, host: HostId)
    requires Inv(s)
    ensures var locked := Update(s, LockRequested).state;
            locked == LockedState(s) && locked.Context() == None
                && Update(locked, LockRequested) == Transition(locked, NoEffect)
    ensures s.auth.Unlocked? ==> Update(s, SessionExpired(s.auth.session.id)) == Update(s, LockRequested)
    ensures Update(s, HostDisconnected(host))
         == if s.policy.disconnect == LockOnDisconnect && BoundHost(s.auth) == Some(host) then Update(s, LockRequested)
            else Transition(s, NoEffect)
    ensures s.lifecycle.Provisioned? ==> Update(s, RuntimeFailure) == Update(s, LockRequested)
  {
  }

  // ----- Restoring -----

  /** A snapshot restores metadata and policy, locked and without any session or
      flow, and is its own snapshot. */
  lemma RestoredSnapshot(s: State)
    requires Inv(s) && s.Snapshot().Some?
    ensures var r := Restore(s.Snapshot().value);
            && Inv(r) && r.Metadata() == s.Metadata() && r.policy == s.policy && r.Snapshot() == s.Snapshot()
            && r.flow == Idle && r.Context() == None && r.auth.Failures() == 0
            && (r.auth.Locked? <==> s.lifecycle.Provisioned?)
  {
  }

  // ----- PIN attempts -----

  /** A rejection the backend counted: the attempt is the current one and the count
      rose. */
  predicate CountedRejection(s: State, e: Event) {
    && e.PinRejected? && s.auth.VerifyingPin? && s.auth.id == e.auth
    && e.failedAttempts > s.auth.failedAttempts
  }

  /** A counted rejection wipes exactly when the policy wipes and the attempts are
      used up; otherwise it locks with the new count and reports what is left of the limit. Any other rejection is refused. */
  lemma PinRejectionOutcome(s: State, id: AuthId, durable: u8)
    requires Inv(s)
    ensures var t, counted := Update(s, PinRejected(id, durable)), CountedRejection(s, PinRejected(id, durable));
            && (t.effect.AuthenticationFailed? || t.effect == WipeWallet <==> counted)
            && (t.effect == WipeWallet <==>
                  counted && durable >= s.policy.maxPinAttempts && s.policy.pinExhaustion == WipeOnExhaustion)
            && (t.effect.AuthenticationFailed? ==>
                  && t.state == s.(auth := Locked(durable))
                  && (durable <= s.policy.maxPinAttempts ==> t.effect.remainingAttempts + durable == s.policy.maxPinAttempts)
                  && (durable > s.policy.maxPinAttempts ==> t.effect.remainingAttempts == 0))
            && (!counted ==> t.state == s && t.effect.Reject?)
  {
  }
}
