/** What one step may do to a reachable state: the invariant is kept, and each part
    of the state moves only along the transitions listed here. */
module WalletProtocol {
  import opened Bytes
  import opened WalletState
  import opened WalletReducer
  import opened WalletInvariant

  /** The policy admits a plan from the host of this session. */
  predicate Permits(policy: SecurityPolicy, session: Session, plan: ReviewPlan) {
    && (plan.assurance == Blind ==> policy.blindSigning == Allow)
    && (plan.Signs() && policy.signingHosts == TrustedOnly ==> session.trust == Trusted)
  }

  // ----- Operations -----

  predicate OperationStarts(s: State, e: Event, t: State, f: Effect)
    requires t.flow.Operation?
  {
    && s.flow.Idle? && s.auth.Unlocked?
    && e == OperationRequested(t.flow.pending.id, s.auth.session.host)
    && f == PrepareOperationReview(t.flow.pending.id)
    && t.flow.pending.stage == PreparingReview
  }

  predicate OperationAdvances(s: State, e: Event, t: State, f: Effect)
    requires s.flow.Operation? && t.flow.Operation? && s.auth.Unlocked?
  {
    var id, from, to := s.flow.pending.id, s.flow.pending.stage, t.flow.pending.stage;
    || (to == from && !f.ExecuteOperation?)
    || (&& from.PreparingReview? && e.ReviewPrepared? && e.operation == id
        && Permits(s.policy, s.auth.session, e.plan)
        && if Strengthened(e.plan).interaction == Silent then to == Executing && f == ExecuteOperation(id)
           else to == Displaying(Strengthened(e.plan)) && f == RenderOperationReview(id))
    || (&& from.Displaying? && e == ReviewDisplayed(id)
        && if from.plan.interaction == Confirm then to == Reviewing(from.plan) && f == NoEffect
           else to == Executing && f == ExecuteOperation(id))
    || (from.Reviewing? && e == OperationConfirmed(id) && to == Executing && f == ExecuteOperation(id))
  }

  /** An operation begins with a request in an idle session and then moves stage by
      stage, while session and policy stand still. */
  predicate OperationFollows(s: State, e: Event, t: State, f: Effect) {
    if t.flow.Operation? then
      && s.auth.Unlocked? && t.auth == s.auth && t.policy == s.policy
      && if s.flow.Operation? then
           s.flow.pending.id == t.flow.pending.id && !f.PrepareOperationReview? && OperationAdvances(s, e, t, f)
         else OperationStarts(s, e, t, f)
    else !f.ExecuteOperation? && !f.PrepareOperationReview?
  }

  // ----- Settings -----

  /** The state waits for the storage, and this is the storage's answer. */
  predicate AwaitedStorage(s: State, e: Event) {
    s.flow.Settings? && s.flow.stage == PersistingSetting && e == SettingChangePersisted(s.flow.settings)
  }

  /** The passphrase mode of one and the same wallet changes. */
  predicate PassphraseChanges(s: State, t: State) {
    && s.lifecycle.Provisioned? && t.lifecycle.Provisioned?
    && t.lifecycle.metadata.passphrase != s.lifecycle.metadata.passphrase
  }

  /** A settings flow is rendered, then confirmed, and ends the moment its change is
      applied; and a change is applied, and reported, exactly at the storage's awaited
      answer. */
  predicate SettingsFollows(s: State, e: Event, t: State, f: Effect) {
    && (t.flow.Settings? ==>
          && s.auth.Unlocked? && t.auth == s.auth && t.policy == s.policy && t.lifecycle == s.lifecycle
          && var id, change := t.flow.settings, t.flow.change;
             || t.flow == s.flow
             || (&& s.flow.Idle? && t.flow.stage == ReviewingSetting
                 && e == SettingChangeRequested(id, s.auth.session.host, change) && f == RenderSettingChange(id, change))
             || (&& s.flow.Settings? && s.flow.stage == ReviewingSetting && t.flow == s.flow.(stage := PersistingSetting)
                 && e == SettingChangeConfirmed(id) && f == PersistSettingChange(id, change)))
    && (if AwaitedStorage(s, e) then Applies(s, s.flow.change, t) && f == SettingChangeComplete(s.flow.settings)
        else t.policy == s.policy && !PassphraseChanges(s, t) && !f.SettingChangeComplete?)
    && (f.PersistSettingChange? ==>
          t.flow.Settings? && t.flow != s.flow && t.flow.settings == f.settings && t.flow.change == f.change)
  }

  // ----- Authentication -----

  /** Each stage of an unlock is entered from the stage before, by its event and
      under its own id, or it is the stage already reached. */
  predicate AuthFollows(s: State, e: Event, t: State, f: Effect) {
    match t.auth
    case Unavailable => true
    case Locked(n) => true
    case ResolvingHost(id, host, n) => t.auth == s.auth || (s.auth == Locked(n) && e == UnlockRequested(id, host))
    case VerifyingPin(id, host, trust, n) =>
      t.auth == s.auth || (s.auth == ResolvingHost(id, host, n) && e == HostTrustResolved(id, trust))
    case AwaitingPassphrase(id, host, trust, _) =>
      || t.auth == s.auth
      || (s.auth.VerifyingPin? && s.auth.id == id && s.auth.host == host && s.auth.trust == trust && e == PinVerified(id)
          && s.lifecycle.Provisioned? && s.lifecycle.metadata.passphrase != Disabled)
    case OpeningSession(id, host, trust, _) =>
      || t.auth == s.auth
      || (s.auth.VerifyingPin? && s.auth.id == id && s.auth.host == host && s.auth.trust == trust && e == PinVerified(id)
          && s.lifecycle.Provisioned? && s.lifecycle.metadata.passphrase == Disabled)
      || (s.auth.AwaitingPassphrase? && s.auth.id == id && s.auth.host == host && s.auth.trust == trust
          && (e == PassphraseProvided(id)
              || (e == PassphraseSkipped(id) && s.lifecycle.Provisioned? && s.lifecycle.metadata.passphrase == Optional)))
    case Unlocked(session) =>
      || (s.auth.Unlocked? && session == s.auth.session)
      || (&& s.auth.Unlocked? && session == s.auth.session.(trust := Untrusted)
          && s.flow.Settings? && s.flow.stage == PersistingSetting && e == SettingChangePersisted(s.flow.settings)
          && s.flow.change in {RevokeHost(session.host), RevokeAllHosts})
      || (s.auth.OpeningSession? && s.auth.host == session.host && s.auth.trust == session.trust
          && e == SessionOpened(s.auth.id, session.id, session.wallet))
  }

  // ----- PIN attempts -----

  /** While the wallet stays provisioned, only a verified PIN lowers the count, and
      every counted rejection raises it. */
  predicate CountFollows(s: State, e: Event, t: State, f: Effect) {
    && (f.AuthenticationFailed? ==>
          CountedRejection(s, e) && t.auth == Locked(e.failedAttempts) && t.lifecycle == s.lifecycle)
    && (s.lifecycle.Provisioned? && t.lifecycle.Provisioned? && t.auth.Failures() < s.auth.Failures() ==>
          s.auth.VerifyingPin? && e == PinVerified(s.auth.id))
    && (s.lifecycle.Provisioned? && !t.lifecycle.Provisioned? ==> t.lifecycle.Wiping? && f == WipeWallet)
  }

  // ----- Lifecycle -----

  /** The event that leads from one provisioning stage to the next. */
  predicate Advances(from: ProvisioningStage, to: ProvisioningStage, id: SetupId, e: Event) {
    match to
    case CreatingKeyMaterial => false
    case CapturingRecoveryMaterial => false
    case DerivingRecoveredKeyMaterial => from == CapturingRecoveryMaterial && e == RecoveryMaterialCaptured(id)
    case ShowingBackup => from == CreatingKeyMaterial && e == KeyMaterialReady(id)
    case VerifyingBackup => from == ShowingBackup && e == BackupShown(id)
    case ConfiguringPin =>
      || (from == VerifyingBackup && e == BackupVerified(id))
      || (from == DerivingRecoveredKeyMaterial && e == KeyMaterialReady(id))
    case PersistingWallet => from == ConfiguringPin && e == PinConfigured(id)
  }

  /** The backup was checked for the flow that waits for it, and found valid. */
  predicate ValidCheck(s: State, e: Event) {
    e.BackupCheckCompleted? && e.valid && s.flow == Maintenance(e.maintenance, VerifyBackupKind)
  }

  /** A setup moves stage by stage; a wallet in use keeps its origin, and its backup
      becomes verified by a valid check and changes by nothing else. */
  predicate LifecycleFollows(s: State, e: Event, t: State, f: Effect) {
    match t.lifecycle
    case Empty => true
    case Wiping => true
    case Provisioning(id, mode, passphrase, stage) =>
      || t.lifecycle == s.lifecycle
      || (s.lifecycle.Empty? && mode == Create && stage == CreatingKeyMaterial && e == StartCreate(id, passphrase))
      || (s.lifecycle.Empty? && mode.Recover? && stage == CapturingRecoveryMaterial
          && e == StartRecovery(id, mode.format, passphrase))
      || (s.lifecycle.Provisioning? && t.lifecycle == s.lifecycle.(stage := stage)
          && Advances(s.lifecycle.stage, stage, id, e))
    case Provisioned(metadata) =>
      || (s.lifecycle.Provisioned? && s.lifecycle.metadata.origin == metadata.origin
          && metadata.backup == (if ValidCheck(s, e) then Verified else s.lifecycle.metadata.backup))
      || (s.lifecycle.Provisioning? && s.lifecycle.stage == PersistingWallet && e == ProvisioningPersisted(s.lifecycle.id)
          && metadata == ProvisionedMetadata(s.lifecycle.mode, s.lifecycle.passphrase))
  }

  // ----- What the runtime is asked to do -----

  /** The request that goes out with a new provisioning stage. */
  function SetupRequest(id: SetupId, mode: ProvisioningMode, stage: ProvisioningStage): Effect {
    match stage
    case CreatingKeyMaterial => GenerateKeyMaterial(id)
    case CapturingRecoveryMaterial => if mode.Recover? then CaptureRecoveryMaterial(id, mode.format) else NoEffect
    case DerivingRecoveredKeyMaterial => DeriveRecoveredKeyMaterial(id)
    case ShowingBackup => ShowBackup(id)
    case VerifyingBackup => ChallengeBackup(id)
    case ConfiguringPin => ConfigurePin(id)
    case PersistingWallet => PersistProvisioning(id)
  }

  /** The request that goes out with a new stage of an unlock. */
  function UnlockRequest(auth: AuthState): Effect {
    match auth
    case ResolvingHost(id, host, _) => ResolveHostTrust(id, host)
    case VerifyingPin(id, host, _, _) => VerifyPin(id, host)
    case AwaitingPassphrase(id, _, _, _) => RequestPassphrase(id)
    case OpeningSession(id, host, _, _) => OpenSession(id, host)
    case _ => SessionReady
  }

  /** A new stage of an unlock is reached, or its end. */
  predicate EntersUnlock(from: AuthState, to: AuthState) {
    || (to != from && (to.ResolvingHost? || to.VerifyingPin? || to.AwaitingPassphrase? || to.OpeningSession?))
    || (to.Unlocked? && !from.Unlocked?)
  }

  /** A counted rejection that uses up the attempts of a wiping policy. */
  predicate ExhaustingRejection(s: State, e: Event) {
    CountedRejection(s, e) && s.policy.pinExhaustion == WipeOnExhaustion && e.failedAttempts >= s.policy.maxPinAttempts
  }

  /** A stage is entered together with its request; secrets are cleared whenever a
      session or an attempt ends; and the wallet is wiped only on used-up attempts,
      on a confirmed reset or on tampering. */
  predicate RequestFollows(s: State, e: Event, t: State, f: Effect) {
    && (t.lifecycle.Provisioning? && t.lifecycle != s.lifecycle ==>
          f == SetupRequest(t.lifecycle.id, t.lifecycle.mode, t.lifecycle.stage))
    && (EntersUnlock(s.auth, t.auth) ==> f == UnlockRequest(t.auth))
    && (BoundHost(s.auth).Some? && BoundHost(t.auth).None? ==>
          f == ClearSensitiveState || f == WipeWallet || f.AuthenticationFailed?)
    && (f == WipeWallet ==>
          && t.lifecycle.Wiping?
          && (e.TamperDetected? || ExhaustingRejection(s, e)
              || (s.flow.FactoryReset? && e == FactoryResetConfirmed(s.flow.maintenance))))
    && (t.lifecycle.Wiping? && !s.lifecycle.Wiping? ==> f == WipeWallet)
  }

  // ----- Pairings, resets and completions -----

  /** A pairing is rendered, confirmed and stored, a reset rendered, for the session's
      host; and only what executes is completed. */
  predicate FlowFollows(s: State, e: Event, t: State, f: Effect) {
    && (t.flow.Pairing? || t.flow.FactoryReset? ==>
          && s.auth.Unlocked? && t.auth == s.auth
          && (|| t.flow == s.flow
              || (&& s.flow.Idle? && t.flow.FactoryReset? && t.flow.host == s.auth.session.host
                  && e == FactoryResetRequested(t.flow.maintenance, t.flow.host)
                      && f == RenderFactoryResetWarning(t.flow.maintenance))
              || (&& s.flow.Idle? && t.flow.Pairing? && t.flow.host == s.auth.session.host && !t.flow.persisted
                  && e == PairingRequested(t.flow.pairing, t.flow.host)
                      && f == RenderPairing(t.flow.pairing, t.flow.host))
              || (&& s.flow.Pairing? && !s.flow.persisted && t.flow == s.flow.(persisted := true)
                  && e == PairingConfirmed(s.flow.pairing) && f == PersistTrustedHost(s.flow.pairing, s.flow.host))))
    && (f.PersistTrustedHost? ==> s.flow.Pairing? && t.flow.Pairing? && t.flow != s.flow)
    && (f.PairingComplete? ==>
          s.flow.Pairing? && s.flow.persisted && f.pairing == s.flow.pairing && e == TrustedHostPersisted(f.pairing))
    && (f.CompleteOperation? ==>
          && s.flow.Operation? && s.flow.pending.id == f.operation && s.flow.pending.stage.Executing?
          && e == OperationCompleted(f.operation) && t.flow.Idle?)
  }

  /** The effect reports the end of this flow under its own id. */
  predicate Answers(flow: FlowState, f: Effect) {
    match flow
    case Idle => true
    case Operation(pending) =>
      f == CompleteOperation(pending.id) || f == AbortOperation(pending.id) || (f.RejectOperation?
          && f.operation == pending.id)
    case Pairing(id, _, _) => f == PairingComplete(id) || f == PairingWasRejected(id)
    case Maintenance(id, kind) => f == MaintenanceComplete(id) || (kind == VerifyBackupKind
        && f == ReportBackupInvalid(id))
    case Settings(id, _, _, _) => f == SettingChangeComplete(id) || f == SettingChangeWasRejected(id)
    case FactoryReset(id, _) => f == FactoryResetWasRejected(id)
  }

  /** No flow ends unanswered, unless its session ends with it; and none is replaced
      by another. */
  predicate EndFollows(s: State, e: Event, t: State, f: Effect) {
    && (!s.flow.Idle? && t.flow.Idle? ==>
          Answers(s.flow, f) || (!t.auth.Unlocked? && (f == ClearSensitiveState || f == WipeWallet)))
    && (s.flow.Maintenance? && !t.flow.Idle? ==> t.flow == s.flow)
    && (t.flow.Maintenance? && t.flow != s.flow ==>
          && s.flow.Idle? && s.auth.Unlocked? && t.auth == s.auth
          && if t.flow.kind == ChangePinKind then
               e == ChangePinRequested(t.flow.maintenance, s.auth.session.host) && f == ChangePin(t.flow.maintenance)
             else
               e == BackupCheckRequested(t.flow.maintenance, s.auth.session.host) && f == VerifyBackup(t.flow.maintenance))
  }

  // ----- Refusals -----

  /** A `Reject` changes nothing; a `RejectOperation` at most ends the operation it
      names; and while wiping only the end of the wipe changes anything. */
  predicate RefusalFollows(s: State, e: Event, t: State, f: Effect) {
    && (f.Reject? ==> t == s)
    && (f.RejectOperation? ==>
          || t == s
          || (s.flow.Operation? && s.flow.pending.id == f.operation && t == s.(flow := Idle)
              && f.reason in {BlindSigningDisabled, UntrustedHost, UserRejected, ExecutionFailed}))
    && (s.lifecycle.Wiping? ==> t == if e == WipeCompleted then New(s.policy) else s)
  }

  predicate Follows(s: State, e: Event, t: State, f: Effect) {
    && OperationFollows(s, e, t, f) && SettingsFollows(s, e, t, f) && AuthFollows(s, e, t, f)
    && CountFollows(s, e, t, f) && LifecycleFollows(s, e, t, f) && RefusalFollows(s, e, t, f)
    && RequestFollows(s, e, t, f) && FlowFollows(s, e, t, f) && EndFollows(s, e, t, f)
    && t.policy.maxPinAttempts == s.policy.maxPinAttempts
  }

  // ----- Every event follows -----

  predicate Keeps(s: State, e: Event) {
    Inv(Update(s, e).state) && Follows(s, e, Update(s, e).state, Update(s, e).effect)
  }

  predicate BeginsProvisioning(e: Event) {
    e.StartCreate? || e.StartRecovery? || e.RecoveryMaterialCaptured? || e.KeyMaterialReady?
  }

  predicate EndsProvisioning(e: Event) {
    e.BackupShown? || e.BackupVerified? || e.PinConfigured? || e.ProvisioningPersisted?
  }

  predicate BeginsUnlock(e: Event) {
    e.UnlockRequested? || e.HostTrustResolved?
  }

  predicate ChecksPin(e: Event) {
    e.PinVerified? || e.PinRejected?
  }

  predicate OpensSession(e: Event) {
    e.PassphraseProvided? || e.PassphraseSkipped? || e.SessionOpened?
  }

  predicate EndsSession(e: Event) {
    e.LockRequested? || e.SessionExpired?
  }

  predicate Disconnects(e: Event) {
    e.HostDisconnected?
  }

  predicate Pairs(e: Event) {
    e.PairingRequested? || e.PairingConfirmed? || e.PairingRejected? || e.TrustedHostPersisted?
  }

  predicate BeginsOperation(e: Event) {
    e.OperationRequested? || e.ReviewPrepared?
  }

  predicate ConfirmsOperation(e: Event) {
    e.ReviewDisplayed? || e.OperationConfirmed?
  }

  predicate EndsOperation(e: Event) {
    e.OperationRejected? || e.OperationCompleted? || e.OperationFailed? || e.OperationCancelled?
  }

  predicate BeginsSetting(e: Event) {
    e.SettingChangeRequested? || e.SettingChangeConfirmed?
  }

  predicate EndsSetting(e: Event) {
    e.SettingChangeRejected? || e.SettingChangePersisted?
  }

  predicate ChangesPin(e: Event) {
    e.ChangePinRequested? || e.PinChanged?
  }

  predicate ChecksBackup(e: Event) {
    e.BackupCheckRequested? || e.BackupCheckCompleted?
  }

  predicate BeginsReset(e: Event) {
    e.FactoryResetRequested?
  }

  predicate EndsReset(e: Event) {
    e.FactoryResetConfirmed? || e.FactoryResetRejected?
  }

  predicate Wipes(e: Event) {
    e.WipeCompleted? || e.TamperDetected?
  }

  predicate Fails(e: Event) {
    e.RuntimeFailure?
  }

  lemma BeginsProvisioningKeeps(s: State, e: Event)
    requires Inv(s) && BeginsProvisioning(e)
    ensures Keeps(s, e)
  {
  }

  lemma EndsProvisioningKeeps(s: State, e: Event)
    requires Inv(s) && EndsProvisioning(e)
    ensures Keeps(s, e)
  {
  }

  lemma BeginsUnlockKeeps(s: State, e: Event)
    requires Inv(s) && BeginsUnlock(e)
    ensures Keeps(s, e)
  {
  }

  lemma PinVerifiedKeeps(s: State, id: AuthId)
    requires Inv(s)
    ensures Keeps(s, PinVerified(id))
  {
  }

  lemma ChecksPinKeeps(s: State, e: Event)
    requires Inv(s) && ChecksPin(e)
    ensures Keeps(s, e)
  {
    if e.PinVerified? {
      PinVerifiedKeeps(s, e.auth);
    }
  }

  lemma SessionOpenedKeeps(s: State, id: AuthId, session: SessionId, wallet: WalletContextId)
    requires Inv(s)
    ensures Keeps(s, SessionOpened(id, session, wallet))
  {
  }

  lemma OpensSessionKeeps(s: State, e: Event)
    requires Inv(s) && OpensSession(e)
    ensures Keeps(s, e)
  {
    if e.SessionOpened? {
      SessionOpenedKeeps(s, e.auth, e.session, e.wallet);
    }
  }

  lemma LockRequestedKeeps(s: State)
    requires Inv(s)
    ensures Keeps(s, LockRequested)
  {
  }

  lemma EndsSessionKeeps(s: State, e: Event)
    requires Inv(s) && EndsSession(e)
    ensures Keeps(s, e)
  {
    if e.LockRequested? {
      LockRequestedKeeps(s);
    }
  }

  lemma DisconnectsKeeps(s: State, e: Event)
    requires Inv(s) && Disconnects(e)
    ensures Keeps(s, e)
  {
  }

  lemma PairsKeeps(s: State, e: Event)
    requires Inv(s) && Pairs(e)
    ensures Keeps(s, e)
  {
  }

  lemma BeginsOperationKeeps(s: State, e: Event)
    requires Inv(s) && BeginsOperation(e)
    ensures Keeps(s, e)
  {
  }

  lemma ConfirmsOperationKeeps(s: State, e: Event)
    requires Inv(s) && ConfirmsOperation(e)
    ensures Keeps(s, e)
  {
  }

  lemma EndsOperationKeeps(s: State, e: Event)
    requires Inv(s) && EndsOperation(e)
    ensures Keeps(s, e)
  {
  }

  lemma BeginsSettingKeeps(s: State, e: Event)
    requires Inv(s) && BeginsSetting(e)
    ensures Keeps(s, e)
  {
  }

  lemma EndsSettingKeeps(s: State, e: Event)
    requires Inv(s) && EndsSetting(e)
    ensures Keeps(s, e)
  {
    if e.SettingChangePersisted? {
      PersistedSettingKeeps(s, e.settings);
    }
  }

  lemma PersistedSettingKeeps(s: State, id: SettingsId)
    requires Inv(s)
    ensures Keeps(s, SettingChangePersisted(id))
  {
  }

  lemma ChangesPinKeeps(s: State, e: Event)
    requires Inv(s) && ChangesPin(e)
    ensures Keeps(s, e)
  {
  }

  lemma ChecksBackupKeeps(s: State, e: Event)
    requires Inv(s) && ChecksBackup(e)
    ensures Keeps(s, e)
  {
  }

  lemma BeginsResetKeeps(s: State, e: Event)
    requires Inv(s) && BeginsReset(e)
    ensures Keeps(s, e)
  {
  }

  lemma ResetConfirmedKeeps(s: State, id: MaintenanceId)
    requires Inv(s)
    ensures Keeps(s, FactoryResetConfirmed(id))
  {
  }

  lemma EndsResetKeeps(s: State, e: Event)
    requires Inv(s) && EndsReset(e)
    ensures Keeps(s, e)
  {
    if e.FactoryResetConfirmed? {
      ResetConfirmedKeeps(s, e.maintenance);
    }
  }

  lemma WipesKeeps(s: State, e: Event)
    requires Inv(s) && Wipes(e)
    ensures Keeps(s, e)
  {
  }

  lemma FailsKeeps(s: State, e: Event)
    requires Inv(s) && Fails(e)
    ensures Keeps(s, e)
  {
  }

  /** In every reachable state every event keeps the invariant and follows the
      transitions above. */
  lemma StepKeeps(s: State, e: Event)
    requires Inv(s)
    ensures Keeps(s, e)
  {
    if BeginsProvisioning(e) {
      BeginsProvisioningKeeps(s, e);
    } else if EndsProvisioning(e) {
      EndsProvisioningKeeps(s, e);
    } else if BeginsUnlock(e) {
      BeginsUnlockKeeps(s, e);
    } else if ChecksPin(e) {
      ChecksPinKeeps(s, e);
    } else if OpensSession(e) {
      OpensSessionKeeps(s, e);
    } else if EndsSession(e) {
      EndsSessionKeeps(s, e);
    } else if Pairs(e) {
      PairsKeeps(s, e);
    } else if BeginsOperation(e) {
      BeginsOperationKeeps(s, e);
    } else if ConfirmsOperation(e) {
      ConfirmsOperationKeeps(s, e);
    } else if EndsOperation(e) {
      EndsOperationKeeps(s, e);
    } else if BeginsSetting(e) {
      BeginsSettingKeeps(s, e);
    } else if EndsSetting(e) {
      EndsSettingKeeps(s, e);
    } else if ChangesPin(e) {
      ChangesPinKeeps(s, e);
    } else if ChecksBackup(e) {
      ChecksBackupKeeps(s, e);
    } else if BeginsReset(e) {
      BeginsResetKeeps(s, e);
    } else if EndsReset(e) {
      EndsResetKeeps(s, e);
    } else if Wipes(e) {
      WipesKeeps(s, e);
    } else if Disconnects(e) {
      DisconnectsKeeps(s, e);
    } else {
      FailsKeeps(s, e);
    }
  }

  /** A `RejectOperation` in a reachable state at most ends the operation it names. */
  lemma RejectedOperationEnds(s: State, e: Event)
    requires Inv(s) && Update(s, e).effect.RejectOperation?
    ensures Update(s, e).state == s
            || (s.flow.Operation? && s.flow.pending.id == Update(s, e).effect.operation
                && Update(s, e).state == s.(flow := Idle)
                && Update(s, e).effect.reason in {BlindSigningDisabled, UntrustedHost, UserRejected, ExecutionFailed})
  {
    StepKeeps(s, e);
  }

  /** While wiping, nothing but the end of the wipe changes the state, and that ends
      in a factory-fresh one. */
  lemma WipingIsFrozen(s: State, e: Event)
    requires Inv(s) && s.lifecycle.Wiping?
    ensures e != WipeCompleted ==> Update(s, e).state == s
    ensures e == WipeCompleted ==> Update(s, e).state == New(s.policy)
  {
    StepKeeps(s, e);
  }
}
