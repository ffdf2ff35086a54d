/** `update`: one event of the wallet's life, as a pure step from state to state
    and effect. */
module WalletReducer {
  import opened Bytes
  import opened WalletState

  function Rejected(s: State, reason: RejectReason): Transition {
    Transition(s, Reject(reason))
  }

  function RejectedOperation(s: State, id: OperationId, reason: RejectReason): Transition {
    Transition(s, RejectOperation(id, reason))
  }

  function Wipe(s: State): Transition {
    Transition(s.(lifecycle := Wiping, auth := Unavailable, flow := Idle), WipeWallet)
  }

  // ----- Provisioning -----

  function Start(s: State, id: SetupId, mode: ProvisioningMode, passphrase: PassphraseMode,
                 stage: ProvisioningStage, effect: Effect): Transition
  {
    if !s.lifecycle.Empty? then Rejected(s, AlreadyProvisioned)
    else Transition(s.(lifecycle := Provisioning(id, mode, passphrase, stage)), effect)
  }

  function OnRecoveryMaterialCaptured(s: State, actual: SetupId): Transition {
    if !s.lifecycle.Provisioning? || s.lifecycle.stage != CapturingRecoveryMaterial then Rejected(s, InvalidState)
    else if s.lifecycle.id != actual then Rejected(s, CorrelationMismatch)
    else if !s.lifecycle.mode.Recover? then Rejected(s, InvalidState)
    else Transition(s.(lifecycle := s.lifecycle.(stage := DerivingRecoveredKeyMaterial)),
                    DeriveRecoveredKeyMaterial(s.lifecycle.id))
  }

  function OnKeyMaterialReady(s: State, actual: SetupId): Transition {
    if !s.lifecycle.Provisioning? then Rejected(s, InvalidState)
    else if s.lifecycle.id != actual then Rejected(s, CorrelationMismatch)
    else if s.lifecycle.mode.Create? && s.lifecycle.stage == CreatingKeyMaterial then
      Transition(s.(lifecycle := s.lifecycle.(stage := ShowingBackup)), ShowBackup(s.lifecycle.id))
    else if s.lifecycle.mode.Recover? && s.lifecycle.stage == DerivingRecoveredKeyMaterial then
      Transition(s.(lifecycle := s.lifecycle.(stage := ConfiguringPin)), ConfigurePin(s.lifecycle.id))
    else Rejected(s, InvalidState)
  }

  function AdvanceProvisioning(s: State, actual: SetupId, expected: ProvisioningStage, next: ProvisioningStage,
                               effect: Effect): Transition
  {
    if !s.lifecycle.Provisioning? then Rejected(s, InvalidState)
    else if s.lifecycle.id != actual then Rejected(s, CorrelationMismatch)
    else if s.lifecycle.stage != expected then Rejected(s, InvalidState)
    else Transition(s.(lifecycle := s.lifecycle.(stage := next)), effect)
  }

  /** The metadata a finished provisioning writes. */
  function ProvisionedMetadata(mode: ProvisioningMode, passphrase: PassphraseMode): WalletMetadata {
    match mode
    case Create => WalletMetadata(Generated, Verified, passphrase)
    case Recover(format) => WalletMetadata(Recovered(format), RecoverySource, passphrase)
  }

  function OnProvisioningPersisted(s: State, actual: SetupId): Transition {
    if !s.lifecycle.Provisioning? || s.lifecycle.stage != PersistingWallet then Rejected(s, InvalidState)
    else if s.lifecycle.id != actual then Rejected(s, CorrelationMismatch)
    else
      var metadata := ProvisionedMetadata(s.lifecycle.mode, s.lifecycle.passphrase);
      Transition(s.(lifecycle := Provisioned(metadata), auth := Locked(0), flow := Idle), ProvisioningComplete(actual))
  }

  // ----- Authentication -----

  function OnUnlockRequested(s: State, id: AuthId, host: HostId): Transition {
    if !s.lifecycle.Provisioned? then Rejected(s, NotProvisioned)
    else if !s.flow.Idle? then Rejected(s, Busy)
    else if !s.auth.Locked? then Rejected(s, InvalidState)
    else Transition(s.(auth := ResolvingHost(id, host, s.auth.failedAttempts)), ResolveHostTrust(id, host))
  }

  function OnHostTrustResolved(s: State, actual: AuthId, trust: HostTrust): Transition {
    if !s.auth.ResolvingHost? then Rejected(s, InvalidState)
    else if s.auth.id != actual then Rejected(s, CorrelationMismatch)
    else Transition(s.(auth := VerifyingPin(s.auth.id, s.auth.host, trust, s.auth.failedAttempts)),
                    VerifyPin(s.auth.id, s.auth.host))
  }

  function OnPinVerified(s: State, actual: AuthId): Transition {
    if !s.auth.VerifyingPin? then Rejected(s, InvalidState)
    else if s.auth.id != actual then Rejected(s, CorrelationMismatch)
    else if s.Metadata().None? then Rejected(s, NotProvisioned)
    else if s.Metadata().value.passphrase == Disabled then
      Transition(s.(auth := OpeningSession(s.auth.id, s.auth.host, s.auth.trust, 0)), OpenSession(s.auth.id, s.auth.host))
    else
      Transition(s.(auth := AwaitingPassphrase(s.auth.id, s.auth.host, s.auth.trust, 0)), RequestPassphrase(s.auth.id))
  }

  function SaturatingSub(a: u8, b: u8): u8 {
    if a >= b then a - b else 0
  }

  function OnPinRejected(s: State, actual: AuthId, durable: u8): Transition {
    if !s.auth.VerifyingPin? then Rejected(s, InvalidState)
    else if s.auth.id != actual then Rejected(s, CorrelationMismatch)
    else if durable == 0 || durable <= s.auth.failedAttempts then Rejected(s, InvalidState)
    else if durable >= s.policy.maxPinAttempts && s.policy.pinExhaustion == WipeOnExhaustion then Wipe(s)
    else Transition(s.(auth := Locked(durable)), AuthenticationFailed(SaturatingSub(s.policy.maxPinAttempts, durable)))
  }

  function Open(s: State): Transition
    requires s.auth.AwaitingPassphrase?
  {
    Transition(s.(auth := OpeningSession(s.auth.id, s.auth.host, s.auth.trust, s.auth.failedAttempts)),
               OpenSession(s.auth.id, s.auth.host))
  }

  function OnPassphraseProvided(s: State, actual: AuthId): Transition {
    if !s.auth.AwaitingPassphrase? then Rejected(s, InvalidState)
    else if s.auth.id != actual then Rejected(s, CorrelationMismatch)
    else Open(s)
  }

  function OnPassphraseSkipped(s: State, actual: AuthId): Transition {
    if !s.auth.AwaitingPassphrase? then Rejected(s, InvalidState)
    else if s.auth.id != actual then Rejected(s, CorrelationMismatch)
    else if s.Metadata().None? then Rejected(s, NotProvisioned)
    else if s.Metadata().value.passphrase != Optional then Rejected(s, InvalidState)
    else Open(s)
  }

  function OnSessionOpened(s: State, actual: AuthId, session: SessionId, wallet: WalletContextId): Transition {
    if !s.auth.OpeningSession? then Rejected(s, InvalidState)
    else if s.auth.id != actual then Rejected(s, CorrelationMismatch)
    else Transition(s.(auth := Unlocked(Session(session, s.auth.host, wallet, s.auth.trust))), SessionReady)
  }

  function OnLock(s: State): Transition {
    if s.auth.Unavailable? || s.auth.Locked? then Transition(s.(flow := Idle), NoEffect)
    else Transition(s.(auth := Locked(s.auth.Failures()), flow := Idle), ClearSensitiveState)
  }

  function OnSessionExpired(s: State, session: SessionId): Transition {
    if !s.auth.Unlocked? then Rejected(s, InvalidState)
    else if s.auth.session.id != session then Rejected(s, CorrelationMismatch)
    else OnLock(s)
  }

  /** The host an unlock attempt or a session is bound to. */
  function BoundHost(auth: AuthState): Option<HostId> {
    match auth
    case Unlocked(session) => Some(session.host)
    case Unavailable => None
    case Locked(_) => None
    case _ => Some(auth.host)
  }

  function OnHostDisconnected(s: State, host: HostId): Transition {
    if s.policy.disconnect == KeepSession then Transition(s, NoEffect)
    else if BoundHost(s.auth) == Some(host) then OnLock(s)
    else Transition(s, NoEffect)
  }

  // ----- Pairing -----

  /** What every request from a host must pass; `None` when it may start a flow. */
  function RefuseRequest(s: State, host: HostId): Option<RejectReason> {
    if !s.auth.Unlocked? then Some(IsLocked)
    else if s.auth.session.host != host then Some(WrongHost)
    else if !s.flow.Idle? then Some(Busy)
    else None
  }

  function Request(s: State, host: HostId, flow: FlowState, effect: Effect): Transition {
    match RefuseRequest(s, host)
    case Some(reason) => Rejected(s, reason)
    case None => Transition(s.(flow := flow), effect)
  }

  function OnPairingConfirmed(s: State, actual: PairingId): Transition {
    if !s.flow.Pairing? || s.flow.persisted then Rejected(s, InvalidState)
    else if s.flow.pairing != actual then Rejected(s, CorrelationMismatch)
    else Transition(s.(flow := s.flow.(persisted := true)), PersistTrustedHost(s.flow.pairing, s.flow.host))
  }

  function OnPairingRejected(s: State, actual: PairingId): Transition {
    if !s.flow.Pairing? then Rejected(s, InvalidState)
    else if s.flow.pairing != actual then Rejected(s, CorrelationMismatch)
    else Transition(s.(flow := Idle), PairingWasRejected(actual))
  }

  function OnTrustedHostPersisted(s: State, actual: PairingId): Transition {
    if !s.flow.Pairing? || !s.flow.persisted then Rejected(s, InvalidState)
    else if s.flow.pairing != actual then Rejected(s, CorrelationMismatch)
    else Transition(s.(flow := Idle), PairingComplete(actual))
  }

  // ----- Operations -----

  function OnOperationRequested(s: State, id: OperationId, host: HostId): Transition {
    match RefuseRequest(s, host)
    case Some(reason) => RejectedOperation(s, id, reason)
    case None =>
      var pending := PendingOperation(id, host, s.auth.session.wallet, None, PreparingReview);
      Transition(s.(flow := Operation(pending)), PrepareOperationReview(id))
  }

  function MinimumInteraction(kind: OperationKind, usesPrivateKey: bool): Interaction {
    if usesPrivateKey then Confirm
    else
      match kind
      case ShowAddress => Display
      case CreateAccount => Display
      case CustomOperation(_) => Silent
      case _ => Confirm
  }

  function StrongestInteraction(left: Interaction, right: Interaction): Interaction {
    if left == Confirm || right == Confirm then Confirm
    else if left == Display || right == Display then Display
    else Silent
  }

  /** The plan as it is shown: the key use made explicit, the interaction raised. */
  function Strengthened(plan: ReviewPlan): ReviewPlan {
    plan.(usesPrivateKey := plan.Signs(),
          interaction := StrongestInteraction(plan.interaction, MinimumInteraction(plan.kind, plan.Signs())))
  }

  function OnReviewPrepared(s: State, actual: OperationId, plan: ReviewPlan): Transition {
    if !s.flow.Operation? then Rejected(s, InvalidState)
    else if s.flow.pending.id != actual then Rejected(s, CorrelationMismatch)
    else if s.flow.pending.stage != PreparingReview then RejectedOperation(s, actual, InvalidState)
    else if !s.auth.Unlocked? then RejectedOperation(s.(flow := Idle), actual, IsLocked)
    else if s.auth.session.host != s.flow.pending.host || s.auth.session.wallet != s.flow.pending.wallet then
      RejectedOperation(s.(flow := Idle), actual, InvalidState)
    else if plan.assurance == Blind && s.policy.blindSigning == Deny then
      RejectedOperation(s.(flow := Idle), actual, BlindSigningDisabled)
    else if plan.Signs() && s.policy.signingHosts == TrustedOnly && s.auth.session.trust != Trusted then
      RejectedOperation(s.(flow := Idle), actual, UntrustedHost)
    else
      var shown := Strengthened(plan);
      var pending := s.flow.pending.(kind := Some(plan.kind));
      if shown.interaction == Silent then
        Transition(s.(flow := Operation(pending.(stage := Executing))), ExecuteOperation(actual))
      else
        Transition(s.(flow := Operation(pending.(stage := Displaying(shown)))), RenderOperationReview(actual))
  }

  function OnReviewDisplayed(s: State, actual: OperationId): Transition {
    if !s.flow.Operation? then Rejected(s, InvalidState)
    else if s.flow.pending.id != actual then Rejected(s, CorrelationMismatch)
    else if !s.flow.pending.stage.Displaying? then RejectedOperation(s, actual, InvalidState)
    else
      var plan := s.flow.pending.stage.plan;
      match plan.interaction
      case Display => Transition(s.(flow := Operation(s.flow.pending.(stage := Executing))), ExecuteOperation(actual))
      case Confirm => Transition(s.(flow := Operation(s.flow.pending.(stage := Reviewing(plan)))), NoEffect)
      case Silent => RejectedOperation(s, actual, InvalidState)
  }

  function OnOperationConfirmed(s: State, actual: OperationId): Transition {
    if !s.flow.Operation? then Rejected(s, InvalidState)
    else if s.flow.pending.id != actual then Rejected(s, CorrelationMismatch)
    else if !s.flow.pending.stage.Reviewing? || s.flow.pending.stage.plan.interaction != Confirm then
      RejectedOperation(s, actual, InvalidState)
    else if !s.auth.Unlocked? then RejectedOperation(s.(flow := Idle), actual, IsLocked)
    else if s.auth.session.host != s.flow.pending.host || s.auth.session.wallet != s.flow.pending.wallet then
      RejectedOperation(s.(flow := Idle), actual, InvalidState)
    else Transition(s.(flow := Operation(s.flow.pending.(stage := Executing))), ExecuteOperation(actual))
  }

  function OnOperationRejected(s: State, actual: OperationId): Transition {
    if !s.flow.Operation? then Rejected(s, InvalidState)
    else if s.flow.pending.id != actual then Rejected(s, CorrelationMismatch)
    else if !(s.flow.pending.stage.Displaying? || s.flow.pending.stage.Reviewing?) then
      RejectedOperation(s, actual, InvalidState)
    else RejectedOperation(s.(flow := Idle), actual, UserRejected)
  }

  function OnOperationFinished(s: State, actual: OperationId, success: bool): Transition {
    if !s.flow.Operation? then Rejected(s, InvalidState)
    else if s.flow.pending.id != actual then Rejected(s, CorrelationMismatch)
    else if !s.flow.pending.stage.Executing? then RejectedOperation(s, actual, InvalidState)
    else if success then Transition(s.(flow := Idle), CompleteOperation(actual))
    else RejectedOperation(s.(flow := Idle), actual, ExecutionFailed)
  }

  function OnOperationCancelled(s: State, actual: OperationId): Transition {
    if !s.flow.Operation? then Rejected(s, InvalidState)
    else if s.flow.pending.id != actual then Rejected(s, CorrelationMismatch)
    else Transition(s.(flow := Idle), AbortOperation(actual))
  }

  // ----- Settings -----

  function OnSettingChangeConfirmed(s: State, actual: SettingsId): Transition {
    if !s.flow.Settings? || s.flow.stage != ReviewingSetting then Rejected(s, InvalidState)
    else if s.flow.settings != actual then Rejected(s, CorrelationMismatch)
    else if !s.auth.Unlocked? then Rejected(s, IsLocked)
    else if s.auth.session.host != s.flow.host then Rejected(s, WrongHost)
    else Transition(s.(flow := s.flow.(stage := PersistingSetting)), PersistSettingChange(s.flow.settings, s.flow.change))
  }

  function OnSettingChangeRejected(s: State, actual: SettingsId): Transition {
    if !s.flow.Settings? || s.flow.stage != ReviewingSetting then Rejected(s, InvalidState)
    else if s.flow.settings != actual then Rejected(s, CorrelationMismatch)
    else Transition(s.(flow := Idle), SettingChangeWasRejected(actual))
  }

  /** `downgrade_active_host`; `None` revokes every host. */
  function DowngradeActiveHost(s: State, revoked: Option<HostId>): State {
    if !s.auth.Unlocked? then s
    else if revoked.None? || revoked.value == s.auth.session.host then
      s.(auth := Unlocked(s.auth.session.(trust := Untrusted)))
    else s
  }

  function OnSettingChangePersisted(s: State, actual: SettingsId): Transition {
    if !s.flow.Settings? || s.flow.stage != PersistingSetting then Rejected(s, InvalidState)
    else if s.flow.settings != actual then Rejected(s, CorrelationMismatch)
    else
      var idle := s.(flow := Idle);
      match s.flow.change
      case Security(setting) => Transition(idle.(policy := s.policy.Apply(setting)), SettingChangeComplete(actual))
      case Passphrase(mode) =>
        if s.Metadata().None? then Rejected(idle, NotProvisioned)
        else Transition(idle.(lifecycle := Provisioned(s.Metadata().value.(passphrase := mode))),
            SettingChangeComplete(actual))
      case RevokeHost(host) => Transition(DowngradeActiveHost(idle, Some(host)), SettingChangeComplete(actual))
      case RevokeAllHosts => Transition(DowngradeActiveHost(idle, None), SettingChangeComplete(actual))
  }

  // ----- Maintenance -----

  function OnPinChanged(s: State, actual: MaintenanceId): Transition {
    if !s.flow.Maintenance? then Rejected(s, InvalidState)
    else if s.flow.maintenance != actual then Rejected(s, CorrelationMismatch)
    else if s.flow.kind != ChangePinKind then Rejected(s, InvalidState)
    else Transition(s.(flow := Idle), MaintenanceComplete(actual))
  }

  function OnBackupCheckCompleted(s: State, actual: MaintenanceId, valid: bool): Transition {
    if !s.flow.Maintenance? || s.flow.kind != VerifyBackupKind then Rejected(s, InvalidState)
    else if s.flow.maintenance != actual then Rejected(s, CorrelationMismatch)
    else
      var idle := s.(flow := Idle);
      if !valid then Transition(idle, ReportBackupInvalid(actual))
      else if s.Metadata().None? then Rejected(idle, NotProvisioned)
      else Transition(idle.(lifecycle := Provisioned(s.Metadata().value.(backup := Verified))),
          MaintenanceComplete(actual))
  }

  function OnFactoryResetConfirmed(s: State, actual: MaintenanceId): Transition {
    if !s.flow.FactoryReset? then Rejected(s, InvalidState)
    else if s.flow.maintenance != actual then Rejected(s, CorrelationMismatch)
    else Wipe(s)
  }

  function OnFactoryResetRejected(s: State, actual: MaintenanceId): Transition {
    if !s.flow.FactoryReset? then Rejected(s, InvalidState)
    else if s.flow.maintenance != actual then Rejected(s, CorrelationMismatch)
    else Transition(s.(flow := Idle), FactoryResetWasRejected(actual))
  }

  function OnWipeCompleted(s: State): Transition {
    if !s.lifecycle.Wiping? then Rejected(s, InvalidState)
    else Transition(s.(lifecycle := Empty, auth := Unavailable, flow := Idle), WalletWiped)
  }

  // ----- Failure and tamper -----

  function OnRuntimeFailure(s: State): Transition {
    match s.lifecycle
    case Provisioned(_) => OnLock(s)
    case Provisioning(_, _, _, _) =>
      Transition(s.(lifecycle := Empty, auth := Unavailable, flow := Idle), ClearSensitiveState)
    case _ => Transition(s, NoEffect)
  }

  function OnTamperDetected(s: State): Transition {
    if s.lifecycle.Empty? then Transition(s, NoEffect) else Wipe(s)
  }

  // ----- All events -----

  function Update(s: State, event: Event): Transition {
    match event
    case StartCreate(id, passphrase) => Start(s, id, Create, passphrase, CreatingKeyMaterial, GenerateKeyMaterial(id))
    case StartRecovery(id, format, passphrase) =>
      Start(s, id, Recover(format), passphrase, CapturingRecoveryMaterial, CaptureRecoveryMaterial(id, format))
    case RecoveryMaterialCaptured(id) => OnRecoveryMaterialCaptured(s, id)
    case KeyMaterialReady(id) => OnKeyMaterialReady(s, id)
    case BackupShown(id) => AdvanceProvisioning(s, id, ShowingBackup, VerifyingBackup, ChallengeBackup(id))
    case BackupVerified(id) => AdvanceProvisioning(s, id, VerifyingBackup, ConfiguringPin, ConfigurePin(id))
    case PinConfigured(id) => AdvanceProvisioning(s, id, ConfiguringPin, PersistingWallet, PersistProvisioning(id))
    case ProvisioningPersisted(id) => OnProvisioningPersisted(s, id)

    case UnlockRequested(id, host) => OnUnlockRequested(s, id, host)
    case HostTrustResolved(id, trust) => OnHostTrustResolved(s, id, trust)
    case PinVerified(id) => OnPinVerified(s, id)
    case PinRejected(id, failedAttempts) => OnPinRejected(s, id, failedAttempts)
    case PassphraseProvided(id) => OnPassphraseProvided(s, id)
    case PassphraseSkipped(id) => OnPassphraseSkipped(s, id)
    case SessionOpened(id, session, wallet) => OnSessionOpened(s, id, session, wallet)
    case LockRequested => OnLock(s)
    case SessionExpired(session) => OnSessionExpired(s, session)
    case HostDisconnected(host) => OnHostDisconnected(s, host)

    case PairingRequested(id, host) => Request(s, host, Pairing(id, host, false), RenderPairing(id, host))
    case PairingConfirmed(id) => OnPairingConfirmed(s, id)
    case PairingRejected(id) => OnPairingRejected(s, id)
    case TrustedHostPersisted(id) => OnTrustedHostPersisted(s, id)

    case OperationRequested(id, host) => OnOperationRequested(s, id, host)
    case ReviewPrepared(id, plan) => OnReviewPrepared(s, id, plan)
    case ReviewDisplayed(id) => OnReviewDisplayed(s, id)
    case OperationConfirmed(id) => OnOperationConfirmed(s, id)
    case OperationRejected(id) => OnOperationRejected(s, id)
    case OperationCompleted(id) => OnOperationFinished(s, id, true)
    case OperationFailed(id) => OnOperationFinished(s, id, false)
    case OperationCancelled(id) => OnOperationCancelled(s, id)

    case SettingChangeRequested(id, host, change) =>
      Request(s, host, Settings(id, host, change, ReviewingSetting), RenderSettingChange(id, change))
    case SettingChangeConfirmed(id) => OnSettingChangeConfirmed(s, id)
    case SettingChangeRejected(id) => OnSettingChangeRejected(s, id)
    case SettingChangePersisted(id) => OnSettingChangePersisted(s, id)

    case ChangePinRequested(id, host) => Request(s, host, Maintenance(id, ChangePinKind), ChangePin(id))
    case PinChanged(id) => OnPinChanged(s, id)
    case BackupCheckRequested(id, host) => Request(s, host, Maintenance(id, VerifyBackupKind), VerifyBackup(id))
    case BackupCheckCompleted(id, valid) => OnBackupCheckCompleted(s, id, valid)
    case FactoryResetRequested(id, host) => Request(s, host, FactoryReset(id, host), RenderFactoryResetWarning(id))
    case FactoryResetConfirmed(id) => OnFactoryResetConfirmed(s, id)
    case FactoryResetRejected(id) => OnFactoryResetRejected(s, id)
    case WipeCompleted => OnWipeCompleted(s)

    case RuntimeFailure => OnRuntimeFailure(s)
    case TamperDetected => OnTamperDetected(s)
  }
}
