/** The wallet's non-secret state, the events it handles and the effects it asks
    its runtime for. */
module WalletState {
  import opened Bytes
  import opened CryptoVocabulary

  type u8 = x: int | 0 <= x < 0x100

  type SetupId = u32
  type AuthId = u32
  type HostId = u32
  type SessionId = u32
  type WalletContextId = u32
  type PairingId = u32
  type OperationId = u32
  type MaintenanceId = u32
  type SettingsId = u32

  // ----- Policy -----

  datatype PinExhaustion = LockOnExhaustion | WipeOnExhaustion

  datatype DisconnectPolicy = KeepSession | LockOnDisconnect

  datatype SigningHostPolicy = AnySessionHost | TrustedOnly

  datatype BlindSigningPolicy = Deny | Allow

  datatype PassphraseMode = Disabled | Optional | Required

  datatype SecuritySetting =
    | PinExhaustionSetting(pinExhaustion: PinExhaustion)
    | DisconnectSetting(disconnect: DisconnectPolicy)
    | SigningHostsSetting(signingHosts: SigningHostPolicy)
    | BlindSigningSetting(blindSigning: BlindSigningPolicy)

  datatype SettingChange =
    | Security(setting: SecuritySetting)
    | Passphrase(mode: PassphraseMode)
    | RevokeHost(host: HostId)
    | RevokeAllHosts

  datatype SecurityPolicy = SecurityPolicy(
    maxPinAttempts: u8, pinExhaustion: PinExhaustion, disconnect: DisconnectPolicy,
    signingHosts: SigningHostPolicy, blindSigning: BlindSigningPolicy)
  {
    function Apply(setting: SecuritySetting): SecurityPolicy {
      match setting
      case PinExhaustionSetting(v) => this.(pinExhaustion := v)
      case DisconnectSetting(v) => this.(disconnect := v)
      case SigningHostsSetting(v) => this.(signingHosts := v)
      case BlindSigningSetting(v) => this.(blindSigning := v)
    }
  }

  const STRICT: SecurityPolicy := SecurityPolicy(10, WipeOnExhaustion, LockOnDisconnect, AnySessionHost, Deny)

  // ----- Lifecycle -----

  datatype RecoveryFormat = Mnemonic | Shamir | OtherRecovery(tag: u16)

  datatype ProvisioningMode = Create | Recover(format: RecoveryFormat)

  datatype WalletOrigin = Generated | Recovered(format: RecoveryFormat)

  datatype BackupStatus = Verified | RecoverySource

  datatype WalletMetadata = WalletMetadata(origin: WalletOrigin, backup: BackupStatus, passphrase: PassphraseMode)

  datatype PersistentState = PersistentState(wallet: Option<WalletMetadata>, policy: SecurityPolicy)

  datatype ProvisioningStage =
    | CreatingKeyMaterial
    | CapturingRecoveryMaterial
    | DerivingRecoveredKeyMaterial
    | ShowingBackup
    | VerifyingBackup
    | ConfiguringPin
    | PersistingWallet

  datatype Lifecycle =
    | Empty
    | Provisioning(id: SetupId, mode: ProvisioningMode, passphrase: PassphraseMode, stage: ProvisioningStage)
    | Provisioned(metadata: WalletMetadata)
    | Wiping

  // ----- Authentication -----

  datatype HostTrust = Untrusted | Trusted

  datatype Session = Session(id: SessionId, host: HostId, wallet: WalletContextId, trust: HostTrust)

  datatype AuthState =
    | Unavailable
    | Locked(failedAttempts: u8)
    | ResolvingHost(id: AuthId, host: HostId, failedAttempts: u8)
    | VerifyingPin(id: AuthId, host: HostId, trust: HostTrust, failedAttempts: u8)
    | AwaitingPassphrase(id: AuthId, host: HostId, trust: HostTrust, failedAttempts: u8)
    | OpeningSession(id: AuthId, host: HostId, trust: HostTrust, failedAttempts: u8)
    | Unlocked(session: Session)
  {
    /** `failed_attempts`: the retry count the state remembers. */
    function Failures(): u8 {
      if Unavailable? || Unlocked? then 0 else failedAttempts
    }
  }

  // ----- Foreground flows -----

  datatype ReviewAssurance = Full | Limited | Blind

  datatype Interaction = Silent | Display | Confirm

  datatype OperationKind =
    | ShowAddress
    | ExportPublicKey
    | CreateAccount
    | SignTransaction
    | SignMessage
    | SignTypedData
    | SignArbitraryData
    | CustomOperation(tag: u16)
  {
    predicate UsesPrivateKey() {
      SignTransaction? || SignMessage? || SignTypedData? || SignArbitraryData?
    }

    predicate RequiresConfirmation() {
      ExportPublicKey? || UsesPrivateKey()
    }
  }

  datatype ReviewPlan = ReviewPlan(
    kind: OperationKind, usesPrivateKey: bool, assurance: ReviewAssurance, interaction: Interaction)
  {
    /** A plan uses a private key by its flag or by its kind. */
    predicate Signs() {
      usesPrivateKey || kind.UsesPrivateKey()
    }
  }

  datatype OperationStage = PreparingReview | Reviewing(plan: ReviewPlan) | Displaying(plan: ReviewPlan) | Executing

  datatype PendingOperation = PendingOperation(
    id: OperationId, host: HostId, wallet: WalletContextId, kind: Option<OperationKind>, stage: OperationStage)

  datatype MaintenanceKind = ChangePinKind | VerifyBackupKind

  datatype SettingsStage = ReviewingSetting | PersistingSetting

  datatype FlowState =
    | Idle
    | Operation(pending: PendingOperation)
    | Pairing(pairing: PairingId, host: HostId, persisted: bool)
    | Maintenance(maintenance: MaintenanceId, kind: MaintenanceKind)
    | Settings(settings: SettingsId, host: HostId, change: SettingChange, stage: SettingsStage)
    | FactoryReset(maintenance: MaintenanceId, host: HostId)

  // ----- The state -----

  datatype State = State(lifecycle: Lifecycle, auth: AuthState, flow: FlowState, policy: SecurityPolicy) {
    function Metadata(): Option<WalletMetadata> {
      if lifecycle.Provisioned? then Some(lifecycle.metadata) else None
    }

    /** `persistent_snapshot`. */
    function Snapshot(): Option<PersistentState> {
      match lifecycle
      case Empty => Some(PersistentState(None, policy))
      case Provisioned(metadata) => Some(PersistentState(Some(metadata), policy))
      case _ => None
    }

    /** `execution_context`. */
    function Context(): Option<ExecutionContext> {
      if auth.Unlocked? then Some(ExecutionContext(auth.session.wallet)) else None
    }
  }

  /** `State::new`. */
  function New(policy: SecurityPolicy): State {
    State(Empty, Unavailable, Idle, policy)
  }

  /** `State::restore`. */
  function Restore(persistent: PersistentState): State {
    match persistent.wallet
    case Some(metadata) => State(Provisioned(metadata), Locked(0), Idle, persistent.policy)
    case None => State(Empty, Unavailable, Idle, persistent.policy)
  }

  // ----- Events and effects -----

  datatype Event =
    | StartCreate(setup: SetupId, passphrase: PassphraseMode)
    | StartRecovery(setup: SetupId, format: RecoveryFormat, passphrase: PassphraseMode)
    | RecoveryMaterialCaptured(setup: SetupId)
    | KeyMaterialReady(setup: SetupId)
    | BackupShown(setup: SetupId)
    | BackupVerified(setup: SetupId)
    | PinConfigured(setup: SetupId)
    | ProvisioningPersisted(setup: SetupId)
    | UnlockRequested(auth: AuthId, host: HostId)
    | HostTrustResolved(auth: AuthId, trust: HostTrust)
    | PinVerified(auth: AuthId)
    | PinRejected(auth: AuthId, failedAttempts: u8)
    | PassphraseProvided(auth: AuthId)
    | PassphraseSkipped(auth: AuthId)
    | SessionOpened(auth: AuthId, session: SessionId, wallet: WalletContextId)
    | LockRequested
    | SessionExpired(session: SessionId)
    | HostDisconnected(host: HostId)
    | PairingRequested(pairing: PairingId, host: HostId)
    | PairingConfirmed(pairing: PairingId)
    | PairingRejected(pairing: PairingId)
    | TrustedHostPersisted(pairing: PairingId)
    | OperationRequested(operation: OperationId, host: HostId)
    | ReviewPrepared(operation: OperationId, plan: ReviewPlan)
    | ReviewDisplayed(operation: OperationId)
    | OperationConfirmed(operation: OperationId)
    | OperationRejected(operation: OperationId)
    | OperationCompleted(operation: OperationId)
    | OperationFailed(operation: OperationId)
    | OperationCancelled(operation: OperationId)
    | SettingChangeRequested(settings: SettingsId, host: HostId, change: SettingChange)
    | SettingChangeConfirmed(settings: SettingsId)
    | SettingChangeRejected(settings: SettingsId)
    | SettingChangePersisted(settings: SettingsId)
    | ChangePinRequested(maintenance: MaintenanceId, host: HostId)
    | PinChanged(maintenance: MaintenanceId)
    | BackupCheckRequested(maintenance: MaintenanceId, host: HostId)
    | BackupCheckCompleted(maintenance: MaintenanceId, valid: bool)
    | FactoryResetRequested(maintenance: MaintenanceId, host: HostId)
    | FactoryResetConfirmed(maintenance: MaintenanceId)
    | FactoryResetRejected(maintenance: MaintenanceId)
    | WipeCompleted
    | RuntimeFailure
    | TamperDetected

  datatype RejectReason =
    | NotProvisioned
    | AlreadyProvisioned
    | IsLocked
    | Busy
    | WrongHost
    | UntrustedHost
    | CorrelationMismatch
    | BlindSigningDisabled
    | InvalidState
    | BackupVerificationFailed
    | UserRejected
    | ExecutionFailed
    | Cancelled

  datatype Effect =
    | NoEffect
    | GenerateKeyMaterial(setup: SetupId)
    | CaptureRecoveryMaterial(setup: SetupId, format: RecoveryFormat)
    | DeriveRecoveredKeyMaterial(setup: SetupId)
    | ShowBackup(setup: SetupId)
    | ChallengeBackup(setup: SetupId)
    | ConfigurePin(setup: SetupId)
    | PersistProvisioning(setup: SetupId)
    | ProvisioningComplete(setup: SetupId)
    | ResolveHostTrust(auth: AuthId, host: HostId)
    | VerifyPin(auth: AuthId, host: HostId)
    | RequestPassphrase(auth: AuthId)
    | OpenSession(auth: AuthId, host: HostId)
    | AuthenticationFailed(remainingAttempts: u8)
    | SessionReady
    | ClearSensitiveState
    | RenderPairing(pairing: PairingId, host: HostId)
    | PersistTrustedHost(pairing: PairingId, host: HostId)
    | PairingComplete(pairing: PairingId)
    | PairingWasRejected(pairing: PairingId)
    | PrepareOperationReview(operation: OperationId)
    | RenderOperationReview(operation: OperationId)
    | ExecuteOperation(operation: OperationId)
    | CompleteOperation(operation: OperationId)
    | RejectOperation(operation: OperationId, reason: RejectReason)
    | AbortOperation(operation: OperationId)
    | RenderSettingChange(settings: SettingsId, change: SettingChange)
    | PersistSettingChange(settings: SettingsId, change: SettingChange)
    | SettingChangeComplete(settings: SettingsId)
    | SettingChangeWasRejected(settings: SettingsId)
    | ChangePin(maintenance: MaintenanceId)
    | MaintenanceComplete(maintenance: MaintenanceId)
    | VerifyBackup(maintenance: MaintenanceId)
    | ReportBackupInvalid(maintenance: MaintenanceId)
    | RenderFactoryResetWarning(maintenance: MaintenanceId)
    | FactoryResetWasRejected(maintenance: MaintenanceId)
    | WipeWallet
    | WalletWiped
    | Reject(reason: RejectReason)

  datatype Transition = Transition(state: State, effect: Effect)
}
