/** What the wallet does when it gets the answers it waits for: every setup, unlock and
    flow can be brought to its end. */
module WalletAnswers {
  import opened Bytes
  import opened WalletState
  import opened WalletReducer
  import opened WalletInvariant
  import opened WalletProtocol
  import opened WalletRuns

  /** One after the other these events lead through these states, with these effects. */
  predicate Leads(states: seq<State>, events: seq<Event>, effects: seq<Effect>) {
    && |states| == |events| + 1 && |effects| == |events|
    && forall i :: 0 <= i < |events| ==> LeadsAt(states, events, effects, i)
  }

  predicate LeadsAt(states: seq<State>, events: seq<Event>, effects: seq<Effect>, i: nat)
    requires |states| == |events| + 1 && |effects| == |events| && i < |events|
  {
    Update(states[i], events[i]) == Transition(states[i + 1], effects[i])
  }

  /** So they do behind any run that has come to the first of these states. */
  lemma RunGoesOn(r: Run, states: seq<State>, events: seq<Event>, effects: seq<Effect>) returns (x: Run)
    requires IsRun(r) && Leads(states, events, effects) && r.states[|r.inputs|] == states[0]
    ensures IsRun(x) && x.states == r.states + states[1..] && x.effects == r.effects + effects
    ensures |x.inputs| == |r.inputs| + |events| && x.inputs[..|r.inputs|] == r.inputs
    ensures forall i :: 0 <= i < |events| ==> x.inputs[|r.inputs| + i] == Handle(events[i])
  {
    var n := |r.inputs|;
    x := Run(r.states + states[1..], r.inputs + seq(|events|, i requires 0 <= i < |events| => Handle(events[i])),
             r.effects + effects);
    forall i | 0 <= i < |x.inputs| ensures StepAt(x, i) {
      if i < n {
        assert StepAt(r, i);
      } else {
        assert LeadsAt(states, events, effects, i - n);
        assert x.states[i] == states[i - n] && x.states[i + 1] == states[i - n + 1];
      }
    }
  }

  // ----- Setting up -----

  /** A wallet is created from a fresh device in these six steps. */
  lemma CreationCompletes(s: State, id: SetupId, passphrase: PassphraseMode) returns (states: seq<State>)
    requires Inv(s) && s.lifecycle.Empty?
    ensures Leads(states,
                  [StartCreate(id, passphrase), KeyMaterialReady(id), BackupShown(id), BackupVerified(id),
                   PinConfigured(id), ProvisioningPersisted(id)],
                  [GenerateKeyMaterial(id), ShowBackup(id), ChallengeBackup(id), ConfigurePin(id),
                   PersistProvisioning(id), ProvisioningComplete(id)])
    ensures states[0] == s
    ensures states[6] == State(Provisioned(WalletMetadata(Generated, Verified, passphrase)), Locked(0), Idle, s.policy)
  {
    states := [s,
               s.(lifecycle := Provisioning(id, Create, passphrase, CreatingKeyMaterial)),
               s.(lifecycle := Provisioning(id, Create, passphrase, ShowingBackup)),
               s.(lifecycle := Provisioning(id, Create, passphrase, VerifyingBackup)),
               s.(lifecycle := Provisioning(id, Create, passphrase, ConfiguringPin)),
               s.(lifecycle := Provisioning(id, Create, passphrase, PersistingWallet)),
               State(Provisioned(WalletMetadata(Generated, Verified, passphrase)), Locked(0), Idle, s.policy)];
  }

  /** And recovered in these five. */
  lemma RecoveryCompletes(s: State, id: SetupId, format: RecoveryFormat, passphrase: PassphraseMode)
    returns (states: seq<State>)
    requires Inv(s) && s.lifecycle.Empty?
    ensures Leads(states,
                  [StartRecovery(id, format, passphrase), RecoveryMaterialCaptured(id), KeyMaterialReady(id),
                   PinConfigured(id), ProvisioningPersisted(id)],
                  [CaptureRecoveryMaterial(id, format), DeriveRecoveredKeyMaterial(id), ConfigurePin(id),
                   PersistProvisioning(id), ProvisioningComplete(id)])
    ensures states[0] == s
    ensures states[5]
         == State(Provisioned(WalletMetadata(Recovered(format), RecoverySource, passphrase)), Locked(0), Idle, s.policy)
  {
    states := [s,
               s.(lifecycle := Provisioning(id, Recover(format), passphrase, CapturingRecoveryMaterial)),
               s.(lifecycle := Provisioning(id, Recover(format), passphrase, DerivingRecoveredKeyMaterial)),
               s.(lifecycle := Provisioning(id, Recover(format), passphrase, ConfiguringPin)),
               s.(lifecycle := Provisioning(id, Recover(format), passphrase, PersistingWallet)),
               State(Provisioned(WalletMetadata(Recovered(format), RecoverySource, passphrase)), Locked(0), Idle, s.policy)];
  }

  // ----- Unlocking -----

  /** A locked wallet without a passphrase opens a session for the host that asked, with
      the trust it was resolved to. */
  lemma UnlockCompletes(s: State, id: AuthId, host: HostId, trust: HostTrust, session: SessionId, wallet: WalletContextId)
    returns (states: seq<State>)
    requires Inv(s) && s.lifecycle.Provisioned? && s.lifecycle.metadata.passphrase == Disabled && s.auth.Locked?
    ensures Leads(states,
                  [UnlockRequested(id, host), HostTrustResolved(id, trust), PinVerified(id), SessionOpened(id, session, wallet)],
                  [ResolveHostTrust(id, host), VerifyPin(id, host), OpenSession(id, host), SessionReady])
    ensures states[0] == s && states[4] == s.(auth := Unlocked(Session(session, host, wallet, trust)))
  {
    states := [s,
               s.(auth := ResolvingHost(id, host, s.auth.failedAttempts)),
               s.(auth := VerifyingPin(id, host, trust, s.auth.failedAttempts)),
               s.(auth := OpeningSession(id, host, trust, 0)),
               s.(auth := Unlocked(Session(session, host, wallet, trust)))];
  }

  /** A wallet with a passphrase asks for it first; skipping it is enough exactly where
      it is optional. */
  lemma PassphraseUnlockCompletes(s: State, id: AuthId, host: HostId, trust: HostTrust, session: SessionId,
                                  wallet: WalletContextId, answer: Event)
    returns (states: seq<State>)
    requires Inv(s) && s.lifecycle.Provisioned? && s.lifecycle.metadata.passphrase != Disabled && s.auth.Locked?
    requires answer == PassphraseProvided(id)
             || (answer == PassphraseSkipped(id) && s.lifecycle.metadata.passphrase == Optional)
    ensures Leads(states,
                  [UnlockRequested(id, host), HostTrustResolved(id, trust), PinVerified(id), answer,
                   SessionOpened(id, session, wallet)],
                  [ResolveHostTrust(id, host), VerifyPin(id, host), RequestPassphrase(id), OpenSession(id, host), SessionReady])
    ensures states[0] == s && states[5] == s.(auth := Unlocked(Session(session, host, wallet, trust)))
  {
    states := [s,
               s.(auth := ResolvingHost(id, host, s.auth.failedAttempts)),
               s.(auth := VerifyingPin(id, host, trust, s.auth.failedAttempts)),
               s.(auth := AwaitingPassphrase(id, host, trust, 0)),
               s.(auth := OpeningSession(id, host, trust, 0)),
               s.(auth := Unlocked(Session(session, host, wallet, trust)))];
  }

  /** The answer each stage of an unlock waits for, with the stage it leads to and the
      request that goes out. */
  function UnlockAnswer(s: State, e: Event): Option<(AuthState, Effect)>
    requires Inv(s)
  {
    match s.auth
    case Unavailable => None
    case Locked(_) => None
    case ResolvingHost(id, host, n) =>
      if e.HostTrustResolved? && e.auth == id then Some((VerifyingPin(id, host, e.trust, n), VerifyPin(id, host))) else None
    case VerifyingPin(id, host, trust, _) =>
      if e != PinVerified(id) then None
      else if s.lifecycle.metadata.passphrase == Disabled then
        Some((OpeningSession(id, host, trust, 0), OpenSession(id, host)))
      else Some((AwaitingPassphrase(id, host, trust, 0), RequestPassphrase(id)))
    case AwaitingPassphrase(id, host, trust, _) =>
      if e == PassphraseProvided(id) || (e == PassphraseSkipped(id) && s.lifecycle.metadata.passphrase == Optional) then
        Some((OpeningSession(id, host, trust, 0), OpenSession(id, host)))
      else None
    case OpeningSession(id, host, trust, _) =>
      if e.SessionOpened? && e.auth == id then
        Some((Unlocked(Session(e.session, host, e.wallet, trust)), SessionReady))
      else None
    case Unlocked(_) => None
  }

  /** In every reachable state they take that effect and no other. */
  lemma UnlockAnswersTakeEffect(s: State, e: Event)
    requires Inv(s) && UnlockAnswer(s, e).Some?
    ensures var (auth, request) := UnlockAnswer(s, e).value;
            Update(s, e) == Transition(s.(auth := auth), request)
  {
  }

  /** Where the passphrase is required, skipping it is refused. */
  lemma RequiredIsNotSkipped(s: State, id: AuthId)
    requires Inv(s) && s.auth.AwaitingPassphrase?
    ensures Update(s, PassphraseSkipped(id)).effect.Reject? <==>
            s.auth.id != id || s.lifecycle.metadata.passphrase != Optional
    ensures Update(s, PassphraseSkipped(id)).effect.Reject? ==> Update(s, PassphraseSkipped(id)).state == s
  {
  }

  // ----- Operations -----

  /** A plan whose interaction is confirmation, as it was prepared or by what it does. */
  predicate NeedsConfirmation(plan: ReviewPlan) {
    plan.Signs() || plan.kind.ExportPublicKey? || plan.interaction == Confirm
  }

  /** A plan that may go without: a custom one that asks for nothing. */
  predicate GoesSilently(plan: ReviewPlan) {
    !plan.Signs() && plan.kind.CustomOperation? && plan.interaction == Silent
  }

  /** The state of an unlocked wallet with this operation under way. */
  function WithOperation(s: State, id: OperationId, kind: Option<OperationKind>, stage: OperationStage): State
    requires s.auth.Unlocked?
  {
    s.(flow := Operation(PendingOperation(id, s.auth.session.host, s.auth.session.wallet, kind, stage)))
  }

  /** An admitted plan that needs it is rendered, displayed and confirmed as it was
      prepared, its kind and assurance included, and then executed and completed. */
  lemma ConfirmedOperationCompletes(s: State, id: OperationId, plan: ReviewPlan) returns (states: seq<State>)
    requires s.auth.Unlocked? && s.flow.Idle? && Permits(s.policy, s.auth.session, plan) && NeedsConfirmation(plan)
    ensures Leads(states,
                  [OperationRequested(id, s.auth.session.host), ReviewPrepared(id, plan), ReviewDisplayed(id),
                   OperationConfirmed(id), OperationCompleted(id)],
                  [PrepareOperationReview(id), RenderOperationReview(id), NoEffect, ExecuteOperation(id), CompleteOperation(id)])
    ensures states[0] == s && states[5] == s
    ensures states[2] == WithOperation(s, id, Some(plan.kind), Displaying(ReviewPlan(plan.kind, plan.Signs(), plan.assurance, Confirm)))
    ensures states[3] == WithOperation(s, id, Some(plan.kind), Reviewing(ReviewPlan(plan.kind, plan.Signs(), plan.assurance, Confirm)))
  {
    var shown := ReviewPlan(plan.kind, plan.Signs(), plan.assurance, Confirm);
    states := [s,
               WithOperation(s, id, None, PreparingReview),
               WithOperation(s, id, Some(plan.kind), Displaying(shown)),
               WithOperation(s, id, Some(plan.kind), Reviewing(shown)),
               WithOperation(s, id, Some(plan.kind), Executing),
               s];
  }

  /** Any other admitted plan that does not go silently is executed once displayed. */
  lemma DisplayedOperationCompletes(s: State, id: OperationId, plan: ReviewPlan) returns (states: seq<State>)
    requires s.auth.Unlocked? && s.flow.Idle? && Permits(s.policy, s.auth.session, plan)
    requires !NeedsConfirmation(plan) && !GoesSilently(plan)
    ensures Leads(states,
                  [OperationRequested(id, s.auth.session.host), ReviewPrepared(id, plan), ReviewDisplayed(id),
                   OperationCompleted(id)],
                  [PrepareOperationReview(id), RenderOperationReview(id), ExecuteOperation(id), CompleteOperation(id)])
    ensures states[0] == s && states[4] == s
    ensures states[2] == WithOperation(s, id, Some(plan.kind), Displaying(ReviewPlan(plan.kind, false, plan.assurance, Display)))
  {
    var shown := ReviewPlan(plan.kind, false, plan.assurance, Display);
    states := [s,
               WithOperation(s, id, None, PreparingReview),
               WithOperation(s, id, Some(plan.kind), Displaying(shown)),
               WithOperation(s, id, Some(plan.kind), Executing),
               s];
  }

  lemma SilentOperationCompletes(s: State, id: OperationId, plan: ReviewPlan) returns (states: seq<State>)
    requires s.auth.Unlocked? && s.flow.Idle? && Permits(s.policy, s.auth.session, plan) && GoesSilently(plan)
    ensures Leads(states,
                  [OperationRequested(id, s.auth.session.host), ReviewPrepared(id, plan), OperationCompleted(id)],
                  [PrepareOperationReview(id), ExecuteOperation(id), CompleteOperation(id)])
    ensures states[0] == s && states[3] == s
  {
    states := [s,
               WithOperation(s, id, None, PreparingReview),
               WithOperation(s, id, Some(plan.kind), Executing),
               s];
  }

  /** A plan the policy does not admit ends its operation, blind signing first. */
  lemma UnadmittedIsRefused(s: State, id: OperationId, plan: ReviewPlan)
    requires Inv(s) && s.flow.Operation? && s.flow.pending.stage == PreparingReview && s.flow.pending.id == id
    requires !Permits(s.policy, s.auth.session, plan)
    ensures Update(s, ReviewPrepared(id, plan))
         == Transition(s.(flow := Idle),
                       RejectOperation(id, if plan.assurance == Blind && s.policy.blindSigning == Deny
                                           then BlindSigningDisabled else UntrustedHost))
  {
  }

  // ----- The other flows -----

  lemma PairingCompletes(s: State, id: PairingId) returns (states: seq<State>)
    requires s.auth.Unlocked? && s.flow.Idle?
    ensures Leads(states,
                  [PairingRequested(id, s.auth.session.host), PairingConfirmed(id), TrustedHostPersisted(id)],
                  [RenderPairing(id, s.auth.session.host), PersistTrustedHost(id, s.auth.session.host), PairingComplete(id)])
    ensures states[0] == s && states[3] == s
  {
    var host := s.auth.session.host;
    states := [s, s.(flow := Pairing(id, host, false)), s.(flow := Pairing(id, host, true)), s];
  }

  lemma SettingCompletes(s: State, id: SettingsId, change: SettingChange) returns (states: seq<State>)
    requires Inv(s) && s.auth.Unlocked? && s.flow.Idle?
    ensures Leads(states,
                  [SettingChangeRequested(id, s.auth.session.host, change), SettingChangeConfirmed(id), SettingChangePersisted(id)],
                  [RenderSettingChange(id, change), PersistSettingChange(id, change), SettingChangeComplete(id)])
    ensures states[0] == s && Applies(s, change, states[3])
  {
    var host := s.auth.session.host;
    var waiting := s.(flow := Settings(id, host, change, PersistingSetting));
    states := [s, s.(flow := Settings(id, host, change, ReviewingSetting)), waiting,
               Update(waiting, SettingChangePersisted(id)).state];
  }

  /** A PIN change and a backup check; a valid check marks the backup verified, an invalid
      one is reported. */
  lemma MaintenanceCompletes(s: State, id: MaintenanceId, valid: bool)
    returns (pinStates: seq<State>, backupStates: seq<State>)
    requires Inv(s) && s.auth.Unlocked? && s.flow.Idle?
    ensures Leads(pinStates, [ChangePinRequested(id, s.auth.session.host), PinChanged(id)],
                  [ChangePin(id), MaintenanceComplete(id)])
    ensures pinStates[0] == s && pinStates[2] == s
    ensures Leads(backupStates, [BackupCheckRequested(id, s.auth.session.host), BackupCheckCompleted(id, valid)],
                  [VerifyBackup(id), if valid then MaintenanceComplete(id) else ReportBackupInvalid(id)])
    ensures s.lifecycle.Provisioned?
    ensures backupStates[0] == s
            && backupStates[2] == if valid then s.(lifecycle := Provisioned(s.lifecycle.metadata.(backup := Verified))) else s
  {
    pinStates := [s, s.(flow := Maintenance(id, ChangePinKind)), s];
    backupStates := [s, s.(flow := Maintenance(id, VerifyBackupKind)),
                     if valid then s.(lifecycle := Provisioned(s.lifecycle.metadata.(backup := Verified))) else s];
  }

  /** A confirmed reset wipes the wallet and leaves a fresh device under its policy. */
  lemma ResetCompletes(s: State, id: MaintenanceId) returns (states: seq<State>)
    requires s.auth.Unlocked? && s.flow.Idle?
    ensures Leads(states,
                  [FactoryResetRequested(id, s.auth.session.host), FactoryResetConfirmed(id), WipeCompleted],
                  [RenderFactoryResetWarning(id), WipeWallet, WalletWiped])
    ensures states[0] == s && states[3] == New(s.policy)
  {
    states := [s, s.(flow := FactoryReset(id, s.auth.session.host)), State(Wiping, Unavailable, Idle, s.policy), New(s.policy)];
  }

  /** Tampering wipes a device that holds anything, in any state; a failure drops a setup
      under way. */
  lemma TamperWipes(s: State)
    ensures Update(s, TamperDetected)
         == if s.lifecycle.Empty? then Transition(s, NoEffect)
            else Transition(State(Wiping, Unavailable, Idle, s.policy), WipeWallet)
    ensures Inv(s) && !s.lifecycle.Provisioned? ==>
              Update(s, RuntimeFailure)
              == if s.lifecycle.Provisioning? then Transition(New(s.policy), ClearSensitiveState) else Transition(s, NoEffect)
  {
  }

  /** The answers that end a flow and do nothing else, with the report of the end. */
  function Ending(flow: FlowState, e: Event): Option<Effect> {
    match flow
    case Idle => None
    case Operation(pending) =>
      if e == OperationCancelled(pending.id) then Some(AbortOperation(pending.id))
      else if e == OperationRejected(pending.id) && (pending.stage.Displaying? || pending.stage.Reviewing?) then
        Some(RejectOperation(pending.id, UserRejected))
      else if e == OperationCompleted(pending.id) && pending.stage.Executing? then Some(CompleteOperation(pending.id))
      else if e == OperationFailed(pending.id) && pending.stage.Executing? then
        Some(RejectOperation(pending.id, ExecutionFailed))
      else None
    case Pairing(id, _, persisted) =>
      if e == PairingRejected(id) then Some(PairingWasRejected(id))
      else if e == TrustedHostPersisted(id) && persisted then Some(PairingComplete(id)) else None
    case Maintenance(id, kind) =>
      if e == PinChanged(id) && kind == ChangePinKind then Some(MaintenanceComplete(id))
      else if e == BackupCheckCompleted(id, false) && kind == VerifyBackupKind then Some(ReportBackupInvalid(id)) else None
    case Settings(id, _, _, stage) =>
      if e == SettingChangeRejected(id) && stage == ReviewingSetting then Some(SettingChangeWasRejected(id)) else None
    case FactoryReset(id, _) => if e == FactoryResetRejected(id) then Some(FactoryResetWasRejected(id)) else None
  }

  lemma EndingsTakeEffect(s: State, e: Event)
    requires Ending(s.flow, e).Some?
    ensures Update(s, e) == Transition(s.(flow := Idle), Ending(s.flow, e).value)
  {
  }

  // ----- Refusals -----

  /** The event answers what the state waits for, but under another id. */
  predicate Misdirected(s: State, e: Event) {
    match e
    case RecoveryMaterialCaptured(id) =>
      s.lifecycle.Provisioning? && s.lifecycle.stage == CapturingRecoveryMaterial && s.lifecycle.id != id
    case KeyMaterialReady(id) => s.lifecycle.Provisioning? && s.lifecycle.id != id
    case BackupShown(id) => s.lifecycle.Provisioning? && s.lifecycle.id != id
    case BackupVerified(id) => s.lifecycle.Provisioning? && s.lifecycle.id != id
    case PinConfigured(id) => s.lifecycle.Provisioning? && s.lifecycle.id != id
    case ProvisioningPersisted(id) => s.lifecycle.Provisioning? && s.lifecycle.stage == PersistingWallet && s.lifecycle.id != id
    case HostTrustResolved(id, _) => s.auth.ResolvingHost? && s.auth.id != id
    case PinVerified(id) => s.auth.VerifyingPin? && s.auth.id != id
    case PinRejected(id, _) => s.auth.VerifyingPin? && s.auth.id != id
    case PassphraseProvided(id) => s.auth.AwaitingPassphrase? && s.auth.id != id
    case PassphraseSkipped(id) => s.auth.AwaitingPassphrase? && s.auth.id != id
    case SessionOpened(id, _, _) => s.auth.OpeningSession? && s.auth.id != id
    case SessionExpired(id) => s.auth.Unlocked? && s.auth.session.id != id
    case PairingConfirmed(id) => s.flow.Pairing? && !s.flow.persisted && s.flow.pairing != id
    case PairingRejected(id) => s.flow.Pairing? && s.flow.pairing != id
    case TrustedHostPersisted(id) => s.flow.Pairing? && s.flow.persisted && s.flow.pairing != id
    case ReviewPrepared(id, _) => s.flow.Operation? && s.flow.pending.id != id
    case ReviewDisplayed(id) => s.flow.Operation? && s.flow.pending.id != id
    case OperationConfirmed(id) => s.flow.Operation? && s.flow.pending.id != id
    case OperationRejected(id) => s.flow.Operation? && s.flow.pending.id != id
    case OperationCompleted(id) => s.flow.Operation? && s.flow.pending.id != id
    case OperationFailed(id) => s.flow.Operation? && s.flow.pending.id != id
    case OperationCancelled(id) => s.flow.Operation? && s.flow.pending.id != id
    case SettingChangeConfirmed(id) => s.flow.Settings? && s.flow.stage == ReviewingSetting && s.flow.settings != id
    case SettingChangeRejected(id) => s.flow.Settings? && s.flow.stage == ReviewingSetting && s.flow.settings != id
    case SettingChangePersisted(id) => s.flow.Settings? && s.flow.stage == PersistingSetting && s.flow.settings != id
    case PinChanged(id) => s.flow.Maintenance? && s.flow.maintenance != id
    case BackupCheckCompleted(id, _) => s.flow.Maintenance? && s.flow.kind == VerifyBackupKind && s.flow.maintenance != id
    case FactoryResetConfirmed(id) => s.flow.FactoryReset? && s.flow.maintenance != id
    case FactoryResetRejected(id) => s.flow.FactoryReset? && s.flow.maintenance != id
    case _ => false
  }

  /** Why an event that no host's request brought is refused in a reachable state: a setup
      because there is a wallet, an unlock for want of one or because a flow runs, an
      answer because its id is another's, and anything else because it does not fit. */
  lemma RefusalReason(s: State, e: Event)
    requires Inv(s) && RequestingHost(e).None? && Update(s, e).effect.Reject?
    ensures Update(s, e).effect.reason
         == if e.StartCreate? || e.StartRecovery? then AlreadyProvisioned
            else if e.UnlockRequested? && !s.lifecycle.Provisioned? then NotProvisioned
            else if e.UnlockRequested? && !s.flow.Idle? then Busy
            else if Misdirected(s, e) then CorrelationMismatch
            else InvalidState
  {
  }

  /** An answer to the operation under way that comes at the wrong stage leaves it alone. */
  lemma UntimelyIsRefused(s: State, e: Event)
    requires Inv(s) && RequestingHost(e).None? && Update(s, e).effect.RejectOperation? && Update(s, e).state == s
    ensures s.flow.Operation? && Update(s, e).effect == RejectOperation(s.flow.pending.id, InvalidState)
  {
  }

  /** What the strict policy means: the tenth wrong PIN wipes and no earlier one, a lost
      host locks, nothing is signed blindly, and any host of a session may ask. */
  lemma StrictPolicyMeans(s: State, id: AuthId, durable: u8, session: Session, plan: ReviewPlan)
    requires Inv(s) && s.policy == STRICT
    ensures s.auth.VerifyingPin? && s.auth.id == id && durable > s.auth.failedAttempts ==>
              (Update(s, PinRejected(id, durable)).effect == WipeWallet <==> durable >= 10)
    ensures s.auth.Unlocked? ==> Update(s, HostDisconnected(s.auth.session.host)) == Update(s, LockRequested)
    ensures Permits(s.policy, session, plan) <==> plan.assurance != Blind
  {
    PinRejectionOutcome(s, id, durable);
  }
}
