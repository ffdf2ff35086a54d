/** How a wallet comes to be provisioned, and where its backup status comes from. */
module WalletLifecycleHistory {
  import opened Bytes
  import opened WalletState
  import opened WalletReducer
  import opened WalletInvariant
  import opened WalletProtocol
  import opened WalletRuns

  /** The events of a provisioning, in the only order that completes it. */
  function SetupEvents(mode: ProvisioningMode, id: SetupId, passphrase: PassphraseMode): (events: seq<Event>)
    ensures |events| == if mode.Create? then 6 else 5
  {
    match mode
    case Create =>
      [StartCreate(id, passphrase), KeyMaterialReady(id), BackupShown(id), BackupVerified(id), PinConfigured(id),
       ProvisioningPersisted(id)]
    case Recover(format) =>
      [StartRecovery(id, format, passphrase), RecoveryMaterialCaptured(id), KeyMaterialReady(id), PinConfigured(id),
       ProvisioningPersisted(id)]
  }

  /** How many of them a stage has behind it. */
  function Depth(mode: ProvisioningMode, stage: ProvisioningStage): nat {
    match stage
    case CreatingKeyMaterial => 1
    case CapturingRecoveryMaterial => 1
    case DerivingRecoveredKeyMaterial => 2
    case ShowingBackup => 2
    case VerifyingBackup => 3
    case ConfiguringPin => if mode.Create? then 4 else 3
    case PersistingWallet => if mode.Create? then 5 else 4
  }

  lemma AdvanceIsNext(mode: ProvisioningMode, passphrase: PassphraseMode, from: ProvisioningStage, to: ProvisioningStage,
                      id: SetupId, e: Event)
    requires StageFits(mode, from) && StageFits(mode, to) && Advances(from, to, id, e)
    ensures Depth(mode, to) == Depth(mode, from) + 1 && Depth(mode, to) < |SetupEvents(mode, id, passphrase)|
    ensures e == SetupEvents(mode, id, passphrase)[Depth(mode, from)]
  {
  }

  /** This setup is under way with `depth` events behind it. */
  predicate Underway(l: Lifecycle, mode: ProvisioningMode, id: SetupId, passphrase: PassphraseMode, depth: nat) {
    && l.Provisioning? && l.mode == mode && l.id == id && l.passphrase == passphrase
    && StageFits(mode, l.stage) && Depth(mode, l.stage) == depth
  }

  predicate SameSetup(l: Lifecycle, mode: ProvisioningMode, id: SetupId, passphrase: PassphraseMode) {
    l.Provisioning? && l.mode == mode && l.id == id && l.passphrase == passphrase
  }

  /** The steps of `path` handled the first setup events, each at its own stage, and
      since the first of them the setup was under way. */
  predicate Walked(r: Run, path: seq<nat>, n: nat, mode: ProvisioningMode, id: SetupId, passphrase: PassphraseMode)
    requires IsRun(r) && n <= |r.inputs|
  {
    && 1 <= |path| <= |SetupEvents(mode, id, passphrase)|
    && (forall i :: 0 <= i < |path| ==> path[i] < n && r.inputs[path[i]] == Handle(SetupEvents(mode, id, passphrase)[i]))
    && (forall i, j :: 0 <= i < j < |path| ==> path[i] < path[j])
    && r.states[path[0]].lifecycle.Empty?
    && (forall i :: 0 < i < |path| ==> Underway(r.states[path[i]].lifecycle, mode, id, passphrase, i))
  }

  /** From step `p` on up to state `n` nothing but this setup went on. */
  predicate StaysInSetup(r: Run, p: nat, n: nat, mode: ProvisioningMode, id: SetupId, passphrase: PassphraseMode)
    requires IsRun(r) && n <= |r.inputs|
  {
    forall m :: p < m <= n ==> SameSetup(r.states[m].lifecycle, mode, id, passphrase)
  }

  lemma SetupStep(r: Run, n: nat)
    requires IsRun(r) && n < |r.inputs| && r.states[n + 1].lifecycle.Provisioning?
    ensures r.inputs[n].Handle? && LifecycleFollows(r.states[n], r.inputs[n].event, r.states[n + 1], r.effects[n])
    ensures StageFits(r.states[n + 1].lifecycle.mode, r.states[n + 1].lifecycle.stage)
    ensures r.states[n].lifecycle.Provisioning? ==> StageFits(r.states[n].lifecycle.mode, r.states[n].lifecycle.stage)
  {
    StepFollows(r, n);
  }

  lemma WalkExtends(r: Run, path: seq<nat>, n: nat, mode: ProvisioningMode, id: SetupId, passphrase: PassphraseMode)
    requires IsRun(r) && n < |r.inputs| && Walked(r, path, n, mode, id, passphrase)
    requires |path| < |SetupEvents(mode, id, passphrase)|
    requires r.inputs[n] == Handle(SetupEvents(mode, id, passphrase)[|path|])
    requires Underway(r.states[n].lifecycle, mode, id, passphrase, |path|)
    ensures Walked(r, path + [n], n + 1, mode, id, passphrase)
  {
  }

  /** A setup under way has walked through the first stages of its mode, in order. */
  lemma {:induction false} SetupHistory(r: Run, n: nat) returns (path: seq<nat>)
    requires IsRun(r) && n <= |r.inputs| && r.states[n].lifecycle.Provisioning?
    ensures var l := r.states[n].lifecycle;
            && StageFits(l.mode, l.stage) && |path| == Depth(l.mode, l.stage)
                && Walked(r, path, n, l.mode, l.id, l.passphrase)
            && StaysInSetup(r, path[0], n, l.mode, l.id, l.passphrase)
  {
    path := [];
    if n > 0 {
      SetupStep(r, n - 1);
      var s, t := r.states[n - 1].lifecycle, r.states[n].lifecycle;
      if s.Provisioning? {
        path := SetupHistory(r, n - 1);
        if s != t {
          AdvanceIsNext(t.mode, t.passphrase, s.stage, t.stage, t.id, r.inputs[n - 1].event);
          WalkExtends(r, path, n - 1, t.mode, t.id, t.passphrase);
          path := path + [n - 1];
        }
      } else {
        path := [n - 1];
      }
    }
  }

  lemma ProvisioningStep(r: Run, k: nat)
    requires IsRun(r) && k < |r.inputs| && !r.states[k].lifecycle.Provisioned? && r.states[k + 1].lifecycle.Provisioned?
    ensures var l := r.states[k].lifecycle;
            && l.Provisioning? && l.stage == PersistingWallet && r.inputs[k] == Handle(ProvisioningPersisted(l.id))
            && r.states[k + 1].lifecycle.metadata == ProvisionedMetadata(l.mode, l.passphrase)
  {
    StepFollows(r, k);
  }

  /** A wallet becomes provisioned only by the complete sequence of setup events of
      its mode, in order, under one setup id, uninterrupted. Its passphrase mode is the
      one it was started with; a created wallet is generated and its backup verified, a
      recovered one is marked with the format it was recovered from. */
  lemma ProvisionedInOrder(r: Run, k: nat) returns (path: seq<nat>, mode: ProvisioningMode, id: SetupId,
      passphrase: PassphraseMode)
    requires IsRun(r) && k < |r.inputs| && !r.states[k].lifecycle.Provisioned? && r.states[k + 1].lifecycle.Provisioned?
    ensures Walked(r, path, k + 1, mode, id, passphrase)
    ensures |path| == |SetupEvents(mode, id, passphrase)| && path[|path| - 1] == k
    ensures StaysInSetup(r, path[0], k, mode, id, passphrase)
    ensures var start, metadata := r.inputs[path[0]], r.states[k + 1].lifecycle.metadata;
            && start.Handle?
            && (start.event.StartCreate? || start.event.StartRecovery?) && metadata.passphrase == start.event.passphrase
            && (start.event.StartCreate? ==> metadata.origin == Generated && metadata.backup == Verified)
            && (start.event.StartRecovery? ==>
                  metadata.origin == Recovered(start.event.format) && metadata.backup == RecoverySource)
  {
    ProvisioningStep(r, k);
    var l := r.states[k].lifecycle;
    mode, id, passphrase := l.mode, l.id, l.passphrase;
    path := SetupHistory(r, k);
    WalkExtends(r, path, k, mode, id, passphrase);
    path := path + [k];
  }

  // ----- The backup status -----

  /** A backup of this wallet is verified at step `j`: during its creation, or by a
      later check. */
  predicate VerifiesBackup(r: Run, j: nat)
    requires IsRun(r) && j < |r.inputs|
  {
    && r.inputs[j].Handle?
    && ((r.states[j].lifecycle.Provisioning? && r.states[j].lifecycle.stage == VerifyingBackup
         && r.inputs[j].event == BackupVerified(r.states[j].lifecycle.id))
        || ValidCheck(r.states[j], r.inputs[j].event))
  }

  /** From state `i` to state `n` it is the same wallet, being set up or in use. */
  predicate SameWallet(r: Run, i: nat, n: nat)
    requires IsRun(r) && n <= |r.inputs|
  {
    forall m :: i <= m <= n ==> r.states[m].lifecycle.Provisioning? || r.states[m].lifecycle.Provisioned?
  }

  predicate BackupVerifiedAt(s: State) {
    s.lifecycle.Provisioned? && s.lifecycle.metadata.backup == Verified
  }

  lemma BackupStep(r: Run, k: nat)
    requires IsRun(r) && k < |r.inputs| && BackupVerifiedAt(r.states[k + 1]) && r.states[k].lifecycle.Provisioned?
    ensures BackupVerifiedAt(r.states[k]) || VerifiesBackup(r, k)
  {
    StepFollows(r, k);
  }

  /** What lasts from the verification of a backup on: the wallet is one being created
      here, or counts as verified. */
  predicate BackupIsSettled(s: State) {
    (s.lifecycle.Provisioning? && s.lifecycle.mode.Create?) || BackupVerifiedAt(s)
  }

  lemma SettledStep(r: Run, k: nat)
    requires IsRun(r) && k < |r.inputs| && SameWallet(r, k, k + 1)
    requires BackupIsSettled(r.states[k]) || VerifiesBackup(r, k)
    ensures BackupIsSettled(r.states[k + 1])
  {
    StepFollows(r, k);
    assert r.states[k].lifecycle.Provisioning? || r.states[k].lifecycle.Provisioned?;
    assert r.states[k + 1].lifecycle.Provisioning? || r.states[k + 1].lifecycle.Provisioned?;
  }

  lemma {:induction false} StaysSettled(r: Run, i: nat, n: nat)
    requires IsRun(r) && i <= n <= |r.inputs| && SameWallet(r, i, n) && BackupIsSettled(r.states[i])
    ensures BackupIsSettled(r.states[n])
  {
    if i < n {
      StaysSettled(r, i, n - 1);
      SettledStep(r, n - 1);
    }
  }

  /** The backup of a wallet in use counts as verified exactly when it was restored
      that way at the start of the run, or was verified on this device since the
      wallet exists. */
  lemma BackupVerifiedIff(r: Run, n: nat)
    requires IsRun(r) && n <= |r.inputs| && r.states[n].lifecycle.Provisioned?
    ensures r.states[n].lifecycle.metadata.backup == Verified
            <==> (BackupVerifiedAt(r.states[0]) && SameWallet(r, 0, n))
                 || (exists j :: 0 <= j < n && VerifiesBackup(r, j) && SameWallet(r, j, n))
  {
    if BackupVerifiedAt(r.states[n]) {
      var j := BackupProvenance(r, n);
    } else if BackupVerifiedAt(r.states[0]) && SameWallet(r, 0, n) {
      StaysSettled(r, 0, n);
    } else if j :| 0 <= j < n && VerifiesBackup(r, j) && SameWallet(r, j, n) {
      SettledStep(r, j);
      StaysSettled(r, j + 1, n);
    }
  }

  /** A wallet whose backup counts as verified was restored that way at the start of
      the run, or its backup was verified on this device since the wallet exists. */
  lemma {:induction false} BackupProvenance(r: Run, n: nat) returns (j: nat)
    requires IsRun(r) && n <= |r.inputs| && BackupVerifiedAt(r.states[n])
    ensures || (BackupVerifiedAt(r.states[0]) && SameWallet(r, 0, n))
            || (j < n && VerifiesBackup(r, j) && SameWallet(r, j, n))
  {
    j := 0;
    if n > 0 {
      if r.states[n - 1].lifecycle.Provisioned? {
        BackupStep(r, n - 1);
        if BackupVerifiedAt(r.states[n - 1]) {
          j := BackupProvenance(r, n - 1);
        } else {
          j := n - 1;
        }
      } else {
        var path, mode, id, passphrase := ProvisionedInOrder(r, n - 1);
        j := path[3];
        CreatedBackup(r, path, mode, id, passphrase, n - 1);
      }
    }
  }

  lemma CreatedBackup(r: Run, path: seq<nat>, mode: ProvisioningMode, id: SetupId, passphrase: PassphraseMode, k: nat)
    requires IsRun(r) && k < |r.inputs| && Walked(r, path, k + 1, mode, id, passphrase)
    requires |path| == |SetupEvents(mode, id, passphrase)| && StaysInSetup(r, path[0], k, mode, id, passphrase)
    requires BackupVerifiedAt(r.states[k + 1]) && path[|path| - 1] == k
    requires r.states[k + 1].lifecycle.metadata == ProvisionedMetadata(mode, passphrase)
    ensures path[3] < k + 1 && VerifiesBackup(r, path[3]) && SameWallet(r, path[3], k + 1)
  {
    assert mode.Create?;
    assert r.inputs[path[3]] == Handle(BackupVerified(id));
    assert Underway(r.states[path[3]].lifecycle, mode, id, passphrase, 3);
    forall m | path[3] <= m <= k + 1
      ensures r.states[m].lifecycle.Provisioning? || r.states[m].lifecycle.Provisioned?
    {
      if m <= k {
        assert path[0] < path[3];
        assert SameSetup(r.states[m].lifecycle, mode, id, passphrase);
      }
    }
  }
}
