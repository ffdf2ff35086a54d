/** What must have happened before a policy or passphrase setting changes. */
module WalletSettingsHistory {
  import opened Bytes
  import opened WalletState
  import opened WalletReducer
  import opened WalletInvariant
  import opened WalletProtocol
  import opened WalletRuns

  predicate InSettings(s: State, id: SettingsId, change: SettingChange) {
    s.flow.Settings? && s.flow.settings == id && s.flow.change == change && s.auth.Unlocked?
  }

  /** The change was requested by the session's host and rendered at step `a`, and up
      to state `n` the session and the policy stand still. */
  predicate Rendered(r: Run, a: nat, n: nat, id: SettingsId, change: SettingChange)
    requires IsRun(r) && n <= |r.inputs|
  {
    && a < n && r.states[n].auth.Unlocked? && r.states[a].auth == r.states[n].auth
    && r.inputs[a] == Handle(SettingChangeRequested(id, r.states[n].auth.session.host, change))
    && r.effects[a] == RenderSettingChange(id, change)
    && (forall m :: a < m <= n ==>
          && InSettings(r.states[m], id, change) && r.states[m].auth == r.states[n].auth
          && r.states[m].policy == r.states[n].policy && r.states[m].lifecycle == r.states[n].lifecycle)
  }

  /** And it was confirmed and handed to the storage at step `b`. */
  predicate ConfirmedAt(r: Run, a: nat, b: nat, n: nat, id: SettingsId, change: SettingChange)
    requires IsRun(r) && n <= |r.inputs|
  {
    a < b < n && r.inputs[b] == Handle(SettingChangeConfirmed(id)) && r.effects[b] == PersistSettingChange(id, change)
  }

  lemma SettingsStep(r: Run, n: nat)
    requires IsRun(r) && n < |r.inputs| && r.states[n + 1].flow.Settings?
    ensures r.inputs[n].Handle? && SettingsFollows(r.states[n], r.inputs[n].event, r.states[n + 1], r.effects[n])
    ensures r.states[n].auth.Unlocked?
  {
    StepFollows(r, n);
  }

  /** A pending settings change has its history. */
  lemma {:induction false} SettingsHistory(r: Run, n: nat) returns (a: nat, b: nat)
    requires IsRun(r) && n <= |r.inputs| && r.states[n].flow.Settings?
    ensures Rendered(r, a, n, r.states[n].flow.settings, r.states[n].flow.change)
    ensures r.states[n].flow.stage == PersistingSetting ==>
              ConfirmedAt(r, a, b, n, r.states[n].flow.settings, r.states[n].flow.change)
  {
    if n > 0 {
      SettingsStep(r, n - 1);
      if r.states[n - 1].flow.Settings? {
        a, b := SettingsHistory(r, n - 1);
        if r.states[n].flow != r.states[n - 1].flow {
          b := n - 1;
        }
      } else {
        a, b := n - 1, 0;
      }
    }
  }

  /** A policy or a wallet's passphrase mode changes only when the storage reports a
      change that was rendered and then confirmed under the same id in the same
      session; and what then holds is that change. */
  lemma ChangeIsConfirmed(r: Run, k: nat) returns (a: nat, b: nat)
    requires IsRun(r) && k < |r.inputs|
    requires r.states[k + 1].policy != r.states[k].policy || PassphraseChanges(r.states[k], r.states[k + 1])
    ensures var s, t := r.states[k], r.states[k + 1];
            && s.flow.Settings? && r.inputs[k] == Handle(SettingChangePersisted(s.flow.settings))
            && Rendered(r, a, k, s.flow.settings, s.flow.change)
            && ConfirmedAt(r, a, b, k, s.flow.settings, s.flow.change)
            && (t.policy != s.policy ==> s.flow.change.Security? && t.policy == s.policy.Apply(s.flow.change.setting))
            && (PassphraseChanges(s, t) ==> s.flow.change == Passphrase(t.lifecycle.metadata.passphrase))
  {
    ChangingStep(r, k);
    a, b := SettingsHistory(r, k);
  }

  lemma ChangingStep(r: Run, k: nat)
    requires IsRun(r) && k < |r.inputs|
    requires r.states[k + 1].policy != r.states[k].policy || PassphraseChanges(r.states[k], r.states[k + 1])
    ensures r.inputs[k].Handle? && SettingsFollows(r.states[k], r.inputs[k].event, r.states[k + 1], r.effects[k])
  {
    StepFollows(r, k);
  }

  /** No setting touches the attempt limit. */
  lemma {:induction false} AttemptLimitIsConstant(r: Run, i: nat, j: nat)
    requires IsRun(r) && i <= j < |r.states|
    ensures r.states[j].policy.maxPinAttempts == r.states[i].policy.maxPinAttempts
  {
    if i < j {
      AttemptLimitIsConstant(r, i, j - 1);
      StepFollows(r, j - 1);
    }
  }

  lemma PolicyStep(r: Run, k: nat)
    requires IsRun(r) && k < |r.inputs|
    ensures var s := r.states[k];
            r.states[k + 1].policy
            == if r.effects[k].SettingChangeComplete? && s.flow.Settings? && s.flow.change.Security? then
                 s.policy.Apply(s.flow.change.setting)
               else s.policy
  {
    StepFollows(r, k);
  }

  /** The policy is what the applied settings make of the one the run began with. */
  lemma {:induction false} PolicyIsItsHistory(r: Run, n: nat)
    requires IsRun(r) && n <= |r.inputs|
    ensures r.states[n].policy == ApplyAll(r.states[0].policy, AppliedSettings(r, n))
  {
    if n > 0 {
      PolicyIsItsHistory(r, n - 1);
      PolicyStep(r, n - 1);
    }
  }

  /** The security settings reported as complete before state `n`, in their order. */
  function AppliedSettings(r: Run, n: nat): seq<SecuritySetting>
    requires IsRun(r) && n <= |r.inputs|
  {
    if n == 0 then []
    else if r.effects[n - 1].SettingChangeComplete? && r.states[n - 1].flow.Settings?
            && r.states[n - 1].flow.change.Security? then
      AppliedSettings(r, n - 1) + [r.states[n - 1].flow.change.setting]
    else AppliedSettings(r, n - 1)
  }

  // ----- When a stored change is applied -----

  /** The storage was asked for this change and has not answered yet. */
  predicate Waits(s: State, id: SettingsId, change: SettingChange) {
    s.flow.Settings? && s.flow.stage == PersistingSetting && s.flow.settings == id && s.flow.change == change
  }

  /** In memory a stored change is applied exactly while its flow still waits for
      the storage; otherwise the report is refused. */
  lemma StoredIsAppliedIff(s: State, id: SettingsId)
    requires Inv(s)
    ensures var t := Update(s, SettingChangePersisted(id));
            if s.flow.Settings? && s.flow.stage == PersistingSetting && s.flow.settings == id then
              Applies(s, s.flow.change, t.state) && t.effect == SettingChangeComplete(id)
            else t.state == s && t.effect.Reject?
  {
    StepKeeps(s, SettingChangePersisted(id));
  }

  /** The inputs that end a flow waiting for the storage: the answer itself, and
      whatever ends its session. */
  predicate EndsWaiting(s: State, input: Input) {
    match input
    case Reboot => true
    case Handle(e) =>
      || e.LockRequested? || e.RuntimeFailure? || e.TamperDetected?
      || (e.SessionExpired? && s.auth.Unlocked? && e.session == s.auth.session.id)
      || (e.HostDisconnected? && s.policy.disconnect == LockOnDisconnect && BoundHost(s.auth) == Some(e.host))
      || (e.SettingChangePersisted? && s.flow.Settings? && e.settings == s.flow.settings)
  }

  /** A waiting state is left exactly by those inputs. */
  lemma WaitingEndsIff(s: State, input: Input, t: State, f: Effect)
    requires Inv(s) && s.flow.Settings? && s.flow.stage == PersistingSetting && Takes(s, input, t, f)
    ensures if EndsWaiting(s, input) then t.flow.Idle? else t == s
  {
  }

  /** The storage was asked for the change at step `b`, and nothing since then and
      before state `n` has ended the wait. */
  predicate StillWaits(r: Run, b: nat, n: nat)
    requires IsRun(r) && b < n <= |r.inputs|
  {
    forall m :: b < m < n ==> !EndsWaiting(r.states[b + 1], r.inputs[m])
  }

  lemma AskedStep(r: Run, b: nat)
    requires IsRun(r) && b < |r.inputs| && r.effects[b].PersistSettingChange?
    ensures Waits(r.states[b + 1], r.effects[b].settings, r.effects[b].change)
  {
    StepFollows(r, b);
  }

  lemma WaitingStep(r: Run, n: nat)
    requires IsRun(r) && n < |r.inputs| && r.states[n].flow.Settings? && r.states[n].flow.stage == PersistingSetting
    ensures if EndsWaiting(r.states[n], r.inputs[n]) then r.states[n + 1].flow.Idle? else r.states[n + 1] == r.states[n]
  {
    ReachableInv(r, n);
    assert StepAt(r, n);
    WaitingEndsIff(r.states[n], r.inputs[n], r.states[n + 1], r.effects[n]);
  }

  lemma {:induction false} WaitGoesOn(r: Run, b: nat, n: nat)
    requires IsRun(r) && b < n <= |r.inputs| && r.effects[b].PersistSettingChange? && StillWaits(r, b, n)
    ensures r.states[n] == r.states[b + 1] && Waits(r.states[n], r.effects[b].settings, r.effects[b].change)
  {
    AskedStep(r, b);
    if n > b + 1 {
      WaitGoesOn(r, b, n - 1);
      WaitingStep(r, n - 1);
    }
  }

  lemma NotYetAsked(r: Run, n: nat, id: SettingsId, change: SettingChange)
    requires IsRun(r) && n < |r.inputs| && !Waits(r.states[n], id, change)
    requires r.effects[n].PersistSettingChange? ==> r.effects[n].settings != id
    ensures !Waits(r.states[n + 1], id, change)
  {
    if r.states[n + 1].flow.Settings? {
      SettingsStep(r, n);
    }
  }

  lemma {:induction false} WaitIsOver(r: Run, b: nat, n: nat)
    requires IsRun(r) && b < n <= |r.inputs| && r.effects[b].PersistSettingChange? && !StillWaits(r, b, n)
    requires forall m :: b < m < n && r.effects[m].PersistSettingChange? ==> r.effects[m].settings != r.effects[b].settings
    ensures forall change :: !Waits(r.states[n], r.effects[b].settings, change)
  {
    if StillWaits(r, b, n - 1) {
      WaitGoesOn(r, b, n - 1);
      WaitingStep(r, n - 1);
    } else {
      WaitIsOver(r, b, n - 1);
      forall change ensures !Waits(r.states[n], r.effects[b].settings, change) {
        NotYetAsked(r, n - 1, r.effects[b].settings, change);
      }
    }
  }

  /** When the storage reports a change, last asked for at step `b`, the change is
      made exactly if no input in between was an answer or ended the session it was
      confirmed in. Otherwise the report is refused and changes nothing. */
  lemma StoredChangeAppliesIff(r: Run, b: nat, k: nat, id: SettingsId, change: SettingChange)
    requires IsRun(r) && b < k < |r.inputs|
    requires r.effects[b] == PersistSettingChange(id, change) && r.inputs[k] == Handle(SettingChangePersisted(id))
    requires forall m :: b < m < k && r.effects[m].PersistSettingChange? ==> r.effects[m].settings != id
    ensures if forall m :: b < m < k ==> !EndsWaiting(r.states[b + 1], r.inputs[m]) then
              Applies(r.states[k], change, r.states[k + 1]) && r.effects[k] == SettingChangeComplete(id)
            else r.states[k + 1] == r.states[k] && r.effects[k].Reject?
  {
    ReachableInv(r, k);
    assert StepAt(r, k);
    StoredIsAppliedIff(r.states[k], id);
    if StillWaits(r, b, k) {
      WaitGoesOn(r, b, k);
    } else {
      WaitIsOver(r, b, k);
      if r.states[k].flow.Settings? {
        assert !Waits(r.states[k], id, r.states[k].flow.change);
      }
    }
  }

  /** A report of a change the storage was never asked for is refused. */
  lemma UnaskedIsRefused(r: Run, k: nat, id: SettingsId)
    requires IsRun(r) && k < |r.inputs| && r.inputs[k] == Handle(SettingChangePersisted(id))
    requires forall m :: 0 <= m < k && r.effects[m].PersistSettingChange? ==> r.effects[m].settings != id
    ensures r.states[k + 1] == r.states[k] && r.effects[k].Reject?
  {
    ReachableInv(r, k);
    assert StepAt(r, k);
    StoredIsAppliedIff(r.states[k], id);
    if r.states[k].flow.Settings? && r.states[k].flow.stage == PersistingSetting && r.states[k].flow.settings == id {
      var a, b := SettingsHistory(r, k);
    }
  }

  /** Whenever a wallet waits for the storage, the answer makes the change, and a lock
      that comes first loses it. */
  lemma LockDropsStoredChange(r: Run, id: SettingsId, setting: SecuritySetting)
    requires IsRun(r) && Waits(r.states[|r.inputs|], id, Security(setting))
    ensures var s, answered := r.states[|r.inputs|], Extended(r, SettingChangePersisted(id));
            && IsRun(answered) && answered.states[|r.inputs| + 1].policy == s.policy.Apply(setting)
    ensures var s, locked := r.states[|r.inputs|], Extended(Extended(r, LockRequested), SettingChangePersisted(id));
            IsRun(locked) && locked.states[|r.inputs| + 2] == LockedState(s)
  {
    ReachableInv(r, |r.inputs|);
    ExtendedIsRun(r, SettingChangePersisted(id));
    ExtendedIsRun(r, LockRequested);
    ExtendedIsRun(Extended(r, LockRequested), SettingChangePersisted(id));
  }

  /** The events up to a confirmed change of the blind-signing policy. */
  const ALLOWING_BLIND_SIGNING: seq<Event> := [
    UnlockRequested(1, 3), HostTrustResolved(1, Trusted), PinVerified(1), SessionOpened(1, 2, 4),
    SettingChangeRequested(1, 3, Security(BlindSigningSetting(Allow))), SettingChangeConfirmed(1)]

  /** The state behind `i` of these events, from a restored wallet under the strict policy. */
  function AllowingBlindSigning(i: nat): State {
    var change := Security(BlindSigningSetting(Allow));
    State(Provisioned(WalletMetadata(Generated, Verified, Disabled)),
          if i == 0 then Locked(0) else if i == 1 then ResolvingHost(1, 3, 0)
          else if i == 2 then VerifyingPin(1, 3, Trusted, 0) else if i == 3 then OpeningSession(1, 3, Trusted, 0)
          else Unlocked(Session(2, 3, 4, Trusted)),
          if i < 5 then Idle else Settings(1, 3, change, if i == 5 then ReviewingSetting else PersistingSetting),
          STRICT)
  }

  lemma AllowingStep(i: nat)
    requires i < 6
    ensures var t := Update(AllowingBlindSigning(i), ALLOWING_BLIND_SIGNING[i]);
            && t.state == AllowingBlindSigning(i + 1)
            && (i == 5 ==> t.effect == PersistSettingChange(1, Security(BlindSigningSetting(Allow))))
  {
  }

  /** Such a wait is reached from a restored wallet. */
  lemma WaitIsReached() returns (r: Run)
    ensures IsRun(r) && |r.inputs| == 6 && (forall i :: 0 <= i < 6 ==> r.inputs[i] == Handle(ALLOWING_BLIND_SIGNING[i]))
    ensures Waits(r.states[6], 1, Security(BlindSigningSetting(Allow)))
    ensures r.states[6].policy == STRICT && r.effects[5] == PersistSettingChange(1, Security(BlindSigningSetting(Allow)))
  {
    r := Run([AllowingBlindSigning(0)], [], []);
    for i := 0 to 6
      invariant IsRun(r) && |r.inputs| == i && r.states[i] == AllowingBlindSigning(i)
      invariant forall j :: 0 <= j < i ==> r.inputs[j] == Handle(ALLOWING_BLIND_SIGNING[j])
      invariant i == 6 ==> r.effects[5] == PersistSettingChange(1, Security(BlindSigningSetting(Allow)))
    {
      AllowingStep(i);
      ExtendedIsRun(r, ALLOWING_BLIND_SIGNING[i]);
      r := Extended(r, ALLOWING_BLIND_SIGNING[i]);
    }
  }

  /** Two runs that differ by one lock, after the last of which the storage reports the
      confirmed change: it holds in the one and is lost in the other. */
  lemma LockChangesTheOutcome() returns (answered: Run, locked: Run)
    ensures IsRun(answered) && IsRun(locked) && |answered.inputs| == 7 && |locked.inputs| == 8
    ensures answered.inputs[..6] == locked.inputs[..6] && locked.inputs[6] == Handle(LockRequested)
    ensures answered.effects[5] == locked.effects[5] == PersistSettingChange(1, Security(BlindSigningSetting(Allow)))
    ensures answered.inputs[6] == locked.inputs[7] == Handle(SettingChangePersisted(1))
    ensures answered.states[7].policy == STRICT.Apply(BlindSigningSetting(Allow)) && locked.states[8].policy == STRICT
    ensures answered.states[7].policy != locked.states[8].policy
  {
    var r := WaitIsReached();
    LockDropsStoredChange(r, 1, BlindSigningSetting(Allow));
    answered := Extended(r, SettingChangePersisted(1));
    locked := Extended(Extended(r, LockRequested), SettingChangePersisted(1));
    assert answered.inputs[..6] == r.inputs == locked.inputs[..6];
  }
}
