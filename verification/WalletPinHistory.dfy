/** How many wrong PINs a wallet accepts. */
module WalletPinHistory {
  import opened Bytes
  import opened WalletState
  import opened WalletReducer
  import opened WalletInvariant
  import opened WalletProtocol
  import opened WalletRuns

  /** The accepted rejections in the steps `i` to `j`. */
  function Rejections(r: Run, i: nat, j: nat): nat
    requires IsRun(r) && i <= j < |r.states|
    decreases j
  {
    if i == j then 0 else Rejections(r, i, j - 1) + (if r.effects[j - 1].AuthenticationFailed? then 1 else 0)
  }

  /** Step `m` neither verifies a PIN, nor reboots, nor leaves the wallet. */
  predicate Guessing(r: Run, m: nat)
    requires IsRun(r) && m < |r.inputs|
  {
    && r.states[m].lifecycle.Provisioned? && r.states[m + 1].lifecycle.Provisioned?
    && r.inputs[m].Handle?
    && !(r.inputs[m].event.PinVerified? && r.states[m].auth.VerifyingPin?
        && r.states[m].auth.id == r.inputs[m].event.auth)
  }

  lemma GuessingStep(r: Run, m: nat)
    requires IsRun(r) && m < |r.inputs| && Guessing(r, m)
    ensures r.states[m + 1].auth.Failures() >= r.states[m].auth.Failures() + (if r.effects[m].AuthenticationFailed? then 1 else 0)
  {
    StepFollows(r, m);
  }

  /** Between two verified PINs the count never falls and grows with every accepted
      rejection. */
  lemma {:induction false} CountGrows(r: Run, i: nat, j: nat)
    requires IsRun(r) && i <= j < |r.states| && (forall m :: i <= m < j ==> Guessing(r, m))
    ensures r.states[j].auth.Failures() >= r.states[i].auth.Failures() + Rejections(r, i, j)
  {
    if i < j {
      CountGrows(r, i, j - 1);
      GuessingStep(r, j - 1);
    }
  }

  /** Whatever happens in between, settings included: under a wiping policy fewer
      wrong PINs than the limit are ever accepted in a row. The next one wipes. */
  lemma GuessesAreBounded(r: Run, i: nat, j: nat)
    requires IsRun(r) && i <= j < |r.states| && (forall m :: i <= m < j ==> Guessing(r, m))
    requires r.states[j].policy.pinExhaustion == WipeOnExhaustion && r.states[j].policy.maxPinAttempts >= 1
    ensures r.states[i].auth.Failures() + Rejections(r, i, j) <= r.states[j].policy.maxPinAttempts - 1
    ensures r.states[j].auth.VerifyingPin? ==>
              forall durable: u8 :: durable > r.states[j].auth.failedAttempts ==>
                (Update(r.states[j], PinRejected(r.states[j].auth.id, durable)).effect == WipeWallet
                 <==> durable >= r.states[j].policy.maxPinAttempts)
  {
    CountGrows(r, i, j);
    ReachableInv(r, j);
    if r.states[j].auth.VerifyingPin? {
      forall durable: u8 | durable > r.states[j].auth.failedAttempts
        ensures Update(r.states[j], PinRejected(r.states[j].auth.id, durable)).effect == WipeWallet
                <==> durable >= r.states[j].policy.maxPinAttempts
      {
        PinRejectionOutcome(r.states[j], r.states[j].auth.id, durable);
      }
    }
  }
}
