/** Runs of the wallet: any events in any order, with reboots from the persistent
    snapshot between them. */
module WalletRuns {
  import opened Bytes
  import opened WalletState
  import opened WalletReducer
  import opened WalletInvariant
  import opened WalletProtocol

  datatype Input = Handle(event: Event) | Reboot

  /** A run visits `states[i]`, meets `inputs[i]` there and answers `effects[i]`. */
  datatype Run = Run(states: seq<State>, inputs: seq<Input>, effects: seq<Effect>)

  predicate Takes(s: State, input: Input, t: State, f: Effect) {
    match input
    case Handle(e) => Transition(t, f) == Update(s, e)
    case Reboot => s.Snapshot().Some? && t == Restore(s.Snapshot().value) && f == NoEffect
  }

  predicate StepAt(r: Run, i: nat) {
    && i + 1 < |r.states| && i < |r.inputs| && i < |r.effects|
    && Takes(r.states[i], r.inputs[i], r.states[i + 1], r.effects[i])
  }

  /** What `State::new` and `State::restore` can produce. */
  predicate Initial(s: State) {
    s == New(s.policy) || s == Restore(PersistentState(s.Metadata(), s.policy))
  }

  predicate IsRun(r: Run) {
    && |r.states| == |r.inputs| + 1 && |r.effects| == |r.inputs|
    && Initial(r.states[0])
    && forall i :: 0 <= i < |r.inputs| ==> StepAt(r, i)
  }

  lemma InitialIff(s: State)
    ensures Initial(s) <==> (exists policy :: s == New(policy)) || (exists p :: s == Restore(p))
  {
    if s == New(s.policy) {
    } else if exists p :: s == Restore(p) {
      var p :| s == Restore(p);
    }
  }

  /** The run goes on with one more event. */
  function Extended(r: Run, e: Event): Run
    requires |r.states| > 0
  {
    var last := Update(r.states[|r.states| - 1], e);
    Run(r.states + [last.state], r.inputs + [Handle(e)], r.effects + [last.effect])
  }

  lemma ExtendedIsRun(r: Run, e: Event)
    requires IsRun(r)
    ensures IsRun(Extended(r, e))
  {
    var x := Extended(r, e);
    forall i | 0 <= i < |x.inputs| ensures StepAt(x, i) {
      if i < |r.inputs| {
        assert StepAt(r, i);
      }
    }
  }

  /** After a reboot the wallet is locked, idle, and what it was. */
  predicate Reboots(s: State, t: State, f: Effect) {
    && t.flow.Idle? && t.auth == (if s.lifecycle.Provisioned? then Locked(0) else Unavailable)
    && t.policy == s.policy && t.lifecycle == s.lifecycle && !t.lifecycle.Provisioning? && !t.lifecycle.Wiping?
    && f == NoEffect
  }

  predicate InputFollows(s: State, input: Input, t: State, f: Effect) {
    match input
    case Handle(e) => Follows(s, e, t, f)
    case Reboot => Reboots(s, t, f)
  }

  lemma InputKeeps(s: State, input: Input, t: State, f: Effect)
    requires Inv(s) && Takes(s, input, t, f)
    ensures Inv(t) && InputFollows(s, input, t, f)
  {
    if input.Handle? {
      StepKeeps(s, input.event);
    }
  }

  /** Every state of every run satisfies the invariant. */
  lemma {:induction false} ReachableInv(r: Run, k: nat)
    requires IsRun(r) && k < |r.states|
    ensures Inv(r.states[k])
  {
    if k > 0 {
      ReachableInv(r, k - 1);
      assert StepAt(r, k - 1);
      InputKeeps(r.states[k - 1], r.inputs[k - 1], r.states[k], r.effects[k - 1]);
    }
  }

  lemma StepFollows(r: Run, i: nat)
    requires IsRun(r) && i < |r.inputs|
    ensures Inv(r.states[i]) && Inv(r.states[i + 1])
    ensures InputFollows(r.states[i], r.inputs[i], r.states[i + 1], r.effects[i])
  {
    ReachableInv(r, i);
    assert StepAt(r, i);
    InputKeeps(r.states[i], r.inputs[i], r.states[i + 1], r.effects[i]);
  }
}
