/** How a session comes to be, and what it keeps while it lasts. */
module WalletSessionHistory {
  import opened Bytes
  import opened CryptoVocabulary
  import opened WalletState
  import opened WalletReducer
  import opened WalletInvariant
  import opened WalletProtocol
  import opened WalletRuns

  // ----- While a session lasts -----

  predicate UnlockedThrough(r: Run, i: nat, j: nat)
    requires IsRun(r) && i <= j < |r.states|
  {
    forall m :: i <= m <= j ==> r.states[m].auth.Unlocked?
  }

  /** A host is revoked at step `m`: this one, or all of them. */
  predicate Revokes(r: Run, m: nat, host: HostId)
    requires IsRun(r) && m < |r.inputs|
  {
    && r.inputs[m].Handle? && r.inputs[m].event.SettingChangePersisted?
    && r.states[m].flow.Settings? && r.states[m].flow.stage == PersistingSetting
    && r.states[m].flow.settings == r.inputs[m].event.settings
    && r.states[m].flow.change in {RevokeHost(host), RevokeAllHosts}
  }

  lemma SessionStep(r: Run, m: nat)
    requires IsRun(r) && m < |r.inputs| && r.states[m].auth.Unlocked? && r.states[m + 1].auth.Unlocked?
    ensures var before, after := r.states[m].auth.session, r.states[m + 1].auth.session;
            if Revokes(r, m, before.host) then after == before.(trust := Untrusted) else after == before
  {
    StepFollows(r, m);
  }

  /** Within a session its id, host and wallet never change, and it is still trusted
      exactly when it was and its host has not been revoked since. */
  lemma {:induction false} SessionIsConstant(r: Run, i: nat, j: nat)
    requires IsRun(r) && i <= j < |r.states| && UnlockedThrough(r, i, j)
    ensures var before, after := r.states[i].auth.session, r.states[j].auth.session;
            && after.(trust := before.trust) == before
            && (after.trust == Trusted <==>
                  before.trust == Trusted && forall m :: i <= m < j ==> !Revokes(r, m, before.host))
  {
    if i < j {
      SessionIsConstant(r, i, j - 1);
      assert r.states[j - 1].auth.Unlocked?;
      SessionStep(r, j - 1);
    }
  }

  // ----- How a session is opened -----

  predicate Attempting(auth: AuthState) {
    auth.ResolvingHost? || auth.VerifyingPin? || auth.AwaitingPassphrase? || auth.OpeningSession?
  }

  predicate Attempts(auth: AuthState, id: AuthId, host: HostId) {
    Attempting(auth) && auth.id == id && auth.host == host
  }

  /** From the host's request at step `u` up to state `n` this one attempt runs. */
  predicate Attempted(r: Run, u: nat, n: nat, id: AuthId, host: HostId)
    requires IsRun(r) && n <= |r.inputs|
  {
    && u < n && r.states[u].auth.Locked? && r.inputs[u] == Handle(UnlockRequested(id, host))
    && (forall m :: u < m <= n ==> Attempts(r.states[m].auth, id, host))
  }

  predicate TrustResolved(r: Run, u: nat, h: nat, n: nat, id: AuthId, trust: HostTrust)
    requires IsRun(r) && n <= |r.inputs|
  {
    u < h < n && r.inputs[h] == Handle(HostTrustResolved(id, trust))
  }

  function PassphraseAt(r: Run, m: nat): Option<PassphraseMode>
    requires IsRun(r) && m < |r.inputs|
  {
    if r.states[m].lifecycle.Provisioned? then Some(r.states[m].lifecycle.metadata.passphrase) else None
  }

  predicate PinAccepted(r: Run, h: nat, v: nat, n: nat, id: AuthId)
    requires IsRun(r) && n <= |r.inputs|
  {
    h < v < n && r.inputs[v] == Handle(PinVerified(id))
  }

  /** The passphrase was provided, or skipped where it is optional, or there is none
      to provide. */
  predicate PassphraseSettled(r: Run, v: nat, w: nat, n: nat, id: AuthId)
    requires IsRun(r) && n <= |r.inputs| && v < n
  {
    if PassphraseAt(r, v) == Some(Disabled) then true
    else
      && v < w < n
      && (r.inputs[w] == Handle(PassphraseProvided(id))
          || (r.inputs[w] == Handle(PassphraseSkipped(id)) && PassphraseAt(r, w) == Some(Optional)))
  }

  predicate AttemptProgressed(r: Run, u: nat, h: nat, v: nat, w: nat, n: nat)
    requires IsRun(r) && n <= |r.inputs|
  {
    match r.states[n].auth
    case ResolvingHost(id, host, _) => Attempted(r, u, n, id, host)
    case VerifyingPin(id, host, trust, _) => Attempted(r, u, n, id, host) && TrustResolved(r, u, h, n, id, trust)
    case AwaitingPassphrase(id, host, trust, _) =>
      && Attempted(r, u, n, id, host) && TrustResolved(r, u, h, n, id, trust) && PinAccepted(r, h, v, n, id)
      && PassphraseAt(r, v) != Some(Disabled)
    case OpeningSession(id, host, trust, _) =>
      && Attempted(r, u, n, id, host) && TrustResolved(r, u, h, n, id, trust) && PinAccepted(r, h, v, n, id)
      && PassphraseSettled(r, v, w, n, id)
    case _ => true
  }

  lemma AttemptStep(r: Run, n: nat)
    requires IsRun(r) && n < |r.inputs|
    requires Attempting(r.states[n + 1].auth)
    ensures r.inputs[n].Handle? && AuthFollows(r.states[n], r.inputs[n].event, r.states[n + 1], r.effects[n])
  {
    StepFollows(r, n);
  }

  lemma AttemptStays(r: Run, u: nat, h: nat, v: nat, w: nat, n: nat)
    requires IsRun(r) && n < |r.inputs| && Attempting(r.states[n].auth) && r.states[n + 1].auth == r.states[n].auth
    requires AttemptProgressed(r, u, h, v, w, n)
    ensures AttemptProgressed(r, u, h, v, w, n + 1)
  {
  }

  lemma AttemptAdvances(r: Run, u: nat, h: nat, v: nat, w: nat, n: nat) returns (h': nat, v': nat, w': nat)
    requires IsRun(r) && n < |r.inputs| && Attempting(r.states[n].auth) && r.inputs[n].Handle?
    requires Attempting(r.states[n + 1].auth) && r.states[n + 1].auth != r.states[n].auth
    requires AuthFollows(r.states[n], r.inputs[n].event, r.states[n + 1], r.effects[n])
    requires AttemptProgressed(r, u, h, v, w, n)
    ensures AttemptProgressed(r, u, h', v', w', n + 1)
  {
    h', v', w' := h, v, w;
    if r.states[n].auth.ResolvingHost? {
      h' := n;
    } else if r.states[n].auth.VerifyingPin? {
      v' := n;
    } else {
      w' := n;
    }
  }

  /** A running attempt has its history. */
  lemma {:induction false} AttemptHistory(r: Run, n: nat) returns (u: nat, h: nat, v: nat, w: nat)
    requires IsRun(r) && n <= |r.inputs|
    ensures AttemptProgressed(r, u, h, v, w, n)
  {
    u, h, v, w := 0, 0, 0, 0;
    if n > 0 && Attempting(r.states[n].auth) {
      AttemptStep(r, n - 1);
      if !Attempting(r.states[n - 1].auth) {
        u := n - 1;
      } else {
        u, h, v, w := AttemptHistory(r, n - 1);
        if r.states[n - 1].auth == r.states[n].auth {
          AttemptStays(r, u, h, v, w, n - 1);
        } else {
          h, v, w := AttemptAdvances(r, u, h, v, w, n - 1);
        }
      }
    }
  }

  /** Step `o` opens the session after a complete chain of one attempt: requested at
      `u` by the session's host, its trust resolved at `h` as the session has it, the
      PIN verified at `v`, the passphrase settled at `v` or `w`. */
  predicate Opened(r: Run, u: nat, h: nat, v: nat, w: nat, o: nat)
    requires IsRun(r) && o < |r.inputs|
  {
    && r.states[o + 1].auth.Unlocked? && r.states[o].auth.OpeningSession?
    && var session, id := r.states[o + 1].auth.session, r.states[o].auth.id;
       && r.inputs[o] == Handle(SessionOpened(id, session.id, session.wallet))
       && Attempted(r, u, o, id, session.host) && TrustResolved(r, u, h, o, id, session.trust)
       && PinAccepted(r, h, v, o, id) && PassphraseSettled(r, v, w, o, id)
  }

  /** Every session is opened by a complete chain of steps of one unlock attempt. */
  lemma SessionIsAuthenticated(r: Run, o: nat) returns (u: nat, h: nat, v: nat, w: nat)
    requires IsRun(r) && o < |r.inputs| && !r.states[o].auth.Unlocked? && r.states[o + 1].auth.Unlocked?
    ensures Opened(r, u, h, v, w, o)
  {
    StepFollows(r, o);
    u, h, v, w := AttemptHistory(r, o);
  }

  lemma {:induction false} OpeningOf(r: Run, n: nat) returns (o: nat)
    requires IsRun(r) && n <= |r.inputs| && r.states[n].auth.Unlocked?
    ensures o < n && !r.states[o].auth.Unlocked? && UnlockedThrough(r, o + 1, n)
  {
    if n > 0 {
      if r.states[n - 1].auth.Unlocked? {
        o := OpeningOf(r, n - 1);
      } else {
        o := n - 1;
      }
    }
  }

  /** No capability without a new unlock. Wherever an execution context can be had,
      or an operation is executed, a complete unlock chain lies before, no reboot
      since it began, and the context is for the wallet that chain opened. */
  lemma ContextNeedsUnlock(r: Run, n: nat) returns (u: nat, h: nat, v: nat, w: nat, o: nat)
    requires IsRun(r) && n <= |r.inputs|
    requires r.states[n].Context().Some? || (n < |r.inputs| && r.effects[n].ExecuteOperation?)
    ensures o < n && Opened(r, u, h, v, w, o) && UnlockedThrough(r, o + 1, n)
    ensures forall m :: u <= m < n ==> r.inputs[m].Handle?
    ensures r.states[n].Context() == Some(ExecutionContext(r.states[o + 1].auth.session.wallet))
  {
    if n < |r.inputs| && r.effects[n].ExecuteOperation? {
      StepFollows(r, n);
    }
    o := OpeningOf(r, n);
    u, h, v, w := SessionIsAuthenticated(r, o);
    SessionIsConstant(r, o + 1, n);
    forall m | u <= m < n
      ensures r.inputs[m].Handle?
    {
      NotLockedBehind(r, u, o, n, m);
    }
  }

  lemma NotLockedBehind(r: Run, u: nat, o: nat, n: nat, m: nat)
    requires IsRun(r) && u < o < n <= |r.inputs| && u <= m < n && UnlockedThrough(r, o + 1, n)
    requires r.states[o].auth.OpeningSession? && Attempted(r, u, o, r.states[o].auth.id, r.states[o].auth.host)
    ensures r.inputs[m].Handle?
  {
    StepFollows(r, m);
    if m < o {
      assert Attempts(r.states[m + 1].auth, r.states[o].auth.id, r.states[o].auth.host);
    } else {
      assert r.states[m + 1].auth.Unlocked?;
    }
  }
}
