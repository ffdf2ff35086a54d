/** The two-button demo: a 28-screen machine that drives the real reducer. */
module WalletDemo {
  import opened Bytes
  import W = WalletState
  import opened WalletReducer
  import opened WalletInvariant

  type u8 = W.u8

  const HOST: W.HostId := 1
  const AUTH: W.AuthId := 1
  const SESSION_ID: W.SessionId := 1
  const WALLET: W.WalletContextId := 1
  const OPERATION: W.OperationId := 1
  const PIN_DIGITS: nat := 4
  const AUTO_SLEEP_MS: nat := 30_000
  const SIGNING_TICKS: nat := 180

  datatype Button = Left | Right | Both | BothHeld

  datatype ScreenState =
    | Welcome
    | SetupChoice
    | PinCreate
    | PinConfirm
    | PinMismatch
    | RecoveryIntro
    | RecoveryWord
    | RecoveryCheck
    | RecoveryCheckFailed
    | SetupComplete
    | Dashboard
    | BitcoinApp
    | Settings
    | SecuritySettings
    | DisplaySettings
    | PowerSettings
    | About
    | Information
    | ControlCenter
    | Locked
    | PinUnlock
    | PinWrong
    | Review
    | Signing
    | Signed
    | Rejected
    | Sleeping
    | Error

  // ----- The domain states behind the screens -----

  const METADATA: W.WalletMetadata := W.WalletMetadata(W.Generated, W.Verified, W.Disabled)
  const PLAN: W.ReviewPlan := W.ReviewPlan(W.SignTransaction, true, W.Full, W.Confirm)
  const SESSION: W.Session := W.Session(SESSION_ID, HOST, WALLET, W.Trusted)

  /** The five domain states the demo brings about. */
  datatype Domain = Blank | Sealed | Open | InReview | InExecution

  function OperationAt(stage: W.OperationStage): W.FlowState {
    W.Operation(W.PendingOperation(OPERATION, HOST, WALLET, Some(W.SignTransaction), stage))
  }

  /** Among them `blank_state` and `provisioned_state`. */
  function StateOf(domain: Domain): W.State {
    match domain
    case Blank => W.Restore(W.PersistentState(None, W.STRICT))
    case Sealed => W.Restore(W.PersistentState(Some(METADATA), W.STRICT))
    case Open => W.State(W.Provisioned(METADATA), W.Unlocked(SESSION), W.Idle, W.STRICT)
    case InReview => W.State(W.Provisioned(METADATA), W.Unlocked(SESSION), OperationAt(W.Reviewing(PLAN)), W.STRICT)
    case InExecution => W.State(W.Provisioned(METADATA), W.Unlocked(SESSION), OperationAt(W.Executing), W.STRICT)
  }

  predicate SetupScreen(screen: ScreenState) {
    || screen.Welcome? || screen.SetupChoice? || screen.PinCreate? || screen.PinConfirm? || screen.PinMismatch?
    || screen.RecoveryIntro? || screen.RecoveryWord? || screen.RecoveryCheck? || screen.RecoveryCheckFailed?
  }

  predicate SealedScreen(screen: ScreenState) {
    screen.Locked? || screen.PinUnlock? || screen.PinWrong? || screen.Sleeping?
  }

  /** The one domain state a screen is shown over. */
  function DomainOf(screen: ScreenState, setupComplete: bool): Domain {
    if !setupComplete then Blank
    else if SealedScreen(screen) then Sealed
    else if screen == Review then InReview
    else if screen == Signing then InExecution
    else Open
  }

  /** The reducer's answers to what the demo sends it. */
  lemma LockStep(domain: Domain)
    requires domain.Open? || domain.InReview?
    ensures Update(StateOf(domain), W.LockRequested).state == StateOf(Sealed)
  {
  }

  lemma ExecutionSteps()
    ensures Update(StateOf(InReview), W.OperationConfirmed(OPERATION))
         == W.Transition(StateOf(InExecution), W.ExecuteOperation(OPERATION))
    ensures Update(StateOf(InReview), W.OperationRejected(OPERATION))
         == W.Transition(StateOf(Open), W.RejectOperation(OPERATION, W.UserRejected))
    ensures Update(StateOf(InExecution), W.OperationCompleted(OPERATION))
         == W.Transition(StateOf(Open), W.CompleteOperation(OPERATION))
  {
  }

  lemma UnlockSteps()
    ensures Update(StateOf(Sealed), W.UnlockRequested(AUTH, HOST)).effect == W.ResolveHostTrust(AUTH, HOST)
    ensures var s1 := Update(StateOf(Sealed), W.UnlockRequested(AUTH, HOST)).state;
            var s2 := Update(s1, W.HostTrustResolved(AUTH, W.Trusted)).state;
            var s3 := Update(s2, W.PinVerified(AUTH)).state;
            Update(s3, W.SessionOpened(AUTH, SESSION_ID, WALLET)).state == StateOf(Open)
  {
  }

  lemma ReviewSteps()
    ensures var t1 := Update(StateOf(Open), W.OperationRequested(OPERATION, HOST));
            var t2 := Update(t1.state, W.ReviewPrepared(OPERATION, PLAN));
            var t3 := Update(t2.state, W.ReviewDisplayed(OPERATION));
            && t1.effect == W.PrepareOperationReview(OPERATION)
            && t2.effect == W.RenderOperationReview(OPERATION)
            && t3 == W.Transition(StateOf(InReview), W.NoEffect)
  {
  }

  function Previous(value: nat, count: nat): nat
    requires value < count
  {
    if value == 0 then count - 1 else value - 1
  }

  function Next(value: nat, count: nat): nat
    requires value < count
  {
    (value + 1) % count
  }

  /** What left and right do to a selection; both buttons leave it alone. */
  function Turn(value: nat, count: nat, button: Button): nat
    requires value < count
  {
    if button == Left then Previous(value, count) else if button == Right then Next(value, count) else value
  }

  lemma NextWraps(value: nat, count: nat)
    requires value < count
    ensures Next(value, count) == if value + 1 < count then value + 1 else 0
  {
    var q := (value + 1) / count;
    assert value + 1 == q * count + (value + 1) % count;
  }

  /** Left and right undo each other, and stay inside the menu. */
  lemma TurnsUndo(value: nat, count: nat)
    requires value < count
    ensures Previous(value, count) < count && Next(value, count) < count
    ensures Next(Previous(value, count), count) == value && Previous(Next(value, count), count) == value
  {
    NextWraps(value, count);
    NextWraps(Previous(value, count), count);
  }

  // ----- Time -----

  /** What the passing of time works on: the screen, whether the wallet is open, the
      ticks spent signing and the milliseconds spent idle. */
  datatype Clock = Clock(screen: ScreenState, awake: bool, signing: u16, idle: u32)

  function Saturated(sum: nat, most: nat): (r: nat)
    ensures r <= most
  {
    if sum <= most then sum else most
  }

  /** One `tick`. */
  function Ticked(c: Clock, ticks: u16): Clock {
    if c.screen == Signing then
      var signing := Saturated(c.signing + ticks, 0xFFFF);
      if signing >= SIGNING_TICKS then c.(screen := Signed, signing := signing) else c.(signing := signing)
    else if c.awake then
      var idle := Saturated(c.idle + ticks, 0xFFFF_FFFF);
      if idle >= AUTO_SLEEP_MS then c.(screen := Sleeping, awake := false, idle := 0) else c.(idle := idle)
    else c
  }

  function Total(ticks: seq<u16>): nat {
    if ticks == [] then 0 else ticks[0] + Total(ticks[1..])
  }

  /** Ticks, one after the other, with no press between them. */
  function After(c: Clock, ticks: seq<u16>): Clock
    decreases |ticks|
  {
    if ticks == [] then c else After(Ticked(c, ticks[0]), ticks[1..])
  }

  /** However the time is cut into ticks: an open wallet falls asleep exactly when the
      idle time has come to 30 seconds, and until then the screen stays as it is. */
  lemma {:induction false} FallsAsleepIff(c: Clock, ticks: seq<u16>)
    requires c.awake && c.screen != Signing && c.idle < AUTO_SLEEP_MS
    ensures After(c, ticks) == if c.idle + Total(ticks) >= AUTO_SLEEP_MS then c.(screen := Sleeping, awake := false, idle := 0)
                               else c.(idle := c.idle + Total(ticks))
    decreases |ticks|
  {
    if ticks != [] {
      if c.idle + ticks[0] >= AUTO_SLEEP_MS {
        StaysClosed(Ticked(c, ticks[0]), ticks[1..]);
      } else {
        FallsAsleepIff(Ticked(c, ticks[0]), ticks[1..]);
      }
    }
  }

  /** A wallet that is not open stays as it is. */
  lemma {:induction false} StaysClosed(c: Clock, ticks: seq<u16>)
    requires !c.awake && c.screen != Signing
    ensures After(c, ticks) == c
  {
    if ticks != [] {
      StaysClosed(c, ticks[1..]);
    }
  }

  /** Signing goes on exactly while its ticks have not come to 180, and the idle time
      stands still meanwhile. */
  lemma {:induction false} SigningGoesOnIff(c: Clock, ticks: seq<u16>)
    requires c.screen == Signing && c.awake && c.signing < SIGNING_TICKS && c.idle < AUTO_SLEEP_MS
    ensures After(c, ticks).screen == Signing <==> c.signing + Total(ticks) < SIGNING_TICKS
    ensures After(c, ticks).screen == Signing ==> After(c, ticks) == c.(signing := c.signing + Total(ticks))
    decreases |ticks|
  {
    if ticks != [] {
      var next := Ticked(c, ticks[0]);
      if next.screen == Signing {
        SigningGoesOnIff(next, ticks[1..]);
      } else {
        FallsAsleepIff(next, ticks[1..]);
      }
    }
  }

  /** The tick that brings the sum to 180 completes the signature; from then on the
      idle time counts, from where it stood when signing began. */
  lemma SigningThenSleep(c: Clock, before: seq<u16>, last: u16, behind: seq<u16>)
    requires c.screen == Signing && c.awake && c.signing < SIGNING_TICKS && c.idle < AUTO_SLEEP_MS
    requires c.signing + Total(before) < SIGNING_TICKS <= c.signing + Total(before) + last
    ensures After(c, before + [last]).screen == Signed
    ensures After(c, before + [last] + behind).screen
         == if c.idle + Total(behind) >= AUTO_SLEEP_MS then Sleeping else Signed
  {
    SigningGoesOnIff(c, before);
    AfterAppend(c, before, [last]);
    AfterAppend(c, before + [last], behind);
    FallsAsleepIff(After(c, before + [last]), behind);
  }

  lemma {:induction false} AfterAppend(c: Clock, a: seq<u16>, b: seq<u16>)
    ensures After(c, a + b) == After(After(c, a), b)
    decreases |a|
  {
    if a == [] {
      assert a + b == b;
    } else {
      assert (a + b)[0] == a[0] && (a + b)[1..] == a[1..] + b;
      AfterAppend(Ticked(c, a[0]), a[1..], b);
    }
  }

  /** What a frame shows, apart from its sequence number: the screen, the flags and
      the selection that the screen's text depends on. */
  datatype Shown = Shown(screen: ScreenState, unlocked: bool, setupComplete: bool, wakeCount: nat, focus: (nat, nat))

  class WalletDemo {
    var state: W.State
    var screen: ScreenState
    var sequence: u8
    var signingTicks: u16
    var inactivityMs: u32
    var lastEffect: W.Effect
    var setupChoice: nat
    const pin: array<nat>
    const pinConfirmation: array<nat>
    const pinEntry: array<nat>
    var pinPosition: nat
    var selectedDigit: nat
    var recoveryIndex: nat
    var recoveryCheckStep: nat
    var recoveryCheckChoice: nat
    var homeIndex: nat
    var settingsIndex: nat
    var securityIndex: nat
    var displayIndex: nat
    var powerIndex: nat
    var reviewIndex: nat
    var controlIndex: nat
    var brightness: nat
    var wakeCount: u8
    var setupComplete: bool

    /** Every index stays inside the table it selects from. */
    predicate InRange()
      reads `setupChoice, `pinPosition, `selectedDigit, `recoveryIndex, `recoveryCheckStep, `recoveryCheckChoice,
            `homeIndex, `settingsIndex, `securityIndex, `displayIndex, `powerIndex, `reviewIndex, `controlIndex,
                `brightness
    {
      && setupChoice < 2 && pinPosition < PIN_DIGITS && selectedDigit < 10
      && recoveryIndex < 24 && recoveryCheckStep < 2 && recoveryCheckChoice < 4
      && homeIndex < 3 && settingsIndex < 4 && securityIndex < 3 && displayIndex < 4 && powerIndex < 3
      && reviewIndex < 5 && controlIndex < 4 && brightness < 3
    }

    predicate Buffers() {
      && pin.Length == PIN_DIGITS && pinConfirmation.Length == PIN_DIGITS && pinEntry.Length == PIN_DIGITS
      && pin != pinConfirmation && pin != pinEntry && pinConfirmation != pinEntry
    }

    /** Screen and domain state belong together, and the fail-closed screen is never
        shown. */
    predicate Coupled()
      reads `state, `screen, `setupComplete
    {
      && state == StateOf(DomainOf(screen, setupComplete)) && !screen.Error?
      && (setupComplete ==> !SetupScreen(screen)) && (!setupComplete ==> SetupScreen(screen) || screen.Information?)
    }

    predicate SamePins()
      requires Buffers()
      reads pin, pinConfirmation
    {
      forall i :: 0 <= i < PIN_DIGITS ==> pin[i] == pinConfirmation[i]
    }

    /** The PIN was entered twice, equally, before recovery words are shown. */
    predicate PinChosen()
      requires Buffers()
      reads `screen, `setupComplete, pin, pinConfirmation
    {
      setupComplete || screen.RecoveryIntro? || screen.RecoveryWord? || screen.RecoveryCheck?
          || screen.RecoveryCheckFailed?
      ==> SamePins()
    }

    /** Neither counter waits at its limit. */
    predicate Timely()
      reads `screen, `signingTicks, `inactivityMs
    {
      (screen == Signing ==> signingTicks < SIGNING_TICKS) && inactivityMs < AUTO_SLEEP_MS
    }

    ghost predicate Valid()
      reads this, pin, pinConfirmation
    {
      Buffers() && InRange() && Coupled() && PinChosen() && Timely()
    }

    constructor ()
      ensures Valid() && fresh(pin) && fresh(pinConfirmation) && fresh(pinEntry) && SamePins()
      ensures Frame() == Shown(Welcome, false, false, 0, (0, 0)) && sequence == 0
      ensures inactivityMs == 0 && signingTicks == 0 && setupChoice == 0 && brightness == 1
    {
      state, screen, sequence := StateOf(Blank), Welcome, 0;
      signingTicks, inactivityMs, lastEffect := 0, 0, W.NoEffect;
      setupChoice := 0;
      pin := new nat[PIN_DIGITS](_ => 0);
      pinConfirmation := new nat[PIN_DIGITS](_ => 0);
      pinEntry := new nat[PIN_DIGITS](_ => 0);
      pinPosition, selectedDigit := 0, 0;
      recoveryIndex, recoveryCheckStep, recoveryCheckChoice := 0, 0, 0;
      homeIndex, settingsIndex, securityIndex, displayIndex, powerIndex := 0, 0, 0, 1, 0;
      reviewIndex, controlIndex, brightness := 0, 0, 1;
      wakeCount, setupComplete := 0, false;
    }

    predicate IsUnlocked()
      reads `state
    {
      state.auth.Unlocked?
    }

    /** The selection the text of the current screen depends on. */
    function Focus(): (nat, nat)
      reads `screen, `setupChoice, `pinPosition, `selectedDigit, `recoveryIndex, `recoveryCheckStep, `recoveryCheckChoice,
            `homeIndex, `settingsIndex, `securityIndex, `displayIndex, `powerIndex, `reviewIndex, `controlIndex
    {
      match screen
      case SetupChoice => (setupChoice, 0)
      case PinCreate => (pinPosition, selectedDigit)
      case PinConfirm => (pinPosition, selectedDigit)
      case PinUnlock => (pinPosition, selectedDigit)
      case RecoveryWord => (recoveryIndex, 0)
      case RecoveryCheck => (recoveryCheckStep, recoveryCheckChoice)
      case Dashboard => (homeIndex, 0)
      case Settings => (settingsIndex, 0)
      case SecuritySettings => (securityIndex, 0)
      case DisplaySettings => (displayIndex, 0)
      case PowerSettings => (powerIndex, 0)
      case ControlCenter => (controlIndex, 0)
      case Review => (reviewIndex, 0)
      case _ => (0, 0)
    }

    /** `frame`, without its sequence number. */
    function Frame(): Shown
      reads `screen, `state, `setupComplete, `wakeCount,
            `setupChoice, `pinPosition, `selectedDigit, `recoveryIndex, `recoveryCheckStep, `recoveryCheckChoice,
            `homeIndex, `settingsIndex, `securityIndex, `displayIndex, `powerIndex, `reviewIndex, `controlIndex
    {
      Shown(screen, IsUnlocked(), setupComplete, wakeCount, Focus())
    }

    /** The next sequence number was taken. */
    twostate predicate Bumped()
      reads `sequence
    {
      sequence == (old(sequence) + 1) % 0x100
    }

    /** The wallet is open on the screens behind the PIN. */
    predicate Opened()
      reads `screen, `setupComplete
    {
      setupComplete && !SealedScreen(screen)
    }

    function Time(): Clock
      reads `screen, `setupComplete, `signingTicks, `inactivityMs
    {
      Clock(screen, Opened(), signingTicks, inactivityMs)
    }

    lemma OpenedIsUnlocked()
      requires Coupled()
      ensures Opened() <==> IsUnlocked()
    {
    }

    /** The press that completes the chosen PIN. */
    predicate CompletesPin(button: Button)
      requires Buffers()
      reads `screen, `pinPosition, `selectedDigit, pin, pinEntry
    {
      && screen == PinUnlock && button == Both && pinPosition == PIN_DIGITS - 1
      && pinEntry[0] == pin[0] && pinEntry[1] == pin[1] && pinEntry[2] == pin[2] && selectedDigit == pin[3]
    }

    /** The press that picks the second recovery word correctly, and ends the setup. */
    predicate CompletesBackup(button: Button)
      reads `screen, `recoveryCheckChoice, `recoveryCheckStep
    {
      screen == RecoveryCheck && button == Both && recoveryCheckChoice == 2 && recoveryCheckStep == 1
    }

    /** The press on the approval field of the review. */
    predicate Approves(button: Button)
      reads `screen, `reviewIndex
    {
      screen == Review && button == Both && reviewIndex == 3
    }

    /** The press that completes the repetition of the new PIN, equal to the first entry. */
    predicate RepeatsPin(button: Button)
      requires Buffers()
      reads `screen, `pinPosition, `selectedDigit, pin, pinConfirmation
    {
      && screen == PinConfirm && button == Both && pinPosition == PIN_DIGITS - 1
      && pinConfirmation[0] == pin[0] && pinConfirmation[1] == pin[1] && pinConfirmation[2] == pin[2] && selectedDigit == pin[3]
    }

    /** Where a screen leads when both buttons are pressed. */
    function Confirmed(): ScreenState
      requires Buffers()
      reads `screen, `setupChoice, `pinPosition, `selectedDigit, `recoveryIndex, `recoveryCheckStep, `recoveryCheckChoice,
            `homeIndex, `settingsIndex, `securityIndex, `powerIndex, `reviewIndex, `controlIndex, `setupComplete,
            pin, pinConfirmation, pinEntry
    {
      match screen
      case Welcome => SetupChoice
      case SetupChoice => if setupChoice == 0 then PinCreate else Information
      case PinCreate => if pinPosition < PIN_DIGITS - 1 then PinCreate else PinConfirm
      case PinConfirm =>
        if pinPosition < PIN_DIGITS - 1 then PinConfirm else if RepeatsPin(Both) then RecoveryIntro else PinMismatch
      case PinMismatch => PinCreate
      case RecoveryIntro => RecoveryWord
      case RecoveryWord => if recoveryIndex == 23 then RecoveryCheck else RecoveryWord
      case RecoveryCheck =>
        if recoveryCheckChoice != 2 then RecoveryCheckFailed
        else if recoveryCheckStep == 0 then RecoveryCheck else SetupComplete
      case RecoveryCheckFailed => RecoveryCheck
      case SetupComplete => Dashboard
      case Dashboard => if homeIndex == 0 then BitcoinApp else if homeIndex == 1 then Settings else About
      case BitcoinApp => Review
      case Settings =>
        if settingsIndex == 0 then SecuritySettings else if settingsIndex == 1 then DisplaySettings
        else if settingsIndex == 2 then PowerSettings else Dashboard
      case SecuritySettings => if securityIndex == 2 then Settings else Information
      case DisplaySettings => Settings
      case PowerSettings => if powerIndex == 0 then Sleeping else if powerIndex == 1 then Information else Settings
      case About => if setupComplete then Dashboard else SetupChoice
      case Information => if setupComplete then Dashboard else SetupChoice
      case ControlCenter =>
        if controlIndex == 0 then Locked else if controlIndex == 1 then Settings
        else if controlIndex == 2 then Sleeping else Dashboard
      case Locked => PinUnlock
      case PinUnlock =>
        if pinPosition < PIN_DIGITS - 1 then PinUnlock else if CompletesPin(Both) then Dashboard else PinWrong
      case PinWrong => PinUnlock
      case Review => if reviewIndex == 3 then Signing else if reviewIndex == 4 then Rejected else Review
      case Signing => Signing
      case Signed => BitcoinApp
      case Rejected => BitcoinApp
      case Sleeping => Sleeping
      case Error => Error
    }

    /** Where a screen leads. One button leaves only the app, the information screens and
        the outcome of a signature; holding both leaves none. */
    function Destination(button: Button): ScreenState
      requires Buffers()
      reads `screen, `setupChoice, `pinPosition, `selectedDigit, `recoveryIndex, `recoveryCheckStep, `recoveryCheckChoice,
            `homeIndex, `settingsIndex, `securityIndex, `powerIndex, `reviewIndex, `controlIndex, `setupComplete,
            pin, pinConfirmation, pinEntry
    {
      if button == Both then Confirmed()
      else if screen == BitcoinApp && button == Left then Dashboard
      else if (screen.About? || screen.Information?) && button == Left then Confirmed()
      else if (screen.Signed? || screen.Rejected?) && button != BothHeld then BitcoinApp
      else screen
    }

    /** The selection while the screen stays. */
    function TurnedFocus(button: Button): (nat, nat)
      requires InRange()
      reads `screen, `setupChoice, `pinPosition, `selectedDigit, `recoveryIndex, `recoveryCheckStep, `recoveryCheckChoice,
            `homeIndex, `settingsIndex, `securityIndex, `displayIndex, `powerIndex, `reviewIndex, `controlIndex,
            `brightness
    {
      match screen
      case SetupChoice => (Turn(setupChoice, 2, button), 0)
      case PinCreate => DigitFocus(button)
      case PinConfirm => DigitFocus(button)
      case PinUnlock => DigitFocus(button)
      case RecoveryWord =>
        (if button == Left && recoveryIndex > 0 then recoveryIndex - 1
         else if button == Right && recoveryIndex < 23 then recoveryIndex + 1 else recoveryIndex, 0)
      case RecoveryCheck =>
        if button == Both then (1, 0) else (recoveryCheckStep, Turn(recoveryCheckChoice, 4, button))
      case Dashboard => (Turn(homeIndex, 3, button), 0)
      case Settings => (Turn(settingsIndex, 4, button), 0)
      case SecuritySettings => (Turn(securityIndex, 3, button), 0)
      case DisplaySettings => (Turn(displayIndex, 4, button), 0)
      case PowerSettings => (Turn(powerIndex, 3, button), 0)
      case ControlCenter => (Turn(controlIndex, 4, button), 0)
      case Review => (Turn(reviewIndex, 5, button), 0)
      case _ => (0, 0)
    }

    /** Both buttons enter a digit, which moves to the next position. */
    function DigitFocus(button: Button): (nat, nat)
      requires selectedDigit < 10
      reads `pinPosition, `selectedDigit
    {
      var position: nat := if button == Both then pinPosition + 1 else pinPosition;
      var digit: nat := if button == Both then 0 else Turn(selectedDigit, 10, button);
      (position, digit)
    }

    /** The selection a screen opens with. */
    function EntryFocus(next: ScreenState): (nat, nat)
      reads `screen, `setupChoice, `recoveryCheckStep, `homeIndex, `settingsIndex, `brightness, `displayIndex
    {
      var index: nat :=
        match next
        case SetupChoice => setupChoice
        case RecoveryCheck => if screen == RecoveryWord then 0 else recoveryCheckStep
        case Dashboard => if screen.SetupComplete? || screen.PinUnlock? then 0 else homeIndex
        case Settings => if screen.Dashboard? || screen.ControlCenter? then 0 else settingsIndex
        case DisplaySettings => brightness
        case _ => 0;
      (index, 0)
    }

    function NextFocus(button: Button): (nat, nat)
      requires Buffers() && InRange()
      reads `screen, `setupChoice, `pinPosition, `selectedDigit, `recoveryIndex, `recoveryCheckStep, `recoveryCheckChoice,
            `homeIndex, `settingsIndex, `securityIndex, `displayIndex, `powerIndex, `reviewIndex, `controlIndex,
            `brightness, `setupComplete, pin, pinConfirmation, pinEntry
    {
      if Destination(button) == screen then TurnedFocus(button) else EntryFocus(Destination(button))
    }

    /** What a screen's reaction to a press may do. */
    twostate predicate Reacts(button: Button)
      requires Buffers() && old(InRange())
      reads this
    {
      && screen == old(Destination(button)) && Focus() == old(NextFocus(button))
      && (Bumped() || unchanged(this)) && wakeCount == old(wakeCount)
      && setupComplete == (old(setupComplete) || old(CompletesBackup(button)))
      && (!old(Opened()) && Opened() <==> old(CompletesPin(button)) || old(CompletesBackup(button)))
      && (old(screen) != Signing && screen == Signing <==> old(Approves(button)))
      && (old(Approves(button)) ==> lastEffect == W.ExecuteOperation(OPERATION))
      && (old(screen) == Signing ==> unchanged(this))
      && (old(inactivityMs) == 0 ==> inactivityMs == 0)
      && signingTicks == (if old(Approves(button)) then 0 else old(signingTicks))
      && (old(screen) == ControlCenter && (button.Left? || button.Right?) && old(controlIndex) < 4 ==>
            screen == ControlCenter && controlIndex == Turn(old(controlIndex), 4, button))
    }

    // ----- The small setters -----

    method BumpFrame()
      modifies `sequence
      ensures Bumped()
    {
      sequence := (sequence + 1) % 0x100;
    }

    method SetScreen(next: ScreenState)
      modifies `screen, `sequence
      ensures screen == next
      ensures if old(screen) == next then sequence == old(sequence) else Bumped()
    {
      if screen != next {
        screen := next;
        BumpFrame();
      }
    }

    method Apply(event: W.Event)
      modifies `state, `lastEffect
      ensures W.Transition(state, lastEffect) == Update(old(state), event)
    {
      var transition := Update(state, event);
      state := transition.state;
      lastEffect := transition.effect;
    }

    method UnlockDomain()
      modifies `state, `lastEffect
      ensures old(state) == StateOf(Sealed) ==> state == StateOf(Open)
    {
      if IsUnlocked() {
        return;
      }
      UnlockSteps();
      Apply(W.UnlockRequested(AUTH, HOST));
      if lastEffect != W.ResolveHostTrust(AUTH, HOST) {
        return;
      }
      Apply(W.HostTrustResolved(AUTH, W.Trusted));
      Apply(W.PinVerified(AUTH));
      Apply(W.SessionOpened(AUTH, SESSION_ID, WALLET));
    }

    method LockDomain()
      modifies `state, `lastEffect
      ensures old(state) == StateOf(Sealed) || old(state) == StateOf(Open) || old(state) == StateOf(InReview) ==>
                state == StateOf(Sealed)
    {
      LockStep(Open);
      LockStep(InReview);
      if IsUnlocked() {
        Apply(W.LockRequested);
      }
    }

    method Lock()
      requires state == StateOf(Open) && screen == ControlCenter
      modifies `state, `lastEffect, `screen, `sequence
      ensures state == StateOf(Sealed) && screen == Locked && Bumped()
    {
      LockDomain();
      SetScreen(if state.auth.Locked? then Locked else Error);
    }

    method EnterSleep()
      requires state == StateOf(Sealed) || state == StateOf(Open) || state == StateOf(InReview)
      requires screen != Sleeping
      modifies `state, `lastEffect, `inactivityMs, `screen, `sequence
      ensures state == StateOf(Sealed) && screen == Sleeping && inactivityMs == 0 && Bumped()
    {
      LockDomain();
      inactivityMs := 0;
      SetScreen(Sleeping);
    }

    /** Left and right turn the digit. */
    method TurnDigit(button: Button)
      requires selectedDigit < 10 && (button.Left? || button.Right?)
      modifies `selectedDigit, `sequence
      ensures selectedDigit == Turn(old(selectedDigit), 10, button) < 10 && Bumped()
    {
      if button == Left {
        selectedDigit := if selectedDigit == 0 then 9 else selectedDigit - 1;
      } else {
        selectedDigit := (selectedDigit + 1) % 10;
      }
      BumpFrame();
    }

    // ----- Setup -----

    method StartPinCreation()
      requires Buffers() && screen != PinCreate
      modifies `pinPosition, `selectedDigit, `screen, `sequence, pin, pinConfirmation
      ensures screen == PinCreate && pinPosition == 0 && selectedDigit == 0 && Bumped()
      ensures forall i :: 0 <= i < PIN_DIGITS ==> pin[i] == 0 && pinConfirmation[i] == 0
    {
      forall i | 0 <= i < pin.Length {
        pin[i] := 0;
      }
      forall i | 0 <= i < pinConfirmation.Length {
        pinConfirmation[i] := 0;
      }
      pinPosition := 0;
      selectedDigit := 0;
      SetScreen(PinCreate);
    }

    /** Enters a digit of the new PIN. */
    method CreateDigit()
      requires Buffers() && screen == PinCreate && pinPosition < PIN_DIGITS
      modifies `pinPosition, `selectedDigit, `screen, `sequence, pin
      ensures pinPosition == Next(old(pinPosition), PIN_DIGITS) < PIN_DIGITS && selectedDigit == 0 && Bumped()
      ensures pin[..] == old(pin[..])[old(pinPosition) := old(selectedDigit)]
      ensures screen == if old(pinPosition) < PIN_DIGITS - 1 then PinCreate else PinConfirm
    {
      NextWraps(pinPosition, PIN_DIGITS);
      pin[pinPosition] := selectedDigit;
      pinPosition := pinPosition + 1;
      selectedDigit := 0;
      if pinPosition < PIN_DIGITS {
        BumpFrame();
      } else {
        pinPosition := 0;
        SetScreen(PinConfirm);
      }
    }

    /** Enters a digit of its repetition; the last one compares the two. */
    method ConfirmDigit()
      requires Buffers() && screen == PinConfirm && pinPosition < PIN_DIGITS
      modifies `pinPosition, `selectedDigit, `screen, `sequence, pinConfirmation
      ensures pinPosition == Next(old(pinPosition), PIN_DIGITS) < PIN_DIGITS && selectedDigit == 0 && Bumped()
      ensures pinConfirmation[..] == old(pinConfirmation[..])[old(pinPosition) := old(selectedDigit)]
      ensures screen == if old(pinPosition) < PIN_DIGITS - 1 then PinConfirm
                        else if SamePins() then RecoveryIntro else PinMismatch
    {
      NextWraps(pinPosition, PIN_DIGITS);
      pinConfirmation[pinPosition] := selectedDigit;
      pinPosition := pinPosition + 1;
      selectedDigit := 0;
      if pinPosition < PIN_DIGITS {
        BumpFrame();
      } else {
        pinPosition := 0;
        assert pin[..] == pinConfirmation[..] ==> forall i :: 0 <= i < PIN_DIGITS ==>
            pin[..][i] == pinConfirmation[..][i];
        SetScreen(if pin[..] == pinConfirmation[..] then RecoveryIntro else PinMismatch);
      }
    }

    method EditPin(button: Button, confirmation: bool)
      requires Buffers() && screen == (if confirmation then PinConfirm else PinCreate)
      requires pinPosition < PIN_DIGITS && selectedDigit < 10
      modifies `pinPosition, `selectedDigit, `screen, `sequence, pin, pinConfirmation
      ensures if button == BothHeld then unchanged(this) else Bumped()
      ensures pinPosition == (if button == Both then Next(old(pinPosition), PIN_DIGITS) else old(pinPosition)) < PIN_DIGITS
      ensures selectedDigit == (if button == Both then 0 else Turn(old(selectedDigit), 10, button)) < 10
      ensures pin[..] == if button == Both && !confirmation then old(pin[..])[old(pinPosition) := old(selectedDigit)]
                         else old(pin[..])
      ensures pinConfirmation[..]
           == if button == Both && confirmation then old(pinConfirmation[..])[old(pinPosition) := old(selectedDigit)]
              else old(pinConfirmation[..])
      ensures screen == if button != Both || old(pinPosition) < PIN_DIGITS - 1 then old(screen)
                        else if !confirmation then PinConfirm
                        else if SamePins() then RecoveryIntro else PinMismatch
    {
      if button == Both {
        if confirmation {
          ConfirmDigit();
        } else {
          CreateDigit();
        }
      } else if button != BothHeld {
        TurnDigit(button);
      }
    }

    method SetupChoiceInput(button: Button)
      requires Buffers() && screen == SetupChoice && setupChoice < 2
      modifies `setupChoice, `pinPosition, `selectedDigit, `screen, `sequence, pin, pinConfirmation
      ensures setupChoice == (if button == Left || button == Right then 1 - old(setupChoice) else old(setupChoice)) < 2
      ensures screen == if button != Both then SetupChoice else if old(setupChoice) == 0 then PinCreate else Information
      ensures screen == PinCreate ==> pinPosition == 0 && selectedDigit == 0
      ensures screen != PinCreate ==> unchanged(`pinPosition, `selectedDigit)
      ensures if button == BothHeld then unchanged(this) else Bumped()
    {
      match button {
        case BothHeld =>
        case Both =>
          if setupChoice == 0 {
            StartPinCreation();
          } else {
            SetScreen(Information);
          }
        case _ =>
          setupChoice := 1 - setupChoice;
          BumpFrame();
      }
    }

    method OnSetupChoice(button: Button)
      requires Valid() && screen == SetupChoice
      modifies `setupChoice, `pinPosition, `selectedDigit, `screen, `sequence, pin, pinConfirmation
      ensures Valid() && Reacts(button)
    {
      SetupChoiceInput(button);
    }

    method OnPinCreate(button: Button)
      requires Valid() && screen == PinCreate
      modifies `pinPosition, `selectedDigit, `screen, `sequence, pin, pinConfirmation
      ensures Valid() && Reacts(button)
    {
      if button == Both {
        OnCreateDigit();
      } else {
        EditPin(button, false);
      }
    }

    method OnCreateDigit()
      requires Valid() && screen == PinCreate
      modifies `pinPosition, `selectedDigit, `screen, `sequence, pin, pinConfirmation
      ensures Valid() && Reacts(Both)
    {
      EditPin(Both, false);
    }

    method OnPinConfirm(button: Button)
      requires Valid() && screen == PinConfirm
      modifies `pinPosition, `selectedDigit, `screen, `sequence, pin, pinConfirmation
      ensures Valid() && Reacts(button)
    {
      if button == Both {
        OnConfirmDigit();
      } else {
        EditPin(button, true);
      }
    }

    method OnConfirmDigit()
      requires Valid() && screen == PinConfirm
      modifies `pinPosition, `selectedDigit, `screen, `sequence, pin, pinConfirmation
      ensures Valid() && Reacts(Both)
    {
      EditPin(Both, true);
    }

    /** The screens up to the chosen PIN. */
    method PinSetupInput(button: Button)
      requires Valid()
      requires screen.Welcome? || screen.SetupChoice? || screen.PinCreate? || screen.PinConfirm? || screen.PinMismatch?
      modifies `setupChoice, `pinPosition, `selectedDigit, `screen, `sequence, pin, pinConfirmation
      ensures Valid() && Reacts(button)
    {
      if screen == Welcome {
        if button == Both {
          SetScreen(SetupChoice);
        }
      } else if screen == SetupChoice {
        OnSetupChoice(button);
      } else if screen == PinCreate {
        OnPinCreate(button);
      } else if screen == PinConfirm {
        OnPinConfirm(button);
      } else if button == Both {
        StartPinCreation();
      }
    }

    method CompleteSetup()
      requires screen == RecoveryCheck
      modifies `state, `lastEffect, `setupComplete, `screen, `sequence
      ensures state == StateOf(Open) && setupComplete && screen == SetupComplete && Bumped()
    {
      state := StateOf(Sealed);
      setupComplete := true;
      UnlockDomain();
      SetScreen(if IsUnlocked() then SetupComplete else Error);
    }

    method VerifyRecoveryWord(button: Button)
      requires screen == RecoveryCheck && recoveryCheckChoice < 4 && recoveryCheckStep < 2
      modifies `recoveryCheckStep, `recoveryCheckChoice, `state, `lastEffect, `setupComplete, `screen, `sequence
      ensures recoveryCheckChoice < 4 && recoveryCheckStep < 2
      ensures if button == BothHeld then unchanged(this) else Bumped()
      ensures if old(CompletesBackup(button)) then screen == SetupComplete && setupComplete && state == StateOf(Open)
              else && screen == (if button == Both
                  && old(recoveryCheckChoice) != 2 then RecoveryCheckFailed else RecoveryCheck)
                   && unchanged(`state, `setupComplete)
      ensures recoveryCheckStep == if button == Both && old(recoveryCheckChoice) == 2 then 1 else old(recoveryCheckStep)
      ensures screen == RecoveryCheck ==>
                recoveryCheckChoice == if button == Both then 0 else Turn(old(recoveryCheckChoice), 4, button)
    {
      match button {
        case Left =>
          recoveryCheckChoice := if recoveryCheckChoice == 0 then 3 else recoveryCheckChoice - 1;
          BumpFrame();
        case Right =>
          recoveryCheckChoice := (recoveryCheckChoice + 1) % 4;
          BumpFrame();
        case Both =>
          if recoveryCheckChoice != 2 {
            SetScreen(RecoveryCheckFailed);
            return;
          }
          if recoveryCheckStep == 0 {
            recoveryCheckStep := 1;
            recoveryCheckChoice := 0;
            BumpFrame();
          } else {
            CompleteSetup();
          }
        case BothHeld =>
      }
    }

    method RecoveryWordInput(button: Button)
      requires screen == RecoveryWord && recoveryIndex < 24 && recoveryCheckChoice < 4 && recoveryCheckStep < 2
      modifies `recoveryIndex, `recoveryCheckStep, `recoveryCheckChoice, `screen, `sequence
      ensures recoveryIndex < 24 && recoveryCheckChoice < 4 && recoveryCheckStep < 2
      ensures recoveryIndex == if button == Left && old(recoveryIndex) > 0 then old(recoveryIndex) - 1
                               else if button == Right && old(recoveryIndex) < 23 then old(recoveryIndex) + 1
                               else old(recoveryIndex)
      ensures screen == if button == Both && old(recoveryIndex) == 23 then RecoveryCheck else RecoveryWord
      ensures screen == RecoveryCheck ==> recoveryCheckStep == 0 && recoveryCheckChoice == 0
      ensures Bumped() || unchanged(this)
    {
      match button {
        case Left =>
          recoveryIndex := if recoveryIndex == 0 then 0 else recoveryIndex - 1;
          BumpFrame();
        case Right =>
          recoveryIndex := if recoveryIndex < 23 then recoveryIndex + 1 else 23;
          BumpFrame();
        case Both =>
          if recoveryIndex == 23 {
            recoveryCheckStep := 0;
            recoveryCheckChoice := 0;
            SetScreen(RecoveryCheck);
          }
        case BothHeld =>
      }
    }

    method OnRecoveryIntro(button: Button)
      requires Valid() && screen == RecoveryIntro
      modifies `recoveryIndex, `screen, `sequence
      ensures Valid() && Reacts(button)
    {
      if button == Both {
        recoveryIndex := 0;
        SetScreen(RecoveryWord);
      }
    }

    method OnRecoveryWord(button: Button)
      requires Valid() && screen == RecoveryWord
      modifies `recoveryIndex, `recoveryCheckStep, `recoveryCheckChoice, `screen, `sequence
      ensures Valid() && Reacts(button)
    {
      RecoveryWordInput(button);
    }

    method OnRecoveryCheck(button: Button)
      requires Valid() && screen == RecoveryCheck
      modifies `recoveryCheckStep, `recoveryCheckChoice, `state, `lastEffect, `setupComplete, `screen, `sequence
      ensures Valid() && Reacts(button)
    {
      VerifyRecoveryWord(button);
    }

    method OnRecoveryCheckFailed(button: Button)
      requires Valid() && screen == RecoveryCheckFailed
      modifies `recoveryCheckChoice, `screen, `sequence
      ensures Valid() && Reacts(button)
    {
      if button == Both {
        recoveryCheckChoice := 0;
        SetScreen(RecoveryCheck);
      }
    }

    // ----- Menus -----

    method DashboardInput(button: Button)
      requires screen == Dashboard && homeIndex < 3 && settingsIndex < 4
      modifies `homeIndex, `settingsIndex, `screen, `sequence
      ensures homeIndex < 3 && settingsIndex < 4
      ensures homeIndex == Turn(old(homeIndex), 3, button)
      ensures settingsIndex == if screen == Settings then 0 else old(settingsIndex)
      ensures screen == if button != Both then Dashboard
                        else if old(homeIndex) == 0 then BitcoinApp else if old(homeIndex) == 1 then Settings else About
      ensures if button == BothHeld then unchanged(this) else Bumped()
    {
      match button {
        case Left =>
          homeIndex := Previous(homeIndex, 3);
          BumpFrame();
        case Right =>
          homeIndex := Next(homeIndex, 3);
          BumpFrame();
        case Both =>
          if homeIndex == 1 {
            settingsIndex := 0;
          }
          SetScreen(if homeIndex == 0 then BitcoinApp else if homeIndex == 1 then Settings else About);
        case BothHeld =>
      }
    }

    method SettingsInput(button: Button)
      requires screen == Settings && settingsIndex < 4 && brightness < 3
      requires securityIndex < 3 && displayIndex < 4 && powerIndex < 3
      modifies `settingsIndex, `securityIndex, `displayIndex, `powerIndex, `screen, `sequence
      ensures settingsIndex < 4 && securityIndex < 3 && displayIndex < 4 && powerIndex < 3
      ensures settingsIndex == Turn(old(settingsIndex), 4, button)
      ensures screen == if button != Both then Settings
                        else if old(settingsIndex) == 0 then SecuritySettings else if old(settingsIndex) == 1 then DisplaySettings
                        else if old(settingsIndex) == 2 then PowerSettings else Dashboard
      ensures screen == DisplaySettings ==> displayIndex == brightness
      ensures screen == SecuritySettings ==> securityIndex == 0
      ensures screen == PowerSettings ==> powerIndex == 0
      ensures if button == BothHeld then unchanged(this) else Bumped()
    {
      match button {
        case Left =>
          settingsIndex := Previous(settingsIndex, 4);
          BumpFrame();
        case Right =>
          settingsIndex := Next(settingsIndex, 4);
          BumpFrame();
        case Both =>
          match settingsIndex {
            case 0 =>
              securityIndex := 0;
              SetScreen(SecuritySettings);
            case 1 =>
              displayIndex := brightness;
              SetScreen(DisplaySettings);
            case 2 =>
              powerIndex := 0;
              SetScreen(PowerSettings);
            case _ =>
              SetScreen(Dashboard);
          }
        case BothHeld =>
      }
    }

    method SecurityInput(button: Button)
      requires screen == SecuritySettings && securityIndex < 3
      modifies `securityIndex, `screen, `sequence
      ensures securityIndex == Turn(old(securityIndex), 3, button) < 3
      ensures screen == if button != Both then SecuritySettings else if old(securityIndex) == 2 then Settings else Information
      ensures if button == BothHeld then unchanged(this) else Bumped()
    {
      match button {
        case Left =>
          securityIndex := Previous(securityIndex, 3);
          BumpFrame();
        case Right =>
          securityIndex := Next(securityIndex, 3);
          BumpFrame();
        case Both =>
          SetScreen(if securityIndex == 2 then Settings else Information);
        case BothHeld =>
      }
    }

    method DisplayInput(button: Button)
      requires screen == DisplaySettings && displayIndex < 4 && brightness < 3
      modifies `displayIndex, `brightness, `screen, `sequence
      ensures displayIndex == Turn(old(displayIndex), 4, button) < 4 && brightness < 3
      ensures brightness == if button == Both && old(displayIndex) != 3 then old(displayIndex) else old(brightness)
      ensures screen == if button == Both then Settings else DisplaySettings
      ensures if button == BothHeld then unchanged(this) else Bumped()
    {
      match button {
        case Left =>
          displayIndex := Previous(displayIndex, 4);
          BumpFrame();
        case Right =>
          displayIndex := Next(displayIndex, 4);
          BumpFrame();
        case Both =>
          if displayIndex != 3 {
            brightness := displayIndex;
          }
          SetScreen(Settings);
        case BothHeld =>
      }
    }

    /** A menu entry that may put the device to sleep or lock it leaves the domain
        open, or sealed behind a sealed screen. */
    predicate OpenOrSealed()
      reads `state, `screen
    {
      if SealedScreen(screen) then state == StateOf(Sealed) else state == StateOf(Open)
    }

    method PowerInput(button: Button)
      requires screen == PowerSettings && powerIndex < 3 && state == StateOf(Open)
      modifies `powerIndex, `state, `lastEffect, `inactivityMs, `screen, `sequence
      ensures powerIndex == Turn(old(powerIndex), 3, button) < 3 && OpenOrSealed()
      ensures screen == if button != Both then PowerSettings
                        else if old(powerIndex) == 0 then Sleeping else if old(powerIndex) == 1 then Information else Settings
      ensures if button == BothHeld then unchanged(this) else Bumped()
      ensures inactivityMs == if screen == Sleeping then 0 else old(inactivityMs)
    {
      match button {
        case Left =>
          powerIndex := Previous(powerIndex, 3);
          BumpFrame();
        case Right =>
          powerIndex := Next(powerIndex, 3);
          BumpFrame();
        case Both =>
          if powerIndex == 0 {
            EnterSleep();
          } else {
            SetScreen(if powerIndex == 1 then Information else Settings);
          }
        case BothHeld =>
      }
    }

    method ControlInput(button: Button)
      requires screen == ControlCenter && controlIndex < 4 && settingsIndex < 4 && state == StateOf(Open)
      modifies `controlIndex, `settingsIndex, `state, `lastEffect, `inactivityMs, `screen, `sequence
      ensures controlIndex == Turn(old(controlIndex), 4, button) < 4 && settingsIndex < 4 && OpenOrSealed()
      ensures settingsIndex == if screen == Settings then 0 else old(settingsIndex)
      ensures screen == if button != Both then ControlCenter
                        else if old(controlIndex) == 0 then Locked else if old(controlIndex) == 1 then Settings
                        else if old(controlIndex) == 2 then Sleeping else Dashboard
      ensures if button == BothHeld then unchanged(this) else Bumped()
      ensures inactivityMs == if screen == Sleeping then 0 else old(inactivityMs)
    {
      match button {
        case Left =>
          controlIndex := Previous(controlIndex, 4);
          BumpFrame();
        case Right =>
          controlIndex := Next(controlIndex, 4);
          BumpFrame();
        case Both =>
          match controlIndex {
            case 0 =>
              Lock();
            case 1 =>
              settingsIndex := 0;
              SetScreen(Settings);
            case 2 =>
              EnterSleep();
            case _ =>
              SetScreen(Dashboard);
          }
        case BothHeld =>
      }
    }

    // Each menu keeps screen and domain together.

    method OnDashboard(button: Button)
      requires Valid() && screen == Dashboard
      modifies `homeIndex, `settingsIndex, `screen, `sequence
      ensures Valid() && Reacts(button)
    {
      DashboardInput(button);
    }

    method OnSettings(button: Button)
      requires Valid() && screen == Settings
      modifies `settingsIndex, `securityIndex, `displayIndex, `powerIndex, `screen, `sequence
      ensures Valid() && Reacts(button)
    {
      SettingsInput(button);
    }

    method OnSecurity(button: Button)
      requires Valid() && screen == SecuritySettings
      modifies `securityIndex, `screen, `sequence
      ensures Valid() && Reacts(button)
    {
      SecurityInput(button);
    }

    method OnDisplay(button: Button)
      requires Valid() && screen == DisplaySettings
      modifies `displayIndex, `brightness, `screen, `sequence
      ensures Valid() && Reacts(button)
    {
      DisplayInput(button);
    }

    method OnPower(button: Button)
      requires Valid() && screen == PowerSettings
      modifies `powerIndex, `state, `lastEffect, `inactivityMs, `screen, `sequence
      ensures Valid() && Reacts(button)
    {
      PowerInput(button);
    }

    method OnControl(button: Button)
      requires Valid() && screen == ControlCenter
      modifies `controlIndex, `settingsIndex, `state, `lastEffect, `inactivityMs, `screen, `sequence
      ensures Valid() && Reacts(button)
    {
      ControlInput(button);
    }

    // ----- Unlocking -----

    method EnterDigit()
      requires Buffers() && screen == PinUnlock && pinPosition < PIN_DIGITS && homeIndex < 3 && state == StateOf(Sealed)
      modifies `pinPosition, `selectedDigit, `homeIndex, `state, `lastEffect, `screen, `sequence, pinEntry
      ensures pinPosition == Next(old(pinPosition), PIN_DIGITS) < PIN_DIGITS && selectedDigit == 0 && homeIndex < 3 && Bumped()
      ensures pinEntry[..] == old(pinEntry[..])[old(pinPosition) := old(selectedDigit)]
      ensures homeIndex == if old(CompletesPin(Both)) then 0 else old(homeIndex)
      ensures if old(CompletesPin(Both)) then screen == Dashboard && state == StateOf(Open)
              else && screen == (if old(pinPosition) < PIN_DIGITS - 1 then PinUnlock else PinWrong)
                   && state == StateOf(Sealed)
    {
      NextWraps(pinPosition, PIN_DIGITS);
      pinEntry[pinPosition] := selectedDigit;
      pinPosition := pinPosition + 1;
      selectedDigit := 0;
      if pinPosition < PIN_DIGITS {
        BumpFrame();
        return;
      }
      pinPosition := 0;
      assert pinEntry[..] == [pinEntry[0], pinEntry[1], pinEntry[2], pinEntry[3]];
      assert pin[..] == [pin[0], pin[1], pin[2], pin[3]];
      if pinEntry[..] == pin[..] {
        UnlockDomain();
        if IsUnlocked() {
          homeIndex := 0;
        }
        SetScreen(if IsUnlocked() then Dashboard else Error);
      } else {
        SetScreen(PinWrong);
      }
    }

    method UnlockPinInput(button: Button)
      requires Valid() && screen == PinUnlock
      modifies `pinPosition, `selectedDigit, `homeIndex, `state, `lastEffect, `screen, `sequence, pinEntry
      ensures Valid() && Reacts(button)
    {
      if button == Both {
        OnDigit();
      } else if button != BothHeld {
        TurnDigit(button);
      }
    }

    method OnDigit()
      requires Valid() && screen == PinUnlock
      modifies `pinPosition, `selectedDigit, `homeIndex, `state, `lastEffect, `screen, `sequence, pinEntry
      ensures Valid() && Reacts(Both)
    {
      if pinPosition < PIN_DIGITS - 1 {
        OnEarlyDigit();
      } else {
        OnLastDigit();
      }
    }

    method OnEarlyDigit()
      requires Valid() && screen == PinUnlock && pinPosition < PIN_DIGITS - 1
      modifies `pinPosition, `selectedDigit, `homeIndex, `state, `lastEffect, `screen, `sequence, pinEntry
      ensures Valid() && Reacts(Both)
    {
      EnterDigit();
    }

    method OnLastDigit()
      requires Valid() && screen == PinUnlock && pinPosition == PIN_DIGITS - 1
      modifies `pinPosition, `selectedDigit, `homeIndex, `state, `lastEffect, `screen, `sequence, pinEntry
      ensures Valid() && Reacts(Both)
    {
      EnterDigit();
    }

    method AskPin(button: Button)
      requires Valid() && (screen.Locked? || screen.PinWrong?)
      modifies `pinPosition, `selectedDigit, `screen, `sequence, pinEntry
      ensures Valid() && Reacts(button)
    {
      if button == Both {
        StartPinEntry();
      }
    }

    method StartPinEntry()
      requires Buffers() && screen != PinUnlock
      modifies `pinPosition, `selectedDigit, `screen, `sequence, pinEntry
      ensures screen == PinUnlock && pinPosition == 0 && selectedDigit == 0 && Bumped()
      ensures forall i :: 0 <= i < PIN_DIGITS ==> pinEntry[i] == 0
    {
      forall i | 0 <= i < pinEntry.Length {
        pinEntry[i] := 0;
      }
      pinPosition := 0;
      selectedDigit := 0;
      SetScreen(PinUnlock);
    }

    // ----- Signing -----

    /** The three requests of `begin_review`; whether each was answered as expected. */
    method RequestReview() returns (ready: bool)
      modifies `state, `lastEffect
      ensures old(state) == StateOf(Open) ==> ready && state == StateOf(InReview)
    {
      ReviewSteps();
      ready := false;
      Apply(W.OperationRequested(OPERATION, HOST));
      if lastEffect == W.PrepareOperationReview(OPERATION) {
        Apply(W.ReviewPrepared(OPERATION, W.ReviewPlan(W.SignTransaction, true, W.Full, W.Confirm)));
        if lastEffect == W.RenderOperationReview(OPERATION) {
          Apply(W.ReviewDisplayed(OPERATION));
          ready := state.flow.Operation? && lastEffect == W.NoEffect;
        }
      }
    }

    method BeginReview()
      requires state == StateOf(Open) && screen == BitcoinApp
      modifies `state, `lastEffect, `reviewIndex, `screen, `sequence
      ensures state == StateOf(InReview) && screen == Review && reviewIndex == 0 && Bumped()
    {
      var ready := RequestReview();
      if ready {
        reviewIndex := 0;
      }
      SetScreen(if ready then Review else Error);
    }

    method ConfirmDomain()
      modifies `state, `lastEffect
      ensures old(state) == StateOf(InReview) ==>
                state == StateOf(InExecution) && lastEffect == W.ExecuteOperation(OPERATION)
    {
      ExecutionSteps();
      Apply(W.OperationConfirmed(OPERATION));
    }

    method RejectDomain()
      modifies `state, `lastEffect
      ensures old(state) == StateOf(InReview) ==>
                state == StateOf(Open) && lastEffect == W.RejectOperation(OPERATION, W.UserRejected)
    {
      ExecutionSteps();
      Apply(W.OperationRejected(OPERATION));
    }

    method CompleteDomain()
      modifies `state, `lastEffect
      ensures old(state) == StateOf(InExecution) ==>
                state == StateOf(Open) && lastEffect == W.CompleteOperation(OPERATION)
    {
      ExecutionSteps();
      Apply(W.OperationCompleted(OPERATION));
    }

    method Confirm()
      requires state == StateOf(InReview) && screen == Review
      modifies `state, `lastEffect, `signingTicks, `screen, `sequence
      ensures state == StateOf(InExecution) && screen == Signing && signingTicks == 0 && Bumped()
      ensures lastEffect == W.ExecuteOperation(OPERATION)
    {
      ConfirmDomain();
      if lastEffect == W.ExecuteOperation(OPERATION) {
        signingTicks := 0;
      }
      SetScreen(if lastEffect == W.ExecuteOperation(OPERATION) then Signing else Error);
    }

    method Reject()
      requires state == StateOf(InReview) && screen == Review
      modifies `state, `lastEffect, `screen, `sequence
      ensures state == StateOf(Open) && screen == Rejected && Bumped()
    {
      RejectDomain();
      SetScreen(if lastEffect == W.RejectOperation(OPERATION, W.UserRejected) then Rejected else Error);
    }

    method ReviewInput(button: Button)
      requires screen == Review && state == StateOf(InReview) && reviewIndex < 5
      modifies `reviewIndex, `state, `lastEffect, `signingTicks, `screen, `sequence
      ensures reviewIndex == Turn(old(reviewIndex), 5, button) < 5 && (Bumped() || unchanged(this))
      ensures if old(Approves(button)) then
                screen == Signing && state == StateOf(InExecution) && lastEffect == W.ExecuteOperation(OPERATION)
              else if button == Both && old(reviewIndex) == 4 then screen == Rejected && state == StateOf(Open)
              else unchanged(`screen, `state)
      ensures signingTicks == if old(Approves(button)) then 0 else old(signingTicks)
    {
      match button {
        case Left =>
          reviewIndex := Previous(reviewIndex, 5);
          BumpFrame();
        case Right =>
          reviewIndex := Next(reviewIndex, 5);
          BumpFrame();
        case Both =>
          if reviewIndex == 3 {
            Confirm();
          } else if reviewIndex == 4 {
            Reject();
          }
        case BothHeld =>
      }
    }

    method OnReview(button: Button)
      requires Valid() && screen == Review
      modifies `reviewIndex, `state, `lastEffect, `signingTicks, `screen, `sequence
      ensures Valid() && Reacts(button)
    {
      ReviewInput(button);
    }

    method AppInput(button: Button)
      requires Valid() && screen == BitcoinApp
      modifies `reviewIndex, `state, `lastEffect, `screen, `sequence
      ensures Valid() && Reacts(button)
    {
      if button == Left {
        SetScreen(Dashboard);
      } else if button == Both {
        BeginReview();
      }
    }

    // ----- Input and time -----

    predicate CanOpenControlCenter()
      reads `setupComplete, `state, `screen
    {
      setupComplete && IsUnlocked() && !(screen.Signing? || screen.Review? || screen.PinUnlock? || screen.Sleeping?)
    }

    // The screens that only lead on.

    method ReadyInput(button: Button)
      requires Valid() && screen == SetupComplete
      modifies `homeIndex, `screen, `sequence
      ensures Valid() && Reacts(button)
    {
      if button == Both {
        homeIndex := 0;
        SetScreen(Dashboard);
      }
    }

    method OutcomeInput(button: Button)
      requires Valid() && (screen.Signed? || screen.Rejected?)
      modifies `screen, `sequence
      ensures Valid() && Reacts(button)
    {
      if button != BothHeld {
        SetScreen(BitcoinApp);
      }
    }

    method BackInput(button: Button)
      requires Valid() && (screen.About? || screen.Information?)
      modifies `screen, `sequence
      ensures Valid() && Reacts(button)
    {
      if button == Both || button == Left {
        SetScreen(if setupComplete then Dashboard else SetupChoice);
      }
    }

    /** The screens' own reactions to a press. */
    method Dispatch(button: Button)
      requires Valid() && screen != Sleeping
      modifies this, pin, pinConfirmation, pinEntry
      ensures Valid() && Reacts(button)
    {
      if screen.Welcome? || screen.SetupChoice? || screen.PinCreate? || screen.PinConfirm? || screen.PinMismatch? {
        PinSetupInput(button);
      } else if screen == RecoveryIntro {
        OnRecoveryIntro(button);
      } else if screen == RecoveryWord {
        OnRecoveryWord(button);
      } else if screen == RecoveryCheck {
        OnRecoveryCheck(button);
      } else if screen == RecoveryCheckFailed {
        OnRecoveryCheckFailed(button);
      } else if screen == Dashboard {
        OnDashboard(button);
      } else if screen == Settings {
        OnSettings(button);
      } else if screen == SecuritySettings {
        OnSecurity(button);
      } else if screen == DisplaySettings {
        OnDisplay(button);
      } else if screen == PowerSettings {
        OnPower(button);
      } else if screen == ControlCenter {
        OnControl(button);
      } else if screen == Locked || screen == PinWrong {
        AskPin(button);
      } else if screen == PinUnlock {
        UnlockPinInput(button);
      } else if screen == Review {
        OnReview(button);
      } else if screen == BitcoinApp {
        AppInput(button);
      } else if screen == SetupComplete {
        ReadyInput(button);
      } else if screen == About || screen == Information {
        BackInput(button);
      } else if screen != Signing {
        OutcomeInput(button);
      }
    }

    /** What a press does. Each screen leads where it leads; a sleeping device wakes up
        locked, and the control center opens from anywhere but four screens. The wallet is opened exactly by the chosen PIN or by the
        end of the setup; an operation is signed exactly from the approval field of its
        review; while signing, nothing moves; and what is shown changes without a new
        sequence number exactly when both buttons are held in the control center while
        another than its first entry is selected. Every press restarts the idle time,
        an approval the signing time. */
    twostate predicate Pressed(button: Button)
      requires Buffers() && old(InRange())
      reads this
    {
      && (if old(screen) == Sleeping then screen == Locked && wakeCount == Saturated(old(wakeCount) + 1, 0xff)
          else if button == BothHeld && old(CanOpenControlCenter()) then
            screen == ControlCenter && Focus() == (0, 0) && wakeCount == old(wakeCount)
          else screen == old(Destination(button)) && Focus() == old(NextFocus(button)) && wakeCount == old(wakeCount))
      && setupComplete == (old(setupComplete) || old(CompletesBackup(button)))
      && (!old(Opened()) && Opened() <==> old(CompletesPin(button)) || old(CompletesBackup(button)))
      && (old(screen) != Signing && screen == Signing <==> old(Approves(button)))
      && (old(Approves(button)) ==> lastEffect == W.ExecuteOperation(OPERATION))
      && (old(screen) == Signing ==> Frame() == old(Frame()) && state == old(state))
      && (sequence == old(sequence) && Frame() != old(Frame()) <==>
            old(screen) == ControlCenter && button == BothHeld && old(controlIndex) != 0)
      && inactivityMs == 0
      && signingTicks == (if old(Approves(button)) then 0 else old(signingTicks))
      && (button == BothHeld && old(CanOpenControlCenter()) ==> screen == ControlCenter && controlIndex == 0)
      && (old(screen) == ControlCenter && (button.Left? || button.Right?) && old(controlIndex) < 4 ==>
            screen == ControlCenter && controlIndex == Turn(old(controlIndex), 4, button))
    }

    method WakeUp(button: Button)
      requires Valid() && screen == Sleeping
      modifies `wakeCount, `inactivityMs, `screen, `sequence
      ensures Valid() && Pressed(button)
    {
      wakeCount := if wakeCount < 0xff then wakeCount + 1 else 0xff;
      inactivityMs := 0;
      SetScreen(Locked);
    }

    method OpenControlCenter()
      requires Valid() && CanOpenControlCenter()
      modifies `controlIndex, `inactivityMs, `screen, `sequence
      ensures Valid() && Pressed(BothHeld)
    {
      OpenedIsUnlocked();
      inactivityMs := 0;
      controlIndex := 0;
      SetScreen(ControlCenter);
    }

    method RestartIdleTime(button: Button)
      requires Valid()
      modifies `inactivityMs
      ensures Valid() && inactivityMs == 0 && Frame() == old(Frame()) && Destination(button) == old(Destination(button))
      ensures NextFocus(button) == old(NextFocus(button)) && wakeCount == old(wakeCount) && setupComplete == old(setupComplete)
      ensures CompletesPin(button) == old(CompletesPin(button)) && CompletesBackup(button) == old(CompletesBackup(button))
    {
      inactivityMs := 0;
    }

    method React(button: Button)
      requires Valid() && screen != Sleeping && !(button == BothHeld && CanOpenControlCenter())
      modifies this, pin, pinConfirmation, pinEntry
      ensures Valid() && Pressed(button)
    {
      OpenedIsUnlocked();
      RestartIdleTime(button);
      Dispatch(button);
    }

    /** `press`. Whatever is pressed, screen and domain stay together. */
    method Press(button: Button)
      requires Valid()
      modifies this, pin, pinConfirmation, pinEntry
      ensures Valid() && Pressed(button)
    {
      if screen == Sleeping {
        WakeUp(button);
      } else if button == BothHeld && CanOpenControlCenter() {
        OpenControlCenter();
      } else {
        React(button);
      }
    }

    /** Signing goes on, or completes behind its 180 ticks. */
    method TickSigning(ticks: u16)
      requires state == StateOf(InExecution) && screen == Signing
      modifies `signingTicks, `state, `lastEffect, `screen, `sequence
      ensures signingTicks == Saturated(old(signingTicks) + ticks, 0xFFFF)
      ensures if signingTicks >= SIGNING_TICKS then screen == Signed && state == StateOf(Open) && Bumped()
              else unchanged(`screen, `sequence, `state)
    {
      signingTicks := Saturated(signingTicks + ticks, 0xFFFF);
      if signingTicks >= SIGNING_TICKS {
        CompleteDomain();
        SetScreen(if lastEffect == W.CompleteOperation(OPERATION) then Signed else Error);
      }
    }

    method OnSigning(ticks: u16)
      requires Valid() && screen == Signing
      modifies `signingTicks, `state, `lastEffect, `screen, `sequence
      ensures Valid() && Time() == Ticked(old(Time()), ticks)
      ensures if screen == old(screen) then unchanged(`sequence) else Bumped()
    {
      TickSigning(ticks);
    }

    /** An open wallet counts its idle time, and falls asleep behind 30 seconds of it. */
    method TickIdle(ticks: u16)
      requires Coupled() && screen != Signing
      modifies `inactivityMs, `state, `lastEffect, `screen, `sequence
      ensures var idle := Saturated(old(inactivityMs) + ticks, 0xFFFF_FFFF);
              if old(Opened()) && idle >= AUTO_SLEEP_MS then
                screen == Sleeping && state == StateOf(Sealed) && inactivityMs == 0 && Bumped()
              else unchanged(`screen, `sequence, `state) && inactivityMs == if old(Opened()) then idle else old(inactivityMs)
    {
      OpenedIsUnlocked();
      if setupComplete && IsUnlocked()
         && !(screen.Welcome? || screen.SetupChoice? || screen.PinCreate? || screen.PinConfirm? || screen.RecoveryIntro?
              || screen.RecoveryWord? || screen.RecoveryCheck? || screen.Sleeping?)
      {
        inactivityMs := Saturated(inactivityMs + ticks, 0xFFFF_FFFF);
        if inactivityMs >= AUTO_SLEEP_MS {
          EnterSleep();
        }
      }
    }

    method OnIdle(ticks: u16)
      requires Valid() && screen != Signing
      modifies `inactivityMs, `state, `lastEffect, `screen, `sequence
      ensures Valid() && Time() == Ticked(old(Time()), ticks)
      ensures if screen == old(screen) then unchanged(`sequence) else Bumped()
    {
      TickIdle(ticks);
    }

    /** `tick`. Screen and counters move as the clock says, and the change of the screen
        is announced; what several ticks do is told by the lemmas about the clock. */
    method Tick(ticks: u16)
      requires Valid()
      modifies `signingTicks, `inactivityMs, `state, `lastEffect, `screen, `sequence
      ensures Valid() && Time() == Ticked(old(Time()), ticks)
      ensures if screen == old(screen) then unchanged(`sequence) else Bumped()
    {
      if screen == Signing {
        OnSigning(ticks);
      } else {
        OnIdle(ticks);
      }
    }

    /** A press that is not announced, from any screen the control center opens over:
        hold both, press right, hold both again. The frame before the last press and the
        frame behind it differ and carry the same number. */
    method HoldTwice() returns (before: Shown, after: Shown, number: u8)
      requires Valid() && CanOpenControlCenter()
      modifies this, pin, pinConfirmation, pinEntry
      ensures Valid() && after == Frame() && before != after && number == sequence
    {
      Press(BothHeld);
      Press(Right);
      before, number := Frame(), sequence;
      Press(BothHeld);
      after := Frame();
    }
  }

  /** Such a press happens: here to a wallet that has been set up with the PIN 0000. */
  method UnannouncedPress() returns (demo: WalletDemo, before: Shown, after: Shown, number: u8)
    ensures demo.Valid() && after == demo.Frame() && before != after && number == demo.sequence
  {
    demo := new WalletDemo();
    demo.state, demo.setupComplete, demo.screen := StateOf(Open), true, Dashboard;
    before, after, number := demo.HoldTwice();
  }

  /** What the coupling means for the screens: a review is shown exactly over an
      operation under review, the signing screen exactly over an executing one, the
      locked and dark screens only over a locked wallet; the domain state satisfies
      the reducer's invariant and every text table is indexed inside its bounds. */
  lemma ScreensTellTheTruth(d: WalletDemo)
    requires d.Valid()
    ensures d.screen == Review <==> d.state.flow.Operation? && d.state.flow.pending.stage.Reviewing?
    ensures d.screen == Signing <==> d.state.flow.Operation? && d.state.flow.pending.stage.Executing?
    ensures SealedScreen(d.screen) ==> d.state.Context() == None && d.state.flow.Idle?
    ensures d.Opened() <==> d.state.auth.Unlocked?
    ensures d.screen != Error && Inv(d.state)
    ensures d.recoveryIndex < 24 && d.recoveryCheckChoice < 4 && d.pinPosition < d.pinEntry.Length
  {
  }
}
