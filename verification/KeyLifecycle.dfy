/** Staging, committing and opening the wallet root over a store and an entropy
    source that may fail at any call. */
module KeyLifecycle {
  import opened Bytes

  datatype Error =
    | PendingProvisioning
    | NoPendingProvisioning
    | RootNotFound
    | InvalidStoredRoot
    | ContextIdExhausted
    | StoreFailure
    | EntropyFailure

  const MAX_CONTEXT_ID: nat := 0xFFFF_FFFF

  predicate IsValidRootLen(len: nat) {
    len == 16 || len == 20 || len == 24 || len == 28 || len == 32
  }

  datatype MnemonicSize = Words12 | Words15 | Words18 | Words21 | Words24 {
    function EntropyLen(): nat {
      match this
      case Words12 => 16
      case Words15 => 20
      case Words18 => 24
      case Words21 => 28
      case Words24 => 32
    }

    /** The length of the mnemonic the size is named for. */
    function Words(): nat {
      match this
      case Words12 => 12
      case Words15 => 15
      case Words18 => 18
      case Words21 => 21
      case Words24 => 24
    }
  }

  /** A word carries eleven bits, of which one in 33 is checksum: four bytes of entropy
      for three words (BIP 39, "Generating the mnemonic"). The sizes are exactly the
      valid root lengths. */
  lemma EntropyLenIff(len: nat)
    ensures forall size: MnemonicSize :: 3 * size.EntropyLen() == 4 * size.Words()
    ensures IsValidRootLen(len) <==> exists size: MnemonicSize :: size.EntropyLen() == len
  {
    assert Words12.EntropyLen() == 16 && Words15.EntropyLen() == 20 && Words18.EntropyLen() == 24;
    assert Words21.EntropyLen() == 28 && Words24.EntropyLen() == 32;
  }

  /** A context: its id, and the root and passphrase its seed is derived from. */
  datatype Context = Context(id: u32, root: bytes, passphrase: bytes)

  // ----- The devices -----

  /** A root store that keeps its contract: what it reports done is done, what it
      reports failed is not. `faults` says which of the coming calls fail. */
  class RootStore {
    var root: Option<bytes>
    var faults: seq<bool>

    constructor (root: Option<bytes>, faults: seq<bool>)
      ensures this.root == root && this.faults == faults
    {
      this.root, this.faults := root, faults;
    }

    predicate Fails()
      reads this
    {
      faults != [] && faults[0]
    }

    method PersistRoot(value: bytes) returns (ok: bool)
      modifies this
      ensures ok == !old(Fails()) && root == if ok then Some(value) else old(root)
    {
      ok := !Fails();
      if ok {
        root := Some(value);
      }
      NextCall();
    }

    method LoadRoot() returns (r: Result<Option<bytes>, Error>)
      modifies this`faults
      ensures r == if old(Fails()) then Err(StoreFailure) else Ok(root)
    {
      r := if Fails() then Err(StoreFailure) else Ok(root);
      NextCall();
    }

    method WipeRoot() returns (ok: bool)
      modifies this
      ensures ok == !old(Fails()) && root == if ok then None else old(root)
    {
      ok := !Fails();
      if ok {
        root := None;
      }
      NextCall();
    }

    method NextCall()
      modifies this`faults
      ensures faults == if old(faults) == [] then [] else old(faults)[1..]
    {
      if faults != [] {
        faults := faults[1..];
      }
    }
  }

  // ----- One call -----

  /** The state the calls work on: what is staged, the next id, what is stored. */
  datatype State = State(pending: Option<bytes>, nextContextId: u32, root: Option<bytes>)

  datatype Call =
    | BeginCreate(size: MnemonicSize, random: Option<bytes>)
    | BeginRecovery(entropy: bytes)
    | CommitPending(fault: bool)
    | CancelPending
    | OpenContext(passphrase: bytes, fault: bool)
    | Wipe(fault: bool)

  datatype Reply = Done | Opened(context: Context) | Failed(error: Error)

  /** A source that answers fills the buffer it is given. */
  predicate Answers(call: Call) {
    call.BeginCreate? && call.random.Some? ==> |call.random.value| == call.size.EntropyLen()
  }

  function Step(s: State, call: Call): (State, Reply) {
    match call
    case BeginCreate(_, random) =>
      if s.pending.Some? then (s, Failed(PendingProvisioning))
      else if random.None? then (s, Failed(EntropyFailure))
      else (s.(pending := random), Done)
    case BeginRecovery(entropy) =>
      if s.pending.Some? then (s, Failed(PendingProvisioning))
      else if !IsValidRootLen(|entropy|) then (s, Failed(InvalidStoredRoot))
      else (s.(pending := Some(entropy)), Done)
    case CommitPending(fault) =>
      if s.pending.None? then (s, Failed(NoPendingProvisioning))
      else if fault then (s, Failed(StoreFailure))
      else (s.(pending := None, root := s.pending), Done)
    case CancelPending => (s.(pending := None), Done)
    case OpenContext(passphrase, fault) =>
      if fault then (s, Failed(StoreFailure))
      else if s.root.None? then (s, Failed(RootNotFound))
      else if !IsValidRootLen(|s.root.value|) then (s, Failed(InvalidStoredRoot))
      else if s.nextContextId == MAX_CONTEXT_ID then (s, Failed(ContextIdExhausted))
      else (s.(nextContextId := s.nextContextId + 1), Opened(Context(s.nextContextId, s.root.value, passphrase)))
    case Wipe(fault) =>
      if fault then (s.(pending := None), Failed(StoreFailure))
      else (State(None, 1, None), Done)
  }

  class KeyLifecycle {
    const store: RootStore
    var pending: Option<bytes>
    var nextContextId: u32

    constructor (store: RootStore)
      ensures this.store == store && View() == State(None, 1, store.root)
    {
      this.store := store;
      pending, nextContextId := None, 1;
    }

    function View(): State
      reads this, store
    {
      State(pending, nextContextId, store.root)
    }

    /** `begin_create`; `random` is what the entropy source fills in, if it can. */
    method BeginCreate(size: MnemonicSize, random: Option<bytes>) returns (r: Reply)
      requires Answers(Call.BeginCreate(size, random))
      modifies this
      ensures (View(), r) == Step(old(View()), Call.BeginCreate(size, random))
    {
      if pending.Some? {
        return Failed(PendingProvisioning);
      }
      if random.None? {
        return Failed(EntropyFailure);
      }
      pending := Some(random.value[..size.EntropyLen()]);
      assert random.value[..size.EntropyLen()] == random.value;
      return Done;
    }

    method BeginRecovery(entropy: bytes) returns (r: Reply)
      modifies this
      ensures (View(), r) == Step(old(View()), Call.BeginRecovery(entropy))
    {
      if pending.Some? {
        return Failed(PendingProvisioning);
      }
      if !IsValidRootLen(|entropy|) {
        return Failed(InvalidStoredRoot);
      }
      pending := Some(entropy);
      return Done;
    }

    method CommitPending() returns (r: Reply)
      modifies this, store
      ensures (View(), r) == Step(old(View()), Call.CommitPending(old(store.Fails())))
    {
      if pending.None? {
        return Failed(NoPendingProvisioning);
      }
      var persisted := store.PersistRoot(pending.value);
      if !persisted {
        return Failed(StoreFailure);
      }
      pending := None;
      return Done;
    }

    method CancelPending()
      modifies this
      ensures View() == Step(old(View()), Call.CancelPending).0
    {
      pending := None;
    }

    method OpenContext(passphrase: bytes) returns (r: Reply)
      modifies this, store
      ensures (View(), r) == Step(old(View()), Call.OpenContext(passphrase, old(store.Fails())))
    {
      var loaded := store.LoadRoot();
      if loaded.Err? {
        return Failed(loaded.error);
      }
      if loaded.value.None? {
        return Failed(RootNotFound);
      }
      var root := loaded.value.value;
      if !IsValidRootLen(|root|) {
        return Failed(InvalidStoredRoot);
      }
      var current := nextContextId;
      if current == MAX_CONTEXT_ID {
        return Failed(ContextIdExhausted);
      }
      nextContextId := current + 1;
      return Opened(Context(current, root, passphrase));
    }

    method Wipe() returns (r: Reply)
      modifies this, store
      ensures (View(), r) == Step(old(View()), Call.Wipe(old(store.Fails())))
    {
      pending := None;
      var wiped := store.WipeRoot();
      if !wiped {
        return Failed(StoreFailure);
      }
      nextContextId := 1;
      return Done;
    }
  }

  // ----- Any calls in any order -----

  /** What `KeyLifecycle::new` starts with, over any store. */
  predicate IsNew(start: State) {
    start.pending == None && start.nextContextId == 1
  }

  /** The state behind the first `n` calls. */
  function StateAt(start: State, calls: seq<Call>, n: nat): State
    requires n <= |calls|
  {
    if n == 0 then start else Step(StateAt(start, calls, n - 1), calls[n - 1]).0
  }

  function ReplyAt(start: State, calls: seq<Call>, i: nat): Reply
    requires i < |calls|
  {
    Step(StateAt(start, calls, i), calls[i]).1
  }

  predicate Commits(start: State, calls: seq<Call>, i: nat)
    requires i < |calls|
  {
    calls[i].CommitPending? && ReplyAt(start, calls, i) == Done
  }

  predicate Wipes(start: State, calls: seq<Call>, i: nat)
    requires i < |calls|
  {
    calls[i].Wipe? && ReplyAt(start, calls, i) == Done
  }

  /** Call `b` staged this root. */
  predicate Stages(start: State, calls: seq<Call>, b: nat, root: bytes)
    requires b < |calls|
  {
    && ReplyAt(start, calls, b) == Done && IsValidRootLen(|root|)
    && match calls[b]
       case BeginCreate(_, random) => random == Some(root)
       case BeginRecovery(entropy) => entropy == root
       case _ => false
  }

  predicate AllAnswer(calls: seq<Call>) {
    forall i :: 0 <= i < |calls| ==> Answers(calls[i])
  }

  /** What is staged was staged by an accepted call, of a valid length, and nothing
      was staged, committed, cancelled or wiped since. */
  lemma {:induction false} PendingProvenance(start: State, calls: seq<Call>, n: nat) returns (b: nat)
    requires n <= |calls| && start.pending.None? && AllAnswer(calls)
    requires StateAt(start, calls, n).pending.Some?
    ensures b < n && Stages(start, calls, b, StateAt(start, calls, n).pending.value)
    ensures forall i :: b < i <= n ==> StateAt(start, calls, i).pending == StateAt(start, calls, n).pending
  {
    b := 0;
    if n > 0 {
      assert Answers(calls[n - 1]);
      if StateAt(start, calls, n - 1).pending.Some? {
        b := PendingProvenance(start, calls, n - 1);
      } else {
        b := n - 1;
      }
    }
  }

  /** A staging call is accepted exactly when nothing is staged and it brings a root: from
      a source that answers, or of a valid length. It then changes nothing else. */
  lemma StagingAcceptedIff(start: State, calls: seq<Call>, i: nat)
    requires i < |calls| && AllAnswer(calls) && (calls[i].BeginCreate? || calls[i].BeginRecovery?)
    ensures var s, t := StateAt(start, calls, i), StateAt(start, calls, i + 1);
            if s.pending == None && calls[i].BeginCreate? && calls[i].random.Some? then
              && ReplyAt(start, calls, i) == Done && t == s.(pending := calls[i].random)
              && 3 * |t.pending.value| == 4 * calls[i].size.Words()
            else if s.pending == None && calls[i].BeginRecovery? && IsValidRootLen(|calls[i].entropy|) then
              ReplyAt(start, calls, i) == Done && t == s.(pending := Some(calls[i].entropy))
            else
              && t == s
              && ReplyAt(start, calls, i)
                 == Failed(if s.pending != None then PendingProvisioning
                           else if calls[i].BeginCreate? then EntropyFailure else InvalidStoredRoot)
  {
    assert Answers(calls[i]);
  }

  /** A commit moves the staged root into a store that works; a wipe leaves nothing staged
      in any case, and what `KeyLifecycle::new` starts with over an empty store that works. */
  lemma StoreFaultsDecide(start: State, calls: seq<Call>, i: nat)
    requires i < |calls|
    ensures var s, t, r := StateAt(start, calls, i), StateAt(start, calls, i + 1), ReplyAt(start, calls, i);
            && (calls[i].CommitPending? && (s.pending == None || calls[i].fault) ==>
                  t == s && r == Failed(if s.pending == None then NoPendingProvisioning else StoreFailure))
            && (calls[i].CommitPending? && s.pending != None && !calls[i].fault ==>
                  t.root == s.pending && t.pending == None && t.nextContextId == s.nextContextId && r == Done)
            && (calls[i].Wipe? && calls[i].fault ==>
                  t.root == s.root && t.pending == None && t.nextContextId == s.nextContextId && r == Failed(StoreFailure))
            && (calls[i].Wipe? && !calls[i].fault ==> t.root == None && IsNew(t) && r == Done)
            && (calls[i].CancelPending? ==>
                  t.root == s.root && t.pending == None && t.nextContextId == s.nextContextId && r == Done)
  {
  }

  /** The calls behind which nothing is staged. */
  predicate Unstages(start: State, calls: seq<Call>, i: nat)
    requires i < |calls|
  {
    calls[i].CancelPending? || calls[i].Wipe? || Commits(start, calls, i)
  }

  /** A root is staged exactly when a call staged it and none has cancelled, committed or
      wiped since. */
  lemma StagedIff(start: State, calls: seq<Call>, n: nat, root: bytes)
    requires n <= |calls| && start.pending.None? && AllAnswer(calls)
    ensures StateAt(start, calls, n).pending == Some(root)
            <==> exists b :: 0 <= b < n && Stages(start, calls, b, root)
                             && forall i :: b < i < n ==> !Unstages(start, calls, i)
  {
    if StateAt(start, calls, n).pending == Some(root) {
      var b := PendingProvenance(start, calls, n);
      forall i | b < i < n ensures !Unstages(start, calls, i) {
        assert StateAt(start, calls, i + 1).pending == Some(root);
      }
    }
    if b :| 0 <= b < n && Stages(start, calls, b, root) && forall i :: b < i < n ==> !Unstages(start, calls, i) {
      StaysStaged(start, calls, b, n, root);
    }
  }

  lemma {:induction false} StaysStaged(start: State, calls: seq<Call>, b: nat, n: nat, root: bytes)
    requires b < n <= |calls| && AllAnswer(calls) && Stages(start, calls, b, root)
    requires forall i :: b < i < n ==> !Unstages(start, calls, i)
    ensures StateAt(start, calls, n).pending == Some(root)
  {
    if n == b + 1 {
      assert Answers(calls[b]);
    } else {
      StaysStaged(start, calls, b, n - 1, root);
      assert !Unstages(start, calls, n - 1);
    }
  }

  /** The last successful commit or wipe among the first `n` calls. */
  function LastChange(start: State, calls: seq<Call>, n: nat): (r: Option<nat>)
    requires n <= |calls|
    ensures r.Some? ==> r.value < n && (Commits(start, calls, r.value) || Wipes(start, calls, r.value))
    ensures forall i :: (if r.Some? then r.value + 1 else 0) <= i < n ==>
              !Commits(start, calls, i) && !Wipes(start, calls, i)
  {
    if n == 0 then None
    else if Commits(start, calls, n - 1) || Wipes(start, calls, n - 1) then Some(n - 1)
    else LastChange(start, calls, n - 1)
  }

  /** Nothing reaches the store except by a commit, and nothing leaves it except by a
      wipe, however the devices fail: the stored root is the one that was staged when
      the last successful commit came, unless a successful wipe came later; before
      either it is what the run began with. */
  lemma {:induction false} StoredRootProvenance(start: State, calls: seq<Call>, n: nat)
    requires n <= |calls|
    ensures var last := LastChange(start, calls, n);
            StateAt(start, calls, n).root
            == if last.None? then start.root
               else if Commits(start, calls, last.value) then StateAt(start, calls, last.value).pending
               else None
  {
    if n > 0 {
      StoredRootProvenance(start, calls, n - 1);
    }
  }

  // ----- Opening contexts -----

  /** The contexts opened among the first `n` calls, since the last successful wipe. */
  function OpenedContexts(start: State, calls: seq<Call>, n: nat): nat
    requires n <= |calls|
  {
    if n == 0 || Wipes(start, calls, n - 1) then 0
    else OpenedContexts(start, calls, n - 1) + (if ReplyAt(start, calls, n - 1).Opened? then 1 else 0)
  }

  lemma {:induction false} NextIdCounts(start: State, calls: seq<Call>, n: nat)
    requires n <= |calls| && IsNew(start)
    ensures StateAt(start, calls, n).nextContextId == 1 + OpenedContexts(start, calls, n)
  {
    if n > 0 {
      NextIdCounts(start, calls, n - 1);
    }
  }

  /** The root the store holds before call `i`: the one staged when the last successful
      commit came, none behind a later wipe, and the first one before either. */
  function InstalledRoot(start: State, calls: seq<Call>, i: nat): Option<bytes>
    requires i <= |calls|
  {
    var last := LastChange(start, calls, i);
    if last.None? then start.root
    else if calls[last.value].CommitPending? then StateAt(start, calls, last.value).pending
    else None
  }

  /** A call opens a context exactly when it is an `OpenContext` whose load does not fail,
      over an installed root of a valid length, with an id left. The context is for that
      root and the passphrase of that call, and its id counts the contexts opened. */
  lemma OpensContextIff(start: State, calls: seq<Call>, i: nat, c: Context)
    requires i < |calls| && IsNew(start)
    ensures ReplyAt(start, calls, i) == Opened(c) <==>
            && calls[i].OpenContext? && !calls[i].fault && c.passphrase == calls[i].passphrase
            && InstalledRoot(start, calls, i) == Some(c.root) && IsValidRootLen(|c.root|)
            && c.id == 1 + OpenedContexts(start, calls, i) < 0xFFFF_FFFF
  {
    NextIdCounts(start, calls, i);
    StoredRootProvenance(start, calls, i);
  }

  /** An opened context leaves staged and stored root alone, a refused one everything. */
  lemma OpeningKeepsRoots(start: State, calls: seq<Call>, i: nat)
    requires i < |calls| && calls[i].OpenContext?
    ensures var s, t := StateAt(start, calls, i), StateAt(start, calls, i + 1);
            && t.pending == s.pending && t.root == s.root
            && (ReplyAt(start, calls, i).Failed? ==>
                  && t == s
                  && ReplyAt(start, calls, i).error
                     == if calls[i].fault then StoreFailure else if s.root == None then RootNotFound
                        else if !IsValidRootLen(|s.root.value|) then InvalidStoredRoot else ContextIdExhausted)
  {
  }

  predicate RootIsSound(s: State) {
    s.root.Some? ==> IsValidRootLen(|s.root.value|)
  }

  /** Opening a context complains of the stored root exactly when the load succeeds,
      nothing was committed or wiped since the run began, and the run began over a
      root of another length. */
  lemma InvalidStoredRootIff(start: State, calls: seq<Call>, i: nat)
    requires i < |calls| && start.pending.None? && AllAnswer(calls) && calls[i].OpenContext?
    ensures ReplyAt(start, calls, i) == Failed(InvalidStoredRoot)
            <==> !calls[i].fault && LastChange(start, calls, i).None? && !RootIsSound(start)
  {
    var last := LastChange(start, calls, i);
    StoredRootProvenance(start, calls, i);
    if last.Some? && Commits(start, calls, last.value) {
      var b := PendingProvenance(start, calls, last.value);
    }
  }

  /** So over a store that is empty or holds a root of a valid length every root ever
      stored has one, and the complaint never comes. */
  lemma StoredRootStaysSound(start: State, calls: seq<Call>, n: nat)
    requires n <= |calls| && start.pending.None? && AllAnswer(calls) && RootIsSound(start)
    ensures RootIsSound(StateAt(start, calls, n))
    ensures forall i :: 0 <= i < n && calls[i].OpenContext? ==> ReplyAt(start, calls, i) != Failed(InvalidStoredRoot)
  {
    forall i | 0 <= i < n && calls[i].OpenContext? ensures ReplyAt(start, calls, i) != Failed(InvalidStoredRoot) {
      InvalidStoredRootIff(start, calls, i);
    }
    var last := LastChange(start, calls, n);
    StoredRootProvenance(start, calls, n);
    if last.Some? && Commits(start, calls, last.value) {
      var b := PendingProvenance(start, calls, last.value);
    }
  }

  /** However often the store fails to commit, the commit that succeeds installs the
      root that was staged. */
  lemma {:induction false} RetriedCommitInstalls(start: State, calls: seq<Call>, i: nat, j: nat)
    requires i <= j < |calls| && StateAt(start, calls, i).pending.Some?
    requires (forall m :: i <= m < j ==> calls[m] == CommitPending(true)) && calls[j] == CommitPending(false)
    ensures StateAt(start, calls, j).pending == StateAt(start, calls, i).pending
    ensures StateAt(start, calls, j + 1).root == StateAt(start, calls, i).pending
    ensures StateAt(start, calls, j + 1).pending == None
    decreases j - i
  {
    if i < j {
      assert StateAt(start, calls, i + 1) == StateAt(start, calls, i);
      RetriedCommitInstalls(start, calls, i + 1, j);
    }
  }

  lemma {:induction false} IdsGrow(start: State, calls: seq<Call>, i: nat, j: nat)
    requires i <= j <= |calls| && forall m :: i <= m < j ==> !Wipes(start, calls, m)
    ensures StateAt(start, calls, i).nextContextId <= StateAt(start, calls, j).nextContextId
    decreases j
  {
    if i < j {
      IdsGrow(start, calls, i, j - 1);
      assert !Wipes(start, calls, j - 1);
    }
  }

  /** Between successful wipes every context opened has a higher id than the one
      before. */
  lemma ContextIdsIncrease(start: State, calls: seq<Call>, i: nat, j: nat)
    requires i < j < |calls| && ReplyAt(start, calls, i).Opened? && ReplyAt(start, calls, j).Opened?
    requires forall m :: i < m < j ==> !Wipes(start, calls, m)
    ensures ReplyAt(start, calls, i).context.id < ReplyAt(start, calls, j).context.id
  {
    IdsGrow(start, calls, i + 1, j);
  }
}
