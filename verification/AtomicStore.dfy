/** The two-slot record store: a commit survives the loss of power behind any of
    its writes. */
module AtomicStore {
  import opened Bytes

  const MAX_GENERATION: nat := 0xFFFF_FFFF

  datatype Slot = Slot(generation: u32, digest: u32, valid: bool)

  const EMPTY: Slot := Slot(0, 0, false)

  type Slots = s: seq<Slot> | |s| == 2 witness [Slot(0, 0, false), Slot(0, 0, false)]

  datatype Panic = GenerationOverflow

  /** Where the valid record with the highest generation lies; of two equal ones the
      later. */
  function SelectedIndex(slots: Slots): Option<nat> {
    if slots[0].valid && (!slots[1].valid || slots[0].generation > slots[1].generation) then Some(0)
    else if slots[1].valid then Some(1)
    else None
  }

  function Selected(slots: Slots): (r: Option<Slot>)
    ensures r.None? <==> !slots[0].valid && !slots[1].valid
    ensures r.Some? ==> r.value in slots && r.value.valid
                        && forall i :: 0 <= i < 2 && slots[i].valid ==> slots[i].generation <= r.value.generation
    ensures slots[0].valid && slots[1].valid && slots[0].generation == slots[1].generation ==> r == Some(slots[1])
  {
    match SelectedIndex(slots)
    case None => None
    case Some(i) => if i < 2 then Some(slots[i]) else None
  }

  function Generation(slots: Slots): nat {
    match Selected(slots)
    case None => 0
    case Some(slot) => slot.generation
  }

  /** The slot the next commit writes. */
  function Target(slots: Slots): nat {
    Generation(slots) % 2
  }

  /** The selected record lies where its generation says, above anything valid in
      the other slot. What an interrupted commit left invalid may be anything. */
  predicate Consistent(slots: Slots) {
    match SelectedIndex(slots)
    case None => true
    case Some(i) =>
      && i < 2 && slots[i].generation > 0 && i == (slots[i].generation - 1) % 2
      && (slots[1 - i].valid ==> slots[1 - i].generation < slots[i].generation)
  }

  /** The slots behind the first `k` of the four writes of a commit. */
  function After(slots: Slots, digest: u32, k: nat): Slots
    requires Generation(slots) < MAX_GENERATION
  {
    var t := Target(slots);
    var slot := slots[t];
    slots[t := Slot(if k >= 2 then Generation(slots) + 1 else slot.generation,
                    if k >= 3 then digest else slot.digest,
                    if k == 0 then slot.valid else k >= 4)]
  }

  /** The four writes: invalidate the target, then its generation, then its digest, and
      only then validate it. */
  lemma WritesInOrder(slots: Slots, digest: u32)
    requires Generation(slots) < MAX_GENERATION
    ensures var t := Target(slots);
            var invalid := slots[t].(valid := false);
            var numbered := invalid.(generation := Generation(slots) + 1);
            && After(slots, digest, 0) == slots && After(slots, digest, 1) == slots[t := invalid]
            && After(slots, digest, 2) == slots[t := numbered]
            && After(slots, digest, 3) == slots[t := numbered.(digest := digest)]
            && After(slots, digest, 4) == slots[t := numbered.(digest := digest, valid := true)]
  {
  }

  /** A commit never touches the selected slot; cut off behind any of its writes it
      leaves a consistent store, which selects the complete old record until the last
      write and from then on the complete new one, one generation higher. */
  lemma CommitIsAtomic(slots: Slots, digest: u32, k: nat)
    requires Consistent(slots) && Generation(slots) < MAX_GENERATION && k <= 4
    ensures SelectedIndex(slots) != Some(Target(slots))
    ensures Consistent(After(slots, digest, k))
    ensures Selected(After(slots, digest, k))
         == if k < 4 then Selected(slots) else Some(Slot(Generation(slots) + 1, digest, true))
  {
  }

  class Store {
    const digest: bytes -> u32
    const slots: array<Slot>
    var commits: u32

    ghost predicate Valid()
      reads this, slots
    {
      slots.Length == 2 && Consistent(slots[..]) && commits <= Generation(slots[..])
    }

    constructor (digest: bytes -> u32)
      ensures Valid() && fresh(slots) && this.digest == digest
      ensures slots[..] == [EMPTY, EMPTY] && commits == 0
    {
      this.digest := digest;
      slots := new Slot[2](_ => EMPTY);
      commits := 0;
    }

    method SelectedRecord() returns (r: Option<Slot>)
      requires Valid()
      ensures r == Selected(slots[..])
    {
      r := None;
      for i := 0 to 2
        invariant r.None? ==> forall j :: 0 <= j < i ==> !slots[j].valid
        invariant r.Some? ==> exists j :: 0 <= j < i && slots[j] == r.value && r.value.valid
        invariant r.Some? ==> forall j :: 0 <= j < i && slots[j].valid ==> slots[j].generation <= r.value.generation
      {
        if slots[i].valid && (r.None? || slots[i].generation >= r.value.generation) {
          r := Some(slots[i]);
        }
      }
    }

    /** Writes the record into the free slot, field by field. The checked addition
        panics, before anything is written, once the generations are used up. `trail`
        is what a reader would find behind each write. */
    method Commit(payload: bytes) returns (r: Result<Unit, Panic>, ghost trail: seq<Slots>)
      requires Valid()
      modifies this`commits, slots
      ensures Valid()
      ensures old(Generation(slots[..])) == MAX_GENERATION ==>
                r == Err(GenerationOverflow) && slots[..] == old(slots[..]) && commits == old(commits) && trail == []
      ensures old(Generation(slots[..])) < MAX_GENERATION ==>
                && r == Ok(Unit) && commits == old(commits) + 1
                && |trail| == 4 && (forall k :: 0 <= k < 4 ==> trail[k] == After(old(slots[..]), digest(payload), k + 1))
                && slots[..] == trail[3]
    {
      ghost var before := slots[..];
      trail := [];
      var selected := SelectedRecord();
      if selected.Some? && selected.value.generation == MAX_GENERATION {
        return Err(GenerationOverflow), trail;
      }
      var nextGeneration := if selected.Some? then selected.value.generation + 1 else 1;
      var target := (nextGeneration - 1) % 2;
      CommitIsAtomic(before, digest(payload), 4);

      slots[target] := slots[target].(valid := false);
      trail := trail + [slots[..]];
      slots[target] := slots[target].(generation := nextGeneration);
      trail := trail + [slots[..]];
      slots[target] := slots[target].(digest := digest(payload));
      trail := trail + [slots[..]];
      slots[target] := slots[target].(valid := true);
      trail := trail + [slots[..]];
      assert slots[..] == After(before, digest(payload), 4);
      commits := commits + 1;
      r := Ok(Unit);
    }
  }

  // ----- Any number of commits, each cut off anywhere -----

  /** A commit of a record, of which `writes` of the four writes took place. */
  datatype Attempt = Attempt(digest: u32, writes: nat)

  /** The store after these attempts, one behind the other. */
  function Attempted(attempts: seq<Attempt>): Slots {
    if attempts == [] then [EMPTY, EMPTY]
    else
      var before := Attempted(attempts[..|attempts| - 1]);
      var last := attempts[|attempts| - 1];
      if Generation(before) < MAX_GENERATION then After(before, last.digest, last.writes) else before
  }

  /** The digests of the completed attempts. */
  function Completed(attempts: seq<Attempt>): (r: seq<u32>)
    ensures |r| <= |attempts|
  {
    if attempts == [] then []
    else
      var last := attempts[|attempts| - 1];
      Completed(attempts[..|attempts| - 1]) + (if last.writes == 4 then [last.digest] else [])
  }

  /** However many commits are cut off, wherever, the store selects the last one that
      completed, and its generation counts the completed ones. */
  lemma {:induction false} LastCompletedIsSelected(attempts: seq<Attempt>)
    requires |attempts| <= MAX_GENERATION && forall i :: 0 <= i < |attempts| ==> attempts[i].writes <= 4
    ensures var done := Completed(attempts);
            && Consistent(Attempted(attempts)) && Generation(Attempted(attempts)) == |done|
            && Selected(Attempted(attempts))
               == if done == [] then None else Some(Slot(|done|, done[|done| - 1], true))
  {
    if attempts != [] {
      var n := |attempts| - 1;
      LastCompletedIsSelected(attempts[..n]);
      CommitIsAtomic(Attempted(attempts[..n]), attempts[n].digest, attempts[n].writes);
    }
  }
}
