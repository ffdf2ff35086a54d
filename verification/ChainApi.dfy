/** The heap-free byte buffer shared by the chain adapters. */
module ChainApi {
  import opened Bytes

  /** Fixed-capacity byte storage. Bytes past `len` stay zero. */
  class BoundedBytes {
    const data: array<byte>
    var len: nat

    ghost predicate Valid()
      reads this, data
    {
      && len <= data.Length <= USIZE_MAX
      && forall i :: len <= i < data.Length ==> data[i] == 0
    }

    constructor (capacity: nat)
      requires capacity <= USIZE_MAX
      ensures Valid() && fresh(data) && data.Length == capacity
      ensures AsSlice() == []
    {
      data := new byte[capacity](_ => 0);
      len := 0;
    }

    function AsSlice(): bytes
      requires Valid()
      reads this, data
    {
      data[..len]
    }

    /** Appends one byte; `full` is the caller's image of `CapacityError::TooLong`. */
    method Push<E>(value: byte, full: E) returns (r: Result<Unit, E>)
      requires Valid()
      modifies this`len, data
      ensures Valid()
      ensures r == if old(len) < data.Length then Ok(Unit) else Err(full)
      ensures AsSlice() == if r.Ok? then old(AsSlice()) + [value] else old(AsSlice())
    {
      if len == data.Length {
        return Err(full);
      }
      data[len] := value;
      len := len + 1;
      return Ok(Unit);
    }

    /** Appends a slice, or nothing at all when it does not fit. */
    method ExtendFromSlice<E>(value: bytes, full: E) returns (r: Result<Unit, E>)
      requires Valid()
      modifies this`len, data
      ensures Valid()
      ensures r == if old(len) + |value| <= data.Length then Ok(Unit) else Err(full)
      ensures AsSlice() == if r.Ok? then old(AsSlice()) + value else old(AsSlice())
    {
      var end := len + |value|;
      if end > USIZE_MAX {
        return Err(full);
      }
      if end > data.Length {
        return Err(full);
      }
      forall i | len <= i < end {
        data[i] := value[i - len];
      }
      len := end;
      return Ok(Unit);
    }

    /** The derived `PartialEq`: every byte of the storage and the length. */
    predicate DerivedEq(other: BoundedBytes)
      reads this, data, other, other.data
    {
      data[..] == other.data[..] && len == other.len
    }
  }

  /** `BoundedBytes::from_slice`. */
  method FromSlice<E>(capacity: nat, value: bytes, full: E) returns (r: Result<BoundedBytes, E>)
    requires capacity <= USIZE_MAX
    ensures r == Err(full) <==> |value| > capacity
    ensures r.Err? ==> r == Err(full)
    ensures r.Ok? ==>
              && fresh(r.value) && fresh(r.value.data) && r.value.Valid()
              && r.value.data.Length == capacity && r.value.AsSlice() == value
  {
    if |value| > capacity {
      return Err(full);
    }
    var output := new BoundedBytes(capacity);
    var copied := output.ExtendFromSlice(value, full);
    return Ok(output);
  }

  /** An append the caller knows to fit, so its capacity error cannot arise. */
  method Put(output: BoundedBytes, value: bytes)
    requires output.Valid() && output.len + |value| <= output.data.Length
    modifies output`len, output.data
    ensures output.Valid() && output.len == old(output.len) + |value|
    ensures output.AsSlice() == old(output.AsSlice()) + value
  {
    var appended: Result<Unit, Unit> := output.ExtendFromSlice(value, Unit);
    assert appended.Ok?;
  }

  /** Two buffers of one type compare equal exactly when they hold the same
      bytes: what is left past `len` cannot tell them apart. */
  lemma DerivedEqIsContentEq(a: BoundedBytes, b: BoundedBytes)
    requires a.Valid() && b.Valid() && a.data.Length == b.data.Length
    ensures a.DerivedEq(b) <==> a.AsSlice() == b.AsSlice()
  {
    if a.AsSlice() == b.AsSlice() {
      assert |a.AsSlice()| == a.len && |b.AsSlice()| == b.len;
      forall i | 0 <= i < a.data.Length
        ensures a.data[i] == b.data[i]
      {
        if i < a.len {
          assert a.AsSlice()[i] == a.data[i] && b.AsSlice()[i] == b.data[i];
        }
      }
    }
  }
}
