/** Derivation paths of bounded depth. */
module KeyPaths {
  import opened Bytes
  import opened CryptoVocabulary

  const MAX_DERIVATION_DEPTH: nat := 16
  const MAX_INDEX: u32 := 0x7fff_ffff

  datatype DerivationError = IndexOutOfRange | TooDeep

  /** `ChildNumber::new`: hardenedness is its own flag, so the index has 31 bits. */
  function NewChild(index: u32, hardened: bool): (r: Result<ChildNumber, DerivationError>)
    ensures r.Ok? <==> index < 0x8000_0000
    ensures r.Ok? ==> r.value.index == index && r.value.hardened == hardened
    ensures r.Err? ==> r.error == IndexOutOfRange
  {
    if index > MAX_INDEX then Err(IndexOutOfRange) else Ok(ChildNumber(index, hardened))
  }

  const EMPTY_CHILD: ChildNumber := ChildNumber(0, false)

  /** A path of at most sixteen components; those past its depth stay empty. */
  class DerivationPath {
    const components: array<ChildNumber>
    var len: nat

    ghost predicate Valid()
      reads this, components
    {
      && components.Length == MAX_DERIVATION_DEPTH && len <= MAX_DERIVATION_DEPTH
      && forall i :: len <= i < MAX_DERIVATION_DEPTH ==> components[i] == EMPTY_CHILD
    }

    constructor ()
      ensures Valid() && fresh(components) && AsSlice() == []
    {
      components := new ChildNumber[MAX_DERIVATION_DEPTH](_ => EMPTY_CHILD);
      len := 0;
    }

    function AsSlice(): seq<ChildNumber>
      requires Valid()
      reads this, components
    {
      components[..len]
    }

    /** Appends one component, or reports a path that is deep enough and changes nothing. */
    method Push(child: ChildNumber) returns (r: Result<Unit, DerivationError>)
      requires Valid()
      modifies this`len, components
      ensures Valid()
      ensures r == if old(len) < MAX_DERIVATION_DEPTH then Ok(Unit) else Err(TooDeep)
      ensures AsSlice() == if r.Ok? then old(AsSlice()) + [child] else old(AsSlice())
    {
      var index := len;
      if index == MAX_DERIVATION_DEPTH {
        return Err(TooDeep);
      }
      components[index] := child;
      len := len + 1;
      return Ok(Unit);
    }

    /** The derived equality: every component of the storage and the depth. */
    predicate DerivedEq(other: DerivationPath)
      reads this, components, other, other.components
    {
      components[..] == other.components[..] && len == other.len
    }
  }

  /** Two paths compare equal exactly when they have the same components: empty and
      missing components cannot be confused. */
  lemma PathsEqualIffComponents(a: DerivationPath, b: DerivationPath)
    requires a.Valid() && b.Valid()
    ensures a.DerivedEq(b) <==> a.AsSlice() == b.AsSlice()
  {
    if a.AsSlice() == b.AsSlice() {
      assert |a.AsSlice()| == a.len && |b.AsSlice()| == b.len;
      forall i | 0 <= i < MAX_DERIVATION_DEPTH
        ensures a.components[i] == b.components[i]
      {
        if i < a.len {
          assert a.AsSlice()[i] == a.components[i] && b.AsSlice()[i] == b.components[i];
        }
      }
    }
  }
}
