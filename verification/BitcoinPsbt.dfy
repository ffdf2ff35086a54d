/** PSBT version 0 (BIP 174, "Specification"): the maps the adapter accepts and the
    review it derives from them. */
module BitcoinPsbt {
  import opened Bytes
  import opened BitcoinWire
  import opened BitcoinTransaction
  import opened CryptoVocabulary

  const MAX_PSBT_BYTES: nat := 2048
  const MAGIC: bytes := [0x70, 0x73, 0x62, 0x74, 0xff]

  // ----- Key-value maps -----

  datatype Field = Field(key: bytes, value: bytes)

  predicate Framable(fields: seq<Field>) {
    forall i :: 0 <= i < |fields| ==> 0 < |fields[i].key| <= U64_MAX && |fields[i].value| <= U64_MAX
  }

  /** A map: its fields, each key and value with its length, and a zero. */
  function MapBytes(fields: seq<Field>): bytes
    requires Framable(fields)
  {
    if fields == [] then [0]
    else Counted(fields[0].key) + (Counted(fields[0].value) + MapBytes(fields[1..]))
  }

  /** One field of a map, or nothing at the terminator. */
  function TakeField(s: bytes): Result<Read<Option<Field>>, Error> {
    var keyLen :- TakeCompactSize(s);
    if keyLen.value == 0 then Ok(Read(None, keyLen.rest))
    else
      var key :- Take(keyLen.rest, keyLen.value);
      var value :- TakeCounted(key.rest);
      Ok(Read(Some(Field(key.value, value.value)), value.rest))
  }

  lemma TakeFieldShrinks(s: bytes)
    ensures TakeField(s).Ok? ==> |TakeField(s).value.rest| < |s|
    ensures TakeField(s).Ok? && TakeField(s).value.value.Some? ==> |TakeField(s).value.value.value.key| > 0
  {
    if TakeField(s).Ok? {
      var keyLen := TakeCompactSize(s).value;
      CompactSizeIff(s, keyLen.value, keyLen.rest);
      if keyLen.value != 0 {
        var key := Take(keyLen.rest, keyLen.value).value;
        var value := TakeCounted(key.rest).value;
        TakeCountedIff(key.rest, value.value, value.rest);
      }
    }
  }

  /** A field is read exactly when its two counted runs stand at the front, and
      the end of a map exactly when a zero does. */
  lemma TakeFieldIff(s: bytes, f: Field, rest: bytes)
    ensures TakeField(s) == Ok(Read(Some(f), rest)) <==>
            0 < |f.key| <= U64_MAX && |f.value| <= U64_MAX && s == Counted(f.key) + (Counted(f.value) + rest)
    ensures TakeField(s) == Ok(Read(None, rest)) <==> s == [0] + rest
  {
    SmallCompactSize(s, 0, rest);
    if TakeField(s) == Ok(Read(Some(f), rest)) {
      var keyLen := TakeCompactSize(s).value;
      CompactSizeIff(s, keyLen.value, keyLen.rest);
      var key := Take(keyLen.rest, keyLen.value).value;
      TakeCountedIff(key.rest, f.value, rest);
      Assoc3(CompactSize(|f.key|), f.key, key.rest);
    }
    if 0 < |f.key| <= U64_MAX && |f.value| <= U64_MAX {
      var s1 := Counted(f.value) + rest;
      if s == Counted(f.key) + s1 {
        Assoc3(CompactSize(|f.key|), f.key, s1);
        CompactSizeIff(s, |f.key|, f.key + s1);
        TakeIff(f.key + s1, f.key, s1);
        TakeCountedIff(s1, f.value, rest);
      }
    }
  }

  /** The map loop: reads fields up to the terminator and feeds each to `step`. */
  function FoldMap<A>(s: bytes, acc: A, step: (A, Field) -> Result<A, Error>): Result<Read<A>, Error>
    decreases |s|
  {
    TakeFieldShrinks(s);
    var field :- TakeField(s);
    if field.value.None? then Ok(Read(acc, field.rest))
    else
      var stepped := step(acc, field.value.value);
      if stepped.Err? then Err(stepped.error)
      else FoldMap(field.rest, stepped.value, step)
  }

  /** The same fold over a list of fields. */
  function FoldFields<A>(fields: seq<Field>, acc: A, step: (A, Field) -> Result<A, Error>): Result<A, Error> {
    if fields == [] then Ok(acc)
    else
      var n := |fields| - 1;
      var before := FoldFields(fields[..n], acc, step);
      if before.Err? then before else step(before.value, fields[n])
  }

  lemma {:induction false} FoldFieldsCons<A>(f: Field, fields: seq<Field>, acc: A, step: (A, Field) -> Result<A, Error>)
    ensures FoldFields([f] + fields, acc, step)
         == if step(acc, f).Err? then Err(step(acc, f).error)
            else FoldFields(fields, step(acc, f).value, step)
  {
    var all := [f] + fields;
    if fields == [] {
      assert all[..0] == [] && all[0] == f;
      assert FoldFields(all, acc, step) == step(acc, f);
    } else {
      var n := |fields| - 1;
      assert all[..|all| - 1] == [f] + fields[..n];
      FoldFieldsCons(f, fields[..n], acc, step);
    }
  }

  function Resumed<A>(folded: Result<A, Error>, rest: bytes): Result<Read<A>, Error> {
    if folded.Err? then Err(folded.error) else Ok(Read(folded.value, rest))
  }

  /** On a serialized map the loop computes the fold of the map's fields, errors
      included. */
  lemma {:induction false} FoldMapOfBytes<A>(fields: seq<Field>, rest: bytes, acc: A, step: (A, Field) -> Result<A,
      Error>)
    requires Framable(fields)
    ensures FoldMap(MapBytes(fields) + rest, acc, step) == Resumed(FoldFields(fields, acc, step), rest)
    decreases |fields|
  {
    if fields == [] {
      TakeFieldIff([0] + rest, Field([], []), rest);
    } else {
      var f, tail := fields[0], fields[1..];
      assert fields == [f] + tail;
      FoldFieldsCons(f, tail, acc, step);
      FieldAppend(f, MapBytes(tail), rest);
      TakeFieldIff(MapBytes(fields) + rest, f, MapBytes(tail) + rest);
      if step(acc, f).Ok? {
        FoldMapOfBytes(tail, rest, step(acc, f).value, step);
      }
    }
  }

  lemma FieldAppend(f: Field, tail: bytes, rest: bytes)
    requires |f.key| <= U64_MAX && |f.value| <= U64_MAX
    ensures Counted(f.key) + (Counted(f.value) + tail) + rest == Counted(f.key) + (Counted(f.value) + (tail + rest))
  {
    Assoc3(Counted(f.value), tail, rest);
    Assoc3(Counted(f.key), Counted(f.value) + tail, rest);
  }

  /** Whatever the loop accepts is a serialized map. */
  lemma {:induction false} FoldMapIsBytes<A>(s: bytes, acc: A, step: (A, Field) -> Result<A, Error>, a: A, rest: bytes)
    returns (fields: seq<Field>)
    requires FoldMap(s, acc, step) == Ok(Read(a, rest))
    ensures Framable(fields) && s == MapBytes(fields) + rest && FoldFields(fields, acc, step) == Ok(a)
    decreases |s|
  {
    TakeFieldShrinks(s);
    var field := TakeField(s).value;
    if field.value.None? {
      TakeFieldIff(s, Field([], []), rest);
      return [];
    }
    var f := field.value.value;
    TakeFieldIff(s, f, field.rest);
    var tail := FoldMapIsBytes(field.rest, step(acc, f).value, step, a, rest);
    fields := [f] + tail;
    FoldFieldsCons(f, tail, acc, step);
    assert fields[1..] == tail;
    FieldAppend(f, MapBytes(tail), rest);
  }

  // ----- The global map -----

  const VERSION_ZERO: Field := Field([0xfb], [0, 0, 0, 0])

  /** One turn of the global loop; the state is the unsigned transaction seen so far. */
  function GlobalStep(unsigned: Option<bytes>, f: Field): Result<Option<bytes>, Error> {
    if f.key == [0x00] then
      if unsigned.Some? then Err(DuplicateField)
      else if |f.value| > MAX_UNSIGNED_TX_BYTES then Err(InvalidUnsignedTransaction)
      else Ok(Some(f.value))
    else if f.key == [0xfb] && f.value == [0, 0, 0, 0] then Ok(unsigned)
    else Err(UnsupportedGlobal)
  }

  /** One unsigned transaction, and around it only version-zero fields. */
  ghost predicate GlobalsHold(fields: seq<Field>, raw: bytes) {
    |raw| <= 512
    && exists i :: 0 <= i < |fields| && fields[i] == Field([0x00], raw)
                && forall j :: 0 <= j < |fields| && j != i ==> fields[j] == VERSION_ZERO
  }

  ghost predicate OnlyVersions(fields: seq<Field>) {
    forall j :: 0 <= j < |fields| ==> fields[j] == VERSION_ZERO
  }

  lemma {:induction false} FoldGlobals(fields: seq<Field>, raw: bytes)
    ensures FoldFields(fields, None, GlobalStep) == Ok(None) <==> OnlyVersions(fields)
    ensures FoldFields(fields, None, GlobalStep) == Ok(Some(raw)) <==> GlobalsHold(fields, raw)
  {
    if fields != [] {
      var n := |fields| - 1;
      var before, last := fields[..n], fields[n];
      FoldGlobals(before, raw);
      OnlyVersionsSnoc(before, last);
      GlobalsHoldSnoc(before, last, raw);
      assert fields == before + [last];
      var folded := FoldFields(before, None, GlobalStep);
      if folded.Ok? && folded.value.Some? {
        FoldGlobals(before, folded.value.value);
      }
    }
  }

  lemma OnlyVersionsSnoc(before: seq<Field>, last: Field)
    ensures OnlyVersions(before + [last]) <==> OnlyVersions(before) && last == VERSION_ZERO
  {
    var all := before + [last];
    if OnlyVersions(all) {
      assert all[|before|] == last;
      assert forall j :: 0 <= j < |before| ==> before[j] == all[j];
    }
  }

  lemma GlobalsHoldSnoc(before: seq<Field>, last: Field, raw: bytes)
    ensures GlobalsHold(before + [last], raw) <==>
            || (GlobalsHold(before, raw) && last == VERSION_ZERO)
            || (OnlyVersions(before) && last == Field([0x00], raw) && |raw| <= 512)
  {
    var all, n := before + [last], |before|;
    assert all[n] == last && forall j :: 0 <= j < n ==> before[j] == all[j];
    if GlobalsHold(before, raw) && last == VERSION_ZERO {
      var i :| 0 <= i < n && before[i] == Field([0x00], raw)
               && forall j :: 0 <= j < n && j != i ==> before[j] == VERSION_ZERO;
      assert all[i] == Field([0x00], raw);
    }
  }

  // ----- The input map -----

  datatype InputKind = NonWitnessUtxo | WitnessUtxo | SighashType | KeyOrigin | OtherInput

  function KindOf(f: Field): InputKind {
    if f.key == [0x00] then NonWitnessUtxo
    else if f.key == [0x01] then WitnessUtxo
    else if f.key == [0x03] then SighashType
    else if |f.key| == 34 && f.key[0] == 0x06 then KeyOrigin
    else OtherInput
  }

  datatype InputState = InputState(
    nonWitnessSeen: bool, utxo: Option<(bytes, bytes)>, sighash: nat, pubkey: Option<bytes>)

  const INPUT_START: InputState := InputState(false, None, SIGHASH_ALL, None)

  /** One turn of the input loop. */
  function InputStep(state: InputState, f: Field): Result<InputState, Error> {
    match KindOf(f)
    case NonWitnessUtxo =>
      if state.nonWitnessSeen || f.value == [] then Err(DuplicateField)
      else Ok(state.(nonWitnessSeen := true))
    case WitnessUtxo =>
      if state.utxo.Some? then Err(DuplicateField)
      else
        var utxo := ParseWitnessUtxo(f.value);
        if utxo.Err? then Err(utxo.error) else Ok(state.(utxo := Some(utxo.value)))
    case SighashType =>
      if |f.value| != 4 then Err(UnsupportedSighash) else Ok(state.(sighash := FromLE(f.value)))
    case KeyOrigin =>
      if state.pubkey.Some? then Err(DuplicateField)
      else if |f.value| < 4 || (|f.value| - 4) % 4 != 0 then Err(UnsupportedInput)
      else Ok(state.(pubkey := Some(f.key[1..])))
    case OtherInput => Err(UnsupportedInput)
  }

  /** The values each kind of field may carry. */
  predicate Permitted(f: Field) {
    match KindOf(f)
    case NonWitnessUtxo => f.value != []
    case WitnessUtxo => ParseWitnessUtxo(f.value).Ok?
    case SighashType => |f.value| == 4
    case KeyOrigin => |f.value| >= 4 && |f.value| % 4 == 0
    case OtherInput => false
  }

  /** The last field of a kind. */
  function Last(fields: seq<Field>, kind: InputKind): (r: Option<Field>)
    ensures r.Some? ==> r.value in fields && KindOf(r.value) == kind
    ensures r.None? ==> forall i :: 0 <= i < |fields| ==> KindOf(fields[i]) != kind
  {
    if fields == [] then None
    else
      var n := |fields| - 1;
      if KindOf(fields[n]) == kind then Some(fields[n]) else Last(fields[..n], kind)
  }

  /** Permitted fields only, and only the sighash type more than once. */
  ghost predicate InputsAllowed(fields: seq<Field>) {
    && (forall i :: 0 <= i < |fields| ==> Permitted(fields[i]))
    && (forall i, j :: 0 <= i < j < |fields| && KindOf(fields[i]) == KindOf(fields[j]) ==>
          KindOf(fields[j]) == SighashType)
  }

  /** The fields of an input map that are allowed at all, by their key bytes (BIP 174,
      "Specification"): the previous transaction, the spent output, the sighash type,
      and the origin of a 33-byte key. */
  ghost predicate AllowedField(f: Field) {
    || (f.key == [0x00] && f.value != [])
    || (f.key == [0x01] && exists amount: bytes, program: bytes ::
          |amount| == 8 && |program| == 20 && f.value == amount + ProgramBytes(program))
    || (f.key == [0x03] && |f.value| == 4)
    || (|f.key| == 34 && f.key[0] == 0x06 && |f.value| >= 4 && |f.value| % 4 == 0)
  }

  lemma PermittedIff(f: Field)
    ensures Permitted(f) <==> AllowedField(f)
  {
    if f.key == [0x01] {
      if ParseWitnessUtxo(f.value).Ok? {
        var utxo := ParseWitnessUtxo(f.value).value;
        ParseWitnessUtxoIff(f.value, utxo.0, utxo.1);
      } else if AllowedField(f) {
        var amount: bytes, program: bytes :| |amount| == 8 && |program| == 20 && f.value == amount + ProgramBytes(program);
        ParseWitnessUtxoIff(f.value, amount, program);
      }
    }
  }

  /** An input map is allowed exactly when all its fields are, and only the sighash type
      shares its leading key byte with another field. */
  lemma InputsAllowedIff(fields: seq<Field>)
    ensures InputsAllowed(fields) <==>
            && (forall i :: 0 <= i < |fields| ==> AllowedField(fields[i]))
            && (forall i, j :: 0 <= i < j < |fields| && fields[i].key[..1] == fields[j].key[..1] ==> fields[j].key == [0x03])
  {
    forall i | 0 <= i < |fields| ensures Permitted(fields[i]) <==> AllowedField(fields[i]) {
      PermittedIff(fields[i]);
    }
    if forall i :: 0 <= i < |fields| ==> AllowedField(fields[i]) {
      forall i, j | 0 <= i < |fields| && 0 <= j < |fields|
        ensures KindOf(fields[i]) == KindOf(fields[j]) <==> fields[i].key[..1] == fields[j].key[..1]
        ensures KindOf(fields[j]) == SighashType <==> fields[j].key == [0x03]
      {
        KindIsKeyByte(fields[i]);
        KindIsKeyByte(fields[j]);
      }
    }
  }

  lemma KindIsKeyByte(f: Field)
    requires AllowedField(f)
    ensures f.key[..1] == match KindOf(f)
                          case NonWitnessUtxo => [0x00]
                          case WitnessUtxo => [0x01]
                          case SighashType => [0x03]
                          case KeyOrigin => [0x06]
                          case OtherInput => []
  {
  }

  lemma InputsAllowedSnoc(before: seq<Field>, last: Field)
    ensures InputsAllowed(before + [last]) <==>
            && InputsAllowed(before) && Permitted(last)
            && (Last(before, KindOf(last)).Some? ==> KindOf(last) == SighashType)
  {
    var all, n := before + [last], |before|;
    assert all[n] == last && forall j :: 0 <= j < n ==> before[j] == all[j];
    if InputsAllowed(all) {
      assert forall i :: 0 <= i < n ==> Permitted(before[i]);
      var found := Last(before, KindOf(last));
      if found.Some? {
        var i :| 0 <= i < n && before[i] == found.value;
        assert KindOf(all[i]) == KindOf(all[n]);
      }
    }
  }

  function UtxoOf(witnessUtxo: Option<Field>): Option<(bytes, bytes)> {
    if witnessUtxo.None? then None
    else
      var utxo := ParseWitnessUtxo(witnessUtxo.value.value);
      if utxo.Ok? then Some(utxo.value) else None
  }

  function SighashOf(sighash: Option<Field>): nat {
    if sighash.None? then SIGHASH_ALL else FromLE(sighash.value.value)
  }

  function PubkeyOf(keyOrigin: Option<Field>): Option<bytes> {
    if keyOrigin.None? || keyOrigin.value.key == [] then None else Some(keyOrigin.value.key[1..])
  }

  /** What the input loop has gathered once it accepted these fields. */
  function Gathered(fields: seq<Field>): InputState {
    InputState(Last(fields, NonWitnessUtxo).Some?, UtxoOf(Last(fields, WitnessUtxo)),
               SighashOf(Last(fields, SighashType)), PubkeyOf(Last(fields, KeyOrigin)))
  }

  lemma {:induction false} FoldInputs(fields: seq<Field>)
    ensures FoldFields(fields, INPUT_START, InputStep).Ok? <==> InputsAllowed(fields)
    ensures InputsAllowed(fields) ==> FoldFields(fields, INPUT_START, InputStep) == Ok(Gathered(fields))
  {
    if fields != [] {
      var n := |fields| - 1;
      var before, last := fields[..n], fields[n];
      FoldInputs(before);
      InputsAllowedSnoc(before, last);
      assert fields == before + [last];
      if InputsAllowed(before) {
        InputStepGathers(before, last, fields);
      }
    }
  }

  lemma LastSnoc(before: seq<Field>, last: Field, kind: InputKind)
    ensures Last(before + [last], kind) == if KindOf(last) == kind then Some(last) else Last(before, kind)
  {
    var all := before + [last];
    assert all[..|all| - 1] == before && all[|all| - 1] == last;
  }

  lemma GatheredSnoc(before: seq<Field>, last: Field)
    ensures var g, after := Gathered(before), Gathered(before + [last]);
            match KindOf(last)
            case NonWitnessUtxo => after == g.(nonWitnessSeen := true)
            case WitnessUtxo => after == g.(utxo := UtxoOf(Some(last)))
            case SighashType => after == g.(sighash := FromLE(last.value))
            case KeyOrigin => after == g.(pubkey := Some(last.key[1..]))
            case OtherInput => true
  {
    LastSnoc(before, last, NonWitnessUtxo);
    LastSnoc(before, last, WitnessUtxo);
    LastSnoc(before, last, SighashType);
    LastSnoc(before, last, KeyOrigin);
  }

  lemma UtxoFound(before: seq<Field>)
    requires InputsAllowed(before)
    ensures Gathered(before).utxo.Some? <==> Last(before, WitnessUtxo).Some?
    ensures Gathered(before).pubkey.Some? <==> Last(before, KeyOrigin).Some?
  {
    var w := Last(before, WitnessUtxo);
    if w.Some? {
      assert Permitted(w.value);
    }
  }

  lemma InputStepGathers(before: seq<Field>, last: Field, fields: seq<Field>)
    requires InputsAllowed(before) && fields == before + [last]
    ensures InputStep(Gathered(before), last).Ok? <==> InputsAllowed(fields)
    ensures InputsAllowed(fields) ==> InputStep(Gathered(before), last) == Ok(Gathered(fields))
  {
    InputsAllowedSnoc(before, last);
    UtxoFound(before);
    GatheredSnoc(before, last);
    StepIffPermitted(Gathered(before), last);
  }

  /** When one turn of the loop succeeds, and with which state. */
  lemma StepIffPermitted(g: InputState, last: Field)
    ensures InputStep(g, last).Ok? <==>
            Permitted(last) && match KindOf(last)
                               case NonWitnessUtxo => !g.nonWitnessSeen
                               case WitnessUtxo => g.utxo.None?
                               case SighashType => true
                               case KeyOrigin => g.pubkey.None?
                               case OtherInput => true
  {
  }

  // ----- The whole PSBT -----

  datatype P2wpkhReview = P2wpkhReview(
    key: KeyTarget, inputAmount: nat, outputAmount: nat, fee: nat, inputProgram: bytes, outputProgram: bytes,
    tx: ParsedTransaction, psbtPubkey: Option<bytes>)

  /** What is checked behind the input map. */
  function Conclude(key: KeyTarget, tx: ParsedTransaction, state: InputState, rest: bytes): Result<P2wpkhReview, Error> {
    if state.sighash != SIGHASH_ALL then Err(UnsupportedSighash)
    else
      var outputs :- TakeCompactSize(rest);
      if outputs.value != 0 then Err(UnsupportedOutput)
      else if outputs.rest != [] then Err(TrailingBytes)
      else if state.utxo.None? then Err(MissingWitnessUtxo)
      else
        var inputAmount := FromLE(state.utxo.value.0);
        if inputAmount < tx.OutputAmount() then Err(FeeUnderflow)
        else Ok(P2wpkhReview(key, inputAmount, tx.OutputAmount(), inputAmount - tx.OutputAmount(),
                             state.utxo.value.1, tx.outputProgram, tx, state.pubkey))
  }

  /** What is checked behind the global map. */
  function ParseInputs(key: KeyTarget, tx: ParsedTransaction, s: bytes): Result<P2wpkhReview, Error> {
    var inputs :- FoldMap(s, INPUT_START, InputStep);
    Conclude(key, tx, inputs.value, inputs.rest)
  }

  /** `parse_psbt`. */
  function ParsePsbt(key: KeyTarget, psbt: bytes): Result<P2wpkhReview, Error> {
    var magic :- Take(psbt, 5);
    if magic.value != MAGIC then Err(InvalidPsbt)
    else
      var globals :- FoldMap(magic.rest, None, GlobalStep);
      if globals.value.None? then Err(InvalidPsbt)
      else
        var tx :- ParseUnsigned(globals.value.value);
        ParseInputs(key, tx, globals.rest)
  }

  /** An input map that accounts for what the review shows. */
  ghost predicate InputsHold(inputs: seq<Field>, review: P2wpkhReview) {
    && Framable(inputs) && InputsAllowed(inputs)
    && |review.inputProgram| == 20 && review.inputAmount < Pow256(8)
    && Last(inputs, WitnessUtxo) == Some(Field([0x01], FixedLE(review.inputAmount,
        8) + ProgramBytes(review.inputProgram)))
    && (match Last(inputs, SighashType)
        case None => true
        case Some(f) => f.value == FixedLE(SIGHASH_ALL, 4))
    && (match Last(inputs, KeyOrigin)
        case None => review.psbtPubkey == None
        case Some(f) => review.psbtPubkey.Some? && f.key == [0x06] + review.psbtPubkey.value)
  }

  /** What the review says about the transaction it was derived from. */
  ghost predicate ReviewHolds(key: KeyTarget, review: P2wpkhReview) {
    && review.tx.Valid() && review.key == key
    && review.outputAmount == review.tx.OutputAmount() && review.outputProgram == review.tx.outputProgram
    && review.fee + review.outputAmount == review.inputAmount
  }

  ghost predicate DescribesPsbt(psbt: bytes, key: KeyTarget, review: P2wpkhReview, globals: seq<Field>,
      inputs: seq<Field>) {
    && Framable(globals)
    && ReviewHolds(key, review)
    && GlobalsHold(globals, review.tx.Unsigned())
    && InputsHold(inputs, review)
    && psbt == MAGIC + (MapBytes(globals) + (MapBytes(inputs) + [0]))
  }

  /** A map-level reading of the PSBT that accounts for the whole review. */
  ghost predicate IsPsbtOf(psbt: bytes, key: KeyTarget, review: P2wpkhReview) {
    exists globals, inputs :: DescribesPsbt(psbt, key, review, globals, inputs)
  }

  lemma WitnessGathered(f: Field, amount: nat, program: bytes)
    requires amount < Pow256(8) && KindOf(f) == WitnessUtxo && Permitted(f)
    ensures ParseWitnessUtxo(f.value) == Ok((FixedLE(amount, 8), program)) <==>
            |program| == 20 && f == Field([0x01], FixedLE(amount, 8) + ProgramBytes(program))
  {
    ParseWitnessUtxoIff(f.value, FixedLE(amount, 8), program);
  }

  lemma SighashGathered(f: Field)
    requires KindOf(f) == SighashType && Permitted(f)
    ensures FromLE(f.value) == SIGHASH_ALL <==> f.value == FixedLE(SIGHASH_ALL, 4)
  {
    Pow256Eight();
    FixedFromLE(f.value);
    FromFixedLE(SIGHASH_ALL, 4);
  }

  /** An accepted input map accounts for the review exactly when the loop ended in
      the state the review is read from. */
  lemma InputsGathered(inputs: seq<Field>, review: P2wpkhReview)
    requires InputsAllowed(inputs) && Framable(inputs) && review.inputAmount < Pow256(8)
    ensures InputsHold(inputs, review) <==>
            var g := Gathered(inputs);
            && g.sighash == SIGHASH_ALL
            && g.utxo == Some((FixedLE(review.inputAmount, 8), review.inputProgram))
            && g.pubkey == review.psbtPubkey
  {
    var w, h, k := Last(inputs, WitnessUtxo), Last(inputs, SighashType), Last(inputs, KeyOrigin);
    if w.Some? {
      assert Permitted(w.value);
      WitnessGathered(w.value, review.inputAmount, review.inputProgram);
    }
    if h.Some? {
      assert Permitted(h.value);
      SighashGathered(h.value);
    }
    if k.Some? {
      assert k.value.key == [0x06] + k.value.key[1..];
    }
  }

  lemma ConcludeSound(key: KeyTarget, tx: ParsedTransaction, state: InputState, rest: bytes, review: P2wpkhReview)
    requires tx.Valid() && Conclude(key, tx, state, rest) == Ok(review)
    requires state.utxo.Some? ==> |state.utxo.value.0| == 8
    ensures ReviewHolds(key, review) && review.tx == tx && rest == [0]
    ensures state.sighash == SIGHASH_ALL && state.pubkey == review.psbtPubkey && review.inputAmount < Pow256(8)
    ensures state.utxo == Some((FixedLE(review.inputAmount, 8), review.inputProgram))
  {
    SmallCompactSize(rest, 0, []);
    FixedFromLE(state.utxo.value.0);
  }

  lemma ParseInputsSound(key: KeyTarget, tx: ParsedTransaction, s: bytes, review: P2wpkhReview)
    returns (inputs: seq<Field>)
    requires tx.Valid() && ParseInputs(key, tx, s) == Ok(review)
    ensures ReviewHolds(key, review) && review.tx == tx && InputsHold(inputs, review)
    ensures s == MapBytes(inputs) + [0]
  {
    var folded := FoldMap(s, INPUT_START, InputStep).value;
    inputs := FoldMapIsBytes(s, INPUT_START, InputStep, folded.value, folded.rest);
    FoldInputs(inputs);
    WitnessAmount(inputs);
    ConcludeSound(key, tx, folded.value, folded.rest, review);
    InputsGathered(inputs, review);
  }

  lemma WitnessAmount(inputs: seq<Field>)
    requires InputsAllowed(inputs)
    ensures Gathered(inputs).utxo.Some? ==> |Gathered(inputs).utxo.value.0| == 8
  {
    if Gathered(inputs).utxo.Some? {
      var utxo := Gathered(inputs).utxo.value;
      ParseWitnessUtxoIff(Last(inputs, WitnessUtxo).value.value, utxo.0, utxo.1);
    }
  }

  lemma ParseInputsComplete(key: KeyTarget, review: P2wpkhReview, inputs: seq<Field>)
    requires ReviewHolds(key, review) && InputsHold(inputs, review)
    ensures ParseInputs(key, review.tx, MapBytes(inputs) + [0]) == Ok(review)
  {
    FoldMapOfBytes(inputs, [0], INPUT_START, InputStep);
    InputsFolded(inputs, review);
    ConcludeComplete(key, review, FoldFields(inputs, INPUT_START, InputStep).value);
  }

  lemma ConcludeComplete(key: KeyTarget, review: P2wpkhReview, state: InputState)
    requires ReviewHolds(key, review) && review.inputAmount < Pow256(8) && state.sighash == SIGHASH_ALL
    requires state.utxo == Some((FixedLE(review.inputAmount, 8), review.inputProgram))
    requires state.pubkey == review.psbtPubkey
    ensures Conclude(key, review.tx, state, [0]) == Ok(review)
  {
    NoOutputs();
    FromFixedLE(review.inputAmount, 8);
  }

  /** A PSBT of allowed maps that shows no payable transaction is refused by name: for
      another sighash type, then without a spent output, then for spending more than it. */
  lemma UnpayableIsNamed(key: KeyTarget, tx: ParsedTransaction, globals: seq<Field>, inputs: seq<Field>)
    requires tx.Valid() && Framable(globals) && GlobalsHold(globals, tx.Unsigned())
    requires Framable(inputs) && InputsAllowed(inputs)
    ensures var g, result := Gathered(inputs), ParsePsbt(key, MAGIC + (MapBytes(globals) + (MapBytes(inputs) + [0])));
            && (g.sighash != 1 ==> result == Err(UnsupportedSighash))
            && (g.sighash == 1 && g.utxo == None ==> result == Err(MissingWitnessUtxo))
            && (g.sighash == 1 && g.utxo.Some? && FromLE(g.utxo.value.0) < tx.OutputAmount() ==>
                  result == Err(FeeUnderflow))
  {
    var rest := MapBytes(inputs) + [0];
    TakeIff(MAGIC + (MapBytes(globals) + rest), MAGIC, MapBytes(globals) + rest);
    FoldMapOfBytes(globals, rest, None, GlobalStep);
    FoldGlobals(globals, tx.Unsigned());
    ParseUnsignedIff(tx.Unsigned(), tx);
    FoldMapOfBytes(inputs, [0], INPUT_START, InputStep);
    FoldInputs(inputs);
    NoOutputs();
  }

  lemma NoOutputs()
    ensures TakeCompactSize([0]) == Ok(Read(0, []))
  {
    assert [0] + [] == [0];
    SmallCompactSize([0], 0, []);
  }

  lemma InputsFolded(inputs: seq<Field>, review: P2wpkhReview)
    requires InputsHold(inputs, review)
    ensures var folded := FoldFields(inputs, INPUT_START, InputStep);
            && folded.Ok? && folded.value.sighash == SIGHASH_ALL
            && folded.value.utxo == Some((FixedLE(review.inputAmount, 8), review.inputProgram))
            && folded.value.pubkey == review.psbtPubkey
  {
    FoldInputs(inputs);
    InputsGathered(inputs, review);
  }

  /** Parsing succeeds with a review exactly when the bytes are two serialized maps
      and an empty one behind the magic, with one unsigned transaction, one witness
      UTXO, permitted fields, a last sighash of ALL, and amounts that balance. */
  lemma ParsePsbtIff(key: KeyTarget, psbt: bytes, review: P2wpkhReview)
    ensures ParsePsbt(key, psbt) == Ok(review) <==> IsPsbtOf(psbt, key, review)
  {
    if ParsePsbt(key, psbt) == Ok(review) {
      ParsePsbtSound(key, psbt, review);
    }
    if IsPsbtOf(psbt, key, review) {
      var globals, inputs :| DescribesPsbt(psbt, key, review, globals, inputs);
      ParsePsbtComplete(key, psbt, review, globals, inputs);
    }
  }

  lemma ParsePsbtSound(key: KeyTarget, psbt: bytes, review: P2wpkhReview)
    requires ParsePsbt(key, psbt) == Ok(review)
    ensures IsPsbtOf(psbt, key, review)
  {
    var body := Take(psbt, 5).value.rest;
    var folded := FoldMap(body, None, GlobalStep).value;
    var raw := folded.value.value;
    var globals := FoldMapIsBytes(body, None, GlobalStep, folded.value, folded.rest);
    FoldGlobals(globals, raw);
    var tx := ParseUnsigned(raw).value;
    ParseUnsignedIff(raw, tx);
    var inputs := ParseInputsSound(key, tx, folded.rest, review);
    assert DescribesPsbt(psbt, key, review, globals, inputs);
  }

  lemma ParsePsbtComplete(key: KeyTarget, psbt: bytes, review: P2wpkhReview, globals: seq<Field>, inputs: seq<Field>)
    requires DescribesPsbt(psbt, key, review, globals, inputs)
    ensures ParsePsbt(key, psbt) == Ok(review)
  {
    var rest := MapBytes(inputs) + [0];
    var raw := review.tx.Unsigned();
    TakeIff(psbt, MAGIC, MapBytes(globals) + rest);
    FoldMapOfBytes(globals, rest, None, GlobalStep);
    FoldGlobals(globals, raw);
    ParseUnsignedIff(raw, review.tx);
    ParseInputsComplete(key, review, inputs);
  }

  /** The PSBT with nothing but the unsigned transaction and the spent output. */
  function PlainPsbt(tx: ParsedTransaction, inputAmount: nat, inputProgram: bytes): bytes
    requires tx.Valid() && |inputProgram| == 20
  {
    MAGIC + (MapBytes([Field([0x00], tx.Unsigned())])
             + (MapBytes([Field([0x01], FixedLE(inputAmount, 8) + ProgramBytes(inputProgram))]) + [0]))
  }

  /** Its bytes (BIP 174, "Specification"): the magic, the map of the unsigned transaction,
      the map of the spent output, and the empty map of the output. */
  lemma PlainPsbtBytes(tx: ParsedTransaction, inputAmount: nat, inputProgram: bytes)
    requires tx.Valid() && |inputProgram| == 20
    ensures PlainPsbt(tx, inputAmount, inputProgram)
         == [0x70, 0x73, 0x62, 0x74, 0xff] + ([1, 0x00, 82] + tx.Unsigned() + [0])
            + ([1, 0x01, 31] + (FixedLE(inputAmount, 8) + [22, 0x00, 0x14] + inputProgram) + [0]) + [0]
  {
    var raw, utxo := tx.Unsigned(), FixedLE(inputAmount, 8) + ProgramBytes(inputProgram);
    assert |raw| == 82 by {
      UnsignedPlaces(tx);
    }
    SingleField(0x00, raw);
    SingleField(0x01, utxo);
    assert utxo == FixedLE(inputAmount, 8) + [22, 0x00, 0x14] + inputProgram;
    Assoc4(MAGIC, MapBytes([Field([0x00], raw)]), MapBytes([Field([0x01], utxo)]), [0]);
  }

  lemma SingleField(key: byte, value: bytes)
    requires |value| < 0xfd
    ensures MapBytes([Field([key], value)]) == [1, key, |value|] + value + [0]
  {
    var f := Field([key], value);
    assert [f][1..] == [];
    assert Counted([key]) == [1, key] && Counted(value) == [|value|] + value;
  }

  /** Every transaction that does not spend more than its input has a PSBT that is
      accepted, with a review that shows it. */
  lemma PlainPsbtIsAccepted(key: KeyTarget, tx: ParsedTransaction, inputAmount: nat, inputProgram: bytes)
    requires tx.Valid() && |inputProgram| == 20 && tx.OutputAmount() <= inputAmount < Pow256(8)
    ensures ParsePsbt(key, PlainPsbt(tx, inputAmount, inputProgram))
         == Ok(P2wpkhReview(key, inputAmount, tx.OutputAmount(), inputAmount - tx.OutputAmount(), inputProgram,
                            tx.outputProgram, tx, None))
  {
    var review := P2wpkhReview(key, inputAmount, tx.OutputAmount(), inputAmount - tx.OutputAmount(), inputProgram,
                               tx.outputProgram, tx, None);
    var unsigned := Field([0x00], tx.Unsigned());
    var utxo := Field([0x01], FixedLE(inputAmount, 8) + ProgramBytes(inputProgram));
    assert [unsigned][0] == unsigned && [utxo][0] == utxo;
    ParseWitnessUtxoIff(utxo.value, FixedLE(inputAmount, 8), inputProgram);
    assert [utxo][..0] == [];
    assert InputsHold([utxo], review);
    ParsePsbtComplete(key, PlainPsbt(tx, inputAmount, inputProgram), review, [unsigned], [utxo]);
  }
}
