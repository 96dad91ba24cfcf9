/**
 Egress features, the cache of egress schemas, and the serialization of a request's features
 into the payload (services/bidding_service).

 A feature object is mutable: a request sets the values of its own copies and then serializes
 them.  The cache therefore hands out fresh, unset copies, and a request never writes to the
 objects the cache holds.
 */
module EgressFeatures {
  import opened Results
  import opened EgressNumbers

  const UINT32_RANGE: nat := 0x1_0000_0000
  const INT32_MAX: nat := 0x7FFF_FFFF

  const FEATURE_TYPES: seq<string> := [
    "boolean-feature", "signed-integer-feature", "unsigned-integer-feature", "bucket-feature", "histogram-feature"]

  /**
   A value object of the payload: the type it names and the bits the feature makes of it (or the
   reason why it cannot be represented).
   */
  datatype FeatureValue = FeatureValue(typeName: string, encoding: Result<seq<bool>>)

  class EgressFeature {
    const typeName: string
    const size: nat
    var isValueSet: bool
    var value: FeatureValue

    constructor (typeName: string, size: nat)
      ensures this.typeName == typeName && this.size == size && !isValueSet
    {
      this.typeName := typeName;
      this.size := size;
      isValueSet := false;
      value := FeatureValue(typeName, Success([]));
    }

    /** The bits of the feature, all zero when no value has been set. */
    function Serialized(): (r: Result<seq<bool>>)
      reads this
      ensures !isValueSet ==> r.Success? && |r.value| == size && forall i :: 0 <= i < size ==> !r.value[i]
    {
      if isValueSet then value.encoding else Success(Zeros(size))
    }

    /** Stores the value unless it is of another type than the schema asks for. */
    method SetValue(v: FeatureValue) returns (ok: bool)
      requires !isValueSet
      modifies this
      ensures ok <==> v.typeName == typeName
      ensures ok ==> isValueSet && value == v
      ensures !ok ==> unchanged(this)
    {
      if v.typeName != typeName {
        return false;
      }
      value := v;
      isValueSet := true;
      return true;
    }

    /** A copy has the schema of the original but no value. */
    method Copy() returns (copy: EgressFeature)
      ensures fresh(copy)
      ensures copy.typeName == typeName && copy.size == size && !copy.isValueSet
    {
      copy := new EgressFeature(typeName, size);
    }
  }

  function Zeros(n: nat): (bits: seq<bool>)
    ensures |bits| == n && forall i :: 0 <= i < n ==> !bits[i]
  {
    seq(n, i => false)
  }

  // ----- schemas, as values -----

  datatype FeatureSpec = FeatureSpec(typeName: string, size: nat)

  datatype SchemaSpec = SchemaSpec(version: nat, features: seq<FeatureSpec>)

  function SpecOf(features: seq<EgressFeature>): (specs: seq<FeatureSpec>)
    ensures |specs| == |features|
    ensures forall i :: 0 <= i < |features| ==> specs[i] == FeatureSpec(features[i].typeName, features[i].size)
  {
    seq(|features|, i requires 0 <= i < |features| => FeatureSpec(features[i].typeName, features[i].size))
  }

  function TotalSize(specs: seq<FeatureSpec>): nat {
    if specs == [] then 0 else TotalSize(specs[..|specs| - 1]) + specs[|specs| - 1].size
  }

  /** The 32-bit total the serializer computes. */
  function WrappedSize(specs: seq<FeatureSpec>): nat {
    TotalSize(specs) % UINT32_RANGE
  }

  /** The bytes allocated for a total: rounded up to a multiple of eight, in 32 bits, and divided by eight. */
  function ByteCount(size: nat): (n: nat)
    requires size < UINT32_RANGE
    ensures size <= UINT32_RANGE - 8 ==> 8 * n - 8 < size <= 8 * n
    ensures size > UINT32_RANGE - 8 ==> n == 0
  {
    (if size % 8 != 0 then (size / 8 + 1) * 8 % UINT32_RANGE else size) / 8
  }

  /** Does a total of this size lead to a payload, rather than to none? */
  predicate Packs(specs: seq<FeatureSpec>, bitLimit: nat) {
    0 < WrappedSize(specs) <= bitLimit
  }

  /** The true total survives the 32-bit arithmetic, if a payload is packed at all. */
  predicate SizesFit(specs: seq<FeatureSpec>, bitLimit: nat) {
    Packs(specs, bitLimit) ==> TotalSize(specs) <= UINT32_RANGE - 8
  }

  /** That is exactly when the allocated bytes can hold the declared bits. */
  lemma SizesFitIff(specs: seq<FeatureSpec>, bitLimit: nat)
    requires Packs(specs, bitLimit)
    ensures SizesFit(specs, bitLimit) <==> TotalSize(specs) <= 8 * ByteCount(WrappedSize(specs))
  {
    RemainderBelow(TotalSize(specs));
  }

  lemma RemainderBelow(total: nat)
    ensures total < UINT32_RANGE ==> total % UINT32_RANGE == total
    ensures total >= UINT32_RANGE ==> total % UINT32_RANGE + UINT32_RANGE <= total
  {
  }

  // ----- what the serializer computes -----

  /** All the fields, or the first error. */
  function CollectFields(outcomes: seq<Result<seq<bool>>>): Result<seq<seq<bool>>> {
    if outcomes == [] then Success([])
    else
      match outcomes[0]
      case Failure(e) => Failure(e)
      case Success(f) =>
        match CollectFields(outcomes[1..])
        case Failure(e) => Failure(e)
        case Success(fields) => Success([f] + fields)
  }

  lemma CollectNone()
    ensures CollectFields([]) == Success([])
  {
  }

  lemma {:induction false} CollectFieldsAppend(outcomes: seq<Result<seq<bool>>>, next: Result<seq<bool>>)
    ensures CollectFields(outcomes + [next]) ==
            match CollectFields(outcomes)
            case Failure(e) => Failure(e)
            case Success(fields) =>
              match next
              case Failure(e) => Failure(e)
              case Success(f) => Success(fields + [f])
  {
    if outcomes == [] {
      assert outcomes + [next] == [next];
      assert [next][1..] == [];
      if next.Success? {
        assert [next.value] + [] == [] + [next.value];
      }
    } else {
      assert (outcomes + [next])[1..] == outcomes[1..] + [next];
      CollectFieldsAppend(outcomes[1..], next);
      if outcomes[0].Success? && CollectFields(outcomes[1..]).Success? && next.Success? {
        var f, fields := outcomes[0].value, CollectFields(outcomes[1..]).value;
        assert [f] + (fields + [next.value]) == ([f] + fields) + [next.value];
      }
    }
  }

  /** The fields are the values of all outcomes, and the error is that of the first one that has no value. */
  lemma {:induction false} CollectFieldsMeaning(outcomes: seq<Result<seq<bool>>>)
    ensures CollectFields(outcomes).Success? ==>
              && |CollectFields(outcomes).value| == |outcomes|
              && forall i :: 0 <= i < |outcomes| ==> outcomes[i] == Success(CollectFields(outcomes).value[i])
    ensures CollectFields(outcomes).Failure? ==> FirstFailure(outcomes, CollectFields(outcomes).error)
  {
    if outcomes != [] && outcomes[0].Success? {
      CollectFieldsMeaning(outcomes[1..]);
      if CollectFields(outcomes[1..]).Failure? {
        var e := CollectFields(outcomes[1..]).error;
        var i :| 0 <= i < |outcomes[1..]| && outcomes[1..][i] == Failure(e) && forall j :: 0 <= j < i ==> outcomes[1..][j].Success?;
        assert outcomes[i + 1] == Failure(e);
        forall j | 0 <= j < i + 1
          ensures outcomes[j].Success?
        {
          assert j > 0 ==> outcomes[1..][j - 1] == outcomes[j];
        }
      }
    }
  }

  ghost predicate FirstFailure(outcomes: seq<Result<seq<bool>>>, error: string) {
    exists i :: 0 <= i < |outcomes| && outcomes[i] == Failure(error) && forall j :: 0 <= j < i ==> outcomes[j].Success?
  }

  lemma {:induction false} CollectFieldsFails(outcomes: seq<Result<seq<bool>>>, i: nat)
    requires i <= |outcomes| && CollectFields(outcomes[..i]).Failure?
    ensures CollectFields(outcomes) == CollectFields(outcomes[..i])
  {
    if i > 0 {
      assert outcomes[..i][1..] == outcomes[1..][..i - 1];
      assert outcomes[..i][0] == outcomes[0];
      if outcomes[0].Success? {
        CollectFieldsFails(outcomes[1..], i - 1);
      }
    }
  }

  /** The fields before the first error. */
  function FieldsBefore(outcomes: seq<Result<seq<bool>>>): seq<seq<bool>> {
    if outcomes == [] || outcomes[0].Failure? then [] else [outcomes[0].value] + FieldsBefore(outcomes[1..])
  }

  lemma {:induction false} FieldsBeforeAll(outcomes: seq<Result<seq<bool>>>)
    ensures CollectFields(outcomes).Success? ==> FieldsBefore(outcomes) == CollectFields(outcomes).value
  {
    if outcomes != [] && outcomes[0].Success? {
      FieldsBeforeAll(outcomes[1..]);
    }
  }

  /** Fields collected so far are the first ones before the error. */
  lemma {:induction false} FieldsBeforePrefix(outcomes: seq<Result<seq<bool>>>, i: nat)
    requires i <= |outcomes| && CollectFields(outcomes[..i]).Success?
    ensures CollectFields(outcomes[..i]).value <= FieldsBefore(outcomes)
    ensures i < |outcomes| && outcomes[i].Failure? ==> CollectFields(outcomes[..i]).value == FieldsBefore(outcomes)
  {
    if i > 0 {
      assert outcomes[..i][1..] == outcomes[1..][..i - 1];
      assert outcomes[..i][0] == outcomes[0];
      FieldsBeforePrefix(outcomes[1..], i - 1);
    }
  }

  /** A bit that is set lies beyond the first `n` bytes of the stream. */
  ghost predicate SetBeyond(stream: seq<bool>, n: nat) {
    exists p :: 8 * n <= p < |stream| && stream[p]
  }

  lemma SetBeyondPrefix(short: seq<bool>, long: seq<bool>, n: nat)
    requires short <= long && SetBeyond(short, n)
    ensures SetBeyond(long, n)
  {
    var p :| 8 * n <= p < |short| && short[p];
    assert long[p];
  }

  /** Packing into `n` bytes writes outside of them. */
  ghost predicate Overruns(outcomes: seq<Result<seq<bool>>>, n: nat) {
    SetBeyond(StreamOfFields(FieldsBefore(outcomes)), n)
  }

  /** `OutOfBounds`: the source writes outside its array, which has no defined outcome. */
  datatype Packing = OutOfBounds | Finished(result: Result<seq<byte>>)

  /** The payload as a function of the schema version, the features' outcomes, and their sizes. */
  ghost function PayloadOf(
    version: nat, outcomes: seq<Result<seq<bool>>>, specs: seq<FeatureSpec>, bitLimit: nat): Packing
  {
    if !Packs(specs, bitLimit) then Finished(Success([]))
    else
      var n := ByteCount(WrappedSize(specs));
      if Overruns(outcomes, n) then OutOfBounds
      else
        match CollectFields(outcomes)
        case Failure(e) => Finished(Failure(e))
        case Success(fields) => Finished(Success(Encode(version, n, fields)))
  }

  /** The payload bytes are the number of the stream as long as no bit is set beyond them. */
  lemma PayloadValue(version: nat, n: nat, fields: seq<seq<bool>>)
    requires !SetBeyond(StreamOfFields(fields), n)
    ensures BigEndian(Encode(version, n, fields)[..n]) == StreamValue(StreamOfFields(fields))
  {
    var stream := StreamOfFields(fields);
    hide StreamOfFields, BigEndian, Header;
    assert Encode(version, n, fields)[..n] == BytesOf(StreamValue(stream), n);
    ValueWithin(stream, n);
    BigEndianOfBytes(StreamValue(stream), n);
  }

  lemma {:induction false} ValueWithin(stream: seq<bool>, n: nat)
    requires !SetBeyond(stream, n)
    ensures StreamValue(stream) < Pow2(8 * n)
  {
    if |stream| <= 8 * n {
      Pow2Monotonic(|stream|, 8 * n);
    } else {
      var last := |stream| - 1;
      assert !stream[last];
      forall p | 8 * n <= p < last
        ensures !stream[..last][p]
      {
        assert !stream[p];
      }
      ValueWithin(stream[..last], n);
      StreamValueAppendBit(stream[..last], false);
      assert stream == stream[..last] + [false];
    }
  }
  /**
   Nothing is packed for a 32-bit total of zero or above the limit.  Otherwise a payload has the bytes for that total,
   which as a number are the fields in mixed radix, and the version in the upper three bits of one more; an error
   is that of the first feature without a value.
   */
  lemma PayloadMeaning(
    version: nat, outcomes: seq<Result<seq<bool>>>, specs: seq<FeatureSpec>, bitLimit: nat, fields: seq<seq<bool>>)
    ensures
      var total := TotalSize(specs) % 0x1_0000_0000;
      var payload := PayloadOf(version, outcomes, specs, bitLimit);
      && (total == 0 || total > bitLimit ==> payload == Finished(Success([])))
      && (0 < total <= bitLimit && payload.Finished? && payload.result.Success? ==>
          && PayloadLayout(version, total, payload.result.value)
          && (forall i :: 0 <= i < |outcomes| ==> outcomes[i].Success?)
          && (|fields| == |outcomes| && (forall i :: 0 <= i < |fields| ==> outcomes[i] == Success(fields[i])) ==>
              BigEndian(payload.result.value[..|payload.result.value| - 1]) == MixedRadix(fields)))
      && (payload.Finished? && payload.result.Failure? ==> 0 < total <= bitLimit && FirstFailure(outcomes, payload.result.error))
      && (payload.OutOfBounds? ==> 0 < total <= bitLimit)
  {
    hide Overruns, Encode, Header, ByteCount, BigEndian, MixedRadix;
    CollectFieldsMeaning(outcomes);
    if Packs(specs, bitLimit) && CollectFields(outcomes).Success? {
      var n, collected := ByteCount(WrappedSize(specs)), CollectFields(outcomes).value;
      HeaderVersion(version);
      EncodeParts(version, n, collected);
      assert |fields| == |outcomes| && (forall i :: 0 <= i < |fields| ==> outcomes[i] == Success(fields[i])) ==> fields == collected;
      if !Overruns(outcomes, n) {
        FieldsBeforeAll(outcomes);
        PayloadNumberWithin(version, n, outcomes);
      }
    }
  }

  /** The bytes of a payload for this many bits: as few as hold them, and the header after them. */
  ghost predicate PayloadLayout(version: nat, total: nat, bytes: seq<byte>) {
    && bytes != []
    && bytes[|bytes| - 1] == version % 8 * 32
    && (total <= 0xFFFF_FFF8 ==> 8 * (|bytes| - 2) < total <= 8 * (|bytes| - 1))
    && (total > 0xFFFF_FFF8 ==> |bytes| == 1)
  }

  lemma EncodeParts(version: nat, n: nat, fields: seq<seq<bool>>)
    ensures |Encode(version, n, fields)| == n + 1 && Encode(version, n, fields)[n] == Header(version)
  {
  }

  lemma PayloadNumberWithin(version: nat, n: nat, outcomes: seq<Result<seq<bool>>>)
    requires CollectFields(outcomes).Success? && !Overruns(outcomes, n)
    ensures var fields := CollectFields(outcomes).value;
            BigEndian(Encode(version, n, fields)[..n]) == MixedRadix(fields)
  {
    FieldsBeforeAll(outcomes);
    PayloadValue(version, n, CollectFields(outcomes).value);
    MixedRadixOfStream(CollectFields(outcomes).value);
  }

  function Outcomes(features: seq<EgressFeature>): (outcomes: seq<Result<seq<bool>>>)
    reads features
    ensures |outcomes| == |features|
    ensures forall i :: 0 <= i < |features| ==> outcomes[i] == features[i].Serialized()
  {
    if features == [] then [] else [features[0].Serialized()] + Outcomes(features[1..])
  }

  // ----- packing -----

  /** The bits packed so far: whole fields, and the low end of the field being packed. */
  ghost function Packed(fields: seq<seq<bool>>, low: seq<bool>): seq<bool> {
    StreamOfFields(fields) + Reverse(low)
  }

  lemma PackedGrows(fields: seq<seq<bool>>, field: seq<bool>, m: nat)
    requires 0 < m <= |field|
    ensures Packed(fields, field[m - 1..]) == Packed(fields, field[m..]) + [field[m - 1]]
  {
    assert field[m - 1..][1..] == field[m..];
  }

  /**
   The state of the packing loop: where the next bit goes and what the bytes stand for so far.  The index
   may have left the array, as long as no bit had to be set out there.
   */
  ghost predicate PackState(bytes: seq<byte>, idx: int, pos: nat, packed: seq<bool>) {
    && idx < |bytes| && pos <= 8
    && |packed| == 8 * (|bytes| - 1 - idx) + pos
    && BigEndian(bytes) == StreamValue(packed)
    && (0 <= idx ==> bytes[idx] < Pow2(pos))
    && (forall j :: 0 <= j < idx ==> bytes[j] == 0)
    && !SetBeyond(packed, |bytes|)
  }

  lemma Pow2InByte(pos: nat)
    requires pos < 8
    ensures Pow2(pos) + Pow2(pos) <= 256
  {
    assert Pow2(8) == 256 by { Pow2Byte(0); }
    Pow2Monotonic(pos + 1, 8);
  }

  lemma PackStart(bytes: seq<byte>)
    requires forall i :: 0 <= i < |bytes| ==> bytes[i] == 0
    ensures PackState(bytes, |bytes| - 1, 0, StreamOfFields([]))
  {
    BigEndianOfZeros(bytes);
  }

  lemma PackEnd(bytes: seq<byte>, idx: int, pos: nat, packed: seq<bool>)
    requires PackState(bytes, idx, pos, packed)
    ensures bytes == BytesOf(StreamValue(packed), |bytes|)
  {
    BytesOfBigEndian(bytes);
  }

  /** Moving on to the next byte when the current one is full keeps the state. */
  lemma PackAdvance(bytes: seq<byte>, idx: int, pos: nat, packed: seq<bool>)
    requires PackState(bytes, idx, pos, packed)
    ensures pos == 8 ==> PackState(bytes, idx - 1, 0, packed)
    ensures pos > 0 && pos % 8 == 0 <==> pos == 8
  {
  }

  /** Within the array a bit is appended to the stream; outside it, a clear bit is harmless and a set one an overrun. */
  lemma PackStep(bytes: seq<byte>, idx: int, pos: nat, packed: seq<bool>, bit: bool)
    requires PackState(bytes, idx, pos, packed) && pos < 8
    ensures idx < |bytes|
    ensures 0 <= idx ==> OrBit(bytes[idx], pos) < 256
    ensures 0 <= idx && bit ==> PackState(bytes[idx := OrBit(bytes[idx], pos)], idx, pos + 1, packed + [bit])
    ensures !bit ==> PackState(bytes, idx, pos + 1, packed + [bit])
    ensures idx < 0 && bit ==> SetBeyond(packed + [bit], |bytes|)
  {
    if 0 <= idx {
      Pow2InByte(pos);
      BigEndianSetBit(bytes, idx, pos);
    }
    StreamValueAppendBit(packed, bit);
    AppendWithin(packed, bit, |bytes|);
  }

  lemma AppendWithin(packed: seq<bool>, bit: bool, n: nat)
    ensures SetBeyond(packed + [bit], n) <==> SetBeyond(packed, n) || (bit && |packed| >= 8 * n)
  {
    if SetBeyond(packed, n) {
      SetBeyondPrefix(packed, packed + [bit], n);
    }
    assert (packed + [bit])[|packed|] == bit;
  }

  /** Packs one field below which `fields` have been packed already, unless that sets a bit outside the array. */
  method PackField(bytesArray: array<byte>, idx: int, pos: nat, field: seq<bool>, ghost fields: seq<seq<bool>>)
    returns (inBounds: bool, bytesArrayIdx: int, bitPosition: nat)
    requires PackState(bytesArray[..], idx, pos, StreamOfFields(fields))
    modifies bytesArray
    ensures inBounds <==> !SetBeyond(StreamOfFields(fields + [field]), bytesArray.Length)
    ensures inBounds ==> PackState(bytesArray[..], bytesArrayIdx, bitPosition, StreamOfFields(fields + [field]))
  {
    hide PackState, StreamValue, BigEndian, OrBit, Pow2, Reverse, StreamOfFields, SetBeyond;
    bytesArrayIdx, bitPosition := idx, pos;
    PackedNone(fields, field);
    var m := |field|;
    while m > 0
      invariant 0 <= m <= |field|
      invariant PackState(bytesArray[..], bytesArrayIdx, bitPosition, Packed(fields, field[m..]))
    {
      PackPosition(bytesArray[..], bytesArrayIdx, bitPosition, Packed(fields, field[m..]));
      PackAdvance(bytesArray[..], bytesArrayIdx, bitPosition, Packed(fields, field[m..]));
      if bitPosition > 0 && bitPosition % 8 == 0 {
        bitPosition := 0;
        bytesArrayIdx := bytesArrayIdx - 1;
      }
      ghost var before := bytesArray[..];
      PackStep(before, bytesArrayIdx, bitPosition, Packed(fields, field[m..]), field[m - 1]);
      PackedGrows(fields, field, m);
      if field[m - 1] {
        if bytesArrayIdx < 0 {
          PackedPrefix(fields, field, m - 1);
          SetBeyondPrefix(Packed(fields, field[m - 1..]), StreamOfFields(fields + [field]), bytesArray.Length);
          return false, bytesArrayIdx, bitPosition;
        }
        bytesArray[bytesArrayIdx] := OrBit(bytesArray[bytesArrayIdx], bitPosition);
        assert bytesArray[..] == before[bytesArrayIdx := OrBit(before[bytesArrayIdx], bitPosition)];
      }
      bitPosition := bitPosition + 1;
      m := m - 1;
    }
    PackedAll(fields, field);
    PackPosition(bytesArray[..], bytesArrayIdx, bitPosition, StreamOfFields(fields + [field]));
    inBounds := true;
  }

  lemma PackPosition(bytes: seq<byte>, idx: int, pos: nat, packed: seq<bool>)
    requires PackState(bytes, idx, pos, packed)
    ensures pos <= 8 && !SetBeyond(packed, |bytes|)
  {
  }

  lemma PackedPrefix(fields: seq<seq<bool>>, field: seq<bool>, m: nat)
    requires m <= |field|
    ensures Packed(fields, field[m..]) <= StreamOfFields(fields + [field])
  {
    assert field == field[..m] + field[m..];
    ReverseConcat(field[..m], field[m..]);
    StreamOfFieldsAppend(fields, field);
  }

  lemma PackedNone(fields: seq<seq<bool>>, field: seq<bool>)
    ensures Packed(fields, field[|field|..]) == StreamOfFields(fields)
  {
  }

  lemma PackedAll(fields: seq<seq<bool>>, field: seq<bool>)
    ensures Packed(fields, field[0..]) == StreamOfFields(fields + [field])
  {
    assert field[0..] == field;
    StreamOfFieldsAppend(fields, field);
  }

  /** The 32-bit sum of the feature sizes. */
  method SumSizes(features: seq<EgressFeature>) returns (totalSize: nat)
    ensures totalSize == WrappedSize(SpecOf(features))
  {
    ghost var specs := SpecOf(features);
    totalSize := 0;
    for i := 0 to |features|
      invariant totalSize == TotalSize(specs[..i]) % UINT32_RANGE
    {
      totalSize := (totalSize + features[i].size) % UINT32_RANGE;
      assert specs[..i + 1][..i] == specs[..i];
    }
    assert specs[..|features|] == specs;
  }

  ghost function PackedBytes(outcomes: seq<Result<seq<bool>>>, n: nat): Packing {
    if Overruns(outcomes, n) then OutOfBounds
    else
      match CollectFields(outcomes)
      case Failure(e) => Finished(Failure(e))
      case Success(fields) => Finished(Success(BytesOf(StreamValue(StreamOfFields(fields)), n)))
  }

  /** Packs every feature into `n` bytes, or stops at the first one that cannot be serialized or overruns them. */
  method PackFeatures(features: seq<EgressFeature>, n: nat) returns (r: Packing)
    ensures r == PackedBytes(Outcomes(features), n)
  {
    hide PackState, BytesOf, StreamValue, StreamOfFields, TotalBits, CollectFields, FieldsBefore, SetBeyond, Overruns, Outcomes;
    CollectNone();
    ghost var outcomes := Outcomes(features);
    var bytesArray := new byte[n](_ => 0);
    var bytesArrayIdx, bitPosition := n - 1, 0;
    ghost var fields: seq<seq<bool>> := [];
    PackStart(bytesArray[..]);
    assert outcomes[..0] == [];
    for i := 0 to |features|
      invariant Outcomes(features) == outcomes
      invariant CollectFields(outcomes[..i]) == Success(fields)
      invariant PackState(bytesArray[..], bytesArrayIdx, bitPosition, StreamOfFields(fields))
    {
      var serialized := features[i].Serialized();
      NextField(outcomes, i, fields, n);
      PackPosition(bytesArray[..], bytesArrayIdx, bitPosition, StreamOfFields(fields));
      if serialized.Failure? {
        NoOverrun(outcomes, fields, n);
        return Finished(Failure(serialized.error));
      }
      var inBounds;
      inBounds, bytesArrayIdx, bitPosition := PackField(bytesArray, bytesArrayIdx, bitPosition, serialized.value, fields);
      if !inBounds {
        return OutOfBounds;
      }
      fields := fields + [serialized.value];
    }
    assert outcomes[..|features|] == outcomes;
    FieldsBeforeAll(outcomes);
    PackPosition(bytesArray[..], bytesArrayIdx, bitPosition, StreamOfFields(fields));
    NoOverrun(outcomes, fields, n);
    PackEnd(bytesArray[..], bytesArrayIdx, bitPosition, StreamOfFields(fields));
    return Finished(Success(bytesArray[..]));
  }

  lemma NoOverrun(outcomes: seq<Result<seq<bool>>>, fields: seq<seq<bool>>, n: nat)
    requires fields == FieldsBefore(outcomes) && !SetBeyond(StreamOfFields(fields), n)
    ensures !Overruns(outcomes, n)
  {
  }

  lemma NextField(outcomes: seq<Result<seq<bool>>>, i: nat, fields: seq<seq<bool>>, n: nat)
    requires i < |outcomes| && CollectFields(outcomes[..i]) == Success(fields)
    ensures outcomes[i].Failure? ==>
              CollectFields(outcomes) == Failure(outcomes[i].error) && fields == FieldsBefore(outcomes)
    ensures outcomes[i].Success? ==>
              && CollectFields(outcomes[..i + 1]) == Success(fields + [outcomes[i].value])
              && (SetBeyond(StreamOfFields(fields + [outcomes[i].value]), n) ==> Overruns(outcomes, n))
  {
    assert outcomes[..i + 1] == outcomes[..i] + [outcomes[i]];
    CollectFieldsAppend(outcomes[..i], outcomes[i]);
    if outcomes[i].Failure? {
      CollectFieldsFails(outcomes, i + 1);
      FieldsBeforePrefix(outcomes, i);
    } else {
      FieldsBeforePrefix(outcomes, i + 1);
      StreamPrefix(fields + [outcomes[i].value], FieldsBefore(outcomes));
      if SetBeyond(StreamOfFields(fields + [outcomes[i].value]), n) {
        SetBeyondPrefix(StreamOfFields(fields + [outcomes[i].value]), StreamOfFields(FieldsBefore(outcomes)), n);
      }
    }
  }

  lemma {:induction false} StreamPrefix(short: seq<seq<bool>>, long: seq<seq<bool>>)
    requires short <= long
    ensures StreamOfFields(short) <= StreamOfFields(long)
  {
    if short != [] {
      assert short[0] == long[0];
      assert short[1..] <= long[1..];
      StreamPrefix(short[1..], long[1..]);
    }
  }

  /** A payload is the packed bytes and the header, when there is anything to pack within the limit. */
  lemma PayloadSteps(version: nat, outcomes: seq<Result<seq<bool>>>, specs: seq<FeatureSpec>, bitLimit: nat)
    ensures var payload, total := PayloadOf(version, outcomes, specs, bitLimit), WrappedSize(specs);
            payload ==
              if total == 0 || total > bitLimit then Finished(Success([]))
              else
                var packed := PackedBytes(outcomes, ByteCount(total));
                if packed.OutOfBounds? || packed.result.Failure? then packed
                else Finished(Success(packed.result.value + [Header(version)]))
  {
  }

  /**
   Packs the features into the payload, from the last byte backwards and within each byte from the
   least significant bit up, each feature's own last bit first.
   */
  method SerializeEgressFeatures(schemaVersion: nat, features: seq<EgressFeature>, egressBitLimit: nat)
    returns (r: Packing)
    ensures r == PayloadOf(schemaVersion, Outcomes(features), SpecOf(features), egressBitLimit)
    ensures
      var total := TotalSize(SpecOf(features)) % 0x1_0000_0000;
      && (total == 0 || total > egressBitLimit ==> r == Finished(Success([])))
      && (0 < total <= egressBitLimit && r.Finished? && r.result.Success? ==>
          PayloadLayout(schemaVersion, total, r.result.value)
          && forall i :: 0 <= i < |features| ==> features[i].Serialized().Success?)
      && (r.Finished? && r.result.Failure? ==>
          exists i :: 0 <= i < |features| && features[i].Serialized() == Failure(r.result.error)
                      && forall j :: 0 <= j < i ==> features[j].Serialized().Success?)
  {
    hide PayloadOf, PackedBytes, PayloadLayout, Outcomes, TotalSize, ByteCount, Header;
    PayloadSteps(schemaVersion, Outcomes(features), SpecOf(features), egressBitLimit);
    PayloadMeaning(schemaVersion, Outcomes(features), SpecOf(features), egressBitLimit, []);
    var totalSize := SumSizes(features);
    if totalSize == 0 {
      return Finished(Success([]));
    }
    if totalSize > egressBitLimit {
      return Finished(Success([]));
    }
    var payload := PackFeatures(features, ByteCount(totalSize));
    if payload.OutOfBounds? || payload.result.Failure? {
      return payload;
    }
    return Finished(Success(payload.result.value + [Header(schemaVersion)]));
  }

  // ----- when the payload is well defined -----

  function Sizes(specs: seq<FeatureSpec>): (sizes: seq<nat>)
    ensures |sizes| == |specs|
  {
    if specs == [] then [] else [specs[0].size] + Sizes(specs[1..])
  }

  /** Every serialized value has exactly the declared width, as the CDDL specification demands of schemas. */
  ghost predicate ExactSizes(outcomes: seq<Result<seq<bool>>>, specs: seq<FeatureSpec>) {
    |outcomes| == |specs| &&
    forall i :: 0 <= i < |outcomes| ==> outcomes[i].Success? ==> |outcomes[i].value| == specs[i].size
  }

  lemma {:induction false} TotalSizeFirst(specs: seq<FeatureSpec>)
    requires specs != []
    ensures TotalSize(specs) == specs[0].size + TotalSize(specs[1..])
  {
    var last := |specs| - 1;
    if last > 0 {
      TotalSizeFirst(specs[..last]);
      assert specs[..last][1..] == specs[1..][..last - 1];
    }
  }

  /** The widths of the values of a request are the sizes the schema declares. */
  lemma {:induction false} CollectedSizes(outcomes: seq<Result<seq<bool>>>, specs: seq<FeatureSpec>)
    requires ExactSizes(outcomes, specs)
    ensures CollectFields(outcomes).Success? ==>
              && Widths(CollectFields(outcomes).value) == Sizes(specs)
              && TotalBits(CollectFields(outcomes).value) == TotalSize(specs)
    ensures TotalBits(FieldsBefore(outcomes)) <= TotalSize(specs)
  {
    if outcomes != [] {
      TotalSizeFirst(specs);
      CollectedSizes(outcomes[1..], specs[1..]);
    }
  }

  /** The values of these sizes with every bit set. */
  function AllOnes(specs: seq<FeatureSpec>): seq<Result<seq<bool>>> {
    if specs == [] then [] else [Success(seq(specs[0].size, _ => true))] + AllOnes(specs[1..])
  }

  lemma {:induction false} AllOnesStream(specs: seq<FeatureSpec>)
    ensures ExactSizes(AllOnes(specs), specs) && CollectFields(AllOnes(specs)).Success?
    ensures var stream := StreamOfFields(FieldsBefore(AllOnes(specs)));
            |stream| == TotalSize(specs) && forall p :: 0 <= p < |stream| ==> stream[p]
  {
    if specs != [] {
      TotalSizeFirst(specs);
      AllOnesStream(specs[1..]);
      ReverseOnes(seq(specs[0].size, _ => true));
      var outcomes := AllOnes(specs);
      assert outcomes[1..] == AllOnes(specs[1..]);
      assert FieldsBefore(outcomes)[1..] == FieldsBefore(outcomes[1..]);
    }
  }

  lemma {:induction false} ReverseOnes(bits: seq<bool>)
    requires forall p :: 0 <= p < |bits| ==> bits[p]
    ensures forall p :: 0 <= p < |bits| ==> Reverse(bits)[p]
  {
    if bits != [] {
      ReverseOnes(bits[1..]);
    }
  }

  /**
   The packer stays inside its array for all values the schema allows exactly when the true total of the
   declared sizes survives the 32-bit arithmetic.
   */
  lemma InBoundsIff(specs: seq<FeatureSpec>, bitLimit: nat)
    requires Packs(specs, bitLimit)
    ensures (forall outcomes :: ExactSizes(outcomes, specs) ==> !Overruns(outcomes, ByteCount(WrappedSize(specs))))
       <==> SizesFit(specs, bitLimit)
  {
    var n := ByteCount(WrappedSize(specs));
    SizesFitIff(specs, bitLimit);
    if SizesFit(specs, bitLimit) {
      forall outcomes | ExactSizes(outcomes, specs)
        ensures !Overruns(outcomes, n)
      {
        CollectedSizes(outcomes, specs);
      }
    } else {
      AllOnesStream(specs);
      var stream := StreamOfFields(FieldsBefore(AllOnes(specs)));
      assert 8 * n <= |stream| - 1 && stream[|stream| - 1];
      assert Overruns(AllOnes(specs), n);
    }
  }

  /** The declared bits fit into the bytes allocated for them exactly under the same condition. */
  lemma FieldsFitIff(outcomes: seq<Result<seq<bool>>>, specs: seq<FeatureSpec>, bitLimit: nat)
    requires Packs(specs, bitLimit) && ExactSizes(outcomes, specs) && CollectFields(outcomes).Success?
    ensures TotalBits(CollectFields(outcomes).value) <= 8 * ByteCount(WrappedSize(specs)) <==> SizesFit(specs, bitLimit)
  {
    SizesFitIff(specs, bitLimit);
    CollectedSizes(outcomes, specs);
  }

  /**
   Two features of 2^31 bits and one of eight look like eight bits in all, get one byte, and setting the first bit
   of the last feature leaves the array.
   */
  lemma WrappedTotalOverruns(version: nat, typeName: string)
    ensures var wide := FeatureSpec(typeName, UINT32_RANGE / 2);
            var specs := [wide, wide, FeatureSpec(typeName, 8)];
            && TotalSize(specs) == UINT32_RANGE + 8 && WrappedSize(specs) == 8 && !SizesFit(specs, INT32_MAX)
            && exists outcomes :: ExactSizes(outcomes, specs) && PayloadOf(version, outcomes, specs, INT32_MAX) == OutOfBounds
  {
    var wide := FeatureSpec(typeName, UINT32_RANGE / 2);
    var specs := [wide, wide, FeatureSpec(typeName, 8)];
    assert specs[..2] == [wide, wide] && [wide, wide][..1] == [wide] && [wide][..0] == [];
    assert TotalSize([wide]) == UINT32_RANGE / 2;
    assert TotalSize([wide, wide]) == UINT32_RANGE;
    InBoundsIff(specs, INT32_MAX);
    var outcomes :| ExactSizes(outcomes, specs) && Overruns(outcomes, ByteCount(WrappedSize(specs)));
    assert PayloadOf(version, outcomes, specs, INT32_MAX) == OutOfBounds;
  }
}
