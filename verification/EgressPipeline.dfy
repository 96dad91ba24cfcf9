/**
 From the schema cache to the serialized payload of one request (services/bidding_service).

 The cache owns its feature objects.  Every request gets fresh copies, writes its values into
 them and serializes them, so nothing a request does can be seen by another one.
 */
module EgressPipeline {
  import opened Results
  import opened EgressNumbers
  import opened EgressFeatures

  // ----- documents, as the JSON library presents them -----

  datatype PayloadEntry = NotAnObject | Entry(value: FeatureValue)

  datatype PayloadDoc = NotJson | NoFeatureArray | Features(entries: seq<PayloadEntry>)

  datatype SchemaFeature = BadFeature | SchemaFeature(typeName: string, size: nat)

  datatype SchemaDoc =
    | MalformedSchema
    | SchemaDoc(version: Option<int>, cddlVersion: Option<string>, conforms: bool, features: Option<seq<SchemaFeature>>)

  datatype EgressSchemaData = EgressSchemaData(version: nat, features: seq<EgressFeature>)

  // ----- setting the values -----

  /** An entry can be stored in a feature if it is an object that names the type of the feature. */
  predicate EntryFits(entry: PayloadEntry, spec: FeatureSpec) {
    entry.Entry? && entry.value.typeName == spec.typeName
  }

  predicate EntriesFit(entries: seq<PayloadEntry>, specs: seq<FeatureSpec>) {
    |entries| == |specs| && forall i :: 0 <= i < |specs| ==> EntryFits(entries[i], specs[i])
  }

  predicate Accepts(doc: PayloadDoc, specs: seq<FeatureSpec>) {
    doc.Features? && EntriesFit(doc.entries, specs)
  }

  ghost predicate Unset(features: seq<EgressFeature>)
    reads features
  {
    forall f :: f in features ==> !f.isValueSet
  }

  ghost predicate Distinct(features: seq<EgressFeature>) {
    forall i, j :: 0 <= i < j < |features| ==> features[i] != features[j]
  }

  /** Entry `k` is the first one that does not fit, and exactly the entries before it were stored. */
  ghost predicate StoppedAt(entries: seq<PayloadEntry>, features: seq<EgressFeature>, k: int)
    requires |entries| == |features|
    reads features
  {
    && 0 <= k < |features|
    && (entries[k].Entry? ==> entries[k].value.typeName != features[k].typeName)
    && (forall i :: 0 <= i < k ==> entries[i].Entry? && entries[i].value.typeName == features[i].typeName)
    && (forall i :: 0 <= i < k ==> features[i].isValueSet && features[i].value == entries[i].value)
    && (forall i :: k <= i < |features| ==> !features[i].isValueSet)
  }

  /**
   Stores the values of the payload in the features, in order.  It stops at the first entry that
   does not fit; the features before that one keep the values already stored.
   */
  method PopulateValuesForEgressFeatures(doc: PayloadDoc, features: seq<EgressFeature>) returns (ok: bool)
    requires Unset(features) && Distinct(features)
    modifies features
    ensures ok <==> Accepts(doc, SpecOf(features))
    ensures ok <==> doc.Features? && |doc.entries| == |features|
                    && forall i :: 0 <= i < |features| ==> doc.entries[i].Entry? && doc.entries[i].value.typeName == features[i].typeName
    ensures ok ==> forall i :: 0 <= i < |features| ==> features[i].Serialized() == doc.entries[i].value.encoding
    ensures !ok && (!doc.Features? || |doc.entries| != |features|) ==> Unset(features)
    ensures !ok && doc.Features? && |doc.entries| == |features| ==> exists k :: StoppedAt(doc.entries, features, k)
  {
    if !doc.Features? {
      return false;
    }
    if |doc.entries| != |features| {
      return false;
    }
    for idx := 0 to |features|
      invariant forall i :: 0 <= i < idx ==> EntryFits(doc.entries[i], SpecOf(features)[i])
      invariant forall i :: 0 <= i < idx ==> features[i].isValueSet && features[i].value == doc.entries[i].value
      invariant forall i :: idx <= i < |features| ==> !features[i].isValueSet
    {
      if !doc.entries[idx].Entry? {
        assert StoppedAt(doc.entries, features, idx);
        return false;
      }
      var stored := features[idx].SetValue(doc.entries[idx].value);
      if !stored {
        assert StoppedAt(doc.entries, features, idx);
        return false;
      }
    }
    return true;
  }

  // ----- the schema cache -----

  /** The specs of a schema document, or none when some feature of it cannot be created. */
  function ExtractedSpecs(features: seq<SchemaFeature>): Option<seq<FeatureSpec>> {
    if features == [] then Some([])
    else if features[0].BadFeature? || features[0].typeName !in FEATURE_TYPES then None
    else
      match ExtractedSpecs(features[1..])
      case None => None
      case Some(rest) => Some([FeatureSpec(features[0].typeName, features[0].size)] + rest)
  }

  lemma {:induction false} ExtractedSpecsAppend(features: seq<SchemaFeature>, next: SchemaFeature)
    ensures ExtractedSpecs(features + [next]) ==
            match ExtractedSpecs(features)
            case None => None
            case Some(specs) =>
              if next.BadFeature? || next.typeName !in FEATURE_TYPES then None
              else Some(specs + [FeatureSpec(next.typeName, next.size)])
  {
    if features == [] {
      assert features + [next] == [next] && [next][1..] == [];
      if next.SchemaFeature? {
        var spec := FeatureSpec(next.typeName, next.size);
        assert [spec] + [] == [] + [spec];
      }
    } else {
      assert (features + [next])[1..] == features[1..] + [next];
      ExtractedSpecsAppend(features[1..], next);
      if features[0].SchemaFeature? && ExtractedSpecs(features[1..]).Some? && next.SchemaFeature? {
        var first := [FeatureSpec(features[0].typeName, features[0].size)];
        var rest := ExtractedSpecs(features[1..]).value;
        assert first + (rest + [FeatureSpec(next.typeName, next.size)])
            == (first + rest) + [FeatureSpec(next.typeName, next.size)];
      }
    }
  }

  lemma {:induction false} ExtractedSpecsFails(features: seq<SchemaFeature>, i: nat)
    requires i <= |features| && ExtractedSpecs(features[..i]).None?
    ensures ExtractedSpecs(features).None?
  {
    if i > 0 {
      assert features[..i][1..] == features[1..][..i - 1];
      assert features[..i][0] == features[0];
      if features[0].SchemaFeature? && features[0].typeName in FEATURE_TYPES {
        ExtractedSpecsFails(features[1..], i - 1);
      }
    }
  }

  /** Every feature of the schema names one of the five feature types. */
  ghost predicate Creatable(features: seq<SchemaFeature>) {
    forall f :: f in features ==>
      f.SchemaFeature?
      && (f.typeName == "boolean-feature" || f.typeName == "signed-integer-feature" || f.typeName == "unsigned-integer-feature"
          || f.typeName == "bucket-feature" || f.typeName == "histogram-feature")
  }

  lemma {:induction false} ExtractedSpecsIff(features: seq<SchemaFeature>)
    ensures ExtractedSpecs(features).Some? <==> Creatable(features)
    ensures ExtractedSpecs(features).Some? ==>
              && |ExtractedSpecs(features).value| == |features|
              && forall i :: 0 <= i < |features| ==>
                   ExtractedSpecs(features).value[i] == FeatureSpec(features[i].typeName, features[i].size)
  {
    if features != [] {
      ExtractedSpecsIff(features[1..]);
      assert features[0] in features;
      assert Creatable(features) ==> Creatable(features[1..]);
      assert forall f :: f in features <==> f == features[0] || f in features[1..];
    }
  }

  /** Creates a new feature object per entry of the schema. */
  method ExtractFeatures(features: seq<SchemaFeature>) returns (r: Option<seq<EgressFeature>>)
    ensures r.Some? <==> Creatable(features)
    ensures r.Some? ==>
              && |r.value| == |features|
              && forall i :: 0 <= i < |features| ==>
                   r.value[i].typeName == features[i].typeName && r.value[i].size == features[i].size
    ensures r.None? <==> ExtractedSpecs(features).None?
    ensures r.Some? ==>
              && SpecOf(r.value) == ExtractedSpecs(features).value
              && Unset(r.value) && Distinct(r.value) && fresh(r.value)
  {
    hide Creatable;
    ExtractedSpecsIff(features);
    var extracted: seq<EgressFeature> := [];
    assert features[..0] == [];
    for idx := 0 to |features|
      invariant ExtractedSpecs(features[..idx]) == Some(SpecOf(extracted))
      invariant Unset(extracted) && Distinct(extracted) && fresh(extracted)
    {
      assert features[..idx + 1] == features[..idx] + [features[idx]];
      ExtractedSpecsAppend(features[..idx], features[idx]);
      if features[idx].BadFeature? || features[idx].typeName !in FEATURE_TYPES {
        ExtractedSpecsFails(features, idx + 1);
        return None;
      }
      var feature := new EgressFeature(features[idx].typeName, features[idx].size);
      assert SpecOf(extracted + [feature]) == SpecOf(extracted) + [FeatureSpec(feature.typeName, feature.size)];
      extracted := extracted + [feature];
    }
    assert features[..|features|] == features;
    return Some(extracted);
  }

  /** A signed version stored as an unsigned 32-bit one. */
  function ToUint32(v: int): nat {
    v % UINT32_RANGE
  }

  /** What an accepted schema document puts into the cache. */
  function LoadedSchema(doc: SchemaDoc, cddlSpecs: set<string>): Option<SchemaSpec> {
    if doc.MalformedSchema? || doc.version.None? || doc.cddlVersion.None? then None
    else if doc.cddlVersion.value !in cddlSpecs || !doc.conforms || doc.features.None? then None
    else
      match ExtractedSpecs(doc.features.value)
      case None => None
      case Some(specs) => Some(SchemaSpec(ToUint32(doc.version.value), specs))
  }

  class EgressSchemaCache {
    const cddlSpecs: set<string>
    var versionFeatures: map<string, EgressSchemaData>
    ghost var repr: set<EgressFeature>

    /** The cached objects belong to the cache and no value was ever stored in any of them. */
    ghost predicate Valid()
      reads this, repr
    {
      && (forall id :: id in versionFeatures ==> forall f :: f in versionFeatures[id].features ==> f in repr)
      && forall f :: f in repr ==> !f.isValueSet
    }

    /** The cached schemas as values. */
    ghost function View(): (view: map<string, SchemaSpec>)
      reads this
    {
      map id | id in versionFeatures ::
        SchemaSpec(versionFeatures[id].version, SpecOf(versionFeatures[id].features))
    }

    constructor (cddlSpecs: set<string>)
      ensures Valid() && View() == map[] && this.cddlSpecs == cddlSpecs && fresh(repr)
    {
      this.cddlSpecs := cddlSpecs;
      versionFeatures := map[];
      repr := {};
    }

    /** Loads a schema under `id`, replacing an earlier one; a rejected schema changes nothing. */
    method Update(doc: SchemaDoc, id: string) returns (ok: bool)
      requires Valid()
      modifies this
      ensures Valid() && fresh(repr - old(repr))
      ensures ok <==>
                && doc.SchemaDoc? && doc.version.Some? && doc.cddlVersion.Some? && doc.features.Some?
                && doc.cddlVersion.value in cddlSpecs && doc.conforms
                && Creatable(doc.features.value)
      ensures ok ==>
                && id in View() && View()[id].version == doc.version.value % 0x1_0000_0000
                && |View()[id].features| == |doc.features.value|
                && forall i :: 0 <= i < |doc.features.value| ==>
                     && View()[id].features[i].typeName == doc.features.value[i].typeName
                     && View()[id].features[i].size == doc.features.value[i].size
      ensures ok <==> LoadedSchema(doc, cddlSpecs).Some?
      ensures ok ==> View() == old(View())[id := LoadedSchema(doc, cddlSpecs).value]
      ensures !ok ==> View() == old(View())
    {
      hide Creatable;
      if doc.MalformedSchema? || doc.version.None? || doc.cddlVersion.None? {
        return false;
      }
      if doc.cddlVersion.value !in cddlSpecs || !doc.conforms || doc.features.None? {
        return false;
      }
      var extracted := ExtractFeatures(doc.features.value);
      if extracted.None? {
        return false;
      }
      versionFeatures := versionFeatures[id := EgressSchemaData(ToUint32(doc.version.value), extracted.value)];
      repr := repr + set f | f in extracted.value;
      return true;
    }

    /** Deep copies: the returned features are new objects without values. */
    method Get(id: string) returns (r: Option<EgressSchemaData>)
      requires Valid()
      ensures r.Some? <==> id in versionFeatures
      ensures r.Some? ==>
                && r.value.version == versionFeatures[id].version
                && |r.value.features| == |versionFeatures[id].features|
                && forall i :: 0 <= i < |r.value.features| ==>
                     && r.value.features[i].typeName == versionFeatures[id].features[i].typeName
                     && r.value.features[i].size == versionFeatures[id].features[i].size
      ensures r.None? <==> id !in View()
      ensures r.Some? ==>
                && SchemaSpec(r.value.version, SpecOf(r.value.features)) == View()[id]
                && Unset(r.value.features) && Distinct(r.value.features) && fresh(r.value.features)
    {
      if id !in versionFeatures {
        return None;
      }
      var cached := versionFeatures[id].features;
      var copies: seq<EgressFeature> := [];
      for idx := 0 to |cached|
        invariant SpecOf(copies) == SpecOf(cached)[..idx]
        invariant Unset(copies) && Distinct(copies) && fresh(copies)
      {
        var copy := cached[idx].Copy();
        assert SpecOf(copies + [copy]) == SpecOf(copies) + [FeatureSpec(copy.typeName, copy.size)];
        copies := copies + [copy];
      }
      return Some(EgressSchemaData(versionFeatures[id].version, copies));
    }
  }

  // ----- one request -----

  function Encodings(entries: seq<PayloadEntry>): (outcomes: seq<Result<seq<bool>>>)
    requires forall e :: e in entries ==> e.Entry?
    ensures |outcomes| == |entries|
  {
    seq(|entries|, i requires 0 <= i < |entries| => entries[i].value.encoding)
  }

  /** What becomes of a payload; `Undefined` if serializing it writes outside the array. */
  datatype RequestResult = Undefined | Rejected | Payload(bytes: seq<byte>)

  /** The payload of a request as a function of the cached schema and the request's document. */
  ghost function RequestPayload(view: map<string, SchemaSpec>, id: string, doc: PayloadDoc, bitLimit: nat): RequestResult {
    if id !in view || !Accepts(doc, view[id].features) then Rejected
    else
      match PayloadOf(view[id].version, Encodings(doc.entries), view[id].features, bitLimit)
      case OutOfBounds => Undefined
      case Finished(Failure(_)) => Rejected
      case Finished(Success(bytes)) => Payload(bytes)
  }

  /** The schema is cached and its 32-bit total of bits is positive and within the limit. */
  ghost predicate WithinLimit(view: map<string, SchemaSpec>, id: string, bitLimit: nat) {
    id in view && 0 < TotalSize(view[id].features) % 0x1_0000_0000 <= bitLimit
  }

  lemma PayloadWithinLimit(view: map<string, SchemaSpec>, id: string, doc: PayloadDoc, egressBitLimit: int)
    ensures var p := RequestPayload(view, id, doc, ToUint32(egressBitLimit));
            p.Payload? && p.bytes != [] ==> WithinLimit(view, id, egressBitLimit % 0x1_0000_0000)
  {
    if Sent(view, id, doc, ToUint32(egressBitLimit)) {
      SentIff(view, id, doc, ToUint32(egressBitLimit));
    }
  }

  /**
   Serializes one request.  Nothing that existed before the call is modified, so the result
   depends on the cached schema and on this request's document alone.  The limit is a signed
   number that the serializer takes as an unsigned one.
   */
  method GetSerializedEgressPayload(cache: EgressSchemaCache, id: string, doc: PayloadDoc, egressBitLimit: int)
    returns (r: RequestResult)
    requires cache.Valid()
    ensures cache.Valid() && cache.View() == old(cache.View())
    ensures r == RequestPayload(cache.View(), id, doc, ToUint32(egressBitLimit))
    ensures r.Payload? && r.bytes != [] ==> WithinLimit(cache.View(), id, egressBitLimit % 0x1_0000_0000)
  {
    hide PayloadOf, WithinLimit, TotalSize, PayloadLayout;
    PayloadWithinLimit(cache.View(), id, doc, egressBitLimit);
    var schemaData := cache.Get(id);
    if schemaData.None? {
      return Rejected;
    }
    var features := schemaData.value.features;
    if doc.NotJson? {
      return Rejected;
    }
    var populated := PopulateValuesForEgressFeatures(doc, features);
    if !populated {
      return Rejected;
    }
    assert Outcomes(features) == Encodings(doc.entries);
    var payload := SerializeEgressFeatures(schemaData.value.version, features, ToUint32(egressBitLimit));
    match payload {
      case OutOfBounds => return Undefined;
      case Finished(Failure(_)) => return Rejected;
      case Finished(Success(bytes)) => return Payload(bytes);
    }
  }

  /**
   Replaces the payload of a bid by its serialized form, or by nothing when it cannot be
   serialized; a bid without a payload is left alone.
   */
  method PopulateSerializedEgressPayload(cache: EgressSchemaCache, id: string, payload: Option<PayloadDoc>, egressBitLimit: int)
    returns (r: RequestResult)
    requires cache.Valid()
    ensures cache.Valid() && cache.View() == old(cache.View())
    ensures payload.None? ==> r == Payload([])
    ensures payload.Some? ==>
              var p := RequestPayload(cache.View(), id, payload.value, ToUint32(egressBitLimit));
              r == if p.Rejected? then Payload([]) else p
    ensures payload.Some? && r.Payload? && r.bytes != [] ==> WithinLimit(cache.View(), id, egressBitLimit % 0x1_0000_0000)
  {
    if payload.None? {
      return Payload([]);
    }
    r := GetSerializedEgressPayload(cache, id, payload.value, egressBitLimit);
    if r.Rejected? {
      r := Payload([]);
    }
  }

  // ----- what a reader of the payload can tell -----

  /** The payload is there and not empty. */
  ghost predicate Sent(view: map<string, SchemaSpec>, id: string, doc: PayloadDoc, bitLimit: nat) {
    RequestPayload(view, id, doc, bitLimit).Payload? && RequestPayload(view, id, doc, bitLimit).bytes != []
  }

  /** Every value is serialized to exactly the bits its feature declares. */
  ghost predicate WellSized(view: map<string, SchemaSpec>, id: string, doc: PayloadDoc) {
    id in view && Accepts(doc, view[id].features) ==> ExactSizes(Encodings(doc.entries), view[id].features)
  }

  /** Something is sent exactly for an acceptable document, a 32-bit total within the limit, values in bounds, and no error. */
  lemma SentIff(view: map<string, SchemaSpec>, id: string, doc: PayloadDoc, bitLimit: nat)
    ensures Sent(view, id, doc, bitLimit) <==>
              && id in view && doc.Features? && |doc.entries| == |view[id].features|
              && (forall i :: 0 <= i < |doc.entries| ==>
                    && doc.entries[i].Entry? && doc.entries[i].value.typeName == view[id].features[i].typeName
                    && doc.entries[i].value.encoding.Success?)
              && 0 < TotalSize(view[id].features) % 0x1_0000_0000 <= bitLimit
              && !RequestPayload(view, id, doc, bitLimit).Undefined?
  {
    if id in view && Accepts(doc, view[id].features) {
      var outcomes, specs := Encodings(doc.entries), view[id].features;
      hide PayloadOf, CollectFields, TotalSize, BigEndian, MixedRadix;
      PayloadMeaning(view[id].version, outcomes, specs, bitLimit, []);
      var payload := PayloadOf(view[id].version, outcomes, specs, bitLimit);
      assert forall i :: 0 <= i < |outcomes| ==> outcomes[i] == doc.entries[i].value.encoding;
      if payload.Finished? && payload.result.Failure? {
        var i :| 0 <= i < |outcomes| && outcomes[i] == Failure(payload.result.error) && forall j :: 0 <= j < i ==> outcomes[j].Success?;
        assert doc.entries[i].value.encoding.Failure?;
      }
    }
  }

  lemma SentParts(view: map<string, SchemaSpec>, id: string, doc: PayloadDoc, bitLimit: nat)
    requires Sent(view, id, doc, bitLimit)
    ensures id in view && Accepts(doc, view[id].features) && Packs(view[id].features, bitLimit)
    ensures var n := ByteCount(WrappedSize(view[id].features));
            && CollectFields(Encodings(doc.entries)).Success?
            && RequestPayload(view, id, doc, bitLimit).bytes
               == Encode(view[id].version, n, CollectFields(Encodings(doc.entries)).value)
            && !SetBeyond(StreamOfFields(CollectFields(Encodings(doc.entries)).value), n)
  {
    hide Encode, ByteCount, StreamOfFields, SetBeyond, CollectFields, FieldsBefore;
    FieldsBeforeAll(Encodings(doc.entries));
  }

  lemma EntriesRecoveredIff(entries: seq<PayloadEntry>, fields: seq<seq<bool>>)
    requires (forall e :: e in entries ==> e.Entry?) && CollectFields(Encodings(entries)).Success?
    ensures fields == CollectFields(Encodings(entries)).value <==>
              |fields| == |entries| && forall i :: 0 <= i < |entries| ==> entries[i].value.encoding == Success(fields[i])
  {
    hide CollectFields;
    CollectFieldsMeaning(Encodings(entries));
    assert forall i :: 0 <= i < |entries| ==> Encodings(entries)[i] == entries[i].value.encoding;
  }

  /**
   End to end: a reader who knows nothing but the sizes in the cached schema recovers from a nonempty payload the
   values the request set, exactly when the declared total survived the 32-bit arithmetic, and then the
   version of the schema exactly when it is at most 7.
   */
  lemma {:induction false} RequestRoundTrip(view: map<string, SchemaSpec>, id: string, doc: PayloadDoc, bitLimit: nat)
    requires WellSized(view, id, doc) && Sent(view, id, doc, bitLimit)
    ensures id in view && Accepts(doc, view[id].features) && CollectFields(Encodings(doc.entries)).Success?
    ensures var specs := view[id].features;
            var decoded := Decode(RequestPayload(view, id, doc, bitLimit).bytes, Sizes(specs));
            && ((|decoded.fields| == |doc.entries|
                 && forall i :: 0 <= i < |doc.entries| ==> doc.entries[i].value.encoding == Success(decoded.fields[i]))
                <==> TotalSize(specs) <= 0xFFFF_FFF8)
            && (decoded.schemaVersion == view[id].version <==> view[id].version <= 7)
  {
    SentParts(view, id, doc, bitLimit);
    var specs, outcomes := view[id].features, Encodings(doc.entries);
    var fields, n := CollectFields(outcomes).value, ByteCount(WrappedSize(specs));
    CollectedSizes(outcomes, specs);
    FieldsFitIff(outcomes, specs, bitLimit);
    EntriesRecoveredIff(doc.entries, Decode(RequestPayload(view, id, doc, bitLimit).bytes, Sizes(specs)).fields);
    hide RequestPayload, Encode, Decode, ByteCount, CollectFields, SizesFit, SetBeyond;
    if TotalBits(fields) <= 8 * n {
      RoundTrip(view[id].version, n, fields);
    } else {
      DecodeTooShort(view[id].version, n, fields);
    }
  }

  /** Two requests that set different values under one cached schema never send the same payload. */
  lemma {:induction false} RequestsDistinct(
    view: map<string, SchemaSpec>, id: string, doc1: PayloadDoc, doc2: PayloadDoc, bitLimit: nat)
    requires WellSized(view, id, doc1) && Sent(view, id, doc1, bitLimit)
    requires WellSized(view, id, doc2) && Sent(view, id, doc2, bitLimit)
    requires RequestPayload(view, id, doc1, bitLimit) == RequestPayload(view, id, doc2, bitLimit)
    ensures id in view && Accepts(doc1, view[id].features) && Accepts(doc2, view[id].features)
    ensures Encodings(doc1.entries) == Encodings(doc2.entries)
  {
    SentParts(view, id, doc1, bitLimit);
    SentParts(view, id, doc2, bitLimit);
    var specs, n := view[id].features, ByteCount(WrappedSize(view[id].features));
    var o1, o2 := Encodings(doc1.entries), Encodings(doc2.entries);
    CollectedSizes(o1, specs);
    CollectedSizes(o2, specs);
    var f1, f2 := CollectFields(o1).value, CollectFields(o2).value;
    hide RequestPayload, Encode, ByteCount, CollectFields, SetBeyond, StreamOfFields, Widths;
    SamePayloadSameFields(view[id].version, n, f1, f2);
    CollectedTwice(o1, o2);
  }

  lemma {:induction false} CollectedTwice(o1: seq<Result<seq<bool>>>, o2: seq<Result<seq<bool>>>)
    requires CollectFields(o1).Success? && CollectFields(o1) == CollectFields(o2)
    ensures o1 == o2
  {
    if o1 != [] && o2 != [] {
      var c1, c2 := CollectFields(o1).value, CollectFields(o2).value;
      assert c1[0] == o1[0].value && c2[0] == o2[0].value;
      assert c1[1..] == CollectFields(o1[1..]).value && c2[1..] == CollectFields(o2[1..]).value;
      CollectedTwice(o1[1..], o2[1..]);
    }
  }

  /** Fields that do not fit cannot be cut out of the payload again. */
  lemma DecodeTooShort(version: nat, n: nat, fields: seq<seq<bool>>)
    requires TotalBits(fields) > 8 * n
    ensures var decoded := Decode(Encode(version, n, fields), Widths(fields));
            decoded.fields != fields && (decoded.schemaVersion == version <==> version <= 7)
  {
    DecodeParts(version, n, fields, Widths(fields));
    HeaderVersion(version);
    hide Decode, Header, CutFields, StreamOf, BigEndian, Widths;
    var bytes := Encode(version, n, fields);
    CutFieldsShort(StreamOf(BigEndian(bytes[..n]), 8 * n), fields);
  }

  lemma {:induction false} CutFieldsShort(stream: seq<bool>, fields: seq<seq<bool>>)
    requires TotalBits(fields) > |stream|
    ensures |CutFields(stream, Widths(fields))| < |fields|
  {
    var w := |fields[0]|;
    assert Widths(fields)[1..] == Widths(fields[1..]);
    if w <= |stream| {
      CutFieldsShort(stream[w..], fields[1..]);
    }
  }

  lemma {:induction false} SamePayloadSameFields(version: nat, n: nat, f1: seq<seq<bool>>, f2: seq<seq<bool>>)
    requires Widths(f1) == Widths(f2) && TotalBits(f1) == TotalBits(f2)
    requires !SetBeyond(StreamOfFields(f1), n) && !SetBeyond(StreamOfFields(f2), n)
    requires Encode(version, n, f1) == Encode(version, n, f2)
    ensures f1 == f2
  {
    var s1, s2 := StreamOfFields(f1), StreamOfFields(f2);
    PayloadValue(version, n, f1);
    PayloadValue(version, n, f2);
    StreamOfValue(s1, |s1|);
    StreamOfValue(s2, |s2|);
    assert s1 + Falses(0) == s1 && s2 + Falses(0) == s2;
    CutFieldsOfStream(f1, []);
    CutFieldsOfStream(f2, []);
    assert s1 + [] == s1 && s2 + [] == s2;
  }
}
