/** Whole messages: batch set requests, batch get responses and primitive results. */
module WireMessages {
  import opened Common
  import opened WireFormat
  import opened WirePayload

  datatype Message = Message(metadata: Text, payload: Text)

  function Seal(body: Text): Text { [BINARY_METADATA_VERSION] + body }

  function Unseal(metadata: Text): Option<Text> {
    if metadata == [] || metadata[0] != BINARY_METADATA_VERSION then None else Some(metadata[1..])
  }

  /** Reads the whole body: trailing bytes are an error. */
  function Whole<T>(get: Text -> Parsed<T>, metadata: Text): Option<T> {
    match Unseal(metadata)
    case None => None
    case Some(body) =>
      match get(body)
      case Fail => None
      case Got(x, rest) => if rest == [] then Some(x) else None
  }

  lemma WholeLaw<T>(get: Text -> Parsed<T>, body: Text, x: T)
    requires get(body + []) == Got(x, [])
    ensures Whole(get, Seal(body)) == Some(x)
  {
    assert Seal(body)[1..] == body && body + [] == body;
  }

  // ---------------------------------------------------------------- batch set requests

  function SetCarrier(): Carrier<SetRequest> {
    Carrier((r: SetRequest) => true, (r: SetRequest) => r.value, (r: SetRequest) => r.(value := []),
            (r: SetRequest, offset: nat, size: nat) => r.(value := [], payloadOffset := offset, payloadSize := size),
            (r: SetRequest, value: Text) => r.(value := value), (r: SetRequest) => r.payloadOffset, (r: SetRequest) => r.payloadSize)
  }

  function GetSets(raw: Text): Parsed<seq<SetRequest>> { GetList(GetSet, raw) }

  function EncodeBatchSet(items: seq<SetRequest>): Option<Message> {
    match Pack(SetCarrier(), items, [])
    case None => None
    case Some(packed) => Some(Message(Seal(PutList(PutSet, packed.items)), packed.payload))
  }

  function DecodeBatchSet(m: Message): Option<seq<SetRequest>> {
    match Whole(GetSets, m.metadata)
    case None => None
    case Some(items) => Unpack(SetCarrier(), items, m.payload)
  }

  /** A request without its transport-only fields. */
  function PlainSet(r: SetRequest): SetRequest { r.(routeEpoch := 0, payloadOffset := 0, payloadSize := 0) }

  /** Encoding succeeds exactly when every value is within the payload's 32-bit reach, and then
      decoding gives back every request, value included. */
  lemma BatchSetRoundTrip(items: seq<SetRequest>)
    requires IsLength(|items|) && forall i :: 0 <= i < |items| ==> SetFits(PlainSet(items[i]))
    ensures EncodeBatchSet(items).Some? <==> Addressable(SetCarrier(), items, 0)
    ensures EncodeBatchSet(items).Some? ==>
              var out := DecodeBatchSet(EncodeBatchSet(items).value);
              out.Some? && |out.value| == |items| && forall i :: 0 <= i < |items| ==> PlainSet(out.value[i]) == PlainSet(items[i])
  {
    var c := SetCarrier();
    PackExact(c, items, []);
    if Pack(c, items, []).Some? {
      var packed := Pack(c, items, []).value;
      PackGrows(c, items, []);
      forall i | 0 <= i < |items| ensures Travels(PutSet, GetSet, SetArrives, packed.items[i]) {
        PackedItem(c, items, [], i);
        SetTravels(packed.items[i]);
      }
      forall i | 0 <= i < |items| ensures Restores(c, SetArrives, PlainSet, items[i]) { }
      hide PutList, GetList, Travels, Restores, Pack, Unpack, SetCarrier;
      ListLaw(PutSet, GetSet, SetArrives, packed.items, []);
      WholeLaw(GetSets, PutList(PutSet, packed.items), MapSeq(SetArrives, packed.items));
      PackLaw(c, SetArrives, PlainSet, items, [], packed.payload);
    }
  }

  // ---------------------------------------------------------------- batch get responses

  function RecordCarrier(): Carrier<Record> {
    Carrier((r: Record) => r.found, (r: Record) => r.value, (r: Record) => r.(value := []),
            (r: Record, offset: nat, size: nat) => r.(value := [], payloadOffset := offset, payloadSize := size),
            (r: Record, value: Text) => r.(value := value), (r: Record) => r.payloadOffset, (r: Record) => r.payloadSize)
  }

  function GetRecords(raw: Text): Parsed<seq<Record>> { GetList(GetRecord, raw) }

  function EncodeBatchGet(records: seq<Record>): Option<Message> {
    match Pack(RecordCarrier(), records, [])
    case None => None
    case Some(packed) => Some(Message(Seal(PutList(PutRecord, packed.items)), packed.payload))
  }

  function DecodeBatchGet(m: Message): Option<seq<Record>> {
    match Whole(GetRecords, m.metadata)
    case None => None
    case Some(records) => Unpack(RecordCarrier(), records, m.payload)
  }

  /** A record without its place in the payload; a miss says nothing else. */
  function PlainRecord(r: Record): Record { if r.found then r.(payloadOffset := 0, payloadSize := 0) else NOT_FOUND }

  lemma BatchGetRoundTrip(records: seq<Record>)
    requires IsLength(|records|) && forall i :: 0 <= i < |records| ==> RecordFits(PlainRecord(records[i]))
    ensures EncodeBatchGet(records).Some? <==> Addressable(RecordCarrier(), records, 0)
    ensures EncodeBatchGet(records).Some? ==>
              var out := DecodeBatchGet(EncodeBatchGet(records).value);
              out.Some? && |out.value| == |records| && forall i :: 0 <= i < |records| ==> PlainRecord(out.value[i]) == PlainRecord(records[i])
  {
    var c := RecordCarrier();
    PackExact(c, records, []);
    if Pack(c, records, []).Some? {
      var packed := Pack(c, records, []).value;
      PackGrows(c, records, []);
      forall i | 0 <= i < |records| ensures Travels(PutRecord, GetRecord, RecordArrives, packed.items[i]) {
        PackedItem(c, records, [], i);
        RecordTravels(packed.items[i]);
      }
      forall i | 0 <= i < |records| ensures Restores(c, RecordArrives, PlainRecord, records[i]) { }
      hide PutList, GetList, Travels, Restores, Pack, Unpack, RecordCarrier;
      ListLaw(PutRecord, GetRecord, RecordArrives, packed.items, []);
      WholeLaw(GetRecords, PutList(PutRecord, packed.items), MapSeq(RecordArrives, packed.items));
      PackLaw(c, RecordArrives, PlainRecord, records, [], packed.payload);
    }
  }

  // ---------------------------------------------------------------- primitive results

  function FieldCarrier(): Carrier<MapField> {
    Carrier((f: MapField) => true, (f: MapField) => f.value, (f: MapField) => f.(value := []),
            (f: MapField, offset: nat, size: nat) => f.(value := [], payloadOffset := offset, payloadSize := size),
            (f: MapField, value: Text) => f.(value := value), (f: MapField) => f.payloadOffset, (f: MapField) => f.payloadSize)
  }

  function ValueCarrier(): Carrier<ListValue> {
    Carrier((v: ListValue) => true, (v: ListValue) => v.value, (v: ListValue) => v.(value := []),
            (v: ListValue, offset: nat, size: nat) => v.(value := [], payloadOffset := offset, payloadSize := size),
            (v: ListValue, value: Text) => v.(value := value), (v: ListValue) => v.payloadOffset, (v: ListValue) => v.payloadSize)
  }

  datatype PackedResult = PackedResult(result: PrimitiveResult, payload: Text)

  /** One shared payload: the result's own value, then those of its map fields, then its list values. */
  function PackResult(r: PrimitiveResult, start: Text): Option<PackedResult> {
    if !CheckedRange(|start|, |r.value|) then None
    else
      match Pack(FieldCarrier(), r.fields, start + r.value)
      case None => None
      case Some(fields) =>
        match Pack(ValueCarrier(), r.values, fields.payload)
        case None => None
        case Some(values) =>
          Some(PackedResult(r.(value := [], payloadOffset := |start|, payloadSize := |r.value|, fields := fields.items, values := values.items),
                            values.payload))
  }

  function UnpackResult(r: PrimitiveResult, payload: Text): Option<PrimitiveResult> {
    match (Slice(payload, r.payloadOffset, r.payloadSize), Unpack(FieldCarrier(), r.fields, payload), Unpack(ValueCarrier(), r.values, payload))
    case (Some(value), Some(fields), Some(values)) => Some(r.(value := value, fields := fields, values := values))
    case _ => None
  }

  function EncodeResult(r: PrimitiveResult): Option<Message> {
    match PackResult(r, [])
    case None => None
    case Some(packed) => Some(Message(Seal(PutResult(packed.result)), packed.payload))
  }

  function DecodeResult(m: Message): Option<PrimitiveResult> {
    match Whole(GetResult, m.metadata)
    case None => None
    case Some(r) => UnpackResult(r, m.payload)
  }

  function PlainField(f: MapField): MapField { f.(payloadOffset := 0, payloadSize := 0) }

  function PlainValue(v: ListValue): ListValue { v.(payloadOffset := 0, payloadSize := 0) }

  /** A result without payload places; the value inside its record does not travel. */
  function PlainResult(r: PrimitiveResult): PrimitiveResult {
    r.(payloadOffset := 0, payloadSize := 0, record := RecordArrives(r.record),
       fields := MapSeq(PlainField, r.fields), values := MapSeq(PlainValue, r.values))
  }

  /** Every value of the result, in the order they are packed, is within 32-bit reach. */
  ghost predicate ResultAddressable(r: PrimitiveResult) {
    && |r.value| <= MAX_UINT32 && Addressable(FieldCarrier(), r.fields, |r.value|)
    && Addressable(ValueCarrier(), r.values, |r.value| + Carried(FieldCarrier(), r.fields))
  }

  lemma PackResultExact(r: PrimitiveResult)
    ensures PackResult(r, []).Some? <==> ResultAddressable(r)
  {
    hide FieldCarrier, ValueCarrier;
    var start := [] + r.value;
    assert |start| == |r.value|;
    PackExact(FieldCarrier(), r.fields, start);
    if Pack(FieldCarrier(), r.fields, start).Some? {
      PackExact(ValueCarrier(), r.values, Pack(FieldCarrier(), r.fields, start).value.payload);
    }
  }

  lemma PackedFits(r: PrimitiveResult)
    requires ResultFits(PlainResult(r)) && PackResult(r, []).Some?
    ensures ResultFits(PackResult(r, []).value.result)
  {
    var packed := PackResult(r, []).value.result;
    var fields := Pack(FieldCarrier(), r.fields, [] + r.value).value;
    PackGrows(FieldCarrier(), r.fields, [] + r.value);
    PackGrows(ValueCarrier(), r.values, fields.payload);
    forall i | 0 <= i < |packed.fields| ensures FieldFits(packed.fields[i]) {
      PackedItem(FieldCarrier(), r.fields, [] + r.value, i);
      assert FieldFits(MapSeq(PlainField, r.fields)[i]);
    }
    forall i | 0 <= i < |packed.values| ensures ValueFits(packed.values[i]) {
      PackedItem(ValueCarrier(), r.values, fields.payload, i);
    }
    assert PlainResult(r).record == RecordArrives(r.record);
  }

  lemma FieldsRestore(fields: seq<MapField>)
    ensures forall i :: 0 <= i < |fields| ==> Restores(FieldCarrier(), MapFieldArrives, PlainField, fields[i])
  {
  }

  lemma ValuesRestore(values: seq<ListValue>)
    ensures forall i :: 0 <= i < |values| ==> Restores(ValueCarrier(), ListValueArrives, PlainValue, values[i])
  {
  }

  lemma PlainSeq<T>(plain: T -> T, xs: seq<T>, ys: seq<T>)
    requires |xs| == |ys| && forall i :: 0 <= i < |xs| ==> plain(xs[i]) == plain(ys[i])
    ensures MapSeq(plain, xs) == MapSeq(plain, ys)
  {
  }

  /** Unpacking what arrives of a packed result. */
  lemma UnpackPackedResult(r: PrimitiveResult)
    requires PackResult(r, []).Some?
    ensures
      var packed := PackResult(r, []).value;
      var out := UnpackResult(ResultArrives(packed.result), packed.payload);
      out.Some? && PlainResult(out.value) == PlainResult(r)
  {
    var start := [] + r.value;
    var fields := Pack(FieldCarrier(), r.fields, start).value;
    var values := Pack(ValueCarrier(), r.values, fields.payload).value;
    hide FieldCarrier, ValueCarrier, Pack, Unpack, RecordArrives, Slice;
    PackedParts(r, start, fields, values);
  }

  /** Each part of a packed result is found again in the whole payload. */
  lemma PackedParts(r: PrimitiveResult, start: Text, fields: Packed<MapField>, values: Packed<ListValue>)
    requires start == r.value && Pack(FieldCarrier(), r.fields, start) == Some(fields)
    requires Pack(ValueCarrier(), r.values, fields.payload) == Some(values)
    ensures
      var gotFields := Unpack(FieldCarrier(), MapSeq(MapFieldArrives, fields.items), values.payload);
      var gotValues := Unpack(ValueCarrier(), MapSeq(ListValueArrives, values.items), values.payload);
      && Slice(values.payload, 0, |r.value|) == Some(r.value)
      && gotFields.Some? && MapSeq(PlainField, gotFields.value) == MapSeq(PlainField, r.fields)
      && gotValues.Some? && MapSeq(PlainValue, gotValues.value) == MapSeq(PlainValue, r.values)
  {
    FieldsRestore(r.fields);
    ValuesRestore(r.values);
    hide FieldCarrier, ValueCarrier, Restores, Pack, Unpack;
    PackGrows(FieldCarrier(), r.fields, start);
    PackGrows(ValueCarrier(), r.values, fields.payload);
    assert values.payload[..|r.value|] == r.value;
    assert Slice(values.payload, 0, |r.value|) == Some(r.value);
    PackLaw(FieldCarrier(), MapFieldArrives, PlainField, r.fields, start, values.payload);
    PackLaw(ValueCarrier(), ListValueArrives, PlainValue, r.values, fields.payload, values.payload);
    PlainSeq(PlainField, Unpack(FieldCarrier(), MapSeq(MapFieldArrives, fields.items), values.payload).value, r.fields);
    PlainSeq(PlainValue, Unpack(ValueCarrier(), MapSeq(ListValueArrives, values.items), values.payload).value, r.values);
  }

  lemma ResultRoundTrip(r: PrimitiveResult)
    requires ResultFits(PlainResult(r))
    ensures EncodeResult(r).Some? <==> ResultAddressable(r)
    ensures EncodeResult(r).Some? ==>
              var out := DecodeResult(EncodeResult(r).value);
              out.Some? && PlainResult(out.value) == PlainResult(r)
  {
    PackResultExact(r);
    if PackResult(r, []).Some? {
      var packed := PackResult(r, []).value;
      PackedFits(r);
      hide PackResult, UnpackResult, PutResult, GetResult, ResultFits, PlainResult, ResultArrives;
      ResultLaw(packed.result, []);
      WholeLaw(GetResult, PutResult(packed.result), ResultArrives(packed.result));
      UnpackPackedResult(r);
    }
  }
}
