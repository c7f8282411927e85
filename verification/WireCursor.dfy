/** The cursor that reads metadata and the loops that build and read whole messages
    (cachewire/binary_cursor.go, binary_batch*.go, types.go, primitive_result_payload.go). */
module WireCursor {
  import opened Common
  import opened Varint
  import opened Entries
  import opened WireFormat
  import opened WirePayload
  import opened WireMessages

  /** The result of a read; on an error the caller gives up on the cursor. */
  datatype Read<+T> = Bad | Ok(value: T) {
    predicate IsFailure() { Bad? }

    function PropagateFailure<U>(): Read<U>
      requires Bad?
    {
      Bad
    }

    function Extract(): T
      requires Ok?
    {
      value
    }
  }

  function Prepend<T>(xs: seq<T>, p: Parsed<seq<T>>): Parsed<seq<T>> {
    match p
    case Fail => Fail
    case Got(ys, rest) => Got(xs + ys, rest)
  }

  lemma NoneYet<T>(p: Parsed<seq<T>>)
    ensures Prepend([], p) == p
  {
    if p.Got? { assert [] + p.value == p.value; }
  }

  lemma OneMore<T>(get: Text -> Parsed<T>, n: nat, items: seq<T>, raw: Text)
    requires n > 0
    ensures get(raw).Fail? ==> Prepend(items, GetMany(get, n, raw)) == Fail
    ensures get(raw).Got? ==>
              Prepend(items, GetMany(get, n, raw)) == Prepend(items + [get(raw).value], GetMany(get, n - 1, get(raw).rest))
  {
    if get(raw).Got? {
      var rest := GetMany(get, n - 1, get(raw).rest);
      if rest.Got? { assert items + ([get(raw).value] + rest.value) == items + [get(raw).value] + rest.value; }
    }
  }

  lemma AllRead<T>(get: Text -> Parsed<T>, items: seq<T>, raw: Text)
    ensures Prepend(items, GetMany(get, 0, raw)) == Got(items, raw)
  {
    assert items + [] == items;
  }

  class MetadataCursor {
    const raw: Text
    var pos: nat

    ghost predicate Valid()
      reads this
    {
      pos <= |raw|
    }

    /** What has not been read yet. */
    ghost function Rest(): Text
      requires Valid()
      reads this
    {
      raw[pos..]
    }

    /** The read answered what the parse says, and consumed what it consumed. */
    ghost predicate Tells<T>(r: Read<T>, p: Parsed<T>)
      requires Valid()
      reads this
    {
      match p
      case Fail => r.Bad?
      case Got(x, rest) => r == Ok(x) && Rest() == rest
    }

    constructor (raw: Text)
      requires Unseal(raw).Some?
      ensures this.raw == raw && Valid() && Rest() == Unseal(raw).value
    {
      this.raw, this.pos := raw, 1;
    }

    method ReadString() returns (r: Read<Text>)
      requires Valid()
      modifies this`pos
      ensures Valid() && Tells(r, GetString(old(Rest())))
    {
      match ReadUvarint(raw[pos..], 0) {
        case None => return Bad;
        case Some((size, count)) =>
          pos := pos + count;
          match CheckedLength(size, |raw| - pos) {
            case None => return Bad;
            case Some(length) =>
              var end := pos + length;
              var value := raw[pos..end];
              assert value == raw[pos..][..length];
              pos := end;
              return Ok(value);
          }
      }
    }

    method ReadBool() returns (r: Read<bool>)
      requires Valid()
      modifies this`pos
      ensures Valid() && Tells(r, GetBool(old(Rest())))
    {
      if pos >= |raw| {
        return Bad;
      }
      var value := raw[pos];
      pos := pos + 1;
      if value == 0 {
        return Ok(false);
      } else if value == 1 {
        return Ok(true);
      }
      r := Bad;
    }

    method ReadFixed(width: nat) returns (r: Read<nat>)
      requires Valid()
      modifies this`pos
      ensures Valid() && Tells(r, GetFixed(old(Rest()), width))
    {
      var end := pos + width;
      if end > |raw| {
        return Bad;
      }
      assert raw[pos..end] == raw[pos..][..width];
      var value := FromBigEndian(raw[pos..end]);
      pos := end;
      r := Ok(value);
    }

    method ReadUint64() returns (r: Read<nat>)
      requires Valid()
      modifies this`pos
      ensures Valid() && Tells(r, GetUint64(old(Rest())))
    {
      r := ReadFixed(8);
    }

    method ReadUint32() returns (r: Read<nat>)
      requires Valid()
      modifies this`pos
      ensures Valid() && Tells(r, GetUint32(old(Rest())))
    {
      r := ReadFixed(4);
    }

    method ReadInt64() returns (r: Read<int>)
      requires Valid()
      modifies this`pos
      ensures Valid() && Tells(r, GetInt64(old(Rest())))
    {
      match ReadUvarint(raw[pos..], 0) {
        case None => return Bad;
        case Some((value, count)) =>
          pos := pos + count;
          return Ok(UnZigZag(value));
      }
    }

    method ReadCount() returns (r: Read<nat>)
      requires Valid()
      modifies this`pos
      ensures Valid() && Tells(r, GetCount(old(Rest())))
    {
      var count :- ReadUint64();
      match CheckedLength(count, |raw| - pos) {
        case None => return Bad;
        case Some(n) => return Ok(n);
      }
    }

    method EnsureEOF() returns (ok: bool)
      requires Valid()
      ensures ok <==> Rest() == []
    {
      ok := pos == |raw|;
    }

    method ReadKey() returns (r: Read<Key>)
      requires Valid()
      modifies this`pos
      ensures Valid() && Tells(r, GetKey(old(Rest())))
    {
      hide GetString;
      var namespace :- ReadString();
      var space :- ReadString();
      var entity :- ReadString();
      var key :- ReadString();
      r := Ok(Key(namespace, space, entity, key));
    }

    method ReadBatchSetItem() returns (r: Read<SetRequest>)
      requires Valid()
      modifies this`pos
      ensures Valid() && Tells(r, GetSet(old(Rest())))
    {
      hide GetKey, GetInt64, GetUint64, GetUint32;
      var key :- ReadKey();
      var ttl :- ReadInt64();
      var namespaceVersion :- ReadUint64();
      var spaceVersion :- ReadUint64();
      var expectedVersion :- ReadUint64();
      var offset :- ReadUint32();
      var size :- ReadUint32();
      r := Ok(SetRequest(key, [], 0, ttl, namespaceVersion, spaceVersion, expectedVersion, offset, size));
    }

    method ReadBatchRecord() returns (r: Read<Record>)
      requires Valid()
      modifies this`pos
      ensures Valid() && Tells(r, GetRecord(old(Rest())))
    {
      hide GetBool, GetFields;
      var found :- ReadBool();
      if !found {
        return Ok(NOT_FOUND);
      }
      r := ReadBatchRecordFields();
    }

    method ReadBatchRecordFields() returns (r: Read<Record>)
      requires Valid()
      modifies this`pos
      ensures Valid() && Tells(r, GetFields(old(Rest())))
    {
      hide GetKey, GetInt64, GetUint64, GetUint32;
      var key :- ReadKey();
      var version :- ReadUint64();
      var namespaceVersion :- ReadUint64();
      var spaceVersion :- ReadUint64();
      var expireAt :- ReadInt64();
      var offset :- ReadUint32();
      var size :- ReadUint32();
      r := Ok(Record(true, key, [], version, namespaceVersion, spaceVersion, expireAt, offset, size));
    }

    method ReadBatchSetItems() returns (r: Read<seq<SetRequest>>)
      requires Valid()
      modifies this`pos
      ensures Valid() && Tells(r, GetList(GetSet, old(Rest())))
    {
      hide GetSet, GetCount;
      var count :- ReadCount();
      ghost var start := Rest();
      var items: seq<SetRequest> := [];
      NoneYet(GetMany(GetSet, count, start));
      for i := 0 to count
        invariant Valid() && GetMany(GetSet, count, start) == Prepend(items, GetMany(GetSet, count - i, Rest()))
      {
        OneMore(GetSet, count - i, items, Rest());
        var item :- ReadBatchSetItem();
        items := items + [item];
      }
      AllRead(GetSet, items, Rest());
      r := Ok(items);
    }

    method ReadBatchRecords() returns (r: Read<seq<Record>>)
      requires Valid()
      modifies this`pos
      ensures Valid() && Tells(r, GetList(GetRecord, old(Rest())))
    {
      hide GetRecord, GetCount;
      var count :- ReadCount();
      ghost var start := Rest();
      var records: seq<Record> := [];
      NoneYet(GetMany(GetRecord, count, start));
      for i := 0 to count
        invariant Valid() && GetMany(GetRecord, count, start) == Prepend(records, GetMany(GetRecord, count - i, Rest()))
      {
        OneMore(GetRecord, count - i, records, Rest());
        var record :- ReadBatchRecord();
        records := records + [record];
      }
      AllRead(GetRecord, records, Rest());
      r := Ok(records);
    }

    method ReadMapField() returns (r: Read<MapField>)
      requires Valid()
      modifies this`pos
      ensures Valid() && Tells(r, GetMapField(old(Rest())))
    {
      hide GetString, GetUint32;
      var field :- ReadString();
      var offset :- ReadUint32();
      var size :- ReadUint32();
      r := Ok(MapField(field, [], offset, size));
    }

    method ReadMapFields() returns (r: Read<seq<MapField>>)
      requires Valid()
      modifies this`pos
      ensures Valid() && Tells(r, GetList(GetMapField, old(Rest())))
    {
      hide GetMapField, GetCount;
      var count :- ReadCount();
      ghost var start := Rest();
      var fields: seq<MapField> := [];
      NoneYet(GetMany(GetMapField, count, start));
      for i := 0 to count
        invariant Valid() && GetMany(GetMapField, count, start) == Prepend(fields, GetMany(GetMapField, count - i, Rest()))
      {
        OneMore(GetMapField, count - i, fields, Rest());
        var field :- ReadMapField();
        fields := fields + [field];
      }
      AllRead(GetMapField, fields, Rest());
      r := Ok(fields);
    }

    method ReadMembers() returns (r: Read<seq<Text>>)
      requires Valid()
      modifies this`pos
      ensures Valid() && Tells(r, GetList(GetString, old(Rest())))
    {
      hide GetString, GetCount;
      var count :- ReadCount();
      ghost var start := Rest();
      var members: seq<Text> := [];
      NoneYet(GetMany(GetString, count, start));
      for i := 0 to count
        invariant Valid() && GetMany(GetString, count, start) == Prepend(members, GetMany(GetString, count - i, Rest()))
      {
        OneMore(GetString, count - i, members, Rest());
        var member :- ReadString();
        members := members + [member];
      }
      AllRead(GetString, members, Rest());
      r := Ok(members);
    }

    method ReadScoredMember() returns (r: Read<ScoredMember>)
      requires Valid()
      modifies this`pos
      ensures Valid() && Tells(r, GetScored(old(Rest())))
    {
      hide GetString, GetUint64;
      var member :- ReadString();
      var bits :- ReadUint64();
      r := Ok(ScoredMember(member, bits));
    }

    method ReadScoredMembers() returns (r: Read<seq<ScoredMember>>)
      requires Valid()
      modifies this`pos
      ensures Valid() && Tells(r, GetList(GetScored, old(Rest())))
    {
      hide GetScored, GetCount;
      var count :- ReadCount();
      ghost var start := Rest();
      var members: seq<ScoredMember> := [];
      NoneYet(GetMany(GetScored, count, start));
      for i := 0 to count
        invariant Valid() && GetMany(GetScored, count, start) == Prepend(members, GetMany(GetScored, count - i, Rest()))
      {
        OneMore(GetScored, count - i, members, Rest());
        var member :- ReadScoredMember();
        members := members + [member];
      }
      AllRead(GetScored, members, Rest());
      r := Ok(members);
    }

    method ReadListValues() returns (r: Read<seq<ListValue>>)
      requires Valid()
      modifies this`pos
      ensures Valid() && Tells(r, GetList(GetListValue, old(Rest())))
    {
      hide GetUint32, GetCount;
      var count :- ReadCount();
      ghost var start := Rest();
      var values: seq<ListValue> := [];
      NoneYet(GetMany(GetListValue, count, start));
      for i := 0 to count
        invariant Valid() && GetMany(GetListValue, count, start) == Prepend(values, GetMany(GetListValue, count - i, Rest()))
      {
        OneMore(GetListValue, count - i, values, Rest());
        var offset :- ReadUint32();
        var size :- ReadUint32();
        values := values + [ListValue([], offset, size)];
      }
      AllRead(GetListValue, values, Rest());
      r := Ok(values);
    }

    method ReadPrimitiveResult() returns (r: Read<PrimitiveResult>)
      requires Valid()
      modifies this`pos
      ensures Valid() && Tells(r, GetResult(old(Rest())))
    {
      hide GetBool, GetRecord, GetUint64, GetUint32, GetList, GetString, GetScored, GetMapField, GetListValue;
      var found :- ReadBool();
      var applied :- ReadBool();
      var record :- ReadBatchRecord();
      var flag :- ReadBool();
      var count :- ReadUint64();
      var offset :- ReadUint32();
      var size :- ReadUint32();
      var fields :- ReadMapFields();
      var members :- ReadMembers();
      var scored :- ReadScoredMembers();
      var values :- ReadListValues();
      r := Ok(PrimitiveResult(record, found, applied, [], flag, count, fields, members, scored, values, offset, size));
    }
  }

  // ---------------------------------------------------------------- payloads

  /** The packing loops: values move from the items to the payload, and an item whose value is out
      of 32-bit reach stops them. */
  method PackItems<T>(c: Carrier<T>, items: seq<T>, start: Text) returns (packed: Option<Packed<T>>)
    ensures packed == Pack(c, items, start)
  {
    var done: Packed<T> := Packed([], start);
    for i := 0 to |items|
      invariant Pack(c, items[..i], start) == Some(done)
    {
      assert items[..i + 1][..i] == items[..i];
      var item := items[i];
      if c.carries(item) {
        if !CheckedRange(|done.payload|, |c.value(item)|) {
          PackFails(c, items, start, i + 1);
          return None;
        }
        done := Packed(done.items + [c.place(item, |done.payload|, |c.value(item)|)], done.payload + c.value(item));
      } else {
        done := Packed(done.items + [c.bare(item)], done.payload);
      }
    }
    assert items[..|items|] == items;
    packed := Some(done);
  }

  lemma {:induction false} PackFails<T>(c: Carrier<T>, items: seq<T>, start: Text, n: nat)
    requires n <= |items| && Pack(c, items[..n], start) == None
    ensures Pack(c, items, start) == None
  {
    if n == |items| {
      assert items[..n] == items;
    } else {
      assert items[..|items| - 1][..n] == items[..n];
      PackFails(c, items[..|items| - 1], start, n);
    }
  }

  method UnpackItems<T>(c: Carrier<T>, items: seq<T>, payload: Text) returns (out: Option<seq<T>>)
    ensures out == Unpack(c, items, payload)
  {
    var done: seq<T> := [];
    for i := 0 to |items|
      invariant Unpack(c, items[..i], payload) == Some(done)
    {
      assert items[..i + 1][..i] == items[..i];
      var item := items[i];
      if c.carries(item) {
        var value := Slice(payload, c.offset(item), c.size(item));
        if value.None? {
          UnpackFails(c, items, payload, i + 1);
          return None;
        }
        item := c.fill(item, value.value);
      }
      done := done + [item];
    }
    assert items[..|items|] == items;
    out := Some(done);
  }

  lemma {:induction false} UnpackFails<T>(c: Carrier<T>, items: seq<T>, payload: Text, n: nat)
    requires n <= |items| && Unpack(c, items[..n], payload) == None
    ensures Unpack(c, items, payload) == None
  {
    if n == |items| {
      assert items[..n] == items;
    } else {
      assert items[..|items| - 1][..n] == items[..n];
      UnpackFails(c, items[..|items| - 1], payload, n);
    }
  }

  /** The encoding loops: a count, then each item. */
  method AppendList<T>(raw: Text, put: T -> Text, items: seq<T>) returns (out: Text)
    ensures out == raw + PutList(put, items)
  {
    out := raw + PutUint64(|items|);
    for i := 0 to |items|
      invariant out + PutMany(put, items[i..]) == raw + PutList(put, items)
    {
      out := out + put(items[i]);
    }
  }

  // ---------------------------------------------------------------- messages

  method EncodeBatchSetRequest(items: seq<SetRequest>) returns (m: Option<Message>)
    ensures m == EncodeBatchSet(items)
  {
    var packed := PackItems(SetCarrier(), items, []);
    if packed.None? {
      return None;
    }
    var raw := AppendList([BINARY_METADATA_VERSION], PutSet, packed.value.items);
    m := Some(Message(raw, packed.value.payload));
  }

  method DecodeBatchSetRequest(m: Message) returns (items: Option<seq<SetRequest>>)
    ensures items == DecodeBatchSet(m)
  {
    hide GetList;
    if Unseal(m.metadata).None? {
      return None;
    }
    var cursor := new MetadataCursor(m.metadata);
    var read := cursor.ReadBatchSetItems();
    if read.Bad? {
      return None;
    }
    var ended := cursor.EnsureEOF();
    if !ended {
      return None;
    }
    items := UnpackItems(SetCarrier(), read.value, m.payload);
  }

  method EncodeBatchGetResponse(records: seq<Record>) returns (m: Option<Message>)
    ensures m == EncodeBatchGet(records)
  {
    var packed := PackItems(RecordCarrier(), records, []);
    if packed.None? {
      return None;
    }
    var raw := AppendList([BINARY_METADATA_VERSION], PutRecord, packed.value.items);
    m := Some(Message(raw, packed.value.payload));
  }

  method DecodeBatchGetResponse(m: Message) returns (records: Option<seq<Record>>)
    ensures records == DecodeBatchGet(m)
  {
    hide GetList;
    if Unseal(m.metadata).None? {
      return None;
    }
    var cursor := new MetadataCursor(m.metadata);
    var read := cursor.ReadBatchRecords();
    if read.Bad? {
      return None;
    }
    var ended := cursor.EnsureEOF();
    if !ended {
      return None;
    }
    records := UnpackItems(RecordCarrier(), read.value, m.payload);
  }

  method EncodePrimitiveResponse(r: PrimitiveResult) returns (m: Option<Message>)
    ensures m == EncodeResult(r)
  {
    hide PutRecord, PutBool, PutUint32, PutUint64, PutList, FieldCarrier, ValueCarrier, PutResult;
    if !CheckedRange(0, |r.value|) {
      return None;
    }
    var fields := PackItems(FieldCarrier(), r.fields, [] + r.value);
    if fields.None? {
      return None;
    }
    var values := PackItems(ValueCarrier(), r.values, fields.value.payload);
    if values.None? {
      return None;
    }
    var packed := r.(value := [], payloadOffset := 0, payloadSize := |r.value|, fields := fields.value.items, values := values.value.items);
    var head := [BINARY_METADATA_VERSION] + PutBool(packed.found) + PutBool(packed.applied) + PutRecord(packed.record) + PutBool(packed.flag)
      + PutUint64(packed.count) + PutUint32(packed.payloadOffset) + PutUint32(packed.payloadSize);
    var raw := AppendList(head, PutMapField, packed.fields);
    raw := AppendList(raw, PutText, packed.members);
    raw := AppendList(raw, PutScored, packed.scored);
    raw := AppendList(raw, PutListValue, packed.values);
    Reassociate(packed);
    m := Some(Message(raw, values.value.payload));
  }

  /** Appending piece by piece writes the result's encoding. */
  lemma Reassociate(r: PrimitiveResult)
    ensures
      var head := [BINARY_METADATA_VERSION] + PutBool(r.found) + PutBool(r.applied) + PutRecord(r.record) + PutBool(r.flag)
        + PutUint64(r.count) + PutUint32(r.payloadOffset) + PutUint32(r.payloadSize);
      head + PutList(PutMapField, r.fields) + PutList(PutText, r.members) + PutList(PutScored, r.scored) + PutList(PutListValue, r.values)
        == Seal(PutResult(r))
  {
    hide PutRecord, PutBool, PutUint32, PutUint64, PutList;
    var a, b, c, d := PutList(PutMapField, r.fields), PutList(PutText, r.members), PutList(PutScored, r.scored), PutList(PutListValue, r.values);
    var head := [BINARY_METADATA_VERSION] + PutBool(r.found) + PutBool(r.applied) + PutRecord(r.record) + PutBool(r.flag)
      + PutUint64(r.count) + PutUint32(r.payloadOffset) + PutUint32(r.payloadSize);
    FourParts(head, a, b, c, d);
    SevenParts([BINARY_METADATA_VERSION], PutBool(r.found), PutBool(r.applied), PutRecord(r.record), PutBool(r.flag),
               PutUint64(r.count), PutUint32(r.payloadOffset), PutUint32(r.payloadSize), PutLists(r));
  }

  lemma FourParts(head: Text, a: Text, b: Text, c: Text, d: Text)
    ensures head + a + b + c + d == head + (a + (b + (c + d)))
  {
  }

  lemma SevenParts(v: Text, a: Text, b: Text, c: Text, d: Text, e: Text, f: Text, g: Text, rest: Text)
    ensures v + a + b + c + d + e + f + g + rest == v + (a + (b + (c + (d + (e + (f + (g + rest)))))))
  {
    FourParts(v, a, b, c, d + (e + (f + (g + rest))));
    FourParts(v + a + b + c, d, e, f, g + rest);
    FourParts(v + a + b + c + d + e, f, g, rest, []);
  }

  method DecodePrimitiveResponse(m: Message) returns (r: Option<PrimitiveResult>)
    ensures r == DecodeResult(m)
  {
    hide GetResult, FieldCarrier, ValueCarrier;
    if Unseal(m.metadata).None? {
      return None;
    }
    var cursor := new MetadataCursor(m.metadata);
    var read := cursor.ReadPrimitiveResult();
    if read.Bad? {
      return None;
    }
    var ended := cursor.EnsureEOF();
    if !ended {
      return None;
    }
    var result := read.value;
    var value := Slice(m.payload, result.payloadOffset, result.payloadSize);
    if value.None? {
      return None;
    }
    var fields := UnpackItems(FieldCarrier(), result.fields, m.payload);
    if fields.None? {
      return None;
    }
    var values := UnpackItems(ValueCarrier(), result.values, m.payload);
    if values.None? {
      return None;
    }
    r := Some(result.(value := value.value, fields := fields.value, values := values.value));
  }
}
