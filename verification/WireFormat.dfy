/** The cache wire format (package cachewire): metadata of length-prefixed strings, varints and
    fixed-width integers, and a payload side buffer addressed by offset and size. */
module WireFormat {
  import opened Common
  import opened Varint
  import opened Entries

  /** A parse: a value and the bytes left, or a failure. */
  datatype Parsed<+T> = Fail | Got(value: T, rest: Text) {
    predicate IsFailure() { Fail? }

    function PropagateFailure<U>(): Parsed<U>
      requires Fail?
    {
      Fail
    }

    function Extract(): (T, Text)
      requires Got?
    {
      (value, rest)
    }
  }

  const MAX_UINT32: nat := 0xffff_ffff
  const UINT64_LIMIT: nat := 0x1_0000_0000_0000_0000
  const BINARY_METADATA_VERSION: byte := 1

  predicate IsUint64(n: nat) { n < UINT64_LIMIT }

  predicate IsUint32(n: nat) { n <= MAX_UINT32 }

  /** Every Go string and slice has a length that fits in an int. */
  predicate IsLength(n: nat) { n <= INT64_MAX }

  // ---------------------------------------------------------------- numbers

  function BigEndian(n: nat, width: nat): Text {
    if width == 0 then [] else BigEndian(n / 256, width - 1) + [(n % 256) as byte]
  }

  function FromBigEndian(raw: Text): nat {
    if raw == [] then 0 else FromBigEndian(raw[..|raw| - 1]) * 256 + raw[|raw| - 1] as nat
  }

  function Power(width: nat): nat { if width == 0 then 1 else 256 * Power(width - 1) }

  lemma {:induction false} BigEndianRoundTrip(n: nat, width: nat)
    requires n < Power(width)
    ensures |BigEndian(n, width)| == width && FromBigEndian(BigEndian(n, width)) == n
  {
    if width > 0 {
      BigEndianRoundTrip(n / 256, width - 1);
      var front := BigEndian(n / 256, width - 1);
      assert BigEndian(n, width)[..width - 1] == front;
    }
  }

  function GetFixed(raw: Text, width: nat): Parsed<nat> {
    if |raw| < width then Fail else Got(FromBigEndian(raw[..width]), raw[width..])
  }

  lemma FixedLaw(n: nat, width: nat, rest: Text)
    requires n < Power(width)
    ensures GetFixed(BigEndian(n, width) + rest, width) == Got(n, rest)
  {
    BigEndianRoundTrip(n, width);
    var raw := BigEndian(n, width) + rest;
    assert raw[..width] == BigEndian(n, width) && raw[width..] == rest;
  }

  function PutUint64(n: nat): Text { BigEndian(n, 8) }

  function GetUint64(raw: Text): Parsed<nat> { GetFixed(raw, 8) }

  function PutUint32(n: nat): Text { BigEndian(n, 4) }

  function GetUint32(raw: Text): Parsed<nat> { GetFixed(raw, 4) }

  lemma Powers()
    ensures Power(4) == MAX_UINT32 + 1 && Power(8) == UINT64_LIMIT
  {
    assert Power(2) == 65536;
    assert Power(4) == 65536 * 65536;
    assert Power(6) == 65536 * 65536 * 65536;
  }

  lemma Uint64Law(n: nat, rest: Text)
    requires IsUint64(n)
    ensures GetUint64(PutUint64(n) + rest) == Got(n, rest) && |PutUint64(n)| == 8
  {
    Powers();
    FixedLaw(n, 8, rest);
    BigEndianRoundTrip(n, 8);
  }

  lemma Uint32Law(n: nat, rest: Text)
    requires IsUint32(n)
    ensures GetUint32(PutUint32(n) + rest) == Got(n, rest)
  {
    Powers();
    FixedLaw(n, 4, rest);
  }

  /** Zigzag: small magnitudes of either sign get small codes. */
  function ZigZag(x: int): nat { if x >= 0 then 2 * x else -2 * x - 1 }

  function UnZigZag(n: nat): int { if n % 2 == 0 then n / 2 else -(n / 2) - 1 }

  function PutInt64(x: int): Text { Uvarint(ZigZag(x)) }

  function GetUvarint(raw: Text): Parsed<nat> {
    match ReadUvarint(raw, 0)
    case None => Fail
    case Some((n, used)) => Got(n, raw[used..])
  }

  function GetInt64(raw: Text): Parsed<int> {
    var (n, rest) :- GetUvarint(raw);
    Got(UnZigZag(n), rest)
  }

  lemma UvarintLaw(n: nat, rest: Text)
    requires IsUint64(n)
    ensures GetUvarint(Uvarint(n) + rest) == Got(n, rest)
  {
    UvarintLimitIs64Bit();
    UvarintRoundTrip(n, 0, rest);
    assert (Uvarint(n) + rest)[|Uvarint(n)|..] == rest;
  }

  lemma Int64Law(x: int, rest: Text)
    requires IsInt64(x)
    ensures GetInt64(PutInt64(x) + rest) == Got(x, rest)
  {
    UvarintLaw(ZigZag(x), rest);
  }

  // ---------------------------------------------------------------- strings, booleans, counts

  function PutBool(b: bool): Text { if b then [1] else [0] }

  function GetBool(raw: Text): Parsed<bool> {
    if raw == [] || raw[0] > 1 then Fail else Got(raw[0] == 1, raw[1..])
  }

  function CheckedLength(size: nat, remaining: nat): Option<nat> {
    if size > INT64_MAX || size > remaining then None else Some(size)
  }

  function GetString(raw: Text): Parsed<Text> {
    var (size, rest) :- GetUvarint(raw);
    match CheckedLength(size, |rest|)
    case None => Fail
    case Some(length) => Got(rest[..length], rest[length..])
  }

  function GetCount(raw: Text): Parsed<nat> {
    var (count, rest) :- GetUint64(raw);
    match CheckedLength(count, |rest|)
    case None => Fail
    case Some(n) => Got(n, rest)
  }

  lemma BoolLaw(b: bool, rest: Text)
    ensures GetBool(PutBool(b) + rest) == Got(b, rest)
  {
    assert (PutBool(b) + rest)[1..] == rest;
  }

  lemma StringLaw(t: Text, rest: Text)
    requires IsLength(|t|)
    ensures GetString(Prefixed(t) + rest) == Got(t, rest)
  {
    assert Prefixed(t) + rest == Uvarint(|t|) + (t + rest);
    UvarintLaw(|t|, t + rest);
    assert (t + rest)[..|t|] == t && (t + rest)[|t|..] == rest;
  }

  lemma CountLaw(n: nat, rest: Text)
    requires IsLength(n) && n <= |rest|
    ensures GetCount(PutUint64(n) + rest) == Got(n, rest)
  {
    Uint64Law(n, rest);
  }

  // ---------------------------------------------------------------- counted lists

  function PutMany<T>(put: T -> Text, xs: seq<T>): Text {
    if xs == [] then [] else put(xs[0]) + PutMany(put, xs[1..])
  }

  function GetMany<T>(get: Text -> Parsed<T>, n: nat, raw: Text): Parsed<seq<T>>
    decreases n
  {
    if n == 0 then Got([], raw)
    else
      var (x, rest) :- get(raw);
      var (xs, left) :- GetMany(get, n - 1, rest);
      Got([x] + xs, left)
  }

  function PutList<T>(put: T -> Text, xs: seq<T>): Text { PutUint64(|xs|) + PutMany(put, xs) }

  function GetList<T>(get: Text -> Parsed<T>, raw: Text): Parsed<seq<T>> {
    var (n, rest) :- GetCount(raw);
    GetMany(get, n, rest)
  }

  /** Reading undoes writing, up to what does not travel, whatever follows; and something is written. */
  ghost predicate Travels<T>(put: T -> Text, get: Text -> Parsed<T>, arrives: T -> T, x: T) {
    |put(x)| > 0 && forall rest :: get(put(x) + rest) == Got(arrives(x), rest)
  }

  function MapSeq<T>(f: T -> T, xs: seq<T>): seq<T> { seq(|xs|, i requires 0 <= i < |xs| => f(xs[i])) }

  lemma {:induction false} ManyLaw<T>(put: T -> Text, get: Text -> Parsed<T>, arrives: T -> T, xs: seq<T>, rest: Text)
    requires forall i :: 0 <= i < |xs| ==> Travels(put, get, arrives, xs[i])
    ensures GetMany(get, |xs|, PutMany(put, xs) + rest) == Got(MapSeq(arrives, xs), rest)
    ensures |PutMany(put, xs)| >= |xs|
  {
    if xs == [] {
      assert PutMany(put, xs) + rest == rest;
    } else {
      ManyLaw(put, get, arrives, xs[1..], rest);
      var tail := PutMany(put, xs[1..]) + rest;
      assert PutMany(put, xs) + rest == put(xs[0]) + tail;
      assert Travels(put, get, arrives, xs[0]);
      assert get(put(xs[0]) + tail) == Got(arrives(xs[0]), tail);
      assert MapSeq(arrives, xs) == [arrives(xs[0])] + MapSeq(arrives, xs[1..]);
    }
  }

  lemma ListLaw<T>(put: T -> Text, get: Text -> Parsed<T>, arrives: T -> T, xs: seq<T>, rest: Text)
    requires IsLength(|xs|) && forall i :: 0 <= i < |xs| ==> Travels(put, get, arrives, xs[i])
    ensures GetList(get, PutList(put, xs) + rest) == Got(MapSeq(arrives, xs), rest)
  {
    ManyLaw(put, get, arrives, xs, rest);
    assert PutList(put, xs) + rest == PutUint64(|xs|) + (PutMany(put, xs) + rest);
    CountLaw(|xs|, PutMany(put, xs) + rest);
  }

  // ---------------------------------------------------------------- requests and records

  datatype SetRequest = SetRequest(
    key: Key, value: Text, routeEpoch: nat, ttlMillis: int, namespaceVersion: nat, spaceVersion: nat, expectedVersion: nat,
    payloadOffset: nat, payloadSize: nat)

  datatype Record = Record(
    found: bool, key: Key, value: Text, version: nat, namespaceVersion: nat, spaceVersion: nat, expireAtUnixMs: int,
    payloadOffset: nat, payloadSize: nat)

  const NOT_FOUND := Record(false, Key([], [], [], []), [], 0, 0, 0, 0, 0, 0)

  predicate KeyFits(k: Key) { IsLength(|k.namespace|) && IsLength(|k.space|) && IsLength(|k.entity|) && IsLength(|k.key|) }

  predicate SetFits(r: SetRequest) {
    && KeyFits(r.key) && IsInt64(r.ttlMillis) && IsUint64(r.namespaceVersion) && IsUint64(r.spaceVersion)
    && IsUint64(r.expectedVersion) && IsUint32(r.payloadOffset) && IsUint32(r.payloadSize)
  }

  predicate RecordFits(r: Record) {
    && KeyFits(r.key) && IsUint64(r.version) && IsUint64(r.namespaceVersion) && IsUint64(r.spaceVersion)
    && IsInt64(r.expireAtUnixMs) && IsUint32(r.payloadOffset) && IsUint32(r.payloadSize)
  }

  function PutKey(k: Key): Text { Prefixed(k.namespace) + (Prefixed(k.space) + (Prefixed(k.entity) + Prefixed(k.key))) }

  function GetKey(raw: Text): Parsed<Key> {
    var (namespace, a) :- GetString(raw);
    var (space, b) :- GetString(a);
    var (entity, c) :- GetString(b);
    var (key, rest) :- GetString(c);
    Got(Key(namespace, space, entity, key), rest)
  }

  lemma KeyLaw(k: Key, rest: Text)
    requires KeyFits(k)
    ensures GetKey(PutKey(k) + rest) == Got(k, rest)
  {
    hide Prefixed, GetString;
    var d := Prefixed(k.key) + rest;
    var c := Prefixed(k.entity) + d;
    var b := Prefixed(k.space) + c;
    assert PutKey(k) + rest == Prefixed(k.namespace) + b;
    StringLaw(k.namespace, b);
    StringLaw(k.space, c);
    StringLaw(k.entity, d);
    StringLaw(k.key, rest);
  }

  function PutSet(r: SetRequest): Text {
    PutKey(r.key) + (PutInt64(r.ttlMillis) + (PutUint64(r.namespaceVersion) + (PutUint64(r.spaceVersion)
      + (PutUint64(r.expectedVersion) + (PutUint32(r.payloadOffset) + PutUint32(r.payloadSize))))))
  }

  function GetSet(raw: Text): Parsed<SetRequest> {
    var (key, a) :- GetKey(raw);
    var (ttl, b) :- GetInt64(a);
    var (namespaceVersion, c) :- GetUint64(b);
    var (spaceVersion, d) :- GetUint64(c);
    var (expected, e) :- GetUint64(d);
    var (offset, f) :- GetUint32(e);
    var (size, rest) :- GetUint32(f);
    Got(SetRequest(key, [], 0, ttl, namespaceVersion, spaceVersion, expected, offset, size), rest)
  }

  /** What of a packed request travels in the metadata. */
  function SetArrives(r: SetRequest): SetRequest { r.(value := [], routeEpoch := 0) }

  lemma SetLaw(r: SetRequest, rest: Text)
    requires SetFits(r)
    ensures GetSet(PutSet(r) + rest) == Got(SetArrives(r), rest)
  {
    hide GetKey, PutKey, GetInt64, PutInt64, GetUint64, PutUint64, GetUint32, PutUint32;
    var f := PutUint32(r.payloadSize) + rest;
    var e := PutUint32(r.payloadOffset) + f;
    var d := PutUint64(r.expectedVersion) + e;
    var c := PutUint64(r.spaceVersion) + d;
    var b := PutUint64(r.namespaceVersion) + c;
    var a := PutInt64(r.ttlMillis) + b;
    assert PutSet(r) + rest == PutKey(r.key) + a;
    KeyLaw(r.key, a);
    Int64Law(r.ttlMillis, b);
    Uint64Law(r.namespaceVersion, c);
    Uint64Law(r.spaceVersion, d);
    Uint64Law(r.expectedVersion, e);
    Uint32Law(r.payloadOffset, f);
    Uint32Law(r.payloadSize, rest);
  }

  function PutRecord(r: Record): Text { if r.found then PutBool(true) + PutFields(r) else PutBool(false) }

  function PutFields(r: Record): Text {
    PutKey(r.key) + (PutUint64(r.version) + (PutUint64(r.namespaceVersion) + (PutUint64(r.spaceVersion)
      + (PutInt64(r.expireAtUnixMs) + (PutUint32(r.payloadOffset) + PutUint32(r.payloadSize))))))
  }

  function GetFields(raw: Text): Parsed<Record> {
    var (key, a) :- GetKey(raw);
    var (version, b) :- GetUint64(a);
    var (namespaceVersion, c) :- GetUint64(b);
    var (spaceVersion, d) :- GetUint64(c);
    var (expireAt, e) :- GetInt64(d);
    var (offset, f) :- GetUint32(e);
    var (size, rest) :- GetUint32(f);
    Got(Record(true, key, [], version, namespaceVersion, spaceVersion, expireAt, offset, size), rest)
  }

  function GetRecord(raw: Text): Parsed<Record> {
    var (found, rest) :- GetBool(raw);
    if found then GetFields(rest) else Got(NOT_FOUND, rest)
  }

  /** A record that was not found arrives empty. */
  function RecordArrives(r: Record): Record { if r.found then r.(value := []) else NOT_FOUND }

  lemma FieldsLaw(r: Record, rest: Text)
    requires RecordFits(r) && r.found
    ensures GetFields(PutFields(r) + rest) == Got(r.(value := []), rest)
  {
    hide GetKey, PutKey, GetInt64, PutInt64, GetUint64, PutUint64, GetUint32, PutUint32;
    var f := PutUint32(r.payloadSize) + rest;
    var e := PutUint32(r.payloadOffset) + f;
    var d := PutInt64(r.expireAtUnixMs) + e;
    var c := PutUint64(r.spaceVersion) + d;
    var b := PutUint64(r.namespaceVersion) + c;
    var a := PutUint64(r.version) + b;
    assert PutFields(r) + rest == PutKey(r.key) + a;
    KeyLaw(r.key, a);
    Uint64Law(r.version, b);
    Uint64Law(r.namespaceVersion, c);
    Uint64Law(r.spaceVersion, d);
    Int64Law(r.expireAtUnixMs, e);
    Uint32Law(r.payloadOffset, f);
    Uint32Law(r.payloadSize, rest);
  }

  lemma RecordLaw(r: Record, rest: Text)
    requires r.found ==> RecordFits(r)
    ensures GetRecord(PutRecord(r) + rest) == Got(RecordArrives(r), rest)
  {
    hide GetFields, PutFields;
    if r.found {
      assert PutRecord(r) + rest == PutBool(true) + (PutFields(r) + rest);
      BoolLaw(true, PutFields(r) + rest);
      FieldsLaw(r, rest);
    } else {
      BoolLaw(false, rest);
    }
  }

  // ---------------------------------------------------------------- primitive results

  datatype MapField = MapField(field: Text, value: Text, payloadOffset: nat, payloadSize: nat)

  /** A float64 score, as its 64 bits. */
  datatype ScoredMember = ScoredMember(member: Text, scoreBits: nat)

  datatype ListValue = ListValue(value: Text, payloadOffset: nat, payloadSize: nat)

  datatype PrimitiveResult = PrimitiveResult(
    record: Record, found: bool, applied: bool, value: Text, flag: bool, count: nat, fields: seq<MapField>, members: seq<Text>,
    scored: seq<ScoredMember>, values: seq<ListValue>, payloadOffset: nat, payloadSize: nat)

  function PutMapField(f: MapField): Text { Prefixed(f.field) + (PutUint32(f.payloadOffset) + PutUint32(f.payloadSize)) }

  function GetMapField(raw: Text): Parsed<MapField> {
    var (field, a) :- GetString(raw);
    var (offset, b) :- GetUint32(a);
    var (size, rest) :- GetUint32(b);
    Got(MapField(field, [], offset, size), rest)
  }

  function MapFieldArrives(f: MapField): MapField { f.(value := []) }

  lemma MapFieldLaw(f: MapField, rest: Text)
    requires IsLength(|f.field|) && IsUint32(f.payloadOffset) && IsUint32(f.payloadSize)
    ensures GetMapField(PutMapField(f) + rest) == Got(MapFieldArrives(f), rest)
  {
    hide Prefixed, GetString, GetUint32, PutUint32;
    var b := PutUint32(f.payloadSize) + rest;
    var a := PutUint32(f.payloadOffset) + b;
    assert PutMapField(f) + rest == Prefixed(f.field) + a;
    StringLaw(f.field, a);
    Uint32Law(f.payloadOffset, b);
    Uint32Law(f.payloadSize, rest);
  }

  function PutScored(m: ScoredMember): Text { Prefixed(m.member) + PutUint64(m.scoreBits) }

  function GetScored(raw: Text): Parsed<ScoredMember> {
    var (member, a) :- GetString(raw);
    var (bits, rest) :- GetUint64(a);
    Got(ScoredMember(member, bits), rest)
  }

  lemma ScoredLaw(m: ScoredMember, rest: Text)
    requires IsLength(|m.member|) && IsUint64(m.scoreBits)
    ensures GetScored(PutScored(m) + rest) == Got(m, rest)
  {
    hide Prefixed, GetString, GetUint64, PutUint64;
    assert PutScored(m) + rest == Prefixed(m.member) + (PutUint64(m.scoreBits) + rest);
    StringLaw(m.member, PutUint64(m.scoreBits) + rest);
    Uint64Law(m.scoreBits, rest);
  }

  function PutListValue(v: ListValue): Text { PutUint32(v.payloadOffset) + PutUint32(v.payloadSize) }

  function GetListValue(raw: Text): Parsed<ListValue> {
    var (offset, a) :- GetUint32(raw);
    var (size, rest) :- GetUint32(a);
    Got(ListValue([], offset, size), rest)
  }

  function ListValueArrives(v: ListValue): ListValue { v.(value := []) }

  lemma ListValueLaw(v: ListValue, rest: Text)
    requires IsUint32(v.payloadOffset) && IsUint32(v.payloadSize)
    ensures GetListValue(PutListValue(v) + rest) == Got(ListValueArrives(v), rest)
  {
    hide GetUint32, PutUint32;
    assert PutListValue(v) + rest == PutUint32(v.payloadOffset) + (PutUint32(v.payloadSize) + rest);
    Uint32Law(v.payloadOffset, PutUint32(v.payloadSize) + rest);
    Uint32Law(v.payloadSize, rest);
  }

  function PutText(t: Text): Text { Prefixed(t) }

  function PutResult(r: PrimitiveResult): Text {
    PutBool(r.found) + (PutBool(r.applied) + (PutRecord(r.record) + (PutBool(r.flag) + (PutUint64(r.count)
      + (PutUint32(r.payloadOffset) + (PutUint32(r.payloadSize) + PutLists(r)))))))
  }

  function PutLists(r: PrimitiveResult): Text {
    PutList(PutMapField, r.fields) + (PutList(PutText, r.members) + (PutList(PutScored, r.scored) + PutList(PutListValue, r.values)))
  }

  function GetResult(raw: Text): Parsed<PrimitiveResult> {
    var (found, a) :- GetBool(raw);
    var (applied, b) :- GetBool(a);
    var (record, c) :- GetRecord(b);
    var (flag, d) :- GetBool(c);
    var (count, e) :- GetUint64(d);
    var (offset, f) :- GetUint32(e);
    var (size, g) :- GetUint32(f);
    var (fields, h) :- GetList(GetMapField, g);
    var (members, i) :- GetList(GetString, h);
    var (scored, j) :- GetList(GetScored, i);
    var (values, rest) :- GetList(GetListValue, j);
    Got(PrimitiveResult(record, found, applied, [], flag, count, fields, members, scored, values, offset, size), rest)
  }

  /** What of a packed result travels in the metadata. */
  function ResultArrives(r: PrimitiveResult): PrimitiveResult {
    r.(value := [], record := RecordArrives(r.record), fields := MapSeq(MapFieldArrives, r.fields), values := MapSeq(ListValueArrives, r.values))
  }

  predicate FieldFits(f: MapField) { IsLength(|f.field|) && IsUint32(f.payloadOffset) && IsUint32(f.payloadSize) }

  predicate ScoredFits(m: ScoredMember) { IsLength(|m.member|) && IsUint64(m.scoreBits) }

  predicate ValueFits(v: ListValue) { IsUint32(v.payloadOffset) && IsUint32(v.payloadSize) }

  predicate ResultFits(r: PrimitiveResult) {
    && (r.record.found ==> RecordFits(r.record)) && IsUint64(r.count) && IsUint32(r.payloadOffset) && IsUint32(r.payloadSize)
    && IsLength(|r.fields|) && IsLength(|r.members|) && IsLength(|r.scored|) && IsLength(|r.values|)
    && (forall i :: 0 <= i < |r.fields| ==> FieldFits(r.fields[i]))
    && (forall i :: 0 <= i < |r.members| ==> IsLength(|r.members[i]|))
    && (forall i :: 0 <= i < |r.scored| ==> ScoredFits(r.scored[i]))
    && (forall i :: 0 <= i < |r.values| ==> ValueFits(r.values[i]))
  }

  function Same<T>(x: T): T { x }

  lemma FieldTravels(f: MapField)
    requires FieldFits(f)
    ensures Travels(PutMapField, GetMapField, MapFieldArrives, f)
  {
    forall rest ensures GetMapField(PutMapField(f) + rest) == Got(MapFieldArrives(f), rest) { MapFieldLaw(f, rest); }
  }

  lemma TextTravels(t: Text)
    requires IsLength(|t|)
    ensures Travels(PutText, GetString, Same<Text>, t)
  {
    forall rest ensures GetString(PutText(t) + rest) == Got(t, rest) { StringLaw(t, rest); }
  }

  lemma ScoredTravels(m: ScoredMember)
    requires ScoredFits(m)
    ensures Travels(PutScored, GetScored, Same<ScoredMember>, m)
  {
    forall rest ensures GetScored(PutScored(m) + rest) == Got(m, rest) { ScoredLaw(m, rest); }
  }

  lemma ValueTravels(v: ListValue)
    requires ValueFits(v)
    ensures Travels(PutListValue, GetListValue, ListValueArrives, v)
  {
    forall rest ensures GetListValue(PutListValue(v) + rest) == Got(ListValueArrives(v), rest) { ListValueLaw(v, rest); }
    assert |PutUint32(v.payloadSize)| == 4 by { Powers(); BigEndianRoundTrip(v.payloadSize, 4); }
  }

  lemma SetTravels(r: SetRequest)
    requires SetFits(r)
    ensures Travels(PutSet, GetSet, SetArrives, r)
  {
    forall rest ensures GetSet(PutSet(r) + rest) == Got(SetArrives(r), rest) { SetLaw(r, rest); }
  }

  lemma RecordTravels(r: Record)
    requires r.found ==> RecordFits(r)
    ensures Travels(PutRecord, GetRecord, RecordArrives, r)
  {
    forall rest ensures GetRecord(PutRecord(r) + rest) == Got(RecordArrives(r), rest) { RecordLaw(r, rest); }
  }

  lemma SameSeq<T>(xs: seq<T>)
    ensures MapSeq(Same<T>, xs) == xs
  {
    assert forall i :: 0 <= i < |xs| ==> MapSeq(Same<T>, xs)[i] == Same(xs[i]) == xs[i];
  }

  lemma ListsLaw(r: PrimitiveResult, rest: Text)
    requires ResultFits(r)
    ensures
      var i := PutList(PutListValue, r.values) + rest;
      var h := PutList(PutScored, r.scored) + i;
      var g := PutList(PutText, r.members) + h;
      && PutLists(r) + rest == PutList(PutMapField, r.fields) + g
      && GetList(GetMapField, PutList(PutMapField, r.fields) + g) == Got(MapSeq(MapFieldArrives, r.fields), g)
      && GetList(GetString, g) == Got(r.members, h)
      && GetList(GetScored, h) == Got(r.scored, i)
      && GetList(GetListValue, i) == Got(MapSeq(ListValueArrives, r.values), rest)
  {
    hide PutList, GetList, Travels;
    var i := PutList(PutListValue, r.values) + rest;
    var h := PutList(PutScored, r.scored) + i;
    var g := PutList(PutText, r.members) + h;
    forall k | 0 <= k < |r.fields| ensures Travels(PutMapField, GetMapField, MapFieldArrives, r.fields[k]) { FieldTravels(r.fields[k]); }
    forall k | 0 <= k < |r.members| ensures Travels(PutText, GetString, Same<Text>, r.members[k]) { TextTravels(r.members[k]); }
    forall k | 0 <= k < |r.scored| ensures Travels(PutScored, GetScored, Same<ScoredMember>, r.scored[k]) { ScoredTravels(r.scored[k]); }
    forall k | 0 <= k < |r.values| ensures Travels(PutListValue, GetListValue, ListValueArrives, r.values[k]) { ValueTravels(r.values[k]); }
    ListLaw(PutMapField, GetMapField, MapFieldArrives, r.fields, g);
    ListLaw(PutText, GetString, Same<Text>, r.members, h);
    ListLaw(PutScored, GetScored, Same<ScoredMember>, r.scored, i);
    ListLaw(PutListValue, GetListValue, ListValueArrives, r.values, rest);
    SameSeq(r.members);
    SameSeq(r.scored);
  }

  lemma ResultLaw(r: PrimitiveResult, rest: Text)
    requires ResultFits(r)
    ensures GetResult(PutResult(r) + rest) == Got(ResultArrives(r), rest)
  {
    hide PutList, GetList, PutLists, PutRecord, GetRecord, PutBool, GetBool, PutUint64, GetUint64, PutUint32, GetUint32, MapSeq, RecordFits;
    var g := PutLists(r) + rest;
    var f := PutUint32(r.payloadSize) + g;
    var e := PutUint32(r.payloadOffset) + f;
    var d := PutUint64(r.count) + e;
    var c := PutBool(r.flag) + d;
    var b := PutRecord(r.record) + c;
    var a := PutBool(r.applied) + b;
    assert PutResult(r) + rest == PutBool(r.found) + a;
    BoolLaw(r.found, a);
    BoolLaw(r.applied, b);
    RecordLaw(r.record, c);
    BoolLaw(r.flag, d);
    Uint64Law(r.count, e);
    Uint32Law(r.payloadOffset, f);
    Uint32Law(r.payloadSize, g);
    ListsLaw(r, rest);
  }
}
