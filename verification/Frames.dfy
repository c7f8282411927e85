/** The TCP frame codec (protocol/frame.go): a fixed 32-byte header, then metadata and payload. */
module Frames {
  import opened Common
  import opened WireFormat

  const MAGIC: nat := 0x4e53_5041
  const VERSION: nat := 1
  const HEADER_SIZE := 32
  const DEFAULT_MAX_METADATA: nat := 0x10_0000
  const DEFAULT_MAX_PAYLOAD: nat := 0x400_0000

  datatype Frame = Frame(flags: nat, op: nat, requestId: nat, routeEpoch: nat, metadata: Text, payload: Text)

  /** Configured limits; zero stands for the default. */
  datatype Codec = Codec(maxMetadata: nat, maxPayload: nat)

  function MetadataLimit(c: Codec): nat { if c.maxMetadata == 0 then DEFAULT_MAX_METADATA else c.maxMetadata }

  function PayloadLimit(c: Codec): nat { if c.maxPayload == 0 then DEFAULT_MAX_PAYLOAD else c.maxPayload }

  predicate ValidLengths(c: Codec, metadata: nat, payload: nat) { metadata <= MetadataLimit(c) && payload <= PayloadLimit(c) }

  predicate Representable(f: Frame) { f.flags < 256 && f.op < 65536 && IsUint64(f.requestId) && IsUint64(f.routeEpoch) }

  function Header(f: Frame): Text {
    BigEndian(MAGIC, 4) + (BigEndian(VERSION, 1) + (BigEndian(f.flags, 1) + (BigEndian(f.op, 2) + (PutUint64(f.requestId)
      + (PutUint64(f.routeEpoch) + (PutUint32(|f.metadata|) + PutUint32(|f.payload|)))))))
  }

  function Encode(c: Codec, f: Frame): Option<Text> {
    if f.op == 0 then None
    else if |f.metadata| > MAX_UINT32 || |f.payload| > MAX_UINT32 then None
    else if !ValidLengths(c, |f.metadata|, |f.payload|) then None
    else Some(Header(f) + (f.metadata + f.payload))
  }

  function GetBytes(raw: Text, size: nat): Parsed<Text> { if |raw| < size then Fail else Got(raw[..size], raw[size..]) }

  /** Reads one frame from a stream and leaves the rest. */
  function Decode(c: Codec, raw: Text): Parsed<Frame> {
    if |raw| < HEADER_SIZE then Fail
    else
      var (magic, a) :- GetFixed(raw, 4);
      var (version, b) :- GetFixed(a, 1);
      var (flags, d) :- GetFixed(b, 1);
      var (op, e) :- GetFixed(d, 2);
      var (requestId, g) :- GetUint64(e);
      var (routeEpoch, h) :- GetUint64(g);
      var (metadataSize, i) :- GetUint32(h);
      var (payloadSize, body) :- GetUint32(i);
      if magic != MAGIC || version != VERSION || !ValidLengths(c, metadataSize, payloadSize) || op == 0 then Fail
      else
        var (metadata, j) :- GetBytes(body, metadataSize);
        var (payload, rest) :- GetBytes(j, payloadSize);
        Got(Frame(flags, op, requestId, routeEpoch, metadata, payload), rest)
  }

  lemma BytesLaw(t: Text, rest: Text)
    ensures GetBytes(t + rest, |t|) == Got(t, rest)
  {
    assert (t + rest)[..|t|] == t && (t + rest)[|t|..] == rest;
  }

  lemma SmallPowers()
    ensures Power(1) == 256 && Power(2) == 65536
  {
  }

  lemma HeaderSize(f: Frame)
    requires Representable(f) && |f.metadata| <= MAX_UINT32 && |f.payload| <= MAX_UINT32
    ensures |Header(f)| == HEADER_SIZE
  {
    Powers();
    SmallPowers();
    BigEndianRoundTrip(MAGIC, 4);
    BigEndianRoundTrip(VERSION, 1);
    BigEndianRoundTrip(f.flags, 1);
    BigEndianRoundTrip(f.op, 2);
    BigEndianRoundTrip(f.requestId, 8);
    BigEndianRoundTrip(f.routeEpoch, 8);
    BigEndianRoundTrip(|f.metadata|, 4);
    BigEndianRoundTrip(|f.payload|, 4);
  }

  /** A frame is encoded exactly when it names an operation and is within the limits, and a codec
      with the same limits then reads it back and leaves the rest of the stream. */
  lemma FrameRoundTrip(c: Codec, f: Frame, rest: Text)
    requires Representable(f)
    ensures Encode(c, f).Some? <==>
              f.op != 0 && |f.metadata| <= MAX_UINT32 && |f.payload| <= MAX_UINT32 && ValidLengths(c, |f.metadata|, |f.payload|)
    ensures Encode(c, f).Some? ==> Decode(c, Encode(c, f).value + rest) == Got(f, rest)
  {
    hide BigEndian, GetFixed, PutUint64, GetUint64, PutUint32, GetUint32, GetBytes;
    if Encode(c, f).Some? {
      HeaderSize(f);
      var j := f.payload + rest;
      var body := f.metadata + j;
      var i := PutUint32(|f.payload|) + body;
      var h := PutUint32(|f.metadata|) + i;
      var g := PutUint64(f.routeEpoch) + h;
      var e := PutUint64(f.requestId) + g;
      var d := BigEndian(f.op, 2) + e;
      var b := BigEndian(f.flags, 1) + d;
      var a := BigEndian(VERSION, 1) + b;
      assert Encode(c, f).value + rest == BigEndian(MAGIC, 4) + a;
      Powers();
      SmallPowers();
      FixedLaw(MAGIC, 4, a);
      FixedLaw(VERSION, 1, b);
      FixedLaw(f.flags, 1, d);
      FixedLaw(f.op, 2, e);
      Uint64Law(f.requestId, g);
      Uint64Law(f.routeEpoch, h);
      Uint32Law(|f.metadata|, i);
      Uint32Law(|f.payload|, body);
      BytesLaw(f.metadata, j);
      BytesLaw(f.payload, rest);
    }
  }
}
