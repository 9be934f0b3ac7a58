/** The binary ASR wire protocol of src/events/vol_stt.ts as pure functions:
    header packing, request frames, response parsing, the reaction of the
    client's message handler to one decoded response, the client's option
    defaults, the full client request and the authentication headers.

    gzip, JSON, UTF-8, URL parsing and HMAC are library calls the model does
    not interpret: they are the fields of a `Library` value passed in. */
module Protocol {
  import opened Wrappers
  import opened Bytes

  // ---------------------------------------------------------------------------
  // Protocol constants (four-bit header fields)

  type Nibble = x: int | 0 <= x < 16

  const PROTOCOL_VERSION: Nibble := 0x1

  // message types
  const CLIENT_FULL_REQUEST: Nibble := 0x1
  const CLIENT_AUDIO_ONLY_REQUEST: Nibble := 0x2
  const SERVER_FULL_RESPONSE: Nibble := 0x9
  const SERVER_ACK: Nibble := 0xB
  const SERVER_ERROR_RESPONSE: Nibble := 0xF

  // message-type-specific flags
  const NO_SEQUENCE: Nibble := 0x0
  const POS_SEQUENCE: Nibble := 0x1
  const NEG_SEQUENCE: Nibble := 0x2
  const NEG_SEQUENCE_1: Nibble := 0x3

  // serialization methods
  const NO_SERIALIZATION: Nibble := 0x0
  const JSON_SERIALIZATION: Nibble := 0x1
  const THRIFT: Nibble := 0x3
  const CUSTOM_TYPE: Nibble := 0xF

  // compression methods
  const NO_COMPRESSION: Nibble := 0x0
  const GZIP: Nibble := 0x1
  const CUSTOM_COMPRESSION: Nibble := 0xF

  /** The `code` the backend sends when a response is not an error. */
  const SUCCESS_CODE: int := 1000

  // ---------------------------------------------------------------------------
  // Response bodies as the handler sees them after JSON.parse

  datatype WireUtterance = WireUtterance(text: string, startTime: int, definite: bool)

  datatype RecognitionResult = RecognitionResult(utterances: Option<seq<WireUtterance>>)

  /** The fields of a parsed JSON response the client reads; an absent field
      (or one of another JSON type, which compares unequal just the same) is None. */
  datatype AsrResponse = AsrResponse(
    reqid: Option<string>,
    code: Option<int>,
    result: Option<seq<RecognitionResult>>)

  /** The transcript item the client publishes: {content, startTime, definite}. */
  datatype Utterance = Utterance(content: string, startTime: int, definite: bool)

  // ---------------------------------------------------------------------------
  // The full client request (constructRequest) and the client's options

  datatype AppParams = AppParams(appid: string, cluster: string, token: string)
  datatype RequestFields = RequestFields(
    reqid: string, nbest: int, workflow: string, showLanguage: bool,
    showUtterances: bool, resultType: Option<string>, sequence: int)
  datatype AudioParams = AudioParams(
    format: string, rate: int, language: string, bits: int, channel: int, codec: string)
  datatype RequestParams = RequestParams(
    app: AppParams, uid: string, request: RequestFields, audio: AudioParams)

  /** Library calls the client makes, left uninterpreted. A None result is a
      call that throws (gunzipSync on bad data, JSON.parse on bad text). */
  datatype Library = Library(
    gzip: seq<Byte> -> seq<Byte>,
    gunzip: seq<Byte> -> Option<seq<Byte>>,
    encodeRequest: RequestParams -> seq<Byte>,
    parseJson: seq<Byte> -> Option<AsrResponse>,
    decodeUtf8: seq<Byte> -> string,
    encodeUtf8: string -> seq<Byte>,
    urlPathname: string -> string,
    hmacSha256Base64Url: (string, seq<Byte>) -> string,
    transcodeToWav: seq<Byte> -> Option<seq<Byte>>)

  // ---------------------------------------------------------------------------
  // Header packing (generateHeader)

  /** One header octet: `(hi << 4) | lo`, stored into a Buffer (so taken mod 256). */
  function PackOctet(hi: Nibble, lo: nat): Byte
  {
    BitOr(hi * 16, lo) % 256
  }

  lemma PackNibbles(hi: Nibble, lo: nat)
    ensures lo < 16 ==> PackOctet(hi, lo) == hi * 16 + lo
  {
    if lo < 16 { BitOrDisjoint(hi, lo, 4); }
  }

  /** generateHeader: four packed octets followed by the extension bytes; the
      header size counts 4-byte words, extension included. */
  function GenerateHeader(version: Nibble, messageType: Nibble, flags: Nibble,
                          serialMethod: Nibble, compression: Nibble,
                          reserved: Byte, extension: seq<Byte>): (h: seq<Byte>)
    ensures |h| == 4 + |extension|
    ensures h[4..] == extension
    ensures |extension| < 60 ==> h[0] == version * 16 + |extension| / 4 + 1
    ensures h[1] == messageType * 16 + flags
    ensures h[2] == serialMethod * 16 + compression
    ensures h[3] == reserved
  {
    PackNibbles(messageType, flags);
    PackNibbles(serialMethod, compression);
    PackNibbles(version, |extension| / 4 + 1);
    [PackOctet(version, |extension| / 4 + 1), PackOctet(messageType, flags),
     PackOctet(serialMethod, compression), reserved] + extension
  }

  function FullDefaultHeader(): seq<Byte>
  {
    GenerateHeader(PROTOCOL_VERSION, CLIENT_FULL_REQUEST, NO_SEQUENCE, JSON_SERIALIZATION, GZIP, 0, [])
  }

  function AudioDefaultHeader(): seq<Byte>
  {
    GenerateHeader(PROTOCOL_VERSION, CLIENT_AUDIO_ONLY_REQUEST, NO_SEQUENCE, JSON_SERIALIZATION, GZIP, 0, [])
  }

  function LastAudioDefaultHeader(): seq<Byte>
  {
    GenerateHeader(PROTOCOL_VERSION, CLIENT_AUDIO_ONLY_REQUEST, NEG_SEQUENCE, JSON_SERIALIZATION, GZIP, 0, [])
  }

  /** The three default headers are fixed octet strings. The audio headers keep
      JSON serialization in their third octet although their payload is raw audio. */
  lemma DefaultHeaderBytes()
    ensures FullDefaultHeader() == [0x11, 0x10, 0x11, 0x00]
    ensures AudioDefaultHeader() == [0x11, 0x20, 0x11, 0x00]
    ensures LastAudioDefaultHeader() == [0x11, 0x22, 0x11, 0x00]
  {
  }

  lemma HeaderExample()
    ensures GenerateHeader(1, 0x2, 0x2, 0x0, 0x1, 0, []) == [0x11, 0x22, 0x01, 0x00]
  {
  }

  // ---------------------------------------------------------------------------
  // Header decoding (first half of parseResponse)

  /** `res[i]` as the bit operations see it: a missing octet reads as
      `undefined`, which `>>` and `&` turn into 0. */
  function At(res: seq<Byte>, i: nat): Byte
  {
    if i < |res| then res[i] else 0
  }

  datatype HeaderFields = HeaderFields(
    version: Nibble, headerSize: Nibble, messageType: Nibble, flags: Nibble,
    serialization: Nibble, compression: Nibble, reserved: Byte)

  function DecodeHeader(res: seq<Byte>): HeaderFields
  {
    HeaderFields(At(res, 0) / 16, At(res, 0) % 16, At(res, 1) / 16, At(res, 1) % 16,
                 At(res, 2) / 16, At(res, 2) % 16, At(res, 3))
  }

  /** `res.slice(header_size * 4)`: slicing past the end gives an empty buffer. */
  function Payload(res: seq<Byte>): (p: seq<Byte>)
    ensures |p| <= |res| && p == res[|res| - |p|..]
    ensures DecodeHeader(res).headerSize * 4 <= |res| ==> p == res[DecodeHeader(res).headerSize * 4..]
    ensures DecodeHeader(res).headerSize * 4 > |res| ==> p == []
  {
    var start := DecodeHeader(res).headerSize * 4;
    if start <= |res| then res[start..] else []
  }

  /** Decoding the fields of a generated header returns the nibbles and the
      reserved octet it was built from; when the extension is a whole number of
      4-byte words the payload starts right after it. */
  lemma DecodeGeneratedHeader(version: Nibble, messageType: Nibble, flags: Nibble,
                              serialMethod: Nibble, compression: Nibble,
                              reserved: Byte, extension: seq<Byte>, rest: seq<Byte>)
    requires |extension| < 60
    ensures var res := GenerateHeader(version, messageType, flags, serialMethod, compression, reserved, extension) + rest;
      && DecodeHeader(res) == HeaderFields(version, |extension| / 4 + 1, messageType, flags,
                                           serialMethod, compression, reserved)
      && (|extension| % 4 == 0 ==> Payload(res) == rest)
  {
    var h := GenerateHeader(version, messageType, flags, serialMethod, compression, reserved, extension);
    var res := h + rest;
    var size := |extension| / 4 + 1;
    assert At(res, 0) == version * 16 + size;
    assert At(res, 1) == messageType * 16 + flags;
    assert At(res, 2) == serialMethod * 16 + compression;
    assert At(res, 3) == reserved;
    SplitOctet(version, size);
    SplitOctet(messageType, flags);
    SplitOctet(serialMethod, compression);
    if |extension| % 4 == 0 {
      WordsToBytes(|extension|);
      assert res[|h|..] == rest;
    }
  }

  lemma SplitOctet(hi: Nibble, lo: Nibble)
    ensures (hi * 16 + lo) / 16 == hi && (hi * 16 + lo) % 16 == lo
  {
  }

  lemma WordsToBytes(n: nat)
    requires n % 4 == 0
    ensures (n / 4 + 1) * 4 == n + 4
  {
  }

  // ---------------------------------------------------------------------------
  // Request frames (init / execute)

  /** A frame whose 4-byte length field at offset 4 holds the number of bytes
      after it: the invariant every frame the client sends satisfies. */
  ghost predicate WellFramed(f: seq<Byte>)
  {
    |f| >= 8 && ReadUInt32BE(f, 4) == |f| - 8
  }

  /** Buffer.concat([header, alloc(4), payload]) followed by
      writeUInt32BE(payload.length, 4), which throws when the length does not
      fit in 32 bits. */
  function BuildFrame(header: seq<Byte>, payload: seq<Byte>): (r: Option<seq<Byte>>)
    ensures r.Some? <==> |payload| < TWO_32 && |header| + |payload| >= 4
    ensures r.Some? ==> |r.value| == |header| + 4 + |payload|
    ensures r.Some? && |header| == 4 ==>
      && r.value[..4] == header
      && ReadUInt32BE(r.value, 4) == |payload|
      && r.value[8..] == payload
      && WellFramed(r.value)
  {
    var buf := header + [0, 0, 0, 0] + payload;
    if |payload| < TWO_32 && |buf| >= 8 then
      var f := buf[..4] + BE32(|payload|) + buf[8..];
      ReadBE32(|payload|, buf[..4], buf[8..]);
      Some(f)
    else
      None
  }

  /** The full client request sent on open: default header, length, and the
      gzip of the JSON request. */
  function FullClientRequest(cfg: ClientConfig, reqid: string, lib: Library): Option<seq<Byte>>
  {
    BuildFrame(FullDefaultHeader(), lib.gzip(lib.encodeRequest(ConstructRequest(cfg, reqid))))
  }

  /** The audio-only request `execute` sends: the plain audio header, the
      length, and the gzip of the chunk. */
  function AudioOnlyRequest(data: seq<Byte>, lib: Library): Option<seq<Byte>>
  {
    BuildFrame(AudioDefaultHeader(), lib.gzip(data))
  }

  /** Every frame `execute` sends is an audio-only request with NO_SEQUENCE:
      the NEG_SEQUENCE flag that marks the last chunk is never sent; its length
      field is the compressed length and the compressed chunk follows it. */
  lemma AudioFrameNeverLast(data: seq<Byte>, lib: Library)
    requires AudioOnlyRequest(data, lib).Some?
    ensures var f := AudioOnlyRequest(data, lib).value;
      && f[..4] == [0x11, 0x20, 0x11, 0x00]
      && DecodeHeader(f).messageType == CLIENT_AUDIO_ONLY_REQUEST
      && DecodeHeader(f).flags == NO_SEQUENCE
      && DecodeHeader(f).flags != NEG_SEQUENCE
      && ReadUInt32BE(f, 4) == |lib.gzip(data)|
      && f[8..] == lib.gzip(data)
  {
    DefaultHeaderBytes();
    var f := AudioOnlyRequest(data, lib).value;
    assert f[0] == 0x11 && f[1] == 0x20;
  }

  /** The full client request carries the full-request header, NO_SEQUENCE,
      JSON and gzip, and a length field equal to the compressed payload length. */
  lemma FullRequestLayout(cfg: ClientConfig, reqid: string, lib: Library)
    requires FullClientRequest(cfg, reqid, lib).Some?
    ensures var f := FullClientRequest(cfg, reqid, lib).value;
      var z := lib.gzip(lib.encodeRequest(ConstructRequest(cfg, reqid)));
      && f[..4] == [0x11, 0x10, 0x11, 0x00]
      && DecodeHeader(f) == HeaderFields(PROTOCOL_VERSION, 1, CLIENT_FULL_REQUEST, NO_SEQUENCE,
                                         JSON_SERIALIZATION, GZIP, 0)
      && ReadUInt32BE(f, 4) == |z|
      && f[8..] == z
  {
    DefaultHeaderBytes();
    var f := FullClientRequest(cfg, reqid, lib).value;
    assert f[0] == 0x11 && f[1] == 0x10 && f[2] == 0x11 && f[3] == 0x00;
  }

  // ---------------------------------------------------------------------------
  // Response parsing (parseResponse)

  datatype Body = JsonBody(response: AsrResponse) | TextBody(text: string) | RawBody(bytes: seq<Byte>)

  /** The object parseResponse returns: `seq` for an ACK, `code` for an error
      response, and `payload_msg` with `payload_size` only when a body was read. */
  datatype ParsedResponse = ParsedResponse(
    ackSeq: Option<int>, code: Option<U32>, payloadMsg: Option<Body>, payloadSize: Option<int>)

  /** What makes parseResponse throw: a fixed field read past the end of the
      payload (RangeError), or gunzip / JSON.parse rejecting the body. */
  datatype DecodeError = OutOfRange | GunzipFailed | JsonParseFailed

  const NoFields: ParsedResponse := ParsedResponse(None, None, None, None)

  /** Second half of parseResponse: gunzip when the header says GZIP, then JSON
      or UTF-8 text according to the serialization nibble. */
  function DecodeBody(h: HeaderFields, size: int, body: seq<Byte>, ackSeq: Option<int>,
                      code: Option<U32>, lib: Library): (r: Result<ParsedResponse, DecodeError>)
    ensures r.Success? ==> r.value == ParsedResponse(ackSeq, code, r.value.payloadMsg, Some(size))
    ensures r.Success? ==> r.value.payloadMsg.Some?
    ensures r.Success? && r.value.payloadMsg.value.JsonBody? <==>
              r.Success? && h.serialization == JSON_SERIALIZATION
    ensures h.compression != GZIP && h.serialization == NO_SERIALIZATION ==>
              r == Success(ParsedResponse(ackSeq, code, Some(RawBody(body)), Some(size)))
    ensures r.Failure? ==> r.error != OutOfRange
    ensures h.compression == GZIP ==> (r == Failure(GunzipFailed) <==> lib.gunzip(body).None?)
    ensures var u := if h.compression == GZIP then lib.gunzip(body) else Some(body);
      && (u.Some? && h.serialization == JSON_SERIALIZATION ==>
            && (r == Failure(JsonParseFailed) <==> lib.parseJson(u.value).None?)
            && (lib.parseJson(u.value).Some? ==>
                  r == Success(ParsedResponse(ackSeq, code, Some(JsonBody(lib.parseJson(u.value).value)), Some(size)))))
      && (u.Some? && h.serialization != JSON_SERIALIZATION && h.serialization != NO_SERIALIZATION ==>
            r == Success(ParsedResponse(ackSeq, code, Some(TextBody(lib.decodeUtf8(u.value))), Some(size))))
      && (u.Some? && h.serialization == NO_SERIALIZATION ==>
            r == Success(ParsedResponse(ackSeq, code, Some(RawBody(u.value)), Some(size))))
  {
    var unzipped := if h.compression == GZIP then lib.gunzip(body) else Some(body);
    if unzipped.None? then Failure(GunzipFailed)
    else if h.serialization == JSON_SERIALIZATION then
      match lib.parseJson(unzipped.value)
      case None => Failure(JsonParseFailed)
      case Some(v) => Success(ParsedResponse(ackSeq, code, Some(JsonBody(v)), Some(size)))
    else if h.serialization != NO_SERIALIZATION then
      Success(ParsedResponse(ackSeq, code, Some(TextBody(lib.decodeUtf8(unzipped.value))), Some(size)))
    else
      Success(ParsedResponse(ackSeq, code, Some(RawBody(unzipped.value)), Some(size)))
  }

  function ParseResponse(res: seq<Byte>, lib: Library): (r: Result<ParsedResponse, DecodeError>)
    ensures var mt := DecodeHeader(res).messageType; var n := |Payload(res)|;
      && (r == Failure(OutOfRange) <==>
            ((mt == SERVER_FULL_RESPONSE || mt == SERVER_ACK) && n < 4)
            || (mt == SERVER_ERROR_RESPONSE && n < 8))
      && (mt != SERVER_FULL_RESPONSE && mt != SERVER_ACK && mt != SERVER_ERROR_RESPONSE ==>
            r == Success(NoFields))
      && (r.Success? ==>
            && (r.value.ackSeq.Some? <==> mt == SERVER_ACK)
            && (r.value.code.Some? <==> mt == SERVER_ERROR_RESPONSE)
            && (r.value.payloadMsg.Some? <==> r.value.payloadSize.Some?)
            && (r.value.payloadMsg.None? <==>
                  (mt != SERVER_FULL_RESPONSE && mt != SERVER_ERROR_RESPONSE && (mt != SERVER_ACK || n < 8))))
      && (r.Success? && mt == SERVER_FULL_RESPONSE ==>
            r.value.payloadSize == Some(ReadInt32BE(Payload(res), 0)))
      && (r.Success? && mt == SERVER_ACK ==>
            && r.value.ackSeq == Some(ReadInt32BE(Payload(res), 0))
            && (n >= 8 ==> r.value.payloadSize == Some(ReadUInt32BE(Payload(res), 4))))
      && (r.Success? && mt == SERVER_ERROR_RESPONSE ==>
            && r.value.code == Some(ReadUInt32BE(Payload(res), 0))
            && r.value.payloadSize == Some(ReadUInt32BE(Payload(res), 4)))
  {
    var h := DecodeHeader(res);
    var payload := Payload(res);
    if h.messageType == SERVER_FULL_RESPONSE then
      if |payload| < 4 then Failure(OutOfRange)
      else DecodeBody(h, ReadInt32BE(payload, 0), payload[4..], None, None, lib)
    else if h.messageType == SERVER_ACK then
      if |payload| < 4 then Failure(OutOfRange)
      else if |payload| >= 8 then
        DecodeBody(h, ReadUInt32BE(payload, 4), payload[8..], Some(ReadInt32BE(payload, 0)), None, lib)
      else Success(ParsedResponse(Some(ReadInt32BE(payload, 0)), None, None, None))
    else if h.messageType == SERVER_ERROR_RESPONSE then
      if |payload| < 8 then Failure(OutOfRange)
      else DecodeBody(h, ReadUInt32BE(payload, 4), payload[8..], None, Some(ReadUInt32BE(payload, 0)), lib)
    else
      Success(NoFields)
  }

  /** The fixed fields each message type reads from a 4-octet-header frame. The
      full response's size is the signed value of its first four payload octets
      and its body is everything after them, whatever that size says; an ACK
      reads a signed sequence number and, given eight octets, an unsigned size;
      an error response reads an unsigned code and an unsigned size. */
  lemma ParseFixedFields(hdr: seq<Byte>, fields: seq<Byte>, body: seq<Byte>, lib: Library)
    requires |hdr| == 4 && DecodeHeader(hdr).headerSize == 1
    requires |fields| == 8
    requires DecodeHeader(hdr).compression != GZIP
    requires DecodeHeader(hdr).serialization == NO_SERIALIZATION
    ensures var mt := DecodeHeader(hdr).messageType;
      && (mt == SERVER_FULL_RESPONSE ==>
            ParseResponse(hdr + fields[..4] + body, lib)
              == Success(ParsedResponse(None, None, Some(RawBody(body)), Some(ReadInt32BE(fields, 0)))))
      && (mt == SERVER_ACK ==>
            ParseResponse(hdr + fields + body, lib)
              == Success(ParsedResponse(Some(ReadInt32BE(fields, 0)), None, Some(RawBody(body)),
                                        Some(ReadUInt32BE(fields, 4)))))
      && (mt == SERVER_ERROR_RESPONSE ==>
            ParseResponse(hdr + fields + body, lib)
              == Success(ParsedResponse(None, Some(ReadUInt32BE(fields, 0)), Some(RawBody(body)),
                                        Some(ReadUInt32BE(fields, 4)))))
  {
    var r1 := hdr + fields[..4] + body;
    assert DecodeHeader(r1) == DecodeHeader(hdr) by {
      assert r1[0] == hdr[0] && r1[1] == hdr[1] && r1[2] == hdr[2] && r1[3] == hdr[3];
    }
    assert Payload(r1) == fields[..4] + body by { assert r1[4..] == fields[..4] + body; }
    assert (fields[..4] + body)[4..] == body;
    var r2 := hdr + fields + body;
    assert DecodeHeader(r2) == DecodeHeader(hdr) by {
      assert r2[0] == hdr[0] && r2[1] == hdr[1] && r2[2] == hdr[2] && r2[3] == hdr[3];
    }
    assert Payload(r2) == fields + body by { assert r2[4..] == fields + body; }
    assert (fields + body)[8..] == body;
  }

  /** An ACK of fewer than eight payload octets carries only its sequence number. */
  lemma ShortAckHasNoBody(hdr: seq<Byte>, fields: seq<Byte>, lib: Library)
    requires |hdr| == 4 && DecodeHeader(hdr).headerSize == 1
    requires DecodeHeader(hdr).messageType == SERVER_ACK
    requires 4 <= |fields| < 8
    ensures ParseResponse(hdr + fields, lib) == Success(ParsedResponse(Some(ReadInt32BE(fields, 0)), None, None, None))
  {
    var r := hdr + fields;
    assert DecodeHeader(r) == DecodeHeader(hdr) by {
      assert r[0] == hdr[0] && r[1] == hdr[1] && r[2] == hdr[2] && r[3] == hdr[3];
    }
    assert Payload(r) == fields by { assert r[4..] == fields; }
  }

  /** Round trip: a full server response framed like the client's own requests
      (default header fields, 4-octet length, gzip of the JSON) decodes back to
      the response that was serialized, given that gunzip undoes gzip and
      JSON.parse undoes the serializer. */
  lemma FullResponseRoundTrip(v: AsrResponse, encode: AsrResponse -> seq<Byte>, lib: Library)
    requires forall b :: lib.gunzip(lib.gzip(b)) == Some(b)
    requires forall x :: lib.parseJson(encode(x)) == Some(x)
    requires |lib.gzip(encode(v))| < TWO_31
    ensures var z := lib.gzip(encode(v));
      var frame := GenerateHeader(PROTOCOL_VERSION, SERVER_FULL_RESPONSE, NO_SEQUENCE,
                                  JSON_SERIALIZATION, GZIP, 0, []) + BE32(|z|) + z;
      ParseResponse(frame, lib) == Success(ParsedResponse(None, None, Some(JsonBody(v)), Some(|z|)))
  {
    var z := lib.gzip(encode(v));
    var hdr := GenerateHeader(PROTOCOL_VERSION, SERVER_FULL_RESPONSE, NO_SEQUENCE, JSON_SERIALIZATION, GZIP, 0, []);
    var frame := hdr + BE32(|z|) + z;
    DecodeGeneratedHeader(PROTOCOL_VERSION, SERVER_FULL_RESPONSE, NO_SEQUENCE, JSON_SERIALIZATION, GZIP, 0, [], BE32(|z|) + z);
    assert frame == hdr + (BE32(|z|) + z);
    var payload := Payload(frame);
    assert payload == BE32(|z|) + z;
    ReadBE32(|z|, [], z);
    assert [] + BE32(|z|) + z == payload;
    assert ReadInt32BE(payload, 0) == |z|;
    assert payload[4..] == z;
  }

  // ---------------------------------------------------------------------------
  // The client's message handler (ws.on('message')), its pure part

  function UtterancesOf(r: RecognitionResult): seq<WireUtterance>
  {
    if r.utterances.Some? then r.utterances.value else []
  }

  function ToUtterance(w: WireUtterance): Utterance
  {
    Utterance(w.text, w.startTime, w.definite)
  }

  function MapUtterances(ws: seq<WireUtterance>): (us: seq<Utterance>)
    ensures |us| == |ws|
    ensures forall i {:trigger us[i]} :: 0 <= i < |ws| ==> us[i] == ToUtterance(ws[i])
  {
    seq(|ws|, i requires 0 <= i < |ws| => ToUtterance(ws[i]))
  }

  /** `result.map(item => item.utterances ?? []).flat()` mapped to
      {content, startTime, definite}. */
  function Flatten(rs: seq<RecognitionResult>): seq<Utterance>
  {
    if rs == [] then [] else MapUtterances(UtterancesOf(rs[0])) + Flatten(rs[1..])
  }

  /** The number of utterances in the first k results. */
  function CountBefore(rs: seq<RecognitionResult>, k: nat): nat
    requires k <= |rs|
  {
    if k == 0 then 0 else CountBefore(rs, k - 1) + |UtterancesOf(rs[k - 1])|
  }

  /** Flattening keeps the order of results: it distributes over concatenation. */
  lemma {:induction false} FlattenAppend(a: seq<RecognitionResult>, b: seq<RecognitionResult>)
    ensures Flatten(a + b) == Flatten(a) + Flatten(b)
  {
    if a == [] {
      assert a + b == b;
    } else {
      var h := MapUtterances(UtterancesOf(a[0]));
      assert (a + b)[0] == a[0];
      assert (a + b)[1..] == a[1..] + b;
      assert Flatten(a + b) == h + Flatten(a[1..] + b);
      FlattenAppend(a[1..], b);
      assert Flatten(a) == h + Flatten(a[1..]);
      assert h + (Flatten(a[1..]) + Flatten(b)) == (h + Flatten(a[1..])) + Flatten(b);
    }
  }

  /** Position by position: utterance j of result i lands at CountBefore(rs, i) + j,
      and nothing else is in the flattened list. */
  lemma {:induction false} FlattenAt(rs: seq<RecognitionResult>, i: nat, j: nat)
    requires i < |rs| && j < |UtterancesOf(rs[i])|
    ensures |Flatten(rs)| == CountBefore(rs, |rs|)
    ensures CountBefore(rs, i) + j < |Flatten(rs)|
    ensures Flatten(rs)[CountBefore(rs, i) + j] == ToUtterance(UtterancesOf(rs[i])[j])
    decreases |rs|, 1
  {
    FlattenLength(rs);
    var n := |rs|;
    if i < n - 1 {
      FlattenAtFront(rs, i, j);
    } else {
      FlattenLength(rs[..n - 1]);
      CountBeforeOfPrefix(rs, n - 1, n - 1);
      assert |Flatten(rs[..n - 1])| == CountBefore(rs, i);
      FlattenAtLast(rs, j);
    }
  }

  /** An utterance of an earlier result keeps its place when a result is added. */
  lemma {:induction false} FlattenAtFront(rs: seq<RecognitionResult>, i: nat, j: nat)
    requires i < |rs| - 1 && j < |UtterancesOf(rs[i])|
    ensures CountBefore(rs, i) + j < |Flatten(rs)|
    ensures Flatten(rs)[CountBefore(rs, i) + j] == ToUtterance(UtterancesOf(rs[i])[j])
    decreases |rs|, 0
  {
    var n := |rs|;
    var front := rs[..n - 1];
    var whole := Flatten(front);
    var tail := MapUtterances(UtterancesOf(rs[n - 1]));
    assert front[i] == rs[i];
    FlattenAt(front, i, j);
    CountBeforeOfPrefix(rs, n - 1, i);
    var idx := CountBefore(front, i) + j;
    assert idx < |whole| && whole[idx] == ToUtterance(UtterancesOf(rs[i])[j]);
    FlattenSnoc(rs);
    assert Flatten(rs) == whole + tail;
    assert (whole + tail)[idx] == whole[idx];
  }

  /** The utterances of the last result follow everything before it. */
  lemma FlattenAtLast(rs: seq<RecognitionResult>, j: nat)
    requires rs != [] && j < |UtterancesOf(rs[|rs| - 1])|
    ensures |Flatten(rs[..|rs| - 1])| + j < |Flatten(rs)|
    ensures Flatten(rs)[|Flatten(rs[..|rs| - 1])| + j] == ToUtterance(UtterancesOf(rs[|rs| - 1])[j])
  {
    var n := |rs|;
    var whole := Flatten(rs[..n - 1]);
    var tail := MapUtterances(UtterancesOf(rs[n - 1]));
    FlattenSnoc(rs);
    assert (whole + tail)[|whole| + j] == tail[j];
  }

  /** Flattening a list ends with the utterances of its last result. */
  lemma FlattenSnoc(rs: seq<RecognitionResult>)
    requires rs != []
    ensures Flatten(rs) == Flatten(rs[..|rs| - 1]) + MapUtterances(UtterancesOf(rs[|rs| - 1]))
  {
    var n := |rs|;
    var front, last := rs[..n - 1], [rs[n - 1]];
    assert front + last == rs;
    FlattenAppend(front, last);
    assert last[1..] == [];
    assert Flatten(last) == MapUtterances(UtterancesOf(rs[n - 1])) + Flatten(last[1..]);
  }

  lemma {:induction false} FlattenLength(rs: seq<RecognitionResult>)
    ensures |Flatten(rs)| == CountBefore(rs, |rs|)
  {
    if rs != [] {
      var n := |rs|;
      FlattenSnoc(rs);
      FlattenLength(rs[..n - 1]);
      CountBeforeOfPrefix(rs, n - 1, n - 1);
    }
  }

  lemma {:induction false} CountBeforeOfPrefix(rs: seq<RecognitionResult>, m: nat, k: nat)
    requires k <= m <= |rs|
    ensures CountBefore(rs[..m], k) == CountBefore(rs, k)
    decreases k
  {
    if k > 0 {
      assert rs[..m][k - 1] == rs[k - 1];
      CountBeforeOfPrefix(rs, m, k - 1);
    }
  }

  /** The results list the handler reads: `response?.payload_msg?.result ?? []`. */
  function ResultsOf(resp: ParsedResponse): seq<RecognitionResult>
  {
    match resp.payloadMsg
    case Some(JsonBody(v)) => if v.result.Some? then v.result.value else []
    case _ => []
  }

  /** What one decoded response makes the handler do. */
  datatype Reaction = Reaction(
    response: ParsedResponse,
    resolvesReady: bool,
    messages: seq<Utterance>,
    closes: bool)

  /** The ready promise is resolved only by a JSON body echoing the session's
      reqid; the flattened utterances are always published (even when empty);
      the socket is closed when a body is present whose code is not the success
      code (a body that is not JSON has no code at all). */
  function React(resp: ParsedResponse, reqid: string): (r: Reaction)
    ensures r.response == resp
    ensures r.resolvesReady <==> exists v :: resp.payloadMsg == Some(JsonBody(v)) && v.reqid == Some(reqid)
    ensures r.closes <==> resp.payloadMsg.Some? && !(exists v :: resp.payloadMsg == Some(JsonBody(v)) && v.code == Some(SUCCESS_CODE))
    ensures r.messages == Flatten(ResultsOf(resp))
    ensures resp.payloadMsg.None? ==> r.messages == [] && !r.closes && !r.resolvesReady
  {
    var ready := match resp.payloadMsg
      case Some(JsonBody(v)) => v.reqid == Some(reqid)
      case _ => false;
    var ok := match resp.payloadMsg
      case Some(JsonBody(v)) => v.code == Some(SUCCESS_CODE)
      case _ => false;
    Reaction(resp, ready, Flatten(ResultsOf(resp)), resp.payloadMsg.Some? && !ok)
  }

  /** parseResponse followed by React; a parse that throws leaves the handler
      before it publishes anything. */
  function HandleMessage(data: seq<Byte>, reqid: string, lib: Library): Result<Reaction, DecodeError>
  {
    match ParseResponse(data, lib)
    case Failure(e) => Failure(e)
    case Success(resp) => Success(React(resp, reqid))
  }

  /** The backend's reply to the full client request, echoing its reqid with the
      success code, resolves ready, publishes its utterances and keeps the socket open. */
  lemma EchoedReqidResolvesReady(reqid: string, results: seq<RecognitionResult>, size: int)
    ensures var resp := ParsedResponse(None, None, Some(JsonBody(AsrResponse(Some(reqid), Some(SUCCESS_CODE), Some(results)))), Some(size));
      React(resp, reqid) == Reaction(resp, true, Flatten(results), false)
  {
  }

  /** Whatever the reply (success, error code, another reqid), every utterance
      of every result is published, mapped, at its place in result order. */
  lemma ReactPublishesEveryResult(resp: ParsedResponse, reqid: string, i: nat, j: nat)
    requires i < |ResultsOf(resp)| && j < |UtterancesOf(ResultsOf(resp)[i])|
    ensures var rs := ResultsOf(resp); var ms := React(resp, reqid).messages;
      && |ms| == CountBefore(rs, |rs|)
      && CountBefore(rs, i) + j < |ms|
      && ms[CountBefore(rs, i) + j] == ToUtterance(UtterancesOf(rs[i])[j])
  {
    FlattenAt(ResultsOf(resp), i, j);
  }

  // ---------------------------------------------------------------------------
  // Client options (the constructor's defaults) and constructRequest

  datatype AsrClientOptions = AsrClientOptions(
    appid: string, token: string,
    segDuration: Option<int>, nbest: Option<int>, wsUrl: Option<string>, uid: Option<string>,
    workflow: Option<string>, showLanguage: Option<bool>, showUtterances: Option<bool>,
    resultType: Option<string>, format: Option<string>, sampleRate: Option<int>,
    language: Option<string>, bits: Option<int>, channel: Option<int>, codec: Option<string>,
    audioType: Option<int>, secret: Option<string>, authMethod: Option<string>,
    mp3SegSize: Option<int>)

  datatype ClientConfig = ClientConfig(
    cluster: string, segDuration: int, nbest: int, appid: string, token: string,
    wsUrl: string, uid: string, workflow: string, showLanguage: bool, showUtterances: bool,
    resultType: Option<string>, format: string, rate: int, language: string, bits: int,
    channel: int, codec: string, audioType: int, secret: string, authMethod: string,
    mp3SegSize: int)

  /** `x || d` on a number: 0 and undefined fall back to d. */
  function OrInt(x: Option<int>, d: int): (r: int)
    ensures r == d || (x.Some? && r == x.value && r != 0)
    ensures x.Some? && x.value != 0 ==> r == x.value
  {
    if x.Some? && x.value != 0 then x.value else d
  }

  /** `x || d` on a string: "" and undefined fall back to d. */
  function OrString(x: Option<string>, d: string): (r: string)
    ensures r == d || (x.Some? && r == x.value && r != "")
    ensures x.Some? && x.value != "" ==> r == x.value
  {
    if x.Some? && x.value != "" then x.value else d
  }

  /** `x || d` on a boolean: false and undefined fall back to d. */
  function OrBool(x: Option<bool>, d: bool): (r: bool)
    ensures r == (x == Some(true) || d)
  {
    if x.Some? && x.value then true else d
  }

  const DEFAULT_WS_URL: string := "wss://openspeech.bytedance.com/api/v2/asr"
  const DEFAULT_WORKFLOW: string := "audio_in,resample,partition,vad,fe,decode,itn,nlu_punctuate"

  /** The AsrWsClient constructor's field initialisation. Every field with a
      default is never falsy afterwards; show_utterances, defaulted with `||`,
      is true whatever the caller passes. */
  function Configure(cluster: string, o: AsrClientOptions): (c: ClientConfig)
    ensures c.showUtterances
    ensures c.segDuration != 0 && c.nbest != 0 && c.rate != 0 && c.bits != 0 && c.channel != 0
    ensures c.wsUrl != "" && c.uid != "" && c.workflow != "" && c.format != "" && c.language != ""
    ensures c.codec != "" && c.secret != "" && c.authMethod != ""
    ensures c.cluster == cluster && c.appid == o.appid && c.token == o.token && c.resultType == o.resultType
    ensures c.showLanguage <==> o.showLanguage == Some(true)
    ensures o.nbest.None? ==> c.nbest == 1
    ensures o.sampleRate.None? ==> c.rate == 16000
    ensures o.format.None? ==> c.format == "wav"
    ensures o.authMethod.None? ==> c.authMethod == "token"
  {
    ClientConfig(
      cluster,
      OrInt(o.segDuration, 15000),
      OrInt(o.nbest, 1),
      o.appid,
      o.token,
      OrString(o.wsUrl, DEFAULT_WS_URL),
      OrString(o.uid, "streaming_asr_demo"),
      OrString(o.workflow, DEFAULT_WORKFLOW),
      OrBool(o.showLanguage, false),
      OrBool(o.showUtterances, true),
      o.resultType,
      OrString(o.format, "wav"),
      OrInt(o.sampleRate, 16000),
      OrString(o.language, "zh-CN"),
      OrInt(o.bits, 16),
      OrInt(o.channel, 1),
      OrString(o.codec, "raw"),
      OrInt(o.audioType, 1),
      OrString(o.secret, "access_secret"),
      OrString(o.authMethod, "token"),
      OrInt(o.mp3SegSize, 10000))
  }

  /** constructRequest: the request object serialized into the full client
      request; it always carries the session's reqid and sequence 1. */
  function ConstructRequest(cfg: ClientConfig, reqid: string): (p: RequestParams)
    ensures p.request.reqid == reqid && p.request.sequence == 1
    ensures p.app == AppParams(cfg.appid, cfg.cluster, cfg.token) && p.uid == cfg.uid
    ensures p.audio == AudioParams(cfg.format, cfg.rate, cfg.language, cfg.bits, cfg.channel, cfg.codec)
    ensures p.request.nbest == cfg.nbest && p.request.workflow == cfg.workflow
    ensures p.request.showLanguage == cfg.showLanguage && p.request.showUtterances == cfg.showUtterances
    ensures p.request.resultType == cfg.resultType
  {
    RequestParams(
      AppParams(cfg.appid, cfg.cluster, cfg.token),
      cfg.uid,
      RequestFields(reqid, cfg.nbest, cfg.workflow, cfg.showLanguage, cfg.showUtterances, cfg.resultType, 1),
      AudioParams(cfg.format, cfg.rate, cfg.language, cfg.bits, cfg.channel, cfg.codec))
  }

  /** The request every client sends: it always asks for utterances, whatever
      the caller passed; language detection only when asked for; one best
      candidate unless nbest was given. */
  lemma RequestAlwaysShowsUtterances(cluster: string, o: AsrClientOptions, reqid: string)
    ensures var q := ConstructRequest(Configure(cluster, o), reqid).request;
      && q.showUtterances
      && (q.showLanguage <==> o.showLanguage == Some(true))
      && (o.nbest.None? ==> q.nbest == 1)
      && q.reqid == reqid && q.sequence == 1
  {
    var c := Configure(cluster, o);
    assert c.showUtterances;
  }

  // ---------------------------------------------------------------------------
  // Connection headers (tokenAuth, signatureAuth, the choice in init)

  const BEARER_PREFIX: string := "Bearer; "

  /** tokenAuth: one Authorization header, "Bearer; " followed by the token. */
  function TokenAuth(token: string): (h: map<string, string>)
    ensures h.Keys == {"Authorization"}
    ensures |h["Authorization"]| == |BEARER_PREFIX| + |token|
    ensures h["Authorization"][..|BEARER_PREFIX|] == BEARER_PREFIX
    ensures h["Authorization"][|BEARER_PREFIX|..] == token
  {
    map["Authorization" := BEARER_PREFIX + token]
  }

  /** signatureAuth: the HMAC-SHA256 (base64url) of the request line, the one
      custom header value and the full client request, laid out in the
      Authorization header next to the Custom header. */
  function SignatureAuth(cfg: ClientConfig, data: seq<Byte>, lib: Library): (h: map<string, string>)
    ensures h.Keys == {"Custom", "Authorization"}
    ensures h["Custom"] == "auth_custom"
  {
    var input := lib.encodeUtf8("GET " + lib.urlPathname(cfg.wsUrl) + " HTTP/1.1\n" + "auth_custom" + "\n") + data;
    var mac := lib.hmacSha256Base64Url(cfg.secret, input);
    map["Custom" := "auth_custom",
        "Authorization" := "HMAC256; access_token=\"" + cfg.token + "\"; mac=\"" + mac + "\"; h=\"Custom\""]
  }

  /** The headers init opens the socket with, chosen by auth_method. */
  function AuthHeaders(cfg: ClientConfig, fullRequest: seq<Byte>, lib: Library): (h: map<string, string>)
    ensures cfg.authMethod == "token" ==> h == TokenAuth(cfg.token)
    ensures cfg.authMethod == "signature" ==> "Custom" in h && h["Custom"] == "auth_custom"
    ensures cfg.authMethod != "token" && cfg.authMethod != "signature" ==> h == map[]
  {
    if cfg.authMethod == "token" then TokenAuth(cfg.token)
    else if cfg.authMethod == "signature" then SignatureAuth(cfg, fullRequest, lib)
    else map[]
  }
}
