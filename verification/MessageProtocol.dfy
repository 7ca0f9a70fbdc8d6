/** The wire protocol: an eight-octet header with a length cap, then the payload; and the frame inside
    a write message. */
module MessageProtocol {
  import opened Results
  import opened Bytes
  import Chunking

  const MAGIC1: byte := 0xAC
  const MAGIC2: byte := 0xFA
  const VERSION: byte := 1
  const HEADER_SIZE: nat := 8
  const MAX_PAYLOAD: nat := 65 * 0x10_0000

  const TYPE_WRITE: byte := 0
  const TYPE_READ: byte := 1
  const TYPE_PING: byte := 2
  const TYPE_READ_RESPONSE: byte := 6
  const TYPE_PING_RESPONSE: byte := 9

  datatype Error = PayloadTooLarge | NilPayload | ShortPayload | BadHeader | InvalidMagic | UnsupportedVersion

  /** A message to send: its payload reader may be missing or hold fewer bytes than announced. */
  datatype Message = Message(kind: byte, length: nat, payload: Option<seq<byte>>)

  /** What is on the wire afterwards, even when encoding fails half way. */
  datatype Encoded = Encoded(written: seq<byte>, error: Option<Error>)

  function Header(kind: byte, length: nat): (h: seq<byte>)
    ensures |h| == HEADER_SIZE
  {
    [MAGIC1, MAGIC2, VERSION, kind] + BigEndian(length, 4)
  }

  function EncodeMessage(m: Message): (r: Encoded) {
    if m.length > MAX_PAYLOAD then Encoded([], Some(PayloadTooLarge))
    else if m.length == 0 then Encoded(Header(m.kind, 0), None)
    else if m.payload.None? then Encoded(Header(m.kind, m.length), Some(NilPayload))
    else if |m.payload.value| < m.length then Encoded(Header(m.kind, m.length) + m.payload.value, Some(ShortPayload))
    else Encoded(Header(m.kind, m.length) + m.payload.value[..m.length], None)
  }

  /** A clean end of the stream, an error, or a header with the bytes behind it. */
  datatype Decoded = EndOfStream | Failed(error: Error) | Frame(kind: byte, length: nat, rest: seq<byte>)

  function DecodeHeader(s: seq<byte>): (r: Decoded)
    ensures r.Frame? ==> r.length <= MAX_PAYLOAD && |s| >= HEADER_SIZE && r.rest == s[HEADER_SIZE..]
  {
    if s == [] then EndOfStream
    else if |s| < HEADER_SIZE then Failed(BadHeader)
    else if s[0] != MAGIC1 || s[1] != MAGIC2 then Failed(InvalidMagic)
    else if s[2] != VERSION then Failed(UnsupportedVersion)
    else if FromBigEndian(s[4..8]) > MAX_PAYLOAD then Failed(PayloadTooLarge)
    else Frame(s[3], FromBigEndian(s[4..8]), s[8..])
  }

  class Stream {
    var data: seq<byte>

    constructor (data: seq<byte>)
      ensures this.data == data
    {
      this.data := data;
    }
  }

  /** Encoding onto a connection. It succeeds exactly when the length is within the cap and the payload
      really holds that many bytes. */
  method Encode(w: Stream, m: Message) returns (error: Option<Error>)
    modifies w
    ensures w.data == old(w.data) + EncodeMessage(m).written && error == EncodeMessage(m).error
    ensures error.None? <==>
            m.length <= MAX_PAYLOAD && (m.length == 0 || (m.payload.Some? && |m.payload.value| >= m.length))
  {
    if m.length > MAX_PAYLOAD {
      return Some(PayloadTooLarge);
    }
    w.data := w.data + Header(m.kind, m.length);
    if m.length > 0 {
      if m.payload.None? {
        return Some(NilPayload);
      }
      w.data := w.data + m.payload.value[..Chunking.Min(m.length, |m.payload.value|)];
      if |m.payload.value| < m.length {
        return Some(ShortPayload);
      }
    }
    error := None;
  }

  /** Exactly a header that Encode may have written is accepted. */
  lemma AcceptsOnlyHeaders(s: seq<byte>)
    ensures DecodeHeader(s).Frame? <==> exists kind, length: nat :: length <= MAX_PAYLOAD && Header(kind, length) <= s
    ensures var d := DecodeHeader(s); d.Frame? ==> s == Header(d.kind, d.length) + d.rest
  {
    var d := DecodeHeader(s);
    if d.Frame? {
      FromBigEndianRoundTrip(s[4..8]);
      assert Header(d.kind, d.length) == s[..8];
      assert s == s[..8] + s[8..];
    }
    if kind, length: nat :| length <= MAX_PAYLOAD && Header(kind, length) <= s {
      HeaderRoundTrip(kind, length, s[8..]);
      assert s == Header(kind, length) + s[8..];
    }
  }

  /** The complaint about octets that are no header: the first of its parts that is not as it should be. */
  function ErrorOf(s: seq<byte>): (e: Error) {
    if |s| < HEADER_SIZE then BadHeader
    else if s[..2] != [0xAC, 0xFA] then InvalidMagic
    else if s[2] != 1 then UnsupportedVersion
    else PayloadTooLarge
  }

  /** Decoding a header off a connection. It takes up to eight bytes whatever they are, accepts them
      exactly when they are a header within the cap, and leaves the payload. */
  method Decode(r: Stream) returns (d: Decoded)
    modifies r
    ensures r.data == old(r.data)[Chunking.Min(HEADER_SIZE, |old(r.data)|)..]
    ensures d.EndOfStream? <==> old(r.data) == []
    ensures d.Frame? <==>
            exists kind, length: nat :: length <= MAX_PAYLOAD && Header(kind, length) <= old(r.data)
    ensures d.Frame? ==> d.length <= MAX_PAYLOAD && old(r.data) == Header(d.kind, d.length) + r.data
    ensures d.Failed? ==> d.error == ErrorOf(old(r.data))
    ensures d == DecodeHeader(old(r.data))
  {
    AcceptsOnlyHeaders(r.data);
    var n := Chunking.Min(HEADER_SIZE, |r.data|);
    var header := r.data[..n];
    assert n == HEADER_SIZE ==> r.data[4..8] == header[4..8];
    r.data := r.data[n..];
    if n == 0 {
      return EndOfStream;
    }
    if n < HEADER_SIZE {
      return Failed(BadHeader);
    }
    if header[0] != MAGIC1 || header[1] != MAGIC2 {
      return Failed(InvalidMagic);
    }
    if header[2] != VERSION {
      return Failed(UnsupportedVersion);
    }
    var length := FromBigEndian(header[4..8]);
    if length > MAX_PAYLOAD {
      return Failed(PayloadTooLarge);
    }
    d := Frame(header[3], length, r.data);
  }

  predicate Sendable(m: Message) {
    m.length <= MAX_PAYLOAD && m.payload.Some? && |m.payload.value| >= m.length
  }

  lemma HeaderRoundTrip(kind: byte, length: nat, rest: seq<byte>)
    requires length <= MAX_PAYLOAD
    ensures DecodeHeader(Header(kind, length) + rest) == Frame(kind, length, rest)
  {
    var s := Header(kind, length) + rest;
    Uint32(length);
    assert s[4..8] == BigEndian(length, 4);
    assert s[8..] == rest;
  }

  function EncodeAll(ms: seq<Message>): (s: seq<byte>) {
    if ms == [] then [] else EncodeMessage(ms[0]).written + EncodeAll(ms[1..])
  }

  /** What a receiver gets that takes each whole payload before the next header. */
  function DecodeAll(s: seq<byte>): (r: Option<seq<(byte, seq<byte>)>>)
    decreases |s|
  {
    match DecodeHeader(s)
    case EndOfStream => Some([])
    case Failed(_) => None
    case Frame(kind, length, rest) =>
      if |rest| < length then None
      else
        match DecodeAll(rest[length..])
        case None => None
        case Some(more) => Some([(kind, rest[..length])] + more)
  }

  function Delivered(m: Message): (d: (byte, seq<byte>))
    requires Sendable(m)
  {
    (m.kind, m.payload.value[..m.length])
  }

  lemma EncodedSplits(m: Message, rest: seq<byte>)
    requires Sendable(m)
    ensures EncodeMessage(m).error == None
    ensures EncodeMessage(m).written + rest == Header(m.kind, m.length) + (m.payload.value[..m.length] + rest)
  {
    if m.length == 0 {
      assert m.payload.value[..0] + rest == rest;
    }
  }

  /** One message at the front of a stream. */
  lemma DecodeFirst(m: Message, tail: seq<byte>)
    requires Sendable(m)
    ensures DecodeAll(EncodeMessage(m).written + tail) ==
            match DecodeAll(tail) case None => None case Some(more) => Some([Delivered(m)] + more)
  {
    var payload := m.payload.value[..m.length];
    hide Header, DecodeHeader, EncodeMessage;
    EncodedSplits(m, tail);
    HeaderRoundTrip(m.kind, m.length, payload + tail);
    assert (payload + tail)[..m.length] == payload && (payload + tail)[m.length..] == tail;
  }

  /** Messages sent back to back arrive as they were sent, in order, and nothing else. */
  lemma {:induction false} StreamRoundTrip(ms: seq<Message>)
    requires forall i :: 0 <= i < |ms| ==> Sendable(ms[i])
    ensures DecodeAll(EncodeAll(ms)).Some? && |DecodeAll(EncodeAll(ms)).value| == |ms|
    ensures forall i :: 0 <= i < |ms| ==> DecodeAll(EncodeAll(ms)).value[i] == Delivered(ms[i])
  {
    if ms != [] {
      hide DecodeAll, DecodeHeader, EncodeMessage, Delivered, Header;
      StreamRoundTrip(ms[1..]);
      DecodeFirst(ms[0], EncodeAll(ms[1..]));
    }
  }

  /** The next header is found where it is exactly when the whole payload was taken first. */
  lemma AlignedIffConsumed(m: Message, rest: seq<byte>, taken: nat)
    requires Sendable(m) && taken <= m.length
    ensures var d := DecodeHeader(EncodeMessage(m).written + rest);
            d.Frame? && taken <= |d.rest| && (d.rest[taken..] == rest <==> taken == m.length)
  {
    var payload := m.payload.value[..m.length];
    EncodedSplits(m, rest);
    HeaderRoundTrip(m.kind, m.length, payload + rest);
    assert (payload + rest)[m.length..] == rest;
    assert |(payload + rest)[taken..]| == m.length - taken + |rest|;
  }

  // ---- What is on the wire ----

  /** The header octet by octet: two magic octets, the version, the type, and the length with its most
      significant octet first. */
  lemma HeaderOctets(kind: byte, length: nat)
    requires length < TWO_TO_32
    ensures Header(kind, length) ==
            [0xAC, 0xFA, 1, kind, length / 0x100_0000, length / 0x1_0000 % 256, length / 0x100 % 256, length % 256]
  {
    assert BigEndian(length / 0x100_0000, 1) == [length / 0x100_0000] by {
      assert BigEndian(length / 0x100_0000 / 256, 0) == [];
    }
    assert BigEndian(length / 0x1_0000, 2) == [length / 0x100_0000, length / 0x1_0000 % 256];
    assert BigEndian(length / 0x100, 3) == [length / 0x100_0000, length / 0x1_0000 % 256, length / 0x100 % 256];
  }

  /** The octets of the payload that were there to send. */
  function Available(m: Message): (p: seq<byte>) {
    if m.payload.None? then [] else m.payload.value
  }

  /** A send that fails leaves nothing on the wire if the length is above the cap, and otherwise a header
      and all of a payload that is too short: the receiver takes what is missing of it from whatever comes
      next. */
  lemma FailedSendTakesNext(m: Message, rest: seq<byte>)
    requires EncodeMessage(m).error.Some?
    ensures m.length > MAX_PAYLOAD ==> EncodeMessage(m) == Encoded([], Some(PayloadTooLarge))
    ensures m.length <= MAX_PAYLOAD ==>
              && |Available(m)| < m.length
              && EncodeMessage(m).error == Some(if m.payload.None? then NilPayload else ShortPayload)
              && DecodeHeader(EncodeMessage(m).written + rest) == Frame(m.kind, m.length, Available(m) + rest)
  {
    if m.length <= MAX_PAYLOAD {
      HeaderRoundTrip(m.kind, m.length, Available(m) + rest);
      assert EncodeMessage(m).written + rest == Header(m.kind, m.length) + (Available(m) + rest);
    }
  }

  lemma FirstOfAll(ms: seq<Message>, cut: seq<byte>)
    requires ms != []
    ensures EncodeAll(ms) + cut == EncodeMessage(ms[0]).written + (EncodeAll(ms[1..]) + cut)
  {
    hide EncodeMessage;
  }

  lemma NoneOfAll(cut: seq<byte>)
    ensures EncodeAll([]) + cut == cut
  {
  }

  /** If the connection ends there, the messages before it have arrived, and the receiver notices the
      failure exactly if anything was sent. */
  lemma {:induction false} FailedSendIsNoticed(ms: seq<Message>, m: Message)
    requires forall i :: 0 <= i < |ms| ==> Sendable(ms[i])
    requires EncodeMessage(m).error.Some?
    ensures DecodeAll(EncodeAll(ms) + EncodeMessage(m).written).Some? <==> m.length > MAX_PAYLOAD
  {
    FailedSendAlone(m);
    hide DecodeAll, DecodeHeader, EncodeMessage, EncodeAll, Delivered, Header;
    if ms == [] {
      NoneOfAll(EncodeMessage(m).written);
    } else {
      FailedSendIsNoticed(ms[1..], m);
      FirstOfAll(ms, EncodeMessage(m).written);
      DecodeFirst(ms[0], EncodeAll(ms[1..]) + EncodeMessage(m).written);
    }
  }

  lemma FailedSendAlone(m: Message)
    requires EncodeMessage(m).error.Some?
    ensures DecodeAll(EncodeMessage(m).written).Some? <==> m.length > MAX_PAYLOAD
    ensures m.length > MAX_PAYLOAD ==> EncodeMessage(m).written == []
  {
    var cut := EncodeMessage(m).written;
    FailedSendTakesNext(m, []);
    hide EncodeMessage, Header, DecodeHeader;
    assert cut + [] == cut && Available(m) + [] == Available(m);
    if m.length > MAX_PAYLOAD {
      NothingDecodes();
    }
  }

  lemma NothingDecodes()
    ensures DecodeAll([]) == Some([])
  {
  }

  // ---- The frame inside a write message ----

  function WritePayload(meta: seq<byte>, chunk: seq<byte>): (p: seq<byte>) {
    BigEndian(|meta|, 4) + meta + chunk
  }

  /** The announced length, computed in 32 bits. */
  function WriteLength(meta: seq<byte>, chunk: seq<byte>): (n: nat) {
    (4 + |chunk| + |meta|) % TWO_TO_32
  }

  function WriteMessage(meta: seq<byte>, chunk: seq<byte>): (m: Message) {
    Message(TYPE_WRITE, WriteLength(meta, chunk), Some(WritePayload(meta, chunk)))
  }

  /** The server's view: metadata behind its length, then the chunk. */
  function SplitWrite(p: seq<byte>): (r: Option<(seq<byte>, seq<byte>)>) {
    if |p| < 4 then None
    else
      var n := FromBigEndian(p[..4]);
      var end := if |p| - 4 < n then |p| else 4 + n;
      Some((p[4..end], p[end..]))
  }

  /** A write message splits back into exactly its metadata and its chunk. */
  lemma WriteRoundTrip(meta: seq<byte>, chunk: seq<byte>)
    requires 4 + |chunk| + |meta| < TWO_TO_32
    ensures SplitWrite(WritePayload(meta, chunk)) == Some((meta, chunk))
    ensures WriteLength(meta, chunk) == |WritePayload(meta, chunk)|
  {
    var p := WritePayload(meta, chunk);
    Uint32(|meta|);
    assert p[..4] == BigEndian(|meta|, 4);
    assert p[4..4 + |meta|] == meta;
    assert p[4 + |meta|..] == chunk;
  }

  /** A chunk of any size the client cuts can be sent when its encoded metadata is at most 2^20 - 4
      octets; for a full chunk, exactly then. */
  lemma WriteFitsCap(meta: seq<byte>, chunk: seq<byte>)
    requires 4 + |chunk| + |meta| < TWO_TO_32 && |chunk| <= Chunking.CHUNK_SIZE
    ensures |meta| <= 0x10_0000 - 4 ==>
              Sendable(WriteMessage(meta, chunk)) && EncodeMessage(WriteMessage(meta, chunk)).error == None
    ensures |chunk| == Chunking.CHUNK_SIZE ==>
              (EncodeMessage(WriteMessage(meta, chunk)).error == None <==> |meta| <= 0x10_0000 - 4)
  {
    WriteRoundTrip(meta, chunk);
  }

  /** The payload of a chunk is read once: a second attempt to send it, after `taken` bytes went out
      with the first, succeeds exactly when nothing had been taken. */
  lemma RetriedSendNeedsWholePayload(meta: seq<byte>, chunk: seq<byte>, taken: nat)
    requires 4 + |chunk| + |meta| <= MAX_PAYLOAD && taken <= |WritePayload(meta, chunk)|
    ensures var again := WriteMessage(meta, chunk).(payload := Some(WritePayload(meta, chunk)[taken..]));
            EncodeMessage(again).error == None <==> taken == 0
  {
    WriteRoundTrip(meta, chunk);
  }
}
