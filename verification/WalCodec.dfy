/** Log entries, the codecs they go through, and whole segment files of them. */
module WalCodec {
  import opened Results
  import opened Bytes
  import opened Frames
  import opened History

  datatype WalEntry = WalEntry(seqNo: nat, data: seq<byte>, crc: nat, isDelete: bool)

  /** Protobuf and CRC-32 as the program uses them. */
  datatype Codec = Codec(
    encEntry: WalEntry -> seq<byte>,
    decEntry: seq<byte> -> Option<WalEntry>,
    encMeta: FileMetadata -> seq<byte>,
    decMeta: seq<byte> -> Option<FileMetadata>,
    crc: seq<byte> -> nat)

  /** All that is asked of protobuf: unmarshalling inverts marshalling. */
  ghost predicate Lossless(c: Codec) {
    (forall e: WalEntry :: c.decEntry(c.encEntry(e)) == Some(e)) &&
    (forall m: FileMetadata :: c.decMeta(c.encMeta(m)) == Some(m))
  }

  function MakeEntry(c: Codec, no: nat, data: seq<byte>, isDelete: bool): (e: WalEntry) {
    WalEntry(no, data, c.crc(data), isDelete)
  }

  function Unmarshal(c: Codec, body: seq<byte>): (e: Option<WalEntry>) {
    match c.decEntry(body)
    case None => None
    case Some(e) => if e.crc == c.crc(e.data) then Some(e) else None
  }

  /** An entry as append writes it: checksummed, holding metadata, its length within 32 bits. */
  predicate Good(c: Codec, e: WalEntry) {
    e.crc == c.crc(e.data) && c.decMeta(e.data).Some? && Fits(c.encEntry(e))
  }

  predicate AllGood(c: Codec, es: seq<WalEntry>) {
    forall i :: 0 <= i < |es| ==> Good(c, es[i])
  }

  /** Entry number i + 1 stands at position i. */
  predicate Numbered(es: seq<WalEntry>) {
    forall i :: 0 <= i < |es| ==> es[i].seqNo == i + 1
  }

  function OpOf(c: Codec, e: WalEntry): (op: Op)
    requires c.decMeta(e.data).Some?
  {
    var meta := c.decMeta(e.data).value;
    if e.isDelete then Del(meta.name) else Put(meta)
  }

  function Ops(c: Codec, es: seq<WalEntry>): (ops: seq<Op>)
    requires AllGood(c, es)
    ensures |ops| == |es|
    ensures forall i :: 0 <= i < |es| ==> ops[i] == OpOf(c, es[i])
  {
    seq(|es|, i requires 0 <= i < |es| => OpOf(c, es[i]))
  }

  function Bodies(c: Codec, es: seq<WalEntry>): (bodies: seq<seq<byte>>)
    ensures |bodies| == |es|
    ensures forall i :: 0 <= i < |es| ==> bodies[i] == c.encEntry(es[i])
  {
    seq(|es|, i requires 0 <= i < |es| => c.encEntry(es[i]))
  }

  function EncodeFile(c: Codec, es: seq<WalEntry>): (f: seq<byte>) {
    FrameAll(Bodies(c, es))
  }

  function UnmarshalAll(c: Codec, bodies: seq<seq<byte>>): (r: Option<seq<WalEntry>>) {
    if bodies == [] then Some([])
    else
      match Unmarshal(c, bodies[0])
      case None => None
      case Some(e) =>
        match UnmarshalAll(c, bodies[1..])
        case None => None
        case Some(es) => Some([e] + es)
  }

  /** Full decoding of a segment file. */
  function DecodeFile(c: Codec, f: seq<byte>): (r: Option<seq<WalEntry>>) {
    match Parse(f)
    case None => None
    case Some(bodies) => UnmarshalAll(c, bodies)
  }

  lemma {:induction false} UnmarshalBodies(c: Codec, es: seq<WalEntry>)
    requires Lossless(c) && AllGood(c, es)
    ensures UnmarshalAll(c, Bodies(c, es)) == Some(es)
  {
    if es != [] {
      UnmarshalBodies(c, es[1..]);
      assert Bodies(c, es)[1..] == Bodies(c, es[1..]);
      assert [es[0]] + es[1..] == es;
    }
  }

  lemma DecodeEncode(c: Codec, es: seq<WalEntry>)
    requires Lossless(c) && AllGood(c, es)
    ensures DecodeFile(c, EncodeFile(c, es)) == Some(es)
    ensures Parse(EncodeFile(c, es)) == Some(Bodies(c, es))
    ensures Whole(EncodeFile(c, es)) == |es|
  {
    ParseFrameAll(Bodies(c, es));
    UnmarshalBodies(c, es);
  }

  lemma EncodeSnoc(c: Codec, es: seq<WalEntry>, e: WalEntry)
    ensures EncodeFile(c, es + [e]) == EncodeFile(c, es) + Frame(c.encEntry(e))
  {
    assert Bodies(c, es + [e]) == Bodies(c, es) + [c.encEntry(e)];
    FrameAllSnoc(Bodies(c, es), c.encEntry(e));
  }

  lemma EncodeEmpty(c: Codec, es: seq<WalEntry>)
    ensures EncodeFile(c, es) == [] <==> es == []
  {
  }

  /** A file cut anywhere that still parses is the encoding of a prefix of its entries. */
  lemma DecodeCut(c: Codec, f: seq<byte>, es: seq<WalEntry>)
    requires Lossless(c) && AllGood(c, es)
    requires f <= EncodeFile(c, es)
    ensures Whole(f) <= |es|
    ensures Parse(f).Some? ==> f == EncodeFile(c, es[..Whole(f)]) && DecodeFile(c, f) == Some(es[..Whole(f)])
  {
    DecodeEncode(c, es);
    WholeMonotone(f, EncodeFile(c, es));
    if Parse(f).Some? {
      ParsePrefix(f, Bodies(c, es));
      ParseIsFrameAll(f);
      assert Parse(f).value == Bodies(c, es[..Whole(f)]);
      UnmarshalBodies(c, es[..Whole(f)]);
    }
  }
}
