/** Length-prefixed records: a four-octet big-endian length, then the body.
    The log segments and the snapshot file are both plain concatenations of these. */
module Frames {
  import opened Bytes
  import opened Results

  predicate Fits(body: seq<byte>) {
    |body| < TWO_TO_32
  }

  predicate AllFit(bodies: seq<seq<byte>>) {
    forall i :: 0 <= i < |bodies| ==> Fits(bodies[i])
  }

  function Frame(body: seq<byte>): (f: seq<byte>) {
    BigEndian(|body|, 4) + body
  }

  function FrameAll(bodies: seq<seq<byte>>): (f: seq<byte>) {
    if bodies == [] then [] else Frame(bodies[0]) + FrameAll(bodies[1..])
  }

  /** What one read at the front of a file meets: nothing, a record cut short, or a whole record. */
  datatype Read = End | Broken | Got(body: seq<byte>, rest: seq<byte>)

  function ReadFrame(f: seq<byte>): (r: Read)
    ensures r.Got? ==> |f| >= 4 && f == f[..4] + r.body + r.rest && |r.rest| < |f|
  {
    if f == [] then End
    else if |f| < 4 then Broken
    else
      var len := FromBigEndian(f[..4]);
      if |f| - 4 < len then Broken else Got(f[4..4 + len], f[4 + len..])
  }

  /** The bodies of a file made of whole records, or None. */
  function Parse(f: seq<byte>): (r: Option<seq<seq<byte>>>)
    decreases |f|
  {
    match ReadFrame(f)
    case End => Some([])
    case Broken => None
    case Got(body, rest) =>
      match Parse(rest)
      case None => None
      case Some(bodies) => Some([body] + bodies)
  }

  /** How many whole records a file begins with, whatever follows them. */
  function Whole(f: seq<byte>): (n: nat)
    decreases |f|
  {
    var r := ReadFrame(f);
    if r.Got? then 1 + Whole(r.rest) else 0
  }

  lemma ReadFrameOfFrame(body: seq<byte>, rest: seq<byte>)
    requires Fits(body)
    ensures ReadFrame(Frame(body) + rest) == Got(body, rest)
  {
    var f := Frame(body) + rest;
    Uint32(|body|);
    assert f[..4] == BigEndian(|body|, 4);
    assert f[4..4 + |body|] == body;
    assert f[4 + |body|..] == rest;
  }

  lemma FrameOfReadFrame(f: seq<byte>)
    requires ReadFrame(f).Got?
    ensures Fits(ReadFrame(f).body)
    ensures f == Frame(ReadFrame(f).body) + ReadFrame(f).rest
  {
    assert Pow256(4) == TWO_TO_32;
    FromBigEndianRoundTrip(f[..4]);
  }

  /** Reading is a left inverse of writing. */
  lemma {:induction false} ParseFrameAll(bodies: seq<seq<byte>>)
    requires AllFit(bodies)
    ensures Parse(FrameAll(bodies)) == Some(bodies)
    ensures Whole(FrameAll(bodies)) == |bodies|
  {
    if bodies != [] {
      ParseFrameAll(bodies[1..]);
      ReadFrameOfFrame(bodies[0], FrameAll(bodies[1..]));
      assert [bodies[0]] + bodies[1..] == bodies;
    }
  }

  /** And a right inverse: a file that parses is exactly the concatenation of its records. */
  lemma {:induction false} ParseIsFrameAll(f: seq<byte>)
    requires Parse(f).Some?
    ensures AllFit(Parse(f).value)
    ensures FrameAll(Parse(f).value) == f
    ensures Whole(f) == |Parse(f).value|
    decreases |f|
  {
    var r := ReadFrame(f);
    if r.Got? {
      ParseIsFrameAll(r.rest);
      FrameOfReadFrame(f);
      assert Parse(f).value[1..] == Parse(r.rest).value;
    }
  }

  lemma FrameAllFront(a: seq<seq<byte>>)
    requires a != []
    ensures FrameAll(a) == Frame(a[0]) + FrameAll(a[1..])
  {
    hide Frame;
  }

  lemma Associative(x: seq<byte>, y: seq<byte>, z: seq<byte>)
    ensures x + (y + z) == (x + y) + z
  {
  }

  lemma {:induction false} FrameAllConcat(a: seq<seq<byte>>, b: seq<seq<byte>>)
    ensures FrameAll(a + b) == FrameAll(a) + FrameAll(b)
  {
    hide Frame, FrameAll;
    if a == [] {
      assert a + b == b;
      assert FrameAll(a) == [] by {
        NoFrames();
      }
    } else {
      FrameAllConcat(a[1..], b);
      assert (a + b)[1..] == a[1..] + b;
      FrameAllFront(a + b);
      FrameAllFront(a);
      Associative(Frame(a[0]), FrameAll(a[1..]), FrameAll(b));
    }
  }

  lemma NoFrames()
    ensures FrameAll([]) == []
  {
  }

  lemma FrameAllSnoc(a: seq<seq<byte>>, body: seq<byte>)
    ensures FrameAll(a + [body]) == FrameAll(a) + Frame(body)
  {
    FrameAllConcat(a, [body]);
    assert FrameAll([body]) == Frame(body) + FrameAll([]);
  }

  /** Bytes added at the end never disturb the whole records in front of them. */
  lemma {:induction false} WholeMonotone(f: seq<byte>, g: seq<byte>)
    requires f <= g
    ensures Whole(f) <= Whole(g)
    decreases |f|
  {
    var r := ReadFrame(f);
    if r.Got? {
      FrameOfReadFrame(f);
      var more := g[|f|..];
      assert g == Frame(r.body) + (r.rest + more) by {
        assert g == f + more;
      }
      ReadFrameOfFrame(r.body, r.rest + more);
      WholeMonotone(r.rest, r.rest + more);
    }
  }

  lemma SameFirstFrame(a: seq<byte>, rest: seq<byte>, b: seq<byte>, rest': seq<byte>)
    requires Fits(a) && Fits(b)
    requires Frame(a) + rest <= Frame(b) + rest'
    ensures a == b && rest <= rest'
  {
    var f, g := Frame(a) + rest, Frame(b) + rest';
    var more := g[|f|..];
    assert g == Frame(a) + (rest + more) by {
      assert g == f + more;
    }
    ReadFrameOfFrame(a, rest + more);
    ReadFrameOfFrame(b, rest');
  }

  /** Whatever survives of a cut file is a prefix of the records written to it. */
  lemma {:induction false} ParsePrefix(f: seq<byte>, bodies: seq<seq<byte>>)
    requires AllFit(bodies)
    requires f <= FrameAll(bodies)
    requires Parse(f).Some?
    ensures Parse(f).value <= bodies
    decreases |f|
  {
    var r := ReadFrame(f);
    if r.Got? {
      FrameOfReadFrame(f);
      assert bodies != [];
      SameFirstFrame(r.body, r.rest, bodies[0], FrameAll(bodies[1..]));
      ParsePrefix(r.rest, bodies[1..]);
    }
  }

  lemma CutRecord(last: seq<byte>, cut: nat)
    requires Fits(last)
    requires 0 < cut < |Frame(last)|
    ensures ReadFrame(Frame(last)[..cut]) == Broken
  {
    if cut >= 4 {
      Uint32(|last|);
      assert Frame(last)[..cut][..4] == BigEndian(|last|, 4);
    }
  }

  /** A file cut strictly inside its final record does not parse, yet keeps the records before it. */
  lemma {:induction false} CutFinalRecord(bodies: seq<seq<byte>>, tail: seq<byte>)
    requires AllFit(bodies)
    requires ReadFrame(tail) == Broken
    ensures Parse(FrameAll(bodies) + tail) == None
    ensures Whole(FrameAll(bodies) + tail) == |bodies|
  {
    if bodies == [] {
      assert FrameAll(bodies) + tail == tail;
    } else {
      var rest := FrameAll(bodies[1..]) + tail;
      CutFinalRecord(bodies[1..], tail);
      assert FrameAll(bodies) + tail == Frame(bodies[0]) + rest;
      ReadFrameOfFrame(bodies[0], rest);
      hide Frame, ReadFrame;
    }
  }
}
