/** Which entries went to which segment: segment s holds layout[s - 1]. */
module Layout {
  import opened WalCodec

  function Flat(layout: seq<seq<WalEntry>>): (es: seq<WalEntry>) {
    if layout == [] then [] else Flat(layout[..|layout| - 1]) + layout[|layout| - 1]
  }

  /** How many entries stand in the first s segments, that is, the newest number among them. */
  function Before(layout: seq<seq<WalEntry>>, s: nat): (n: nat)
    requires s <= |layout|
  {
    |Flat(layout[..s])|
  }

  lemma {:induction false} FlatSplit(layout: seq<seq<WalEntry>>, s: nat)
    requires s <= |layout|
    ensures Flat(layout) == Flat(layout[..s]) + Flat(layout[s..])
    ensures Before(layout, s) <= |Flat(layout)|
    decreases |layout|
  {
    if s == |layout| {
      assert layout[..s] == layout;
    } else {
      var front := layout[..|layout| - 1];
      FlatSplit(front, s);
      assert front[..s] == layout[..s];
      assert layout[s..][..|layout| - s - 1] == front[s..];
    }
  }

  lemma BeforeStep(layout: seq<seq<WalEntry>>, s: nat)
    requires 1 <= s <= |layout|
    ensures Flat(layout[..s]) == Flat(layout[..s - 1]) + layout[s - 1]
    ensures Before(layout, s) == Before(layout, s - 1) + |layout[s - 1]|
  {
    assert layout[..s][..s - 1] == layout[..s - 1];
  }

  /** The entries of one segment carry consecutive numbers, just past those of the segments before. */
  lemma SegmentNumbers(layout: seq<seq<WalEntry>>, s: nat)
    requires s < |layout|
    requires Numbered(Flat(layout))
    ensures forall i :: 0 <= i < |layout[s]| ==> layout[s][i].seqNo == Before(layout, s) + i + 1
  {
    FlatSplit(layout, s + 1);
    BeforeStep(layout, s + 1);
    forall i | 0 <= i < |layout[s]| ensures layout[s][i].seqNo == Before(layout, s) + i + 1 {
      assert layout[s][i] == Flat(layout)[Before(layout, s) + i];
    }
  }

  /** The layout once segment files up to `last` exist. */
  function Pad(layout: seq<seq<WalEntry>>, last: nat): (r: seq<seq<WalEntry>>)
    ensures |layout| <= last ==> |r| == last
  {
    layout + seq(if |layout| < last then last - |layout| else 0, i => [])
  }

  lemma PadOneMore(layout: seq<seq<WalEntry>>, last: nat)
    requires |layout| <= last
    ensures Pad(layout, last) + [[]] == Pad(layout, last + 1)
  {
  }

  /** The layout once e stands at the end of the last segment. */
  function Push(layout: seq<seq<WalEntry>>, e: WalEntry): (r: seq<seq<WalEntry>>)
    ensures layout != [] ==> |r| == |layout|
  {
    if layout == [] then [[e]] else layout[|layout| - 1 := layout[|layout| - 1] + [e]]
  }

  lemma FlatEmptySegment(layout: seq<seq<WalEntry>>)
    ensures Flat(layout + [[]]) == Flat(layout)
  {
    assert (layout + [[]])[..|layout|] == layout;
  }

  lemma FlatPush(layout: seq<seq<WalEntry>>, e: WalEntry)
    requires layout != []
    ensures Flat(Push(layout, e)) == Flat(layout) + [e]
  {
    assert Push(layout, e)[..|layout| - 1] == layout[..|layout| - 1];
  }

  /** Every entry at or before a missing segment is numbered at most `no`. */
  ghost predicate Covered(segs: set<nat>, layout: seq<seq<WalEntry>>, no: nat) {
    forall s :: 1 <= s <= |layout| && s !in segs ==> Before(layout, s) <= no
  }

  /** Only the last segment and new ones changed, and those are there. */
  lemma CoveredGrows(segs: set<nat>, layout: seq<seq<WalEntry>>, segs': set<nat>, layout': seq<seq<WalEntry>>, no: nat)
    requires Covered(segs, layout, no) && segs <= segs'
    requires 1 <= |layout| <= |layout'| && layout'[..|layout| - 1] == layout[..|layout| - 1]
    requires forall s :: |layout| <= s <= |layout'| ==> s in segs'
    ensures Covered(segs', layout', no)
  {
    forall s | 1 <= s <= |layout'| && s !in segs' ensures Before(layout', s) <= no {
      assert layout'[..s] == layout'[..|layout| - 1][..s] == layout[..s];
    }
  }

  lemma CoveredPush(segs: set<nat>, layout: seq<seq<WalEntry>>, e: WalEntry, no: nat)
    requires Covered(segs, layout, no) && layout != [] && |layout| in segs
    ensures Covered(segs, Push(layout, e), no)
  {
    assert Push(layout, e)[..|layout| - 1] == layout[..|layout| - 1];
    CoveredGrows(segs, layout, segs, Push(layout, e), no);
  }
}
