/** The edits a project's ordered segment list undergoes (`Vec::insert`,
    `Vec::remove`, a field write through `get_mut`) and the content hash
    `hash_segments` that tags an export. */
module Segments {
  import opened Types
  import opened Text

  /** `Vec::insert(p, x)`: admitted for p <= len, so appending is allowed. */
  function InsertAt(s: seq<Segment>, p: nat, x: Segment): (r: seq<Segment>)
    requires p <= |s|
    ensures |r| == |s| + 1 && r[p] == x
    ensures forall i :: 0 <= i < p ==> r[i] == s[i]
    ensures forall i :: p <= i < |s| ==> r[i + 1] == s[i]
  {
    s[..p] + [x] + s[p..]
  }

  /** `Vec::remove(p)`: later segments shift down by one. */
  function RemoveAt(s: seq<Segment>, p: nat): (r: seq<Segment>)
    requires p < |s|
    ensures |r| == |s| - 1
    ensures forall i :: 0 <= i < p ==> r[i] == s[i]
    ensures forall i :: p <= i < |r| ==> r[i] == s[i + 1]
  {
    s[..p] + s[p + 1..]
  }

  /** Writing the sentence of the segment at `p` through `get_mut`. */
  function WithSentence(s: seq<Segment>, p: nat, sentence: string): (r: seq<Segment>)
    requires p < |s|
    ensures |r| == |s| && r[p].sentence == sentence && r[p].comboIndex == s[p].comboIndex
    ensures forall i :: 0 <= i < |s| && i != p ==> r[i] == s[i]
  {
    s[p := s[p].(sentence := sentence)]
  }

  /** Writing the combo index of the segment at `p` through `get_mut`. */
  function WithComboIndex(s: seq<Segment>, p: nat, index: u16): (r: seq<Segment>)
    requires p < |s|
    ensures |r| == |s| && r[p].comboIndex == index && r[p].sentence == s[p].sentence
    ensures forall i :: 0 <= i < |s| && i != p ==> r[i] == s[i]
  {
    s[p := s[p].(comboIndex := index)]
  }

  /** Removing what was just inserted at the same position restores the list. */
  lemma RemoveUndoesInsert(s: seq<Segment>, p: nat, x: Segment)
    requires p <= |s|
    ensures RemoveAt(InsertAt(s, p, x), p) == s
  {
  }

  /** Re-inserting a removed segment where it was restores the list. */
  lemma InsertUndoesRemove(s: seq<Segment>, p: nat)
    requires p < |s|
    ensures InsertAt(RemoveAt(s, p), p, s[p]) == s
  {
  }

  /** `hash_segments`: each segment's sentence followed by its combo index
      in decimal, all concatenated without separator. */
  function HashSegments(segments: seq<Segment>): (h: string)
  {
    if segments == [] then ""
    else segments[0].sentence + Decimal(segments[0].comboIndex) + HashSegments(segments[1..])
  }

  /** The hash of a list is the hash of its parts, in order. */
  lemma {:induction false} HashSegmentsAppend(a: seq<Segment>, b: seq<Segment>)
    ensures HashSegments(a + b) == HashSegments(a) + HashSegments(b)
  {
    if a == [] {
      assert a + b == b;
    } else {
      assert (a + b)[1..] == a[1..] + b;
      HashSegmentsAppend(a[1..], b);
    }
  }

  /** Every segment's sentence and decimal index sit in the hash right after
      the hash of the segments before it. */
  lemma HashSegmentsAt(segments: seq<Segment>, k: nat)
    requires k < |segments|
    ensures HashSegments(segments) ==
            HashSegments(segments[..k]) + segments[k].sentence + Decimal(segments[k].comboIndex) +
            HashSegments(segments[k + 1..])
  {
    assert segments == segments[..k] + segments[k..];
    HashSegmentsAppend(segments[..k], segments[k..]);
    assert segments[k..][1..] == segments[k + 1..];
  }

  /** A single segment's hash determines its combo index once the sentence
      is known. */
  lemma HashOfOneSegment(sentence: string, i: u16, j: u16)
    requires HashSegments([Segment(sentence, i)]) == HashSegments([Segment(sentence, j)])
    ensures i == j
  {
    var hi, hj := sentence + Decimal(i), sentence + Decimal(j);
    assert HashSegments([Segment(sentence, i)]) == hi + "" == hi;
    assert HashSegments([Segment(sentence, j)]) == hj + "" == hj;
    assert Decimal(i) == hi[|sentence|..];
    assert Decimal(j) == hj[|sentence|..];
    DecimalInjective(i, j);
  }

  /** With no separator, two different segment lists can share a hash: the
      sentence "a1" with index 0 and the sentence "a" with index 10 both
      hash to "a10". */
  lemma HashSegmentsCollision()
    ensures [Segment("a1", 0)] != [Segment("a", 10)]
    ensures HashSegments([Segment("a1", 0)]) == HashSegments([Segment("a", 10)])
  {
  }
}
