/** `io::merge` and `io::split`: a header and a body in one text. */
module Framing {
  import opened Types

  const SEPARATOR := "<@SEPARATOR#>"

  function Merge(header: string, body: string): string {
    header + SEPARATOR + body
  }

  predicate OccursAt(s: string, k: nat) {
    k + |SEPARATOR| <= |s| && s[k..k + |SEPARATOR|] == SEPARATOR
  }

  predicate Contains(s: string) {
    exists k | 0 <= k < |s| :: OccursAt(s, k)
  }

  /** `std::string::find`: the first occurrence, searched from `from` on. */
  function Find(s: string, from: nat): (index: Option<nat>)
    ensures index.Some? ==>
              from <= index.value && OccursAt(s, index.value)
              && forall k | from <= k < index.value :: !OccursAt(s, k)
    ensures index.None? ==> forall k | from <= k :: !OccursAt(s, k)
    decreases |s| - from
  {
    if from + |SEPARATOR| > |s| then None
    else if OccursAt(s, from) then Some(from)
    else Find(s, from + 1)
  }

  datatype Parts = Parts(header: string, body: string) | OutOfRange

  /**
    Without a separator the search yields `npos`; adding 13 to it wraps around to 12, so the
    body starts there, and `substr` throws if the text is shorter than that.
   */
  function Split(s: string): Parts {
    match Find(s, 0)
    case Some(index) => Parts(s[..index], s[index + 13..])
    case None => if |s| < 12 then OutOfRange else Parts(s, s[12..])
  }

  /** The first character of the separator occurs in it only once, so occurrences cannot overlap. */
  lemma NoOverlap(s: string, k: nat, m: nat)
    requires OccursAt(s, k) && OccursAt(s, m) && k < m
    ensures k + |SEPARATOR| <= m
  {
    forall i | k < i < k + |SEPARATOR|
      ensures s[i] != SEPARATOR[0]
    {
      assert s[k..k + |SEPARATOR|][i - k] == SEPARATOR[i - k];
    }
    assert s[m] == s[m..m + |SEPARATOR|][0] == SEPARATOR[0];
  }

  /** No occurrence in a merged text straddles the end of the header. */
  lemma NoStraddling(header: string, body: string, k: nat)
    requires k < |header| && OccursAt(Merge(header, body), k)
    ensures k + |SEPARATOR| <= |header| && OccursAt(header, k)
  {
    var s := Merge(header, body);
    MergedAt(header, body);
    NoOverlap(s, k, |header|);
    assert s[k..k + |SEPARATOR|] == header[k..k + |SEPARATOR|];
  }

  lemma MergedAt(header: string, body: string)
    ensures OccursAt(Merge(header, body), |header|)
    ensures Merge(header, body)[..|header|] == header
    ensures Merge(header, body)[|header| + 13..] == body
  {
    var s := Merge(header, body);
    assert s[|header|..|header| + |SEPARATOR|] == SEPARATOR;
  }

  /** What splitting a merged text gives: it breaks at the first separator of the whole text. */
  lemma SplitOfMerge(header: string, body: string)
    ensures !Contains(header) ==> Split(Merge(header, body)) == Parts(header, body)
    ensures forall k | 0 <= k < |header| && OccursAt(header, k) && (forall i | 0 <= i < k :: !OccursAt(header, i)) ::
              Split(Merge(header, body)) == Parts(header[..k], Merge(header[k + 13..], body))
  {
    var s := Merge(header, body);
    MergedAt(header, body);
    var index := Find(s, 0);
    if index.value < |header| {
      NoStraddling(header, body, index.value);
    }
    forall k | 0 <= k < |header| && OccursAt(header, k) && (forall i | 0 <= i < k :: !OccursAt(header, i))
      ensures Split(s) == Parts(header[..k], Merge(header[k + 13..], body))
    {
      assert s[k..k + |SEPARATOR|] == header[k..k + |SEPARATOR|];
      assert OccursAt(s, k);
      assert index.value <= k;
      assert index.value == k;
      assert s[..k] == header[..k] && s[k + 13..] == Merge(header[k + 13..], body);
    }
  }

  /** The round trip holds exactly for headers without a separator; the body may hold any. */
  lemma RoundTrip(header: string, body: string)
    ensures Split(Merge(header, body)) == Parts(header, body) <==> !Contains(header)
  {
    SplitOfMerge(header, body);
    if Contains(header) {
      var k := Find(header, 0).value;
      assert Split(Merge(header, body)) == Parts(header[..k], Merge(header[k + 13..], body));
      assert |header[..k]| < |header|;
    }
  }

  /** The other way round: merging the parts of a text gives the text back exactly if it has a separator. */
  lemma MergeOfSplit(s: string)
    ensures Contains(s) <==> Split(s).Parts? && Merge(Split(s).header, Split(s).body) == s
    ensures Split(s).OutOfRange? <==> !Contains(s) && |s| < 12
    ensures !Contains(s) && |s| >= 12 ==> Split(s) == Parts(s, s[12..])
  {
    match Find(s, 0)
    case Some(index) =>
      assert s[index..index + |SEPARATOR|] == SEPARATOR;
      assert s == s[..index] + s[index..index + 13] + s[index + 13..];
    case None =>
      if |s| >= 12 {
        MergedAt(s, s[12..]);
        assert |Merge(s, s[12..])| > |s|;
      }
  }
}
