/** One set of a cache level as a sequence of lines, and the specification
    of the three scans the simulator runs over a set: lookup with recency
    touch (is_miss), fill with LRU replacement (lru_add) and invalidation by
    tag (the loops of lru_evict). */
module LineSet {

  datatype Option<T> = None | Some(value: T)

  /** One cache line (struct Block): its tag, the reference count at its last
      use and whether it holds a block. */
  datatype Line = Line(tag: nat, timeStamp: nat, isValid: bool)

  /** The line holds the block with tag t. */
  predicate Holds(l: Line, t: nat)
  {
    l.isValid && l.tag == t
  }

  /** The first line of s holding tag t, if any. */
  function FindHit(s: seq<Line>, t: nat): (r: Option<nat>)
    ensures r.Some? ==> r.value < |s| && Holds(s[r.value], t)
    ensures r.Some? ==> forall k :: 0 <= k < r.value ==> !Holds(s[k], t)
    ensures r.None? <==> forall k :: 0 <= k < |s| ==> !Holds(s[k], t)
  {
    if |s| == 0 then None
    else if Holds(s[0], t) then Some(0)
    else match FindHit(s[1..], t)
      case None => None
      case Some(k) => Some(k + 1)
  }

  /** The first invalid line of s, if any. */
  function FirstInvalid(s: seq<Line>): (r: Option<nat>)
    ensures r.Some? ==> r.value < |s| && !s[r.value].isValid
    ensures r.Some? ==> forall k :: 0 <= k < r.value ==> s[k].isValid
    ensures r.None? <==> forall k :: 0 <= k < |s| ==> s[k].isValid
  {
    if |s| == 0 then None
    else if !s[0].isValid then Some(0)
    else match FirstInvalid(s[1..])
      case None => None
      case Some(k) => Some(k + 1)
  }

  /** The least recently used line: the first line with the smallest time stamp. */
  function LruVictim(s: seq<Line>): (r: nat)
    requires |s| > 0
    ensures r < |s|
    ensures forall k :: 0 <= k < |s| ==> s[r].timeStamp <= s[k].timeStamp
    ensures forall k :: 0 <= k < r ==> s[r].timeStamp < s[k].timeStamp
  {
    if |s| == 1 then 0
    else
      var j := LruVictim(s[..|s| - 1]);
      if s[|s| - 1].timeStamp < s[j].timeStamp then |s| - 1 else j
  }

  /** The slot a fill uses: the first invalid line, or else the LRU victim. */
  function FillSlot(s: seq<Line>): (r: nat)
    requires |s| > 0
    ensures r < |s|
  {
    match FirstInvalid(s)
    case Some(j) => j
    case None => LruVictim(s)
  }

  /** The set after a lookup of tag t at time now: the first line holding t,
      if any, gets time stamp now. */
  function Touch(s: seq<Line>, t: nat, now: nat): (r: seq<Line>)
    ensures |r| == |s|
    ensures FindHit(s, t).None? ==> r == s
  {
    match FindHit(s, t)
    case None => s
    case Some(k) => s[k := s[k].(timeStamp := now)]
  }

  /** The set after filling tag t at time now. */
  function Install(s: seq<Line>, t: nat, now: nat): (r: seq<Line>)
    requires |s| > 0
    ensures |r| == |s|
    ensures FindHit(r, t).Some?
  {
    var r := s[FillSlot(s) := Line(t, now, true)];
    assert Holds(r[FillSlot(s)], t);
    r
  }

  /** A line with its validity cleared if it holds tag t. */
  function Clear(l: Line, t: nat): Line
  {
    if Holds(l, t) then l.(isValid := false) else l
  }

  /** The set with every line holding tag t invalidated. */
  function Invalidated(s: seq<Line>, t: nat): (r: seq<Line>)
    ensures |r| == |s|
    ensures FindHit(r, t).None?
  {
    seq(|s|, k requires 0 <= k < |s| => Clear(s[k], t))
  }

  /** No two valid lines of the set carry the same tag. */
  predicate NoDupTags(s: seq<Line>)
  {
    forall j, k :: 0 <= j < |s| && 0 <= k < |s| && j != k && s[j].isValid && s[k].isValid ==>
      s[j].tag != s[k].tag
  }

  /** Number of valid lines of the set. */
  function ValidCount(s: seq<Line>): nat
  {
    if |s| == 0 then 0 else (if s[0].isValid then 1 else 0) + ValidCount(s[1..])
  }

  // ---------------------------------------------------------------------------
  // Properties of the scans
  // ---------------------------------------------------------------------------

  /** A lookup changes exactly the time stamp of the first line holding t
      (to now) and leaves every other field and line as it was. */
  lemma TouchEffect(s: seq<Line>, t: nat, now: nat)
    ensures |Touch(s, t, now)| == |s|
    ensures forall k :: 0 <= k < |s| ==>
      Touch(s, t, now)[k].tag == s[k].tag && Touch(s, t, now)[k].isValid == s[k].isValid
    ensures FindHit(s, t).None? ==> Touch(s, t, now) == s
    ensures FindHit(s, t).Some? ==>
      var h := FindHit(s, t).value;
      Touch(s, t, now)[h].timeStamp == now &&
      forall k :: 0 <= k < |s| && k != h ==> Touch(s, t, now)[k] == s[k]
  {
  }

  /** Two sets whose lines agree on holding t give the same lookup result. */
  lemma FindHitSameHolders(s1: seq<Line>, s2: seq<Line>, t: nat)
    requires |s1| == |s2|
    requires forall k :: 0 <= k < |s1| ==> (Holds(s1[k], t) <==> Holds(s2[k], t))
    ensures FindHit(s1, t) == FindHit(s2, t)
  {
  }

  /** The slot a scan stops at on its first invalid line is the fill slot. */
  lemma FirstInvalidAt(s: seq<Line>, k: nat)
    requires k < |s| && !s[k].isValid && forall j :: 0 <= j < k ==> s[j].isValid
    ensures FirstInvalid(s) == Some(k) && FillSlot(s) == k
  {
  }

  /** In a set of valid lines the first line with the least time stamp is
      the LRU victim and the fill slot. */
  lemma LruVictimAt(s: seq<Line>, e: nat)
    requires e < |s| && forall j :: 0 <= j < |s| ==> s[j].isValid
    requires forall j :: 0 <= j < |s| ==> s[e].timeStamp <= s[j].timeStamp
    requires forall j :: 0 <= j < e ==> s[e].timeStamp < s[j].timeStamp
    ensures FirstInvalid(s).None? && LruVictim(s) == e && FillSlot(s) == e
  {
  }

  /** A lookup touch does not change which blocks the set holds. */
  lemma TouchKeepsHits(s: seq<Line>, t: nat, now: nat, t': nat)
    ensures FindHit(Touch(s, t, now), t') == FindHit(s, t')
  {
    TouchEffect(s, t, now);
    FindHitSameHolders(Touch(s, t, now), s, t');
  }

  /** A fill writes the new line into the first invalid slot when there is
      one and otherwise over the first least recently used line; all other
      lines stay as they were, and the filled set holds t. */
  lemma InstallEffect(s: seq<Line>, t: nat, now: nat)
    requires |s| > 0
    ensures |Install(s, t, now)| == |s|
    ensures FirstInvalid(s).Some? ==> FillSlot(s) == FirstInvalid(s).value && !s[FillSlot(s)].isValid
    ensures FirstInvalid(s).None? ==>
      FillSlot(s) == LruVictim(s) && s[FillSlot(s)].isValid &&
      forall k :: 0 <= k < |s| ==> s[FillSlot(s)].timeStamp <= s[k].timeStamp
    ensures Install(s, t, now)[FillSlot(s)] == Line(t, now, true)
    ensures forall k :: 0 <= k < |s| && k != FillSlot(s) ==> Install(s, t, now)[k] == s[k]
    ensures FindHit(Install(s, t, now), t).Some?
  {
  }

  /** After a fill every tag held before is still held, unless its first
      holder was the replaced line of a full set. */
  lemma InstallKeepsOthers(s: seq<Line>, t: nat, now: nat, t': nat)
    requires |s| > 0 && FindHit(s, t').Some?
    requires FirstInvalid(s).None? ==> FindHit(s, t').value != LruVictim(s)
    ensures FindHit(Install(s, t, now), t').Some?
  {
    var k := FindHit(s, t').value;
    InstallEffect(s, t, now);
    assert k != FillSlot(s);
    assert Holds(Install(s, t, now)[k], t');
  }

  /** Invalidation clears exactly the valid lines carrying t: tags and time
      stamps are kept, and afterwards no valid line carries t. */
  lemma InvalidatedEffect(s: seq<Line>, t: nat)
    ensures |Invalidated(s, t)| == |s|
    ensures forall k :: 0 <= k < |s| ==>
      Invalidated(s, t)[k].tag == s[k].tag &&
      Invalidated(s, t)[k].timeStamp == s[k].timeStamp &&
      (Invalidated(s, t)[k].isValid <==> s[k].isValid && s[k].tag != t)
    ensures FindHit(Invalidated(s, t), t).None?
  {
  }

  /** Lookup and a fill of an absent tag keep tags unique. */
  lemma TouchKeepsNoDup(s: seq<Line>, t: nat, now: nat)
    requires NoDupTags(s)
    ensures NoDupTags(Touch(s, t, now))
  {
    TouchEffect(s, t, now);
  }

  lemma InstallKeepsNoDup(s: seq<Line>, t: nat, now: nat)
    requires |s| > 0 && NoDupTags(s) && FindHit(s, t).None?
    ensures NoDupTags(Install(s, t, now))
  {
    InstallEffect(s, t, now);
    var r := Install(s, t, now);
    var j := FillSlot(s);
    forall a, b | 0 <= a < |r| && 0 <= b < |r| && a != b && r[a].isValid && r[b].isValid
      ensures r[a].tag != r[b].tag
    {
      if a == j {
        assert !Holds(s[b], t);
      } else if b == j {
        assert !Holds(s[a], t);
      }
    }
  }

  /** A set never holds more valid lines than it has lines (the capacity bound). */
  lemma {:induction false} ValidCountBound(s: seq<Line>)
    ensures ValidCount(s) <= |s|
  {
    if |s| > 0 {
      ValidCountBound(s[1..]);
    }
  }

  /** The classic LRU regression: in a two-line set, fill block 0, fill
      block 1, touch block 0, then fill block 2: block 1 is the one replaced. */
  lemma LruEvictsLeastRecent()
    ensures
      var empty := [Line(0, 0, false), Line(0, 0, false)];
      var s1 := Install(empty, 0, 1);
      var s2 := Install(s1, 1, 2);
      var s3 := Touch(s2, 0, 3);
      Install(s3, 2, 4) == [Line(0, 3, true), Line(2, 4, true)]
  {
    var empty := [Line(0, 0, false), Line(0, 0, false)];
    assert FirstInvalid(empty) == Some(0);
    var s1 := Install(empty, 0, 1);
    assert s1 == [Line(0, 1, true), Line(0, 0, false)];
    assert FirstInvalid(s1) == Some(1);
    var s2 := Install(s1, 1, 2);
    assert s2 == [Line(0, 1, true), Line(1, 2, true)];
    assert FindHit(s2, 0) == Some(0);
    var s3 := Touch(s2, 0, 3);
    assert s3 == [Line(0, 3, true), Line(1, 2, true)];
    assert FirstInvalid(s3) == None;
    assert LruVictim(s3) == 1;
  }
}
