/** `partitions.py`: partition tables, their overlap marks, and the bounded view of one partition. */
module Partitions {
  import opened Bytes

  datatype Partition = Partition(index: nat, start: nat, length: nat, type_: seq<byte>, name: seq<byte>)

  datatype Finding = BadBootFlag(index: nat, flag: byte) | ExtendedDeferred(index: nat) | OutsideImage(index: nat) | TooMany
                   | PointerCycle | PointerOutside | BadPartBlock(pointer: nat) | BadGeometry(index: nat)
                   | Overlapping(left: nat, right: nat)

  datatype Table = Table(partitions: seq<Partition>, errors: seq<Finding>)

  datatype Error = NoSignature | BadChecksum | BadBlockSize

  function End(p: Partition): nat {
    p.start + p.length
  }

  // Overlap marks.

  /** The sort key. */
  predicate Before(p: Partition, q: Partition) {
    p.start < q.start || (p.start == q.start && p.length <= q.length)
  }

  function Insert(p: Partition, sorted: seq<Partition>): seq<Partition> {
    if sorted == [] || Before(p, sorted[0]) then [p] + sorted else [sorted[0]] + Insert(p, sorted[1..])
  }

  /** `sorted(partitions, key=…)`, which is stable. */
  function Sorted(partitions: seq<Partition>): seq<Partition> {
    if partitions == [] then [] else Insert(partitions[0], Sorted(partitions[1..]))
  }

  /** What the neighbours in `ordered` report. */
  function Marks(ordered: seq<Partition>): seq<Finding> {
    if |ordered| < 2 then [] else
      (if ordered[1].start < End(ordered[0]) then [Overlapping(ordered[0].index, ordered[1].index)] else []) + Marks(ordered[1..])
  }

  /** `_mark_overlaps`. */
  method MarkOverlaps(partitions: seq<Partition>, errors: seq<Finding>) returns (marked: seq<Finding>)
    ensures marked == errors + Marks(Sorted(partitions))
  {
    hide Sorted;
    var ordered := Sorted(partitions);
    marked := errors;
    var i := 1;
    while i < |ordered|
      invariant i >= 1
      invariant marked + Marks(if i <= |ordered| then ordered[i - 1..] else []) == errors + Marks(ordered)
    {
      var left, right := ordered[i - 1], ordered[i];
      assert ordered[i - 1..][1..] == ordered[i..];
      if right.start < left.start + left.length {
        marked := marked + [Overlapping(left.index, right.index)];
      }
      i := i + 1;
    }
  }

  predicate Ascending(s: seq<Partition>) {
    |s| >= 2 ==> Before(s[0], s[1]) && Ascending(s[1..])
  }

  lemma {:induction false} InsertAscends(p: Partition, s: seq<Partition>)
    requires Ascending(s)
    ensures Ascending(Insert(p, s)) && multiset(Insert(p, s)) == multiset{p} + multiset(s)
    ensures Insert(p, s) != [] && (Insert(p, s)[0] == p || (s != [] && Insert(p, s)[0] == s[0]))
  {
    if s != [] && !Before(p, s[0]) {
      InsertAscends(p, s[1..]);
      assert s == [s[0]] + s[1..];
    }
  }

  lemma {:induction false} SortedAscends(s: seq<Partition>)
    ensures Ascending(Sorted(s)) && multiset(Sorted(s)) == multiset(s)
  {
    if s != [] {
      SortedAscends(s[1..]);
      InsertAscends(s[0], Sorted(s[1..]));
      assert s == [s[0]] + s[1..];
    }
  }

  /** Both contain some byte. */
  predicate Intersect(p: Partition, q: Partition) {
    p.start < End(q) && q.start < End(p)
  }

  predicate Positive(s: seq<Partition>) {
    forall p | p in s :: p.length > 0
  }

  /** No two, at different places in the list, intersect. */
  ghost predicate Apart(s: seq<Partition>) {
    forall i, j | 0 <= i < j < |s| :: !Intersect(s[i], s[j])
  }

  /** Without marks each of the ascending partitions ends before all later ones start. */
  lemma {:induction false} UnmarkedInOrder(s: seq<Partition>, j: nat)
    requires Marks(s) == [] && Positive(s) && 0 < j < |s|
    ensures End(s[0]) <= s[j].start
  {
    assert s[1] in s;
    if j > 1 {
      assert forall p | p in s[1..] :: p in s;
      UnmarkedInOrder(s[1..], j - 1);
    }
  }

  lemma {:induction false} UnmarkedApart(s: seq<Partition>)
    requires Marks(s) == [] && Positive(s)
    ensures Apart(s)
  {
    hide Marks, Positive;
    if s != [] {
      Rest(s);
      UnmarkedApart(s[1..]);
      forall i, j | 0 <= i < j < |s|
        ensures !Intersect(s[i], s[j])
      {
        if i == 0 {
          UnmarkedInOrder(s, j);
        } else {
          assert !Intersect(s[1..][i - 1], s[1..][j - 1]);
        }
      }
    }
  }

  lemma Rest(s: seq<Partition>)
    requires s != [] && Positive(s)
    ensures Positive(s[1..]) && (Marks(s) == [] ==> Marks(s[1..]) == [])
  {
    assert forall p | p in s[1..] :: p in s;
  }

  lemma {:induction false} MarkedMeet(s: seq<Partition>)
    requires Marks(s) != [] && Positive(s) && Ascending(s)
    ensures !Apart(s)
  {
    if s[1].start < End(s[0]) {
      assert s[1] in s;
      assert Intersect(s[0], s[1]);
    } else {
      Rest(s);
      MarkedMeet(s[1..]);
      var i, j :| 0 <= i < j < |s[1..]| && Intersect(s[1..][i], s[1..][j]);
      assert Intersect(s[i + 1], s[j + 1]);
    }
  }

  // Being apart does not depend on the order.

  /** No partition of the list intersects `p`. */
  predicate Clear(p: Partition, s: seq<Partition>) {
    s == [] || (!Intersect(p, s[0]) && Clear(p, s[1..]))
  }

  /** `Apart`, pair by pair from the front. */
  predicate AllClear(s: seq<Partition>) {
    s == [] || (Clear(s[0], s[1..]) && AllClear(s[1..]))
  }

  lemma {:induction false} ClearAt(p: Partition, s: seq<Partition>)
    ensures Clear(p, s) <==> forall i | 0 <= i < |s| :: !Intersect(p, s[i])
  {
    if s != [] {
      ClearAt(p, s[1..]);
      assert forall i | 0 < i < |s| :: s[i] == s[1..][i - 1];
      assert (forall i | 0 <= i < |s[1..]| :: !Intersect(p, s[1..][i])) ==> forall i | 0 < i < |s| :: !Intersect(p, s[i]);
      if forall i | 0 <= i < |s| :: !Intersect(p, s[i]) {
        assert forall i | 0 <= i < |s[1..]| :: s[1..][i] == s[i + 1];
      }
    }
  }

  lemma {:induction false} AllClearIsApart(s: seq<Partition>)
    ensures AllClear(s) <==> Apart(s)
  {
    hide Clear, Intersect;
    if s != [] {
      AllClearIsApart(s[1..]);
      ClearAt(s[0], s[1..]);
      if Apart(s) {
        assert forall i | 0 <= i < |s[1..]| :: s[1..][i] == s[i + 1];
      }
      if AllClear(s) {
        forall i, j | 0 <= i < j < |s|
          ensures !Intersect(s[i], s[j])
        {
          assert s[j] == s[1..][j - 1];
          if i > 0 {
            assert s[i] == s[1..][i - 1];
          }
        }
      }
    }
  }

  lemma {:induction false} ClearInsert(p: Partition, q: Partition, s: seq<Partition>)
    ensures Clear(p, Insert(q, s)) <==> !Intersect(p, q) && Clear(p, s)
  {
    hide Intersect, Before;
    if s == [] || Before(q, s[0]) {
      assert ([q] + s)[1..] == s;
    } else {
      ClearInsert(p, q, s[1..]);
      assert ([s[0]] + Insert(q, s[1..]))[1..] == Insert(q, s[1..]);
    }
  }

  lemma {:induction false} AllClearInsert(q: Partition, s: seq<Partition>)
    ensures AllClear(Insert(q, s)) <==> Clear(q, s) && AllClear(s)
  {
    hide Before;
    if s == [] || Before(q, s[0]) {
      assert ([q] + s)[1..] == s;
    } else {
      AllClearInsert(q, s[1..]);
      ClearInsert(s[0], q, s[1..]);
      assert ([s[0]] + Insert(q, s[1..]))[1..] == Insert(q, s[1..]);
    }
  }

  lemma {:induction false} ClearSorted(p: Partition, s: seq<Partition>)
    ensures Clear(p, Sorted(s)) <==> Clear(p, s)
  {
    if s != [] {
      ClearSorted(p, s[1..]);
      ClearInsert(p, s[0], Sorted(s[1..]));
    }
  }

  lemma {:induction false} AllClearSorted(s: seq<Partition>)
    ensures AllClear(Sorted(s)) <==> AllClear(s)
  {
    hide Clear;
    if s != [] {
      AllClearSorted(s[1..]);
      AllClearInsert(s[0], Sorted(s[1..]));
      ClearSorted(s[0], s[1..]);
    }
  }

  lemma PositiveSorted(s: seq<Partition>)
    requires Positive(s)
    ensures Positive(Sorted(s))
  {
    SortedAscends(s);
    forall p | p in Sorted(s)
      ensures p.length > 0
    {
      assert p in multiset(Sorted(s)) && p in multiset(s);
    }
  }

  /** Although only neighbours are compared, an overlap is marked exactly when two of the partitions intersect. */
  lemma MarkedIffIntersecting(s: seq<Partition>)
    requires Positive(s)
    ensures Marks(Sorted(s)) == [] <==> Apart(s)
  {
    hide Marks, Sorted, Positive, Clear, AllClear, Ascending, Apart;
    SortedAscends(s);
    PositiveSorted(s);
    if Marks(Sorted(s)) == [] {
      UnmarkedApart(Sorted(s));
    } else {
      MarkedMeet(Sorted(s));
    }
    AllClearIsApart(s);
    AllClearIsApart(Sorted(s));
    AllClearSorted(s);
  }

  // Unmarked partitions share the image out.

  function Total(s: seq<Partition>): nat {
    if s == [] then 0 else s[0].length + Total(s[1..])
  }

  lemma {:induction false} TotalInsert(p: Partition, s: seq<Partition>)
    ensures Total(Insert(p, s)) == p.length + Total(s)
  {
    if s == [] || Before(p, s[0]) {
      assert ([p] + s)[1..] == s;
    } else {
      TotalInsert(p, s[1..]);
      assert ([s[0]] + Insert(p, s[1..]))[1..] == Insert(p, s[1..]);
    }
  }

  lemma {:induction false} TotalSorted(s: seq<Partition>)
    ensures Total(Sorted(s)) == Total(s)
  {
    if s != [] {
      TotalSorted(s[1..]);
      TotalInsert(s[0], Sorted(s[1..]));
    }
  }

  predicate Inside(s: seq<Partition>, size: nat) {
    forall p | p in s :: End(p) <= size
  }

  lemma {:induction false} UnmarkedFits(s: seq<Partition>, size: nat)
    requires Marks(s) == [] && Inside(s, size) && s != []
    ensures s[0].start + Total(s) <= size
  {
    assert s[0] in s;
    if |s| > 1 {
      assert forall p | p in s[1..] :: p in s;
      UnmarkedFits(s[1..], size);
    }
  }

  /** With no overlap marked the partition lengths sum to at most the image size. */
  lemma UnmarkedLengthsFit(s: seq<Partition>, size: nat)
    requires Inside(s, size) && Marks(Sorted(s)) == []
    ensures Total(s) <= size
  {
    hide Marks, Sorted, Insert, Total;
    SortedAscends(s);
    TotalSorted(s);
    forall p | p in Sorted(s)
      ensures End(p) <= size
    {
      assert p in multiset(Sorted(s)) && p in multiset(s);
    }
    if Sorted(s) == [] {
      assert Total(Sorted(s)) == 0 by { Nothing(); }
    } else {
      UnmarkedFits(Sorted(s), size);
    }
  }

  lemma Nothing()
    ensures Total([]) == 0
  {
  }
}
