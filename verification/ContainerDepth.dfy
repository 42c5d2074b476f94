/** What the recursion bound cuts off. */
module ContainerDepth {
  import opened Bytes
  import opened Containers
  import opened ContainerFit
  import opened ContainerRun

  // ----- kinds at the bound -----

  predicate UnrecognizedAtBound(c: Config, nodes: seq<Node>) {
    forall i | 0 <= i < |nodes| :: nodes[i].derived.depth == c.budget.maxDepth ==> c.decode(nodes[i].blob).Unrecognized?
  }

  lemma UnrecognizedConcat(c: Config, a: seq<Node>, b: seq<Node>)
    requires UnrecognizedAtBound(c, a) && UnrecognizedAtBound(c, b)
    ensures UnrecognizedAtBound(c, a + b)
  {
  }

  /** An expansion that fits has no recognized container at the depth bound. */
  lemma {:induction false} FitsAtBound(c: Config, source: Blob, depth: nat, u: Usage)
    requires Fits(c, source, depth, u)
    ensures UnrecognizedAtBound(c, Expansion(c, source, depth))
    decreases c.budget.maxDepth - depth, 3
  {
    hide UnrecognizedAtBound;
    if depth < c.budget.maxDepth {
      match DocumentOf(c, source)
      case Document(_, parts) => MembersAtBound(c, source, DocumentParts, parts, |parts|, depth, u);
      case DocumentFails =>
      case NoDocument =>
        assert FitContents(c, source, depth, u);
        match c.decode(source)
        case Unrecognized => assert UnrecognizedAtBound(c, []) by { NothingAtBound(c); }
        case Members(listing, members) =>
          assert FitListing(c, source, listing, members, depth, u);
          MembersAtBound(c, source, listing, members, |members|, depth, u);
        case Compressed(name, stream) =>
          ChildAtBound(c, source, DecompressedFrom, name, 0, Flatten(stream.chunks), stream.end, depth, u);
        case Partitions(_, ranges) => RangesAtBound(c, source, ranges, |ranges|, depth, u);
        case _ =>
    } else {
      NothingAtBound(c);
    }
  }

  lemma NothingAtBound(c: Config)
    ensures UnrecognizedAtBound(c, [])
  {
  }

  lemma {:induction false} MembersAtBound(c: Config, source: Blob, listing: Listing, members: seq<Member>, k: nat,
                                          depth: nat, u: Usage)
    requires depth < c.budget.maxDepth && k <= |members| && FitMembers(c, source, listing, members, k, depth, u)
    ensures UnrecognizedAtBound(c, ExpandMembers(c, source, listing, members, k, depth))
    decreases c.budget.maxDepth - depth, 2, k
  {
    hide UnrecognizedAtBound, FitChild, ExpandChild;
    NothingAtBound(c);
    if k > 0 {
      MembersAtBound(c, source, listing, members, k - 1, depth, u);
      var m, first := members[k - 1], ExpandMembers(c, source, listing, members, k - 1, depth);
      if VerdictOf(c.budget, listing, m).Offer? {
        ChildAtBound(c, source, RelationOf(listing), m.name, m.index, Flatten(m.stream.chunks), m.stream.end, depth, Grown(u, first));
      }
      UnrecognizedConcat(c, first, ExpandMember(c, source, listing, m, depth));
    }
  }

  lemma {:induction false} RangesAtBound(c: Config, source: Blob, ranges: seq<Range>, k: nat, depth: nat, u: Usage)
    requires depth < c.budget.maxDepth && k <= |ranges| && FitRanges(c, source, ranges, k, depth, u)
    ensures UnrecognizedAtBound(c, ExpandRanges(c, source, ranges, k, depth))
    decreases c.budget.maxDepth - depth, 2, k
  {
    hide UnrecognizedAtBound, FitChild, ExpandChild;
    NothingAtBound(c);
    if k > 0 {
      RangesAtBound(c, source, ranges, k - 1, depth, u);
      var r, first := ranges[k - 1], ExpandRanges(c, source, ranges, k - 1, depth);
      var view := source[r.start..r.start + r.length];
      ChildAtBound(c, source, PartitionOf, r.name, r.index, view, Eof, depth, Grown(u, first));
      UnrecognizedConcat(c, first, ExpandRange(c, source, r, depth));
    }
  }

  lemma {:induction false} ChildAtBound(c: Config, source: Blob, relation: Relation, name: string, index: nat, bytes: Blob,
                                        end: StreamEnd, depth: nat, u: Usage)
    requires depth < c.budget.maxDepth && FitChild(c, source, bytes, end, depth, u)
    ensures UnrecognizedAtBound(c, ExpandChild(c, source, relation, name, index, bytes, depth))
    decreases c.budget.maxDepth - depth, 1
  {
    hide Fits, Expansion, Affords;
    var n := Record(c, source, relation, name, index, bytes, depth);
    if depth + 1 < c.budget.maxDepth {
      FitsAtBound(c, bytes, depth + 1, Usage(u.children + 1, u.bytes + |bytes|, u.counted));
    } else {
      BoundIsEmpty(c, bytes, depth + 1);
    }
    UnrecognizedConcat(c, [n], Expansion(c, bytes, depth + 1));
  }

  lemma BoundIsEmpty(c: Config, source: Blob, depth: nat)
    requires depth >= c.budget.maxDepth
    ensures Expansion(c, source, depth) == []
  {
  }

  // ----- a larger bound -----

  function Deeper(c: Config, d: nat): Config {
    c.(budget := c.budget.(maxDepth := d))
  }

  /** The object has nothing to extract, whatever its kind. */
  predicate Childless(c: Config, blob: Blob) {
    match DocumentOf(c, blob)
    case Document(_, parts) => parts == []
    case _ =>
      match c.decode(blob)
      case Members(listing, members) => forall i | 0 <= i < |members| :: !VerdictOf(c.budget, listing, members[i]).Offer?
      case Compressed(_, _) => false
      case Partitions(_, ranges) => forall i | 0 <= i < |ranges| :: ranges[i].start + ranges[i].length > |blob|
      case _ => true
  }

  lemma EmptyConcat(a: seq<Node>, b: seq<Node>)
    ensures a + b == [] <==> a == [] && b == []
  {
    assert |a + b| == |a| + |b|;
  }

  lemma {:induction false} NoMembers(c: Config, source: Blob, listing: Listing, members: seq<Member>, k: nat, depth: nat)
    requires depth < c.budget.maxDepth && k <= |members|
    ensures ExpandMembers(c, source, listing, members, k, depth) == []
            <==> forall i | 0 <= i < k :: !VerdictOf(c.budget, listing, members[i]).Offer?
    decreases k
  {
    hide Expansion, VerdictOf;
    if k > 0 {
      NoMembers(c, source, listing, members, k - 1, depth);
      EmptyConcat(ExpandMembers(c, source, listing, members, k - 1, depth), ExpandMember(c, source, listing, members[k - 1], depth));
    }
  }

  lemma {:induction false} NoRanges(c: Config, source: Blob, ranges: seq<Range>, k: nat, depth: nat)
    requires depth < c.budget.maxDepth && k <= |ranges|
    ensures ExpandRanges(c, source, ranges, k, depth) == []
            <==> forall i | 0 <= i < k :: ranges[i].start + ranges[i].length > |source|
    decreases k
  {
    hide Expansion;
    if k > 0 {
      NoRanges(c, source, ranges, k - 1, depth);
      EmptyConcat(ExpandRanges(c, source, ranges, k - 1, depth), ExpandRange(c, source, ranges[k - 1], depth));
    }
  }

  lemma EmptyIffChildless(c: Config, source: Blob, depth: nat)
    requires depth < c.budget.maxDepth
    ensures Expansion(c, source, depth) == [] <==> Childless(c, source)
  {
    hide ExpandMembers, ExpandRanges;
    match DocumentOf(c, source)
    case Document(_, parts) =>
      NoMembers(c, source, DocumentParts, parts, |parts|, depth);
      assert parts != [] ==> VerdictOf(c.budget, DocumentParts, parts[0]).Offer?;
    case _ =>
      assert Expansion(c, source, depth) == ExpandContents(c, source, depth);
      match c.decode(source)
      case Members(listing, members) => NoMembers(c, source, listing, members, |members|, depth);
      case Partitions(_, ranges) => NoRanges(c, source, ranges, |ranges|, depth);
      case _ =>
  }

  predicate ChildlessAtBound(c: Config, nodes: seq<Node>) {
    forall i | 0 <= i < |nodes| :: nodes[i].derived.depth == c.budget.maxDepth ==> Childless(c, nodes[i].blob)
  }

  /** Under a larger bound nothing changes, or there is more, depending on what sits at the bound. */
  predicate Extended(c: Config, nodes: seq<Node>, deeper: seq<Node>) {
    if ChildlessAtBound(c, nodes) then deeper == nodes else |deeper| > |nodes|
  }

  lemma ExtendedConcat(c: Config, a: seq<Node>, deeperA: seq<Node>, b: seq<Node>, deeperB: seq<Node>)
    requires Extended(c, a, deeperA) && Extended(c, b, deeperB)
    ensures Extended(c, a + b, deeperA + deeperB)
  {
    hide Childless;
    if ChildlessAtBound(c, a + b) {
      assert forall i | 0 <= i < |a| :: a[i] == (a + b)[i];
      assert forall i | 0 <= i < |b| :: b[i] == (a + b)[|a| + i];
    }
  }

  lemma NothingExtended(c: Config)
    ensures Extended(c, [], [])
  {
  }

  lemma {:induction false} DeeperExpansion(c: Config, d: nat, source: Blob, depth: nat)
    requires depth < c.budget.maxDepth < d
    ensures Extended(c, Expansion(c, source, depth), Expansion(Deeper(c, d), source, depth))
    decreases c.budget.maxDepth - depth, 3
  {
    hide Extended;
    NothingExtended(c);
    match DocumentOf(c, source)
    case Document(_, parts) => DeeperMembers(c, d, source, DocumentParts, parts, |parts|, depth);
    case _ =>
      match c.decode(source)
      case Members(listing, members) => DeeperMembers(c, d, source, listing, members, |members|, depth);
      case Compressed(name, stream) => DeeperChild(c, d, source, DecompressedFrom, name, 0, Flatten(stream.chunks), depth);
      case Partitions(_, ranges) => DeeperRanges(c, d, source, ranges, |ranges|, depth);
      case _ =>
  }

  lemma {:induction false} DeeperMembers(c: Config, d: nat, source: Blob, listing: Listing, members: seq<Member>, k: nat,
                                         depth: nat)
    requires depth < c.budget.maxDepth < d && k <= |members|
    ensures Extended(c, ExpandMembers(c, source, listing, members, k, depth),
                     ExpandMembers(Deeper(c, d), source, listing, members, k, depth))
    decreases c.budget.maxDepth - depth, 2, k
  {
    hide Extended, ExpandChild;
    NothingExtended(c);
    if k > 0 {
      DeeperMembers(c, d, source, listing, members, k - 1, depth);
      var m, e := members[k - 1], Deeper(c, d);
      if VerdictOf(c.budget, listing, m).Offer? {
        DeeperChild(c, d, source, RelationOf(listing), m.name, m.index, Flatten(m.stream.chunks), depth);
      }
      ExtendedConcat(c, ExpandMembers(c, source, listing, members, k - 1, depth), ExpandMembers(e, source, listing, members, k - 1, depth),
                     ExpandMember(c, source, listing, m, depth), ExpandMember(e, source, listing, m, depth));
    }
  }

  lemma {:induction false} DeeperRanges(c: Config, d: nat, source: Blob, ranges: seq<Range>, k: nat, depth: nat)
    requires depth < c.budget.maxDepth < d && k <= |ranges|
    ensures Extended(c, ExpandRanges(c, source, ranges, k, depth), ExpandRanges(Deeper(c, d), source, ranges, k, depth))
    decreases c.budget.maxDepth - depth, 2, k
  {
    hide Extended, ExpandChild;
    NothingExtended(c);
    if k > 0 {
      DeeperRanges(c, d, source, ranges, k - 1, depth);
      var r, e := ranges[k - 1], Deeper(c, d);
      if r.start + r.length <= |source| {
        DeeperChild(c, d, source, PartitionOf, r.name, r.index, source[r.start..r.start + r.length], depth);
      }
      ExtendedConcat(c, ExpandRanges(c, source, ranges, k - 1, depth), ExpandRanges(e, source, ranges, k - 1, depth),
                     ExpandRange(c, source, r, depth), ExpandRange(e, source, r, depth));
    }
  }

  lemma {:induction false} DeeperChild(c: Config, d: nat, source: Blob, relation: Relation, name: string, index: nat,
                                       bytes: Blob, depth: nat)
    requires depth < c.budget.maxDepth < d
    ensures Extended(c, ExpandChild(c, source, relation, name, index, bytes, depth),
                     ExpandChild(Deeper(c, d), source, relation, name, index, bytes, depth))
    decreases c.budget.maxDepth - depth, 1
  {
    hide Expansion, Childless;
    var n, e := Record(c, source, relation, name, index, bytes, depth), Deeper(c, d);
    if depth + 1 < c.budget.maxDepth {
      DeeperExpansion(c, d, bytes, depth + 1);
      ExtendedConcat(c, [n], [n], Expansion(c, bytes, depth + 1), Expansion(e, bytes, depth + 1));
    } else {
      BoundIsEmpty(c, bytes, depth + 1);
      EmptyIffChildless(e, bytes, depth + 1);
      SameChildless(c, d, bytes);
      assert [n] + [] == [n] && [n][0] == n;
    }
  }

  lemma SameChildless(c: Config, d: nat, blob: Blob)
    ensures Childless(Deeper(c, d), blob) <==> Childless(c, blob)
  {
  }

  /**
   The expansion under the bound is the expansion under a larger one exactly when no object at the bound, the source
   itself when the bound is 0, has anything to extract.
   */
  lemma BoundLosesNothing(c: Config, source: Blob, d: nat)
    requires c.budget.maxDepth < d
    ensures Expansion(c, source, 0) == Expansion(Deeper(c, d), source, 0) <==>
            if c.budget.maxDepth == 0 then Childless(c, source) else ChildlessAtBound(c, Expansion(c, source, 0))
  {
    hide Childless, Expansion, ChildlessAtBound;
    if c.budget.maxDepth == 0 {
      BoundIsEmpty(c, source, 0);
      EmptyIffChildless(Deeper(c, d), source, 0);
      SameChildless(c, d, source);
    } else {
      DeeperExpansion(c, d, source, 0);
    }
  }

  /** The object is at the bound and its document parts are not looked at. */
  predicate HidesParts(c: Config, n: Node) {
    n.derived.depth == c.budget.maxDepth && DocumentOf(c, n.blob).Document? && DocumentOf(c, n.blob).parts != []
  }

  /**
   What a COMPLETE run lists (`Engine.Process` gives both premises) is what every larger bound would list exactly when
   the source, if the bound is 0, has nothing to extract, or else no listed object at the bound carries document parts:
   anything recognized there would have left an event.
   */
  lemma CompleteRunIsWhole(c: Config, nodes: seq<Node>, source: Blob, d: nat)
    requires nodes == Expansion(c, source, 0) && Fits(c, source, 0, Usage(0, 0, 0)) && c.budget.maxDepth < d
    ensures nodes == Expansion(Deeper(c, d), source, 0) <==>
            if c.budget.maxDepth == 0 then Childless(c, source) else forall i | 0 <= i < |nodes| :: !HidesParts(c, nodes[i])
  {
    hide Fits, Expansion;
    FitsAtBound(c, source, 0, Usage(0, 0, 0));
    BoundLosesNothing(c, source, d);
    forall i | 0 <= i < |nodes| && nodes[i].derived.depth == c.budget.maxDepth
      ensures Childless(c, nodes[i].blob) <==> !HidesParts(c, nodes[i])
    {
      assert c.decode(nodes[i].blob).Unrecognized?;
    }
  }
}
