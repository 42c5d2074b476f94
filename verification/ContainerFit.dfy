/**
 What an extraction would list if nothing were refused, and when nothing is: the full expansion of an object, and the
 exact condition under which it fits the budgets.
 */
module ContainerFit {
  import opened Bytes
  import opened Containers
  import opened ContainerRun

  // ----- the full expansion -----

  /** What lies below `source` at `depth`, in preorder, when nothing is refused. */
  function Expansion(c: Config, source: Blob, depth: nat): seq<Node>
    decreases c.budget.maxDepth - depth, 3
  {
    if depth >= c.budget.maxDepth then [] else
      match DocumentOf(c, source)
      case Document(_, parts) => ExpandMembers(c, source, DocumentParts, parts, |parts|, depth)
      case _ => ExpandContents(c, source, depth)
  }

  function ExpandContents(c: Config, source: Blob, depth: nat): seq<Node>
    requires depth < c.budget.maxDepth
    decreases c.budget.maxDepth - depth, 2
  {
    match c.decode(source)
    case Members(listing, members) => ExpandMembers(c, source, listing, members, |members|, depth)
    case Compressed(name, stream) => ExpandChild(c, source, DecompressedFrom, name, 0, Flatten(stream.chunks), depth)
    case Partitions(_, ranges) => ExpandRanges(c, source, ranges, |ranges|, depth)
    case _ => []
  }

  /** The first `k` members: those the listing's checks let through, each followed by what lies below it. */
  function ExpandMembers(c: Config, source: Blob, listing: Listing, members: seq<Member>, k: nat, depth: nat): seq<Node>
    requires depth < c.budget.maxDepth && k <= |members|
    decreases c.budget.maxDepth - depth, 1, k
  {
    if k == 0 then [] else
      ExpandMembers(c, source, listing, members, k - 1, depth)
      + ExpandMember(c, source, listing, members[k - 1], depth)
  }

  function ExpandMember(c: Config, source: Blob, listing: Listing, m: Member, depth: nat): seq<Node>
    requires depth < c.budget.maxDepth
    decreases c.budget.maxDepth - depth, 0, 1
  {
    if VerdictOf(c.budget, listing, m).Offer?
    then ExpandChild(c, source, RelationOf(listing), m.name, m.index, Flatten(m.stream.chunks), depth)
    else []
  }

  function ExpandRanges(c: Config, source: Blob, ranges: seq<Range>, k: nat, depth: nat): seq<Node>
    requires depth < c.budget.maxDepth && k <= |ranges|
    decreases c.budget.maxDepth - depth, 1, k
  {
    if k == 0 then [] else
      ExpandRanges(c, source, ranges, k - 1, depth) + ExpandRange(c, source, ranges[k - 1], depth)
  }

  function ExpandRange(c: Config, source: Blob, range: Range, depth: nat): seq<Node>
    requires depth < c.budget.maxDepth
    decreases c.budget.maxDepth - depth, 0, 1
  {
    if range.start + range.length <= |source|
    then ExpandChild(c, source, PartitionOf, range.name, range.index, source[range.start..range.start + range.length], depth)
    else []
  }

  function ExpandChild(c: Config, source: Blob, relation: Relation, name: string, index: nat, bytes: Blob,
                       depth: nat): (r: seq<Node>)
    requires depth < c.budget.maxDepth
    ensures r != []
    decreases c.budget.maxDepth - depth, 0, 0
  {
    [Record(c, source, relation, name, index, bytes, depth)] + Expansion(c, bytes, depth + 1)
  }

  // ----- when it fits -----

  /** How much of the totals is used: children, bytes, and partition bytes counted so far. */
  datatype Usage = Usage(children: nat, bytes: nat, counted: nat)

  function UsageOf(r: Run): Usage {
    Usage(r.materialized, r.totalBytes, r.partitionBytes)
  }

  function Grown(u: Usage, nodes: seq<Node>): Usage {
    Usage(u.children + |nodes|, u.bytes + TotalSize(nodes), u.counted + PartitionSum(nodes))
  }

  /** Everything below `source` is offered, readable, and within every budget when `u` is already used. */
  predicate Fits(c: Config, source: Blob, depth: nat, u: Usage)
    decreases c.budget.maxDepth - depth, 4
  {
    depth >= c.budget.maxDepth
    || match DocumentOf(c, source)
       case Document(partial, parts) => partial in {None, Some(COMPLETE)} && FitListing(c, source, DocumentParts, parts, depth, u)
       case DocumentFails => false
       case NoDocument => FitContents(c, source, depth, u)
  }

  predicate FitContents(c: Config, source: Blob, depth: nat, u: Usage)
    requires depth < c.budget.maxDepth
    decreases c.budget.maxDepth - depth, 3
  {
    match c.decode(source)
    case Unrecognized => true
    case Members(listing, members) => FitListing(c, source, listing, members, depth, u)
    case Compressed(_, stream) => FitChild(c, source, Flatten(stream.chunks), stream.end, depth, u)
    case Partitions(damaged, ranges) => !damaged && FitRanges(c, source, ranges, |ranges|, depth, u)
    case _ => false
  }

  predicate FitListing(c: Config, source: Blob, listing: Listing, members: seq<Member>, depth: nat, u: Usage)
    requires depth < c.budget.maxDepth
    decreases c.budget.maxDepth - depth, 2
  {
    |members| <= c.budget.maxChildrenPerObject && FitMembers(c, source, listing, members, |members|, depth, u)
  }

  /** The first `k` members, one after the other. */
  predicate FitMembers(c: Config, source: Blob, listing: Listing, members: seq<Member>, k: nat, depth: nat, u: Usage)
    requires depth < c.budget.maxDepth && k <= |members|
    decreases c.budget.maxDepth - depth, 1, k
  {
    k > 0 ==>
      && FitMembers(c, source, listing, members, k - 1, depth, u)
      && FitMember(c, source, listing, members[k - 1], depth, Grown(u, ExpandMembers(c, source, listing, members, k - 1, depth)))
  }

  /** A directory row, too, is only passed over while another child could start. */
  predicate FitMember(c: Config, source: Blob, listing: Listing, m: Member, depth: nat, u: Usage)
    requires depth < c.budget.maxDepth
    decreases c.budget.maxDepth - depth, 0, 1
  {
    match VerdictOf(c.budget, listing, m)
    case Skip(_) => false
    case Pass => u.children < c.budget.maxTotalChildren
    case Offer => FitChild(c, source, Flatten(m.stream.chunks), m.stream.end, depth, u)
  }

  predicate FitRanges(c: Config, source: Blob, ranges: seq<Range>, k: nat, depth: nat, u: Usage)
    requires depth < c.budget.maxDepth && k <= |ranges|
    decreases c.budget.maxDepth - depth, 1, k
  {
    k > 0 ==>
      && FitRanges(c, source, ranges, k - 1, depth, u)
      && FitRange(c, source, ranges[k - 1], depth, Grown(u, ExpandRanges(c, source, ranges, k - 1, depth)))
  }

  /** The caps on partitions are checked before the partition's own tables are opened. */
  predicate FitRange(c: Config, source: Blob, range: Range, depth: nat, u: Usage)
    requires depth < c.budget.maxDepth
    decreases c.budget.maxDepth - depth, 0, 1
  {
    && range.length <= c.budget.maxPartition && u.counted + range.length <= c.budget.maxTotalPartition
    && range.start + range.length <= |source|
    && FitChild(c, source, source[range.start..range.start + range.length], Eof, depth, u)
  }

  predicate FitChild(c: Config, source: Blob, bytes: Blob, end: StreamEnd, depth: nat, u: Usage): (r: bool)
    requires depth < c.budget.maxDepth
    ensures r ==> u.children < c.budget.maxTotalChildren
    decreases c.budget.maxDepth - depth, 0, 0
  {
    && u.children < c.budget.maxTotalChildren
    && Affords(c.budget, u.bytes, |bytes|, |source|)
    && end.Eof?
    && if depth + 1 >= c.budget.maxDepth then c.decode(bytes).Unrecognized?
       else Fits(c, bytes, depth + 1, Usage(u.children + 1, u.bytes + |bytes|, u.counted))
  }

  /** A child of `size` bytes is within the three byte budgets when `used` bytes are already extracted. */
  predicate Affords(b: Budget, used: nat, size: nat, parentSize: nat) {
    && size <= b.maxSingleChild
    && used + size <= b.maxTotalBytes
    && (parentSize > 0 ==> size as real <= b.maxRatio * parentSize as real)
  }

  lemma {:induction false} SumsConcat(a: seq<Node>, b: seq<Node>)
    ensures TotalSize(a + b) == TotalSize(a) + TotalSize(b) && PartitionSum(a + b) == PartitionSum(a) + PartitionSum(b)
  {
    if b == [] {
      assert a + b == a;
    } else {
      var init := b[..|b| - 1];
      assert (a + b)[..|a + b| - 1] == a + init;
      SumsConcat(a, init);
    }
  }

  /** With partitions settled, what a call adds to the usage is what it adds to the lists. */
  lemma UsageGrows(c: Config, before: Run, after: Run, added: seq<Node>)
    requires Inv(c, before) && Inv(c, after) && after.nodes == before.nodes + added
    requires Unsettled(after) == Unsettled(before)
    ensures UsageOf(after) == Grown(UsageOf(before), added)
  {
    SumsConcat(before.nodes, added);
  }

  lemma FitMembersNext(c: Config, source: Blob, listing: Listing, members: seq<Member>, i: nat, depth: nat, u: Usage)
    requires depth < c.budget.maxDepth && i < |members|
    ensures FitMembers(c, source, listing, members, i + 1, depth, u) <==>
            && FitMembers(c, source, listing, members, i, depth, u)
            && FitMember(c, source, listing, members[i], depth, Grown(u, ExpandMembers(c, source, listing, members, i, depth)))
  {
  }

  lemma {:induction false} FitMembersPrefix(c: Config, source: Blob, listing: Listing, members: seq<Member>, i: nat, k: nat,
                                            depth: nat, u: Usage)
    requires depth < c.budget.maxDepth && i <= k <= |members| && FitMembers(c, source, listing, members, k, depth, u)
    ensures FitMembers(c, source, listing, members, i, depth, u)
    decreases k
  {
    if i < k {
      FitMembersPrefix(c, source, listing, members, i, k - 1, depth, u);
    }
  }

  lemma FitRangesNext(c: Config, source: Blob, ranges: seq<Range>, i: nat, depth: nat, u: Usage)
    requires depth < c.budget.maxDepth && i < |ranges|
    ensures FitRanges(c, source, ranges, i + 1, depth, u) <==>
            && FitRanges(c, source, ranges, i, depth, u)
            && FitRange(c, source, ranges[i], depth, Grown(u, ExpandRanges(c, source, ranges, i, depth)))
  {
  }

  lemma {:induction false} FitRangesPrefix(c: Config, source: Blob, ranges: seq<Range>, i: nat, k: nat, depth: nat, u: Usage)
    requires depth < c.budget.maxDepth && i <= k <= |ranges| && FitRanges(c, source, ranges, k, depth, u)
    ensures FitRanges(c, source, ranges, i, depth, u)
    decreases k
  {
    if i < k {
      FitRangesPrefix(c, source, ranges, i, k - 1, depth, u);
    }
  }

  // ----- the verdict on a call -----

  /** No event and nothing that lowered the completeness. */
  predicate Quiet(r: Run) {
    r.events == [] && r.completeness == COMPLETE
  }

  /** A call leaves the run quiet only if its part of the expansion fits, and, before the deadline, whenever it does. */
  predicate Judged(before: Run, after: Run, late: bool, done: bool, fits: bool) {
    && (done && Quiet(after) ==> fits)
    && (!late && Quiet(before) && fits ==> done && Quiet(after))
  }

  lemma JudgedThen(before: Run, between: Run, after: Run, lateBetween: bool, late: bool, done: bool,
                   first: bool, second: bool, both: bool)
    requires Judged(before, between, lateBetween, true, first) && Judged(between, after, late, done, second)
    requires (lateBetween ==> late) && (Quiet(after) ==> Quiet(between))
    requires (both ==> first) && (Quiet(between) ==> (both <==> first && second))
    ensures Judged(before, after, late, done, both)
  {
    hide Quiet;
  }

  /** A loop is left early: by an exception, or with an event noted. */
  lemma JudgedStop(before: Run, between: Run, after: Run, lateBetween: bool, late: bool, done: bool,
                   first: bool, second: bool, both: bool)
    requires Judged(before, between, lateBetween, true, first) && Judged(between, after, late, false, second)
    requires (lateBetween ==> late) && (done ==> !Quiet(after))
    requires (both ==> first) && (Quiet(between) && both ==> second)
    ensures Judged(before, after, late, done, both)
  {
    hide Quiet;
  }

  /** A call that left an event, where something did not fit. */
  lemma JudgedNoisy(before: Run, after: Run, late: bool, done: bool)
    requires after.events != []
    ensures Judged(before, after, late, done, false)
  {
  }

  /** Counting a partition makes no difference to the verdict. */
  lemma JudgedCounted(before: Run, returned: Run, after: Run, late: bool, fits: bool)
    requires Judged(before, returned, late, true, fits)
    requires after.events == returned.events && after.completeness == returned.completeness
    ensures Judged(before, after, late, true, fits)
  {
  }

  /** What one turn of a loop sees: the state it starts from is `before` with `added`, as long as the run is quiet. */
  ghost predicate Reached(c: Config, before: Run, start: Run, added: seq<Node>) {
    && Inv(c, before) && Inv(c, start) && Unsettled(start) == Unsettled(before)
    && (start.events == [] ==> start.nodes == before.nodes + added)
  }

  lemma ReachedUsage(c: Config, before: Run, start: Run, added: seq<Node>)
    requires Reached(c, before, start, added) && Quiet(start)
    ensures UsageOf(start) == Grown(UsageOf(before), added)
  {
    hide Inv;
    UsageGrows(c, before, start, added);
  }

  /** One turn of the loop over the first `limit` members; `go` says that the loop goes on. */
  lemma MemberTurn(c: Config, source: Blob, listing: Listing, members: seq<Member>, i: nat, limit: nat, depth: nat,
                   before: Run, start: Run, after: Run, lateStart: bool, late: bool, go: bool, done: bool)
    requires depth < c.budget.maxDepth && i < limit <= |members|
    requires Reached(c, before, start, ExpandMembers(c, source, listing, members, i, depth))
    requires Judged(before, start, lateStart, true, FitMembers(c, source, listing, members, i, depth, UsageOf(before)))
    requires Judged(start, after, late, go && done, FitMember(c, source, listing, members[i], depth, UsageOf(start)))
    requires (lateStart ==> late) && (Quiet(after) ==> Quiet(start))
    ensures go && done ==> Judged(before, after, late, true, FitMembers(c, source, listing, members, i + 1, depth, UsageOf(before)))
    ensures (!go || !done) && (done ==> !Quiet(after)) ==>
      Judged(before, after, late, done, FitMembers(c, source, listing, members, limit, depth, UsageOf(before)))
  {
    hide Judged, Quiet, Reached, FitMembers, FitMember;
    var u := UsageOf(before);
    FitMembersNext(c, source, listing, members, i, depth, u);
    if Quiet(start) {
      ReachedUsage(c, before, start, ExpandMembers(c, source, listing, members, i, depth));
    }
    var first := FitMembers(c, source, listing, members, i, depth, u);
    var second := FitMember(c, source, listing, members[i], depth, UsageOf(start));
    if go && done {
      JudgedThen(before, start, after, lateStart, late, true, first, second, FitMembers(c, source, listing, members, i + 1, depth, u));
    } else if done ==> !Quiet(after) {
      var all := FitMembers(c, source, listing, members, limit, depth, u);
      if all {
        FitMembersPrefix(c, source, listing, members, i + 1, limit, depth, u);
      }
      JudgedStop(before, start, after, lateStart, late, done, first, second, all);
    }
  }

  /** One turn of the partition loop. */
  lemma RangeTurn(c: Config, source: Blob, ranges: seq<Range>, i: nat, depth: nat,
                  before: Run, start: Run, after: Run, lateStart: bool, late: bool, go: bool, done: bool)
    requires depth < c.budget.maxDepth && i < |ranges|
    requires Reached(c, before, start, ExpandRanges(c, source, ranges, i, depth))
    requires Judged(before, start, lateStart, true, FitRanges(c, source, ranges, i, depth, UsageOf(before)))
    requires Judged(start, after, late, go && done, FitRange(c, source, ranges[i], depth, UsageOf(start)))
    requires (lateStart ==> late) && (Quiet(after) ==> Quiet(start))
    ensures go && done ==> Judged(before, after, late, true, FitRanges(c, source, ranges, i + 1, depth, UsageOf(before)))
    ensures (!go || !done) && (done ==> !Quiet(after)) ==>
      Judged(before, after, late, done, FitRanges(c, source, ranges, |ranges|, depth, UsageOf(before)))
  {
    hide Judged, Quiet, Reached, FitRanges, FitRange;
    var u := UsageOf(before);
    FitRangesNext(c, source, ranges, i, depth, u);
    if Quiet(start) {
      ReachedUsage(c, before, start, ExpandRanges(c, source, ranges, i, depth));
    }
    var first, second := FitRanges(c, source, ranges, i, depth, u), FitRange(c, source, ranges[i], depth, UsageOf(start));
    if go && done {
      JudgedThen(before, start, after, lateStart, late, true, first, second, FitRanges(c, source, ranges, i + 1, depth, u));
    } else if done ==> !Quiet(after) {
      var all := FitRanges(c, source, ranges, |ranges|, depth, u);
      if all {
        FitRangesPrefix(c, source, ranges, i + 1, |ranges|, depth, u);
      }
      JudgedStop(before, start, after, lateStart, late, done, first, second, all);
    }
  }
}
