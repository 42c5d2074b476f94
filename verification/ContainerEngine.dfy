/** `ContainerAnalyzer`: bounded recursive extraction over one shared usage record and two growing lists. */
module ContainerEngine {
  import opened BoundedRange
  import opened Bytes
  import opened ContainerDepth
  import opened Containers
  import opened ContainerFit
  import opened ContainerRun

  /** A call returns, or an exception passes through it; `process` catches some of those. */
  datatype Outcome = Done | Raised(caught: bool)

  datatype Materialized = Written(bytes: Blob) | Refused(event: Event) | Broken(caught: bool)

  class Engine {
    const c: Config
    var completeness: Completeness
    var limitEvents: seq<Event>
    var childrenDiscovered: nat
    var childrenMaterialized: nat
    var totalExtractedBytes: nat
    var maxDepthReached: nat
    var materializedPartitionBytes: nat
    var derivedObjects: seq<Derived>
    var relationships: seq<Relationship>
    var files: map<nat, Blob>
    var late: bool
    ghost var nodes: seq<Node>
    ghost var passed: nat

    ghost function Current(): Run
      reads this
    {
      Run(completeness, limitEvents, childrenDiscovered, childrenMaterialized, totalExtractedBytes, maxDepthReached,
          materializedPartitionBytes, derivedObjects, relationships, files, nodes, passed)
    }

    /** A job whose earlier analyzers left it at `completeness`. */
    constructor (c: Config, completeness: Completeness)
      ensures this.c == c && Inv(c, Current()) && Balanced(Current())
      ensures Current() == Run(completeness, [], 0, 0, 0, 0, 0, [], [], map[], [], 0)
    {
      this.c, this.completeness, limitEvents := c, completeness, [];
      childrenDiscovered, childrenMaterialized, totalExtractedBytes, maxDepthReached := 0, 0, 0, 0;
      materializedPartitionBytes, derivedObjects, relationships, files, late := 0, [], [], map[], false;
      nodes, passed := [], 0;
    }

    /** The deadline check: any answer until the deadline has passed, and yes from then on. */
    method Expired() returns (expired: bool)
      modifies this`late
      ensures expired == late && (old(late) ==> late)
    {
      if !late {
        late := *;
      }
      return late;
    }

    /** `_limit` and `_skip`: record the event once. */
    method Limit(event: Event)
      modifies this`limitEvents
      ensures limitEvents == WithEvent(old(limitEvents), event)
    {
      if event !in limitEvents {
        limitEvents := limitEvents + [event];
      }
    }

    /** `_can_start_child`. */
    method CanStartChild() returns (can: bool)
      modifies this`limitEvents
      ensures can <==> childrenMaterialized < c.budget.maxTotalChildren
      ensures limitEvents == if can then old(limitEvents) else WithEvent(old(limitEvents), TotalChildCountLimit)
    {
      if childrenMaterialized >= c.budget.maxTotalChildren {
        Limit(TotalChildCountLimit);
        return false;
      }
      return true;
    }

    /** The deadline and the three budgets, checked before a piece is written. */
    method Refuses(size: nat, piece: nat, parentSize: nat) returns (event: Option<Event>)
      modifies this`late
      ensures old(late) ==> late
      ensures if late then event == Some(ExtractionTimeLimit)
              else if size + piece > c.budget.maxSingleChild then event == Some(ChildSizeLimit)
              else if totalExtractedBytes + size + piece > c.budget.maxTotalBytes then event == Some(ByteBudgetExhausted)
              else if parentSize > 0 && (size + piece) as real > c.budget.maxRatio * parentSize as real then event == Some(ExpansionRatioLimit)
              else event == None
      ensures !late ==> (event.None? <==> Affords(c.budget, totalExtractedBytes, size + piece, parentSize))
      ensures event.Some? ==> Justified(event.value, totalExtractedBytes, size + piece, parentSize)
    {
      var expired := Expired();
      if expired {
        return Some(ExtractionTimeLimit);
      }
      if size + piece > c.budget.maxSingleChild {
        return Some(ChildSizeLimit);
      }
      if totalExtractedBytes + size + piece > c.budget.maxTotalBytes {
        return Some(ByteBudgetExhausted);
      }
      if parentSize > 0 {
        RatioBound(size + piece, parentSize, c.budget.maxRatio);
        if (size + piece) as real / parentSize as real > c.budget.maxRatio {
          return Some(ExpansionRatioLimit);
        }
      }
      return None;
    }

    /** The event says what is wrong with a child of this size: the deadline, or the budget it exceeds. */
    predicate Justified(event: Event, used: nat, size: nat, parentSize: nat)
      reads this`late
    {
      match event
      case ExtractionTimeLimit => late
      case ChildSizeLimit => size > c.budget.maxSingleChild
      case ByteBudgetExhausted => used + size > c.budget.maxTotalBytes
      case ExpansionRatioLimit => parentSize > 0 && size as real > c.budget.maxRatio * parentSize as real
      case _ => false
    }

    lemma JustifiedByMore(event: Event, used: nat, less: nat, more: nat, parentSize: nat)
      requires less <= more && Justified(event, used, less, parentSize)
      ensures Justified(event, used, more, parentSize)
      ensures late || !Affords(c.budget, used, more, parentSize)
    {
    }

    /**
     `_materialize`: copies the stream into a fresh `child-N`, checking before every piece is written; whatever goes
     wrong, the partial file is removed again.
     */
    method Materialize(stream: Stream, target: nat, parentSize: nat) returns (result: Materialized)
      requires target !in files && totalExtractedBytes <= c.budget.maxTotalBytes
      modifies this`files, this`limitEvents, this`totalExtractedBytes, this`late
      ensures old(limitEvents) <= limitEvents && (old(late) ==> late)
      ensures result.Written? ==>
        && limitEvents == old(limitEvents)
        && result.bytes == Flatten(stream.chunks)
        && files == old(files)[target := result.bytes]
        && totalExtractedBytes == old(totalExtractedBytes) + |result.bytes|
        && old(Affords(c.budget, totalExtractedBytes, |Flatten(stream.chunks)|, parentSize))
      ensures !result.Written? ==> files == old(files) && totalExtractedBytes == old(totalExtractedBytes)
      ensures result.Refused? ==>
        && limitEvents == WithEvent(old(limitEvents), result.event)
        && Justified(result.event, totalExtractedBytes, |Flatten(stream.chunks)|, parentSize)
      ensures result.Written? ==> stream.end.Eof?
      ensures result.Broken? ==> stream.end == Fails(result.caught)
    {
      hide Flatten;
      ghost var before := files;
      files := files[target := []];
      var size: nat, i := 0, 0;
      FlattenNothing(stream.chunks);
      if parentSize > 0 {
        RatioBound(0, parentSize, c.budget.maxRatio);
      }
      while i < |stream.chunks|
        invariant i <= |stream.chunks| && totalExtractedBytes == old(totalExtractedBytes)
        invariant limitEvents == old(limitEvents) && (old(late) ==> late)
        invariant size == |Flatten(stream.chunks[..i])| && Affords(c.budget, totalExtractedBytes, size, parentSize)
        invariant files == before[target := Flatten(stream.chunks[..i])]
      {
        hide Affords;
        var chunk := stream.chunks[i];
        FlattenStep(stream.chunks, i);
        FlattenPrefix(stream.chunks, i + 1);
        var refusal := Refuses(size, |chunk|, parentSize);
        if refusal.Some? {
          JustifiedByMore(refusal.value, totalExtractedBytes, size + |chunk|, |Flatten(stream.chunks)|, parentSize);
          Limit(refusal.value);
          files := files - {target};
          return Refused(refusal.value);
        }
        files := files[target := files[target] + chunk];
        size := size + |chunk|;
        i := i + 1;
      }
      assert stream.chunks[..i] == stream.chunks;
      if stream.end.Fails? {
        files := files - {target};
        return Broken(stream.end.caught);
      }
      result := Written(files[target]);
      totalExtractedBytes := totalExtractedBytes + size;
    }

    /** `k` discovered members are still to be accounted for, unless an event has been noted. */
    ghost predicate Owes(k: nat)
      reads this
    {
      limitEvents == [] ==> childrenDiscovered == childrenMaterialized + passed + k
    }

    /** The first half of `_child`: a new file, and a new entry in both lists. */
    method AddChild(source: Blob, stream: Stream, relation: Relation, name: string, index: nat, depth: nat)
      returns (bytes: Option<Blob>, outcome: Outcome)
      requires Inv(c, Current()) && depth < c.budget.maxDepth
      requires Offered(c, source, relation, name, index, Flatten(stream.chunks))
      modifies this
      ensures Inv(c, Current()) && (old(late) ==> late)
      ensures bytes.None? ==>
        && Current() == old(Current()).(events := limitEvents) && old(limitEvents) <= limitEvents
        && (late || !old(CanAdd(stream, source)))
        && (outcome.Done? ==>
              exists event :: StopsChild(event, old(childrenMaterialized), old(totalExtractedBytes), stream, source)
                              && limitEvents == WithEvent(old(limitEvents), event))
        && (outcome.Raised? ==> stream.end == Fails(outcome.caught))
      ensures bytes.Some? ==>
        && bytes.value == Flatten(stream.chunks) && old(CanAdd(stream, source))
        && var child := Record(c, source, relation, name, index, bytes.value, depth);
           ChildNode(c, child, source, depth) && Current() == Append(old(Current()), child)
    {
      hide Offered, Inv, ChildNode, Edge, Max, Flatten, Affords, Justified;
      ghost var before := Current();
      bytes, outcome := None, Done;
      var can := CanStartChild();
      if !can {
        InvIgnores(c, before, Current());
        return;
      }
      var target := childrenMaterialized;
      NextFileIsFree(c, Current());
      InvBounds(c, Current());
      var result := Materialize(stream, target, |source|);
      match result {
        case Refused(event) =>
          JustifiedByMore(event, before.totalBytes, |Flatten(stream.chunks)|, |Flatten(stream.chunks)|, |source|);
          InvIgnores(c, before, Current());
          assert StopsChild(event, before.materialized, before.totalBytes, stream, source);
        case Broken(caught) =>
          InvIgnores(c, before, Current());
          outcome := Raised(caught);
        case Written(written) =>
          bytes := Some(written);
          Register(Record(c, source, relation, name, index, written, depth), before);
          WrittenKeepsInv(source, relation, name, index, written, depth, before);
      }
    }

    /** Why a child was not made: the child count is used up, or its bytes are refused. */
    predicate StopsChild(event: Event, children: nat, used: nat, stream: Stream, source: Blob)
      reads this`late
    {
      if children >= c.budget.maxTotalChildren then event == TotalChildCountLimit
      else Justified(event, used, |Flatten(stream.chunks)|, |source|)
    }

    /** A child can start, its stream can be read to the end, and it is within the byte budgets. */
    predicate CanAdd(stream: Stream, source: Blob)
      reads this`childrenMaterialized, this`totalExtractedBytes
    {
      && childrenMaterialized < c.budget.maxTotalChildren
      && Affords(c.budget, totalExtractedBytes, |Flatten(stream.chunks)|, |source|)
      && stream.end.Eof?
    }

    lemma WrittenKeepsInv(source: Blob, relation: Relation, name: string, index: nat, bytes: Blob, depth: nat, before: Run)
      requires Inv(c, before) && depth < c.budget.maxDepth && Offered(c, source, relation, name, index, bytes)
      requires before.materialized < c.budget.maxTotalChildren && Affords(c.budget, before.totalBytes, |bytes|, |source|)
      ensures var child := Record(c, source, relation, name, index, bytes, depth);
              ChildNode(c, child, source, depth) && Inv(c, Append(before, child))
    {
      hide Offered, Inv, ChildNode, Append;
      RecordIsChild(c, source, relation, name, index, bytes, depth);
      AppendKeepsInv(c, before, Record(c, source, relation, name, index, bytes, depth), source, depth);
    }

    /** The child's bytes are in place: it is counted and listed. */
    method Register(child: Node, ghost before: Run)
      requires before.materialized == childrenMaterialized
      requires Current() == before.(files := before.files[childrenMaterialized := child.blob],
                                    totalBytes := before.totalBytes + |child.blob|)
      modifies this`childrenMaterialized, this`derivedObjects, this`relationships, this`nodes, this`maxDepthReached
      ensures Current() == Append(before, child)
    {
      hide Edge, Max;
      childrenMaterialized := childrenMaterialized + 1;
      derivedObjects := derivedObjects + [child.derived];
      relationships := relationships + [Edge(child)];
      nodes := nodes + [child];
      maxDepthReached := Max(maxDepthReached, child.derived.depth);
    }

    /** `_child`: materialize and record, then recurse one level deeper or note the depth bound. */
    method Child(source: Blob, stream: Stream, relation: Relation, name: string, index: nat,
                 depth: nat) returns (outcome: Outcome)
      requires Inv(c, Current()) && depth < c.budget.maxDepth
      requires Offered(c, source, relation, name, index, Flatten(stream.chunks))
      modifies this
      ensures Inv(c, Current()) && Extends(c, old(Current()), Current(), source, depth) && (old(late) ==> late)
      ensures childrenMaterialized > old(childrenMaterialized) ==>
        materializedPartitionBytes - old(materializedPartitionBytes) + |Flatten(stream.chunks)|
        <= totalExtractedBytes - old(totalExtractedBytes)
      ensures materializedPartitionBytes
        <= Max(old(materializedPartitionBytes), Scaled(c.budget.maxDepth - depth - 1, c.budget.maxTotalPartition))
      ensures relation.PartitionOf? && NoNestedTables(c, nodes) ==> materializedPartitionBytes == old(materializedPartitionBytes)
      ensures outcome.Done? ==>
        Unsettled(Current()) - old(Unsettled(Current()))
        == if relation.PartitionOf? && childrenMaterialized > old(childrenMaterialized) then |Flatten(stream.chunks)| else 0
      ensures outcome.Done? && old(Owes(1)) ==> Owes(0)
      ensures outcome.Done? && limitEvents == [] ==>
        nodes == old(nodes) + ExpandChild(c, source, relation, name, index, Flatten(stream.chunks), depth)
      ensures Judged(old(Current()), Current(), late, outcome.Done?,
                     FitChild(c, source, Flatten(stream.chunks), stream.end, depth, old(UsageOf(Current()))))
      ensures CountAt(nodes[|old(nodes)|..], depth + 1) <= 1
      ensures
        && depth + 1 == c.budget.maxDepth && childrenMaterialized > old(childrenMaterialized)
        && !c.decode(Flatten(stream.chunks)).Unrecognized?
        ==> RecursionLimitReached in limitEvents
      decreases c.budget.maxDepth - depth, 0
    {
      hide Extends, Offered, Scaled, ChildNode, Inv, PartitionSum, CountAt, Affords, Fits, NoNestedTables, Judged;
      ghost var before := Current();
      var bytes;
      bytes, outcome := AddChild(source, stream, relation, name, index, depth);
      if bytes.None? {
        NothingMaterialized(before, source, depth);
        NotAdded(before, source, stream, depth, outcome.Done?);
        return;
      }
      ghost var child := Record(c, source, relation, name, index, bytes.value, depth);
      PartitionSumNext(before.nodes, child);
      ghost var appended := Current();
      if depth + 1 >= c.budget.maxDepth {
        if !c.decode(bytes.value).Unrecognized? {
          Limit(RecursionLimitReached);
        }
        outcome := Done;
        InvIgnores(c, appended, Current());
        ExtendsCounters(c, appended, Current(), bytes.value, depth + 1);
        AtBound(before, child, source, stream, depth);
      } else {
        outcome := ProcessObject(bytes.value, depth + 1);
        BelowBound(before, child, source, stream, depth, outcome.Done?);
      }
      ChildExtends(c, before, child, Current(), source, depth);
      MaterializedGrows(c, appended, Current(), bytes.value, depth + 1);
    }

    /** A child that was not added makes no quiet run, and an affordable one is added before the deadline. */
    lemma NotAdded(before: Run, source: Blob, stream: Stream, depth: nat, done: bool)
      requires depth < c.budget.maxDepth && (done ==> limitEvents != [])
      requires late || !(before.materialized < c.budget.maxTotalChildren && stream.end.Eof?
                         && Affords(c.budget, before.totalBytes, |Flatten(stream.chunks)|, |source|))
      ensures Judged(before, Current(), late, done, FitChild(c, source, Flatten(stream.chunks), stream.end, depth, UsageOf(before)))
      ensures CountAt(nodes[|nodes|..], depth + 1) == 0
    {
      hide Fits, Affords;
    }

    /** At the depth bound the child's own kind decides. */
    lemma AtBound(before: Run, child: Node, source: Blob, stream: Stream, depth: nat)
      requires depth + 1 == c.budget.maxDepth && child.blob == Flatten(stream.chunks)
      requires before.materialized < c.budget.maxTotalChildren && stream.end.Eof?
               && Affords(c.budget, before.totalBytes, |child.blob|, |source|)
      requires Current() == if c.decode(child.blob).Unrecognized? then Append(before, child)
                            else Noted(Append(before, child), RecursionLimitReached)
      ensures Judged(before, Current(), late, true, FitChild(c, source, child.blob, stream.end, depth, UsageOf(before)))
    {
      hide Fits, Affords;
    }

    lemma BelowBound(before: Run, child: Node, source: Blob, stream: Stream, depth: nat, done: bool)
      requires depth + 1 < c.budget.maxDepth && child.blob == Flatten(stream.chunks)
      requires before.materialized < c.budget.maxTotalChildren && stream.end.Eof?
               && Affords(c.budget, before.totalBytes, |child.blob|, |source|)
      requires Judged(Append(before, child), Current(), late, done, Fits(c, child.blob, depth + 1, UsageOf(Append(before, child))))
      ensures Judged(before, Current(), late, done, FitChild(c, source, child.blob, stream.end, depth, UsageOf(before)))
    {
      hide Fits, Affords;
    }

    lemma NothingMaterialized(before: Run, source: Blob, depth: nat)
      requires Inv(c, before) && depth <= c.budget.maxDepth
      requires Current() == before.(events := limitEvents) && before.events <= limitEvents
      ensures Inv(c, Current()) && Extends(c, before, Current(), source, depth)
    {
      hide Extends, Inv;
      InvIgnores(c, before, Current());
      ExtendsCounters(c, before, Current(), source, depth);
    }

    /** `_process_object`: the deadline, the depth bound, document payloads, then the detected container kind. */
    method ProcessObject(source: Blob, depth: nat) returns (outcome: Outcome)
      requires Inv(c, Current()) && depth <= c.budget.maxDepth
      modifies this
      ensures Inv(c, Current()) && Extends(c, old(Current()), Current(), source, depth) && (old(late) ==> late)
      ensures outcome.Done? ==> Unsettled(Current()) == old(Unsettled(Current()))
      ensures outcome.Done? && old(Owes(0)) ==> Owes(0)
      ensures outcome.Done? && limitEvents == [] ==> nodes == old(nodes) + Expansion(c, source, depth)
      ensures Judged(old(Current()), Current(), late, outcome.Done?, Fits(c, source, depth, old(UsageOf(Current()))))
      ensures old(late) ==> outcome == Done && Current() == Noted(old(Current()), ExtractionTimeLimit)
      ensures !late && depth < c.budget.maxDepth ==>
        match DocumentOf(c, source)
        case Document(partial, _) => partial.Some? && partial.value != COMPLETE ==> completeness != COMPLETE
        case DocumentFails => completeness != COMPLETE
        case NoDocument => true
      decreases c.budget.maxDepth - depth, 7
    {
      hide Extends, Inv, Offered, PartitionSum, FitContents, FitListing;
      ghost var before := Current();
      ExtendsSame(c, before, source, depth);
      var expired := Expired();
      if expired {
        Note(ExtractionTimeLimit, source, depth);
        return Done;
      }
      if depth >= c.budget.maxDepth {
        return Done;
      }
      var document := DocumentOf(c, source);
      match document {
        case Document(partial, parts) =>
          if partial.Some? && completeness == COMPLETE {
            Lower(partial.value, source, depth);
          }
          ghost var lowered := Current();
          outcome := ProcessMembers(source, DocumentParts, parts, depth);
          ExtendsTransitive(c, before, lowered, Current(), source, depth);
          StillQuiet(lowered, source, depth);
        case DocumentFails =>
          Lower(PARTIAL_ERROR, source, depth);
          ghost var lowered := Current();
          outcome := ProcessContents(source, depth);
          ExtendsTransitive(c, before, lowered, Current(), source, depth);
          StillQuiet(lowered, source, depth);
        case NoDocument =>
          outcome := ProcessContents(source, depth);
      }
    }

    /** A run that is quiet now was so before. */
    lemma StillQuiet(before: Run, source: Blob, depth: nat)
      requires Extends(c, before, Current(), source, depth)
      ensures before.nodes <= nodes && before.events <= limitEvents && (before.completeness != COMPLETE ==> completeness != COMPLETE)
      ensures Quiet(Current()) ==> Quiet(before)
    {
    }

    /** Sets the completeness; callers never raise it back to COMPLETE. */
    method Lower(value: Completeness, ghost source: Blob, ghost depth: nat)
      requires Inv(c, Current()) && depth <= c.budget.maxDepth
      requires completeness != COMPLETE ==> value != COMPLETE
      modifies this`completeness
      ensures completeness == value
      ensures Inv(c, Current()) && Extends(c, old(Current()), Current(), source, depth)
    {
      hide Extends, Inv;
      ghost var before := Current();
      completeness := value;
      InvIgnores(c, before, Current());
      ExtendsCounters(c, before, Current(), source, depth);
    }

    /** Notes an event. */
    method Note(event: Event, ghost source: Blob, ghost depth: nat)
      requires Inv(c, Current()) && depth <= c.budget.maxDepth
      modifies this`limitEvents
      ensures Current() == Noted(old(Current()), event) && event in limitEvents
      ensures Inv(c, Current()) && Extends(c, old(Current()), Current(), source, depth)
    {
      hide Extends, Inv;
      ghost var before := Current();
      Limit(event);
      InvIgnores(c, before, Current());
      ExtendsCounters(c, before, Current(), source, depth);
    }

    /** A container that cannot be listed: an event, and the completeness is set. */
    method Fail(event: Event, value: Completeness, ghost source: Blob, ghost depth: nat)
      requires Inv(c, Current()) && depth <= c.budget.maxDepth && value != COMPLETE
      modifies this`completeness, this`limitEvents
      ensures Current() == Failed(old(Current()), event, value) && limitEvents != []
      ensures Inv(c, Current()) && Extends(c, old(Current()), Current(), source, depth)
    {
      hide Extends, Inv;
      ghost var before := Current();
      Limit(event);
      completeness := value;
      InvIgnores(c, before, Current());
      ExtendsCounters(c, before, Current(), source, depth);
    }

    /** The branches on the detected kind. */
    method ProcessContents(source: Blob, depth: nat) returns (outcome: Outcome)
      requires Inv(c, Current()) && depth < c.budget.maxDepth && !DocumentOf(c, source).Document?
      modifies this
      ensures Inv(c, Current()) && Extends(c, old(Current()), Current(), source, depth) && (old(late) ==> late)
      ensures outcome.Done? ==> Unsettled(Current()) == old(Unsettled(Current()))
      ensures outcome.Done? && old(Owes(0)) ==> Owes(0)
      ensures outcome.Done? && limitEvents == [] ==> nodes == old(nodes) + ExpandContents(c, source, depth)
      ensures Judged(old(Current()), Current(), late, outcome.Done?, FitContents(c, source, depth, old(UsageOf(Current()))))
      ensures match c.decode(source)
              case Unrecognized => outcome == Done && Current() == old(Current())
              case CorruptZip => outcome == Done && Current() == Failed(old(Current()), CorruptContainer, PARTIAL_ERROR)
              case OpenFails(caught) => outcome == Raised(caught) && Current() == old(Current())
              case Members(_, members) => |members| > c.budget.maxChildrenPerObject ==> ChildCountLimit in limitEvents
              case Compressed(_, _) => CountAt(nodes[|old(nodes)|..], depth + 1) <= 1
              case Partitions(damaged, _) => damaged ==> completeness != COMPLETE
              case PartitionTableFails => outcome == Done && Current() == Failed(old(Current()), CorruptPartitionTable, PARTIAL_ERROR)
              case DiskImageFails => outcome == Done && Current() == Failed(old(Current()), CorruptFilesystem, PARTIAL_ERROR)
              case ToolUnavailable => outcome == Done && Current() == Failed(old(Current()), ExtractionUnavailable, PARTIAL_UNSUPPORTED)
              case EnumerationFails => outcome == Done && Current() == Failed(old(Current()), EnumerationFailure, PARTIAL_ERROR)
              case ToolRefuses(true) => outcome == Done && Current() == Failed(old(Current()), EncryptedContainer, PARTIAL_UNSUPPORTED)
              case ToolRefuses(false) => outcome == Done && Current() == Failed(old(Current()), CorruptContainer, PARTIAL_ERROR)
      decreases c.budget.maxDepth - depth, 6
    {
      hide Extends, Inv, PartitionSum, FitListing, FitRanges, FitChild, CountAt, WithEvent;
      ExtendsSame(c, Current(), source, depth);
      outcome := Done;
      match c.decode(source) {
        case Unrecognized =>
        case CorruptZip => Fail(CorruptContainer, PARTIAL_ERROR, source, depth);
        case OpenFails(caught) => outcome := Raised(caught);
        case Members(listing, members) => outcome := ProcessMembers(source, listing, members, depth);
        case Compressed(name, stream) => outcome := ProcessCompressed(source, name, stream, depth);
        case Partitions(damaged, ranges) =>
          ghost var before := Current();
          if damaged {
            Lower(PARTIAL_ERROR, source, depth);
          }
          ghost var lowered := Current();
          outcome := ProcessPartitions(source, ranges, depth);
          ExtendsTransitive(c, before, lowered, Current(), source, depth);
          StillQuiet(lowered, source, depth);
        case PartitionTableFails => Fail(CorruptPartitionTable, PARTIAL_ERROR, source, depth);
        case DiskImageFails => Fail(CorruptFilesystem, PARTIAL_ERROR, source, depth);
        case ToolUnavailable => Fail(ExtractionUnavailable, PARTIAL_UNSUPPORTED, source, depth);
        case EnumerationFails => Fail(EnumerationFailure, PARTIAL_ERROR, source, depth);
        case ToolRefuses(encrypted) =>
          if encrypted {
            Fail(EncryptedContainer, PARTIAL_UNSUPPORTED, source, depth);
          } else {
            Fail(CorruptContainer, PARTIAL_ERROR, source, depth);
          }
      }
    }

    /** gzip, bzip2 and xz: one stream, which is not checked against the child count first. */
    method ProcessCompressed(source: Blob, name: string, stream: Stream, depth: nat) returns (outcome: Outcome)
      requires Inv(c, Current()) && depth < c.budget.maxDepth && c.decode(source) == Compressed(name, stream)
      modifies this
      ensures Inv(c, Current()) && Extends(c, old(Current()), Current(), source, depth) && (old(late) ==> late)
      ensures outcome.Done? ==> Unsettled(Current()) == old(Unsettled(Current()))
      ensures outcome.Done? && old(Owes(0)) ==> Owes(0)
      ensures outcome.Done? && limitEvents == [] ==>
        nodes == old(nodes) + ExpandChild(c, source, DecompressedFrom, name, 0, Flatten(stream.chunks), depth)
      ensures Judged(old(Current()), Current(), late, outcome.Done?,
                     FitChild(c, source, Flatten(stream.chunks), stream.end, depth, old(UsageOf(Current()))))
      ensures CountAt(nodes[|old(nodes)|..], depth + 1) <= 1
      decreases c.budget.maxDepth - depth, 3
    {
      hide Extends, Inv, PartitionSum, FitChild, CountAt;
      ghost var before := Current();
      childrenDiscovered := childrenDiscovered + 1;
      ghost var counted := Current();
      InvIgnores(c, before, counted);
      ExtendsCounters(c, before, counted, source, depth);
      outcome := Child(source, stream, DecompressedFrom, name, 0, depth);
      ExtendsTransitive(c, before, counted, Current(), source, depth);
    }

    ghost predicate Listed(source: Blob, listing: Listing, members: seq<Member>) {
      || (listing.DocumentParts? && c.document(source).Document? && c.document(source).parts == members)
      || c.decode(source) == Members(listing, members)
    }

    /** The member loops: document payloads, ZIP and tar members, disk-image files and tool listings. */
    method ProcessMembers(source: Blob, listing: Listing, members: seq<Member>, depth: nat) returns (outcome: Outcome)
      requires Inv(c, Current()) && depth < c.budget.maxDepth && Listed(source, listing, members)
      modifies this
      ensures Inv(c, Current()) && Extends(c, old(Current()), Current(), source, depth) && (old(late) ==> late)
      ensures outcome.Done? ==> Unsettled(Current()) == old(Unsettled(Current()))
      ensures outcome.Done? && old(Owes(0)) ==> Owes(0)
      ensures outcome.Done? && limitEvents == [] ==>
        nodes == old(nodes) + ExpandMembers(c, source, listing, members, |members|, depth)
      ensures Judged(old(Current()), Current(), late, outcome.Done?,
                     FitListing(c, source, listing, members, depth, old(UsageOf(Current()))))
      ensures |members| > c.budget.maxChildrenPerObject ==> ChildCountLimit in limitEvents
      ensures CountAt(nodes[|old(nodes)|..], depth + 1) <= c.budget.maxChildrenPerObject
      decreases c.budget.maxDepth - depth, 5
    {
      hide Extends, Inv, Offered, PartitionSum, FitMembers, CountAt, Judged;
      ghost var before := Current();
      if |members| > c.budget.maxChildrenPerObject {
        Note(ChildCountLimit, source, depth);
        ghost var noted := Current();
        outcome := OfferMembers(source, listing, members, c.budget.maxChildrenPerObject, depth);
        ExtendsTransitive(c, before, noted, Current(), source, depth);
        StillQuiet(noted, source, depth);
        JudgedNoisy(before, Current(), late, outcome.Done?);
      } else {
        outcome := OfferMembers(source, listing, members, |members|, depth);
      }
    }

    /** The loop over the first `limit` members, left early by an exception or when no further child can start. */
    method OfferMembers(source: Blob, listing: Listing, members: seq<Member>, limit: nat, depth: nat) returns (outcome: Outcome)
      requires Inv(c, Current()) && depth < c.budget.maxDepth && Listed(source, listing, members) && limit <= |members|
      modifies this
      ensures Inv(c, Current()) && Extends(c, old(Current()), Current(), source, depth) && (old(late) ==> late)
      ensures outcome.Done? ==> Unsettled(Current()) == old(Unsettled(Current()))
      ensures outcome.Done? && old(Owes(0)) ==> Owes(0)
      ensures outcome.Done? && limitEvents == [] ==>
        nodes == old(nodes) + ExpandMembers(c, source, listing, members, limit, depth)
      ensures Judged(old(Current()), Current(), late, outcome.Done?,
                     FitMembers(c, source, listing, members, limit, depth, old(UsageOf(Current()))))
      ensures CountAt(nodes[|old(nodes)|..], depth + 1) <= limit
      decreases c.budget.maxDepth - depth, 4
    {
      hide Extends, Inv, Offered, PartitionSum, FitMembers, FitMember, CountAt, Judged, Reached, VerdictOf, ExpandMember;
      ghost var base := Current();
      MembersStart(base, source, listing, members, depth);
      outcome := Done;
      for i := 0 to limit
        invariant outcome == Done
        invariant Reached(c, base, Current(), ExpandMembers(c, source, listing, members, i, depth))
        invariant Inv(c, Current()) && Extends(c, base, Current(), source, depth)
        invariant Unsettled(Current()) == Unsettled(base)
        invariant limitEvents == [] ==> nodes == base.nodes + ExpandMembers(c, source, listing, members, i, depth)
        invariant (old(late) ==> late) && (old(Owes(0)) ==> Owes(0))
        invariant Judged(base, Current(), late, true, FitMembers(c, source, listing, members, i, depth, UsageOf(base)))
        invariant base.nodes <= nodes && CountAt(nodes[|base.nodes|..], depth + 1) <= i
      {
        ghost var start, wasLate := Current(), late;
        var go;
        go, outcome := ProcessMember(source, listing, members, i, depth);
        ExtendsTransitive(c, base, start, Current(), source, depth);
        StillQuiet(start, source, depth);
        MemberTurn(c, source, listing, members, i, limit, depth, base, start, Current(), wasLate, late, go, outcome.Done?);
        CountSince(base.nodes, start.nodes, nodes, depth + 1);
        if outcome.Raised? || !go {
          break;
        }
        ReachedNext(base, start, ExpandMembers(c, source, listing, members, i, depth),
                    ExpandMember(c, source, listing, members[i], depth));
      }
    }

    lemma MembersStart(base: Run, source: Blob, listing: Listing, members: seq<Member>, depth: nat)
      requires Inv(c, base) && base == Current() && depth < c.budget.maxDepth
      ensures Reached(c, base, base, ExpandMembers(c, source, listing, members, 0, depth))
      ensures Extends(c, base, base, source, depth)
      ensures Judged(base, base, late, true, FitMembers(c, source, listing, members, 0, depth, UsageOf(base)))
      ensures CountAt(base.nodes[|base.nodes|..], depth + 1) == 0
    {
      hide Inv, Extends;
      ExtendsSame(c, base, source, depth);
      assert base.nodes + [] == base.nodes;
    }

    /** The member leaves its event and nothing else but the discovery counter. */
    ghost predicate LeavesOnly(before: Run, event: Event, outcome: Outcome)
      reads this
    {
      outcome == Done && Current() == Noted(before.(discovered := before.discovered + 1), event)
    }

    /** What a member that could start leaves, by its own fields: the first check of its listing that fails decides. */
    ghost predicate Handled(before: Run, listing: Listing, m: Member, outcome: Outcome)
      reads this
    {
      var large := m.declared > c.budget.maxSingleChild;
      match listing
      case DocumentParts => true
      case ZipMembers =>
        if m.encrypted then LeavesOnly(before, EncryptedContainer, outcome)
        else if !m.safe then LeavesOnly(before, UnsafeMemberPath, outcome)
        else if m.link then LeavesOnly(before, SymlinkEntry, outcome)
        else large ==> LeavesOnly(before, ChildSizeLimit, outcome)
      case TarMembers =>
        if !m.safe then LeavesOnly(before, UnsafeMemberPath, outcome)
        else if m.link then LeavesOnly(before, SymlinkOrHardlinkEntry, outcome)
        else if !m.regular then LeavesOnly(before, SpecialFileEntry, outcome)
        else large ==> LeavesOnly(before, ChildSizeLimit, outcome)
      case DiskEntries => !m.safe ==> LeavesOnly(before, UnsafeMemberPath, outcome)
      case ToolMembers(_) =>
        if !m.safe then LeavesOnly(before, UnsafeMemberPath, outcome)
        else if m.directory then PassedOver(before, outcome)
        else if large then LeavesOnly(before, ChildSizeLimit, outcome)
        else !m.extracts ==> LeavesOnly(before, MemberExtractionFailure, outcome)
    }

    /** A directory row is counted, and nothing else. */
    ghost predicate PassedOver(before: Run, outcome: Outcome)
      reads this
    {
      outcome == Done && Current() == before.(discovered := before.discovered + 1, passed := before.passed + 1)
    }

    lemma HandledByVerdict(before: Run, listing: Listing, m: Member, outcome: Outcome)
      requires match VerdictOf(c.budget, listing, m)
               case Skip(event) => LeavesOnly(before, event, outcome)
               case Pass => PassedOver(before, outcome)
               case Offer => true
      ensures Handled(before, listing, m, outcome)
    {
      hide LeavesOnly, PassedOver;
    }

    /** One turn of the member loop; `go` is false when the global child count is used up. */
    method ProcessMember(source: Blob, listing: Listing, members: seq<Member>, i: nat, depth: nat) returns (go: bool,
                         outcome: Outcome)
      requires Inv(c, Current()) && depth < c.budget.maxDepth && Listed(source, listing, members) && i < |members|
      modifies this
      ensures Inv(c, Current()) && Extends(c, old(Current()), Current(), source, depth) && (old(late) ==> late)
      ensures outcome.Done? ==> Unsettled(Current()) == old(Unsettled(Current()))
      ensures outcome.Done? && old(Owes(0)) ==> Owes(0)
      ensures outcome.Done? && limitEvents == [] ==>
        go && nodes == old(nodes) + ExpandMember(c, source, listing, members[i], depth)
      ensures Judged(old(Current()), Current(), late, go && outcome.Done?,
                     FitMember(c, source, listing, members[i], depth, old(UsageOf(Current()))))
      ensures CountAt(nodes[|old(nodes)|..], depth + 1) <= 1
      ensures go <==> old(childrenMaterialized) < c.budget.maxTotalChildren
      ensures !go ==> LeavesOnly(old(Current()), TotalChildCountLimit, outcome)
      ensures go ==> Handled(old(Current()), listing, members[i], outcome)
      decreases c.budget.maxDepth - depth, 3
    {
      hide Extends, Inv, Offered, Listed, PartitionSum, FitChild, ExpandChild, CountAt, Scaled, Max, NoNestedTables, Handled;
      ghost var before := Current();
      childrenDiscovered := childrenDiscovered + 1;
      NothingAdded(depth);
      go := CanStartChild();
      outcome := Done;
      ghost var counted := Current();
      InvIgnores(c, before, counted);
      ExtendsCounters(c, before, counted, source, depth);
      if !go {
        return;
      }
      var m := members[i];
      match VerdictOf(c.budget, listing, m) {
        case Skip(event) =>
          Note(event, source, depth);
        case Pass =>
          passed := passed + 1;
          InvIgnores(c, counted, Current());
          ExtendsCounters(c, counted, Current(), source, depth);
        case Offer =>
          MemberIsOffered(source, listing, members, i);
          outcome := Child(source, m.stream, RelationOf(listing), m.name, m.index, depth);
      }
      HandledByVerdict(before, listing, m, outcome);
      ExtendsTransitive(c, before, counted, Current(), source, depth);
    }

    lemma NothingAdded(depth: nat)
      ensures CountAt(nodes[|nodes|..], depth + 1) == 0
    {
    }

    lemma MemberIsOffered(source: Blob, listing: Listing, members: seq<Member>, i: nat)
      requires Listed(source, listing, members) && i < |members| && VerdictOf(c.budget, listing, members[i]).Offer?
      ensures Offered(c, source, RelationOf(listing), members[i].name, members[i].index, Flatten(members[i].stream.chunks))
    {
      assert IsMember(members[i], members[i].name, members[i].index, Flatten(members[i].stream.chunks));
    }

    /** The partition loop: a partition's length counts as materialized only after its own recursion has returned. */
    method ProcessPartitions(source: Blob, ranges: seq<Range>, depth: nat) returns (outcome: Outcome)
      requires Inv(c, Current()) && OpensTable(c, source, depth) && c.decode(source).ranges == ranges
      modifies this
      ensures Inv(c, Current()) && Extends(c, old(Current()), Current(), source, depth) && (old(late) ==> late)
      ensures outcome.Done? ==> Unsettled(Current()) == old(Unsettled(Current()))
      ensures outcome.Done? && old(Owes(0)) ==> Owes(0)
      ensures outcome.Done? && limitEvents == [] ==>
        nodes == old(nodes) + ExpandRanges(c, source, ranges, |ranges|, depth)
      ensures Judged(old(Current()), Current(), late, outcome.Done?,
                     FitRanges(c, source, ranges, |ranges|, depth, old(UsageOf(Current()))))
      decreases c.budget.maxDepth - depth, 4
    {
      hide Extends, Inv, Offered, PartitionSum, FitRanges, Judged, Reached, OpensTable;
      ghost var base := Current();
      TableAbove(source, depth);
      RangesStart(base, source, ranges, depth);
      outcome := Done;
      for i := 0 to |ranges|
        invariant outcome == Done
        invariant Reached(c, base, Current(), ExpandRanges(c, source, ranges, i, depth))
        invariant Inv(c, Current()) && Extends(c, base, Current(), source, depth)
        invariant Unsettled(Current()) == Unsettled(base)
        invariant limitEvents == [] ==> nodes == base.nodes + ExpandRanges(c, source, ranges, i, depth)
        invariant (old(late) ==> late) && (old(Owes(0)) ==> Owes(0))
        invariant Judged(base, Current(), late, true, FitRanges(c, source, ranges, i, depth, UsageOf(base)))
      {
        ghost var start, wasLate := Current(), late;
        var go;
        go, outcome := ProcessPartition(source, ranges, i, depth);
        ExtendsTransitive(c, base, start, Current(), source, depth);
        StillQuiet(start, source, depth);
        RangeTurn(c, source, ranges, i, depth, base, start, Current(), wasLate, late, go, outcome.Done?);
        if outcome.Raised? || !go {
          break;
        }
        ReachedNext(base, start, ExpandRanges(c, source, ranges, i, depth), ExpandRange(c, source, ranges[i], depth));
      }
    }

    lemma RangesStart(base: Run, source: Blob, ranges: seq<Range>, depth: nat)
      requires Inv(c, base) && base == Current() && depth < c.budget.maxDepth
      ensures Reached(c, base, base, ExpandRanges(c, source, ranges, 0, depth))
      ensures Extends(c, base, base, source, depth)
      ensures Judged(base, base, late, true, FitRanges(c, source, ranges, 0, depth, UsageOf(base)))
    {
      hide Inv, Extends;
      ExtendsSame(c, base, source, depth);
      assert base.nodes + [] == base.nodes;
    }

    /** The state after one more turn. */
    lemma ReachedNext(base: Run, start: Run, added: seq<Node>, more: seq<Node>)
      requires Reached(c, base, start, added) && Inv(c, Current()) && Unsettled(Current()) == Unsettled(start)
      requires start.events <= limitEvents
      requires limitEvents == [] ==> nodes == start.nodes + more
      ensures Reached(c, base, Current(), added + more)
      ensures Unsettled(Current()) == Unsettled(base)
      ensures limitEvents == [] ==> nodes == base.nodes + (added + more)
    {
      hide Inv, PartitionSum;
      assert base.nodes + added + more == base.nodes + (added + more);
    }

    /** One partition: its two caps, its range, its slice. */
    method ProcessPartition(source: Blob, ranges: seq<Range>, i: nat, depth: nat) returns (go: bool, outcome: Outcome)
      requires Inv(c, Current()) && OpensTable(c, source, depth) && c.decode(source).ranges == ranges && i < |ranges|
      modifies this
      ensures Inv(c, Current()) && Extends(c, old(Current()), Current(), source, depth) && (old(late) ==> late)
      ensures outcome.Done? ==> Unsettled(Current()) == old(Unsettled(Current()))
      ensures outcome.Done? && old(Owes(0)) ==> Owes(0)
      ensures outcome.Done? && limitEvents == [] ==>
        go && nodes == old(nodes) + ExpandRange(c, source, ranges[i], depth)
      ensures Judged(old(Current()), Current(), late, go && outcome.Done?,
                     FitRange(c, source, ranges[i], depth, old(UsageOf(Current()))))
      ensures var counted := old(Current()).(discovered := old(childrenDiscovered) + 1);
              if old(childrenMaterialized) >= c.budget.maxTotalChildren then
                !go && outcome == Done && Current() == Noted(counted, TotalChildCountLimit)
              else if ranges[i].length > c.budget.maxPartition then
                go && outcome == Done && Current() == Noted(counted, PartitionLimit)
              else if old(materializedPartitionBytes) + ranges[i].length > c.budget.maxTotalPartition then
                !go && outcome == Done && Current() == Noted(counted, TotalPartitionLimit)
              else if ranges[i].start + ranges[i].length > |source| then
                outcome == Raised(false) && Current() == counted
              else go
      decreases c.budget.maxDepth - depth, 3
    {
      hide Extends, Inv, Offered, PartitionSum, FitChild, OpensTable;
      ghost var before := Current();
      var partition := ranges[i];
      TableAbove(source, depth);
      childrenDiscovered := childrenDiscovered + 1;
      go := CanStartChild();
      outcome := Done;
      ghost var counted := Current();
      InvIgnores(c, before, counted);
      ExtendsCounters(c, before, counted, source, depth);
      if !go {
        return;
      }
      if partition.length > c.budget.maxPartition {
        Note(PartitionLimit, source, depth);
      } else if materializedPartitionBytes + partition.length > c.budget.maxTotalPartition {
        Note(TotalPartitionLimit, source, depth);
        go := false;
      } else {
        outcome := ProcessSlice(source, ranges, i, depth);
      }
      ExtendsTransitive(c, before, counted, Current(), source, depth);
    }

    /**
     Opens the bounded reader on one partition, materializes what it yields and, once the partition's own recursion is
     over, counts its length.
     */
    method ProcessSlice(source: Blob, ranges: seq<Range>, i: nat, depth: nat) returns (outcome: Outcome)
      requires Inv(c, Current()) && OpensTable(c, source, depth) && c.decode(source).ranges == ranges && i < |ranges|
      requires ranges[i].length <= c.budget.maxPartition
      requires materializedPartitionBytes + ranges[i].length <= c.budget.maxTotalPartition
      modifies this
      ensures Inv(c, Current()) && Extends(c, old(Current()), Current(), source, depth) && (old(late) ==> late)
      ensures outcome.Done? ==> Unsettled(Current()) == old(Unsettled(Current()))
      ensures outcome.Done? && old(Owes(1)) ==> Owes(0)
      ensures outcome.Done? && limitEvents == [] ==> nodes == old(nodes) + ExpandRange(c, source, ranges[i], depth)
      ensures Judged(old(Current()), Current(), late, outcome.Done?, FitRange(c, source, ranges[i], depth, old(UsageOf(Current()))))
      ensures ranges[i].start + ranges[i].length > |source| ==> outcome == Raised(false) && Current() == old(Current())
      decreases c.budget.maxDepth - depth, 2
    {
      hide Extends, Inv, Offered, Scaled, Max, Flatten, PartitionSum, ExpandChild, FitChild, CountAt, OpensTable, NoNestedTables;
      ghost var before := Current();
      InvBounds(c, before);
      var partition := ranges[i];
      var view := BoundedRangeReader.Open(source, partition.start, partition.length, |source|);
      if view.Err? {
        TableAbove(source, depth);
        ExtendsSame(c, before, source, depth);
        return Raised(false);
      }
      var chunks := view.value.Chunks(CHUNK);
      SliceIsOffered(source, ranges, i, depth);
      var earlier := childrenMaterialized;
      outcome := Child(source, Stream(chunks.value, Eof), PartitionOf, partition.name, partition.index, depth);
      ghost var returned := Current();
      if outcome.Done? && childrenMaterialized > earlier {
        CountPartition(partition.length, before, source, depth);
        JudgedCounted(before, returned, Current(), late, FitRange(c, source, partition, depth, UsageOf(before)));
      }
    }

    /** `materialized_partition_bytes += partition.length`. */
    method CountPartition(length: nat, ghost before: Run, ghost source: Blob, ghost depth: nat)
      requires Inv(c, Current()) && Extends(c, before, Current(), source, depth) && OpensTable(c, source, depth)
      requires NoNestedTables(c, nodes) ==> materializedPartitionBytes == before.partitionBytes
      requires materializedPartitionBytes - before.partitionBytes + length <= totalExtractedBytes - before.totalBytes
      requires before.partitionBytes <= before.totalBytes
      requires before.partitionBytes + length <= c.budget.maxTotalPartition
      requires materializedPartitionBytes
        <= Max(before.partitionBytes, Scaled(c.budget.maxDepth - depth - 1, c.budget.maxTotalPartition))
      modifies this`materializedPartitionBytes
      ensures Current() == old(Current()).(partitionBytes := old(materializedPartitionBytes) + length)
      ensures Inv(c, Current()) && Extends(c, before, Current(), source, depth)
    {
      hide Extends, Inv, Scaled, Max, OpensTable, NoNestedTables;
      ghost var returned := Current();
      materializedPartitionBytes := materializedPartitionBytes + length;
      PartitionCounted(c, before, returned, length, source, depth);
    }

    lemma SliceIsOffered(source: Blob, ranges: seq<Range>, i: nat, depth: nat)
      requires OpensTable(c, source, depth) && c.decode(source).ranges == ranges && i < |ranges|
      requires ranges[i].start + ranges[i].length <= |source|
      ensures var view := source[ranges[i].start..ranges[i].start + ranges[i].length];
              Offered(c, source, PartitionOf, ranges[i].name, ranges[i].index, view)
      ensures depth < c.budget.maxDepth
    {
      assert IsSlice(source, ranges[i], ranges[i].name, ranges[i].index, source[ranges[i].start..ranges[i].start + ranges[i].length]);
    }

    lemma TableAbove(source: Blob, depth: nat)
      requires OpensTable(c, source, depth)
      ensures depth < c.budget.maxDepth
    {
    }

    /**
     `process`: what the run recorded is kept, the scratch files are removed, and the completeness is settled.
     An outcome other than `Done` is an exception that leaves `process`.
     */
    method Process(source: Blob) returns (outcome: Outcome)
      requires Inv(c, Current()) && Owes(0) && nodes == [] && materializedPartitionBytes == 0
      modifies this
      ensures Consistent(c, Current()) && Preorder(c, nodes, source, 0) && files == map[]
      ensures materializedPartitionBytes <= Scaled(c.budget.maxDepth, c.budget.maxTotalPartition)
      ensures NoNestedTables(c, nodes) ==> materializedPartitionBytes <= c.budget.maxTotalPartition
      ensures old(completeness) != COMPLETE ==> completeness != COMPLETE
      ensures outcome.Done? && completeness != PARTIAL_ERROR ==> materializedPartitionBytes == PartitionSum(nodes)
      ensures outcome.Done? && completeness == COMPLETE ==>
        limitEvents == [] && childrenDiscovered == childrenMaterialized + passed && nodes == Expansion(c, source, 0)
      ensures outcome.Done? && completeness == COMPLETE ==>
        && Fits(c, source, 0, Usage(0, 0, 0)) && UnrecognizedAtBound(c, nodes)
        && (materializedPartitionBytes <= c.budget.maxTotalPartition
            <==> PartitionSum(Expansion(c, source, 0)) <= c.budget.maxTotalPartition)
      ensures !late && old(completeness == COMPLETE && limitEvents == []) ==>
        (outcome.Done? && completeness == COMPLETE <==> Fits(c, source, 0, Usage(0, 0, 0)))
      ensures outcome != Raised(true)
    {
      hide Extends, Preorder, Link, Scaled, Recorded, FilesMatch, Fits, Expansion, NoNestedTables, UnrecognizedAtBound;
      ghost var before := Current();
      FreshUsage(before);
      outcome := ProcessObject(source, 0);
      if Fits(c, source, 0, Usage(0, 0, 0)) {
        FitsAtBound(c, source, 0, Usage(0, 0, 0));
      }
      ghost var ended := Current();
      WholeRun(before, source);
      match outcome {
        case Done =>
          if limitEvents != [] && completeness == COMPLETE {
            completeness := PARTIAL_LIMIT;
          }
        case Raised(caught) =>
          if caught {
            completeness := PARTIAL_ERROR;
            outcome := Done;
          }
      }
      files := map[];
      ConsistentIgnores(c, ended, Current());
    }

    /** What the state of a whole run owes to its being one call. */
    lemma WholeRun(before: Run, source: Blob)
      requires Extends(c, before, Current(), source, 0) && before.nodes == [] && before.partitionBytes == 0
      ensures Preorder(c, nodes, source, 0)
      ensures materializedPartitionBytes <= Scaled(c.budget.maxDepth, c.budget.maxTotalPartition)
      ensures NoNestedTables(c, nodes) ==> materializedPartitionBytes <= c.budget.maxTotalPartition
      ensures before.completeness != COMPLETE ==> completeness != COMPLETE
    {
      hide Preorder, Scaled, NoNestedTables;
      assert nodes[0..] == nodes;
    }

    lemma FreshUsage(before: Run)
      requires Inv(c, before) && before.nodes == [] && before.partitionBytes == 0
      ensures UsageOf(before) == Usage(0, 0, 0)
    {
    }
  }

  lemma RatioBound(size: nat, parent: nat, ratio: real)
    requires parent > 0
    ensures size as real / parent as real <= ratio <==> size as real <= ratio * parent as real
  {
    var q := size as real / parent as real;
    assert size as real == q * parent as real;
    if q > ratio {
      assert (q - ratio) * parent as real > 0.0;
    }
  }

  lemma FlattenNothing(chunks: seq<Blob>)
    ensures Flatten(chunks[..0]) == []
  {
  }

  lemma FlattenStep(chunks: seq<Blob>, i: nat)
    requires i < |chunks|
    ensures Flatten(chunks[..i + 1]) == Flatten(chunks[..i]) + chunks[i]
  {
    assert chunks[..i + 1][..i] == chunks[..i];
  }

  lemma {:induction false} FlattenPrefix(chunks: seq<Blob>, k: nat)
    requires k <= |chunks|
    ensures |Flatten(chunks[..k])| <= |Flatten(chunks)|
  {
    if k < |chunks| {
      FlattenPrefix(chunks[..|chunks| - 1], k);
      assert chunks[..|chunks| - 1][..k] == chunks[..k];
    } else {
      assert chunks[..k] == chunks;
    }
  }
}
