/** Which members a listing gives up, by their own fields, and that a complete run has refused none. */
module ContainerRefusals {
  import opened Bytes
  import opened ContainerFit
  import opened ContainerRun
  import opened ContainerTheorems
  import opened Containers

  // ----- what is listed -----

  /** The entry is the member, as a listing of this kind relates it, and the member's own fields are as they should be. */
  predicate ComesFrom(b: Budget, listing: Listing, m: Member, d: Derived, blob: Blob, relation: Relation) {
    && d.name == m.name && d.index == m.index && blob == Flatten(m.stream.chunks)
    && match listing
       case DocumentParts => relation == EmbeddedFileOf
       case ZipMembers => relation == Contains && m.safe && !m.encrypted && !m.link && m.declared <= b.maxSingleChild
       case TarMembers => relation == Contains && m.safe && m.regular && !m.link && m.declared <= b.maxSingleChild
       case DiskEntries => relation == FilesystemEntryOf && m.safe
       case ToolMembers(iso) =>
         relation == (if iso then FilesystemEntryOf else Contains)
         && m.safe && m.extracts && !m.directory && m.declared <= b.maxSingleChild
  }

  /**
   Every listed entry that contains or is a filesystem entry comes from a member of its parent's listing whose path is
   safe: of a ZIP one that is neither encrypted nor a link, of a tar a regular file, of a tool's listing no directory and
   one the tool extracts; and outside disk images one whose declared size is within the child cap.
   */
  lemma ListedEntryIsClean(c: Config, r: Run, source: Blob, i: nat, parent: Blob)
    requires Consistent(c, r) && Preorder(c, r.nodes, source, 0) && i < |r.derived| && ParentOf(c, r.nodes, source, i, parent)
    requires r.relationships[i].relation in {Contains, FilesystemEntryOf}
    ensures c.decode(parent).Members?
    ensures exists k | 0 <= k < |c.decode(parent).members| ::
              ComesFrom(c.budget, c.decode(parent).listing, c.decode(parent).members[k], r.derived[i], r.nodes[i].blob,
                        r.relationships[i].relation)
  {
    var n := r.nodes[i];
    assert Recorded(c, r, i) && Placed(c, r.nodes, source, 0, i);
    assert Link(c, parent, n);
    assert Offered(c, parent, n.relation, n.derived.name, n.derived.index, n.blob);
    var listing, members := c.decode(parent).listing, c.decode(parent).members;
    var k :| 0 <= k < |members| && IsMember(members[k], n.derived.name, n.derived.index, n.blob)
             && VerdictOf(c.budget, listing, members[k]).Offer?;
    assert ComesFrom(c.budget, listing, members[k], r.derived[i], n.blob, n.relation);
  }

  // ----- what is refused -----

  /** The member leaves no event of its own. */
  predicate Admissible(b: Budget, listing: Listing, m: Member) {
    match listing
    case DocumentParts => true
    case ZipMembers => m.safe && !m.encrypted && !m.link && m.declared <= b.maxSingleChild
    case TarMembers => m.safe && m.regular && !m.link && m.declared <= b.maxSingleChild
    case DiskEntries => m.safe
    case ToolMembers(_) => m.safe && (m.directory || (m.declared <= b.maxSingleChild && m.extracts))
  }

  /** For each event, the members that leave it: the first check that fails decides. */
  lemma RefusalEvents(b: Budget, listing: Listing, m: Member)
    ensures VerdictOf(b, listing, m).Skip? <==> !Admissible(b, listing, m)
    ensures VerdictOf(b, listing, m).Pass? <==> listing.ToolMembers? && m.safe && m.directory
    ensures VerdictOf(b, listing, m) == Skip(EncryptedContainer) <==> listing.ZipMembers? && m.encrypted
    ensures VerdictOf(b, listing, m) == Skip(UnsafeMemberPath) <==>
            !listing.DocumentParts? && !m.safe && !(listing.ZipMembers? && m.encrypted)
    ensures VerdictOf(b, listing, m) == Skip(SymlinkEntry) <==> listing.ZipMembers? && !m.encrypted && m.safe && m.link
    ensures VerdictOf(b, listing, m) == Skip(SymlinkOrHardlinkEntry) <==> listing.TarMembers? && m.safe && m.link
    ensures VerdictOf(b, listing, m) == Skip(SpecialFileEntry) <==> listing.TarMembers? && m.safe && !m.link && !m.regular
    ensures VerdictOf(b, listing, m) == Skip(ChildSizeLimit) <==>
            && m.safe && m.declared > b.maxSingleChild
            && ((listing.ZipMembers? && !m.encrypted && !m.link) || (listing.TarMembers? && !m.link && m.regular)
                || (listing.ToolMembers? && !m.directory))
    ensures VerdictOf(b, listing, m) == Skip(MemberExtractionFailure) <==>
            listing.ToolMembers? && m.safe && !m.directory && m.declared <= b.maxSingleChild && !m.extracts
  {
  }

  /** The listing of an object that is opened has no member to refuse. */
  predicate NoneRefused(c: Config, blob: Blob, depth: nat) {
    depth < c.budget.maxDepth && !DocumentOf(c, blob).Document? && c.decode(blob).Members? ==>
      forall k | 0 <= k < |c.decode(blob).members| :: Admissible(c.budget, c.decode(blob).listing, c.decode(blob).members[k])
  }

  predicate AllClean(c: Config, nodes: seq<Node>) {
    forall i | 0 <= i < |nodes| :: NoneRefused(c, nodes[i].blob, nodes[i].derived.depth)
  }

  lemma CleanConcat(c: Config, a: seq<Node>, b: seq<Node>)
    requires AllClean(c, a) && AllClean(c, b)
    ensures AllClean(c, a + b)
  {
    hide NoneRefused;
  }

  lemma NothingClean(c: Config)
    ensures AllClean(c, [])
  {
  }

  lemma {:induction false} FitsClean(c: Config, source: Blob, depth: nat, u: Usage)
    requires Fits(c, source, depth, u)
    ensures NoneRefused(c, source, depth) && AllClean(c, Expansion(c, source, depth))
    decreases c.budget.maxDepth - depth, 3
  {
    hide AllClean;
    NothingClean(c);
    if depth < c.budget.maxDepth {
      match DocumentOf(c, source)
      case Document(_, parts) => MembersClean(c, source, DocumentParts, parts, |parts|, depth, u);
      case DocumentFails =>
      case NoDocument =>
        assert FitContents(c, source, depth, u);
        match c.decode(source)
        case Members(listing, members) =>
          assert FitListing(c, source, listing, members, depth, u);
          MembersClean(c, source, listing, members, |members|, depth, u);
        case Compressed(name, stream) => ChildClean(c, source, DecompressedFrom, name, 0, Flatten(stream.chunks), stream.end, depth, u);
        case Partitions(_, ranges) => RangesClean(c, source, ranges, |ranges|, depth, u);
        case _ =>
    }
  }

  lemma {:induction false} MembersClean(c: Config, source: Blob, listing: Listing, members: seq<Member>, k: nat,
                                        depth: nat, u: Usage)
    requires depth < c.budget.maxDepth && k <= |members| && FitMembers(c, source, listing, members, k, depth, u)
    ensures AllClean(c, ExpandMembers(c, source, listing, members, k, depth))
    ensures forall i | 0 <= i < k :: Admissible(c.budget, listing, members[i])
    decreases c.budget.maxDepth - depth, 2, k
  {
    hide AllClean, FitChild, ExpandChild;
    NothingClean(c);
    if k > 0 {
      MembersClean(c, source, listing, members, k - 1, depth, u);
      var m, first := members[k - 1], ExpandMembers(c, source, listing, members, k - 1, depth);
      RefusalEvents(c.budget, listing, m);
      if VerdictOf(c.budget, listing, m).Offer? {
        ChildClean(c, source, RelationOf(listing), m.name, m.index, Flatten(m.stream.chunks), m.stream.end, depth, Grown(u, first));
      }
      CleanConcat(c, first, ExpandMember(c, source, listing, m, depth));
    }
  }

  lemma {:induction false} RangesClean(c: Config, source: Blob, ranges: seq<Range>, k: nat, depth: nat, u: Usage)
    requires depth < c.budget.maxDepth && k <= |ranges| && FitRanges(c, source, ranges, k, depth, u)
    ensures AllClean(c, ExpandRanges(c, source, ranges, k, depth))
    decreases c.budget.maxDepth - depth, 2, k
  {
    hide AllClean, FitChild, ExpandChild;
    NothingClean(c);
    if k > 0 {
      RangesClean(c, source, ranges, k - 1, depth, u);
      var r, first := ranges[k - 1], ExpandRanges(c, source, ranges, k - 1, depth);
      var view := source[r.start..r.start + r.length];
      ChildClean(c, source, PartitionOf, r.name, r.index, view, Eof, depth, Grown(u, first));
      CleanConcat(c, first, ExpandRange(c, source, r, depth));
    }
  }

  lemma {:induction false} ChildClean(c: Config, source: Blob, relation: Relation, name: string, index: nat, bytes: Blob,
                                      end: StreamEnd, depth: nat, u: Usage)
    requires depth < c.budget.maxDepth && FitChild(c, source, bytes, end, depth, u)
    ensures AllClean(c, ExpandChild(c, source, relation, name, index, bytes, depth))
    decreases c.budget.maxDepth - depth, 1
  {
    hide Fits, Expansion, Affords;
    var n := Record(c, source, relation, name, index, bytes, depth);
    if depth + 1 < c.budget.maxDepth {
      FitsClean(c, bytes, depth + 1, Usage(u.children + 1, u.bytes + |bytes|, u.counted));
    } else {
      assert Expansion(c, bytes, depth + 1) == [] by { AtBoundEmpty(c, bytes, depth + 1); }
    }
    CleanConcat(c, [n], Expansion(c, bytes, depth + 1));
  }

  lemma AtBoundEmpty(c: Config, source: Blob, depth: nat)
    requires depth >= c.budget.maxDepth
    ensures Expansion(c, source, depth) == []
  {
  }

  /**
   What a COMPLETE run lists (`Engine.Process` gives both premises) holds no refused member: neither the source's own
   listing nor that of any listed object which the engine opened.
   */
  lemma CompleteRunRefusesNothing(c: Config, nodes: seq<Node>, source: Blob)
    requires nodes == Expansion(c, source, 0) && Fits(c, source, 0, Usage(0, 0, 0))
    ensures NoneRefused(c, source, 0)
    ensures forall i | 0 <= i < |nodes| :: NoneRefused(c, nodes[i].blob, nodes[i].derived.depth)
  {
    hide Fits, Expansion, NoneRefused;
    FitsClean(c, source, 0, Usage(0, 0, 0));
  }
}
