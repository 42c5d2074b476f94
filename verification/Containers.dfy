/**
 What the recursive extraction engine runs on: budgets, the decoders as oracles, the two result lists, and the
 shape the results must have.
 */
module Containers {
  import opened Bytes

  type Blob = seq<byte>
  type Hash = nat

  /** The configured expansion ratio is validated to be at least one. */
  type Ratio = r: real | r >= 1.0 witness 1.0

  datatype Budget = Budget(maxDepth: nat, maxChildrenPerObject: nat, maxTotalChildren: nat, maxSingleChild: nat,
                           maxTotalBytes: nat, maxRatio: Ratio, maxPartition: nat, maxTotalPartition: nat,
                           maxDocumentBytes: nat)

  // ----- oracles -----

  /** The pieces `read` delivers until its empty one; it may also fail, with an error the engine catches or one it does not. */
  datatype StreamEnd = Eof | Fails(caught: bool)
  datatype Stream = Stream(chunks: seq<Blob>, end: StreamEnd)

  datatype Member = Member(name: string, index: nat, safe: bool, encrypted: bool, link: bool, regular: bool,
                           directory: bool, declared: nat, extracts: bool, stream: Stream)

  datatype Listing = DocumentParts | ZipMembers | TarMembers | DiskEntries | ToolMembers(iso: bool)

  datatype Document = NoDocument | DocumentFails | Document(partial: Option<Completeness>, parts: seq<Member>)

  datatype Range = Range(name: string, index: nat, start: nat, length: nat)

  /** What kind detection and the kind's decoder make of an object's bytes. */
  datatype Contents =
    | Unrecognized
    | CorruptZip
    | OpenFails(caught: bool)
    | Members(listing: Listing, members: seq<Member>)
    | Compressed(name: string, stream: Stream)
    | Partitions(damaged: bool, ranges: seq<Range>)
    | PartitionTableFails
    | DiskImageFails
    | ToolUnavailable
    | EnumerationFails
    | ToolRefuses(encrypted: bool)

  datatype Config = Config(budget: Budget, hash: Blob -> Hash, document: Blob -> Document, decode: Blob -> Contents)

  datatype Completeness = COMPLETE | PARTIAL_LIMIT | PARTIAL_ERROR | PARTIAL_UNSUPPORTED

  datatype Event = ExtractionTimeLimit | ChildCountLimit | TotalChildCountLimit | ChildSizeLimit | ByteBudgetExhausted
                 | ExpansionRatioLimit | RecursionLimitReached | PartitionLimit | TotalPartitionLimit
                 | CorruptContainer | EncryptedContainer | UnsafeMemberPath | SymlinkEntry | SymlinkOrHardlinkEntry
                 | SpecialFileEntry | MemberExtractionFailure | CorruptPartitionTable | CorruptFilesystem
                 | ExtractionUnavailable | EnumerationFailure

  /** The document parser only sees objects up to its own size limit. */
  function DocumentOf(c: Config, source: Blob): Document {
    if |source| <= c.budget.maxDocumentBytes then c.document(source) else NoDocument
  }

  // ----- per-member decisions -----

  datatype Verdict = Offer | Skip(event: Event) | Pass

  /** The checks each listing makes before a member is offered; `Pass` is a directory row of an external listing. */
  function VerdictOf(b: Budget, listing: Listing, m: Member): Verdict {
    match listing
    case DocumentParts => Offer
    case ZipMembers =>
      if m.encrypted then Skip(EncryptedContainer)
      else if !m.safe then Skip(UnsafeMemberPath)
      else if m.link then Skip(SymlinkEntry)
      else if m.declared > b.maxSingleChild then Skip(ChildSizeLimit)
      else Offer
    case TarMembers =>
      if !m.safe then Skip(UnsafeMemberPath)
      else if m.link then Skip(SymlinkOrHardlinkEntry)
      else if !m.regular then Skip(SpecialFileEntry)
      else if m.declared > b.maxSingleChild then Skip(ChildSizeLimit)
      else Offer
    case DiskEntries => if !m.safe then Skip(UnsafeMemberPath) else Offer
    case ToolMembers(_) =>
      if !m.safe then Skip(UnsafeMemberPath)
      else if m.directory then Pass
      else if m.declared > b.maxSingleChild then Skip(ChildSizeLimit)
      else if !m.extracts then Skip(MemberExtractionFailure)
      else Offer
  }

  datatype Relation = EmbeddedFileOf | Contains | FilesystemEntryOf | PartitionOf | DecompressedFrom

  /** Of the tool listings, those of ISO images hold filesystem entries. */
  function RelationOf(listing: Listing): Relation {
    match listing
    case DocumentParts => EmbeddedFileOf
    case ZipMembers => Contains
    case TarMembers => Contains
    case DiskEntries => FilesystemEntryOf
    case ToolMembers(iso) => if iso then FilesystemEntryOf else Contains
  }

  // ----- streams -----

  /** Streams are read in pieces of at most 1 MiB. */
  const CHUNK := 0x10_0000

  // ----- results -----

  datatype Derived = Derived(sha: Hash, size: nat, parent: Hash, depth: nat, name: string, index: nat)
  datatype Relationship = Relationship(relation: Relation, source: Hash, target: Hash, depth: nat, name: string, index: nat)

  /** A derived object together with its bytes and how it relates to its parent. */
  datatype Node = Node(derived: Derived, blob: Blob, relation: Relation)

  function Edge(n: Node): Relationship {
    Relationship(n.relation, n.derived.parent, n.derived.sha, n.derived.depth, n.derived.name, n.derived.index)
  }

  /** `decode` and `document` really offer these bytes under this name, index and relation as a child of `source`. */
  ghost predicate Offered(c: Config, source: Blob, relation: Relation, name: string, index: nat, bytes: Blob) {
    || (c.document(source).Document? && relation == EmbeddedFileOf
        && exists i | 0 <= i < |c.document(source).parts| :: IsMember(c.document(source).parts[i], name, index, bytes))
    || match c.decode(source)
       case Members(listing, members) =>
         relation == RelationOf(listing) && exists i | 0 <= i < |members| ::
           IsMember(members[i], name, index, bytes) && VerdictOf(c.budget, listing, members[i]).Offer?
       case Compressed(own, stream) => relation == DecompressedFrom && name == own && index == 0 && bytes == Flatten(stream.chunks)
       case Partitions(_, ranges) =>
         relation == PartitionOf && exists i | 0 <= i < |ranges| :: IsSlice(source, ranges[i], name, index, bytes)
       case _ => false
  }

  predicate IsMember(m: Member, name: string, index: nat, bytes: Blob) {
    m.name == name && m.index == index && bytes == Flatten(m.stream.chunks)
  }

  /** A partition child is the parent's slice, byte for byte. */
  predicate IsSlice(source: Blob, range: Range, name: string, index: nat, bytes: Blob) {
    && range.start + range.length <= |source|
    && range.name == name && range.index == index
    && bytes == source[range.start..range.start + range.length]
  }

  /** `n` is a child of `source`: it names it by hash, its bytes were offered by it, and the child and ratio caps hold. */
  ghost predicate Link(c: Config, source: Blob, n: Node) {
    && n.derived.parent == c.hash(source)
    && Offered(c, source, n.relation, n.derived.name, n.derived.index, n.blob)
    && |n.blob| <= c.budget.maxSingleChild
    && (source != [] ==> |n.blob| as real <= c.budget.maxRatio * |source| as real)
  }

  /** The entry at `i` hangs below an earlier entry one level up, with nothing shallower than itself in between. */
  ghost predicate HasParent(c: Config, nodes: seq<Node>, i: nat)
    requires i < |nodes|
  {
    exists j | 0 <= j < i :: IsParentAt(c, nodes, j, i)
  }

  ghost predicate IsParentAt(c: Config, nodes: seq<Node>, j: nat, i: nat)
    requires j < i < |nodes|
  {
    && nodes[j].derived.depth + 1 == nodes[i].derived.depth
    && nodes[j].derived.sha == nodes[i].derived.parent
    && Link(c, nodes[j].blob, nodes[i])
    && forall k | j < k < i :: nodes[k].derived.depth >= nodes[i].derived.depth
  }

  ghost predicate Placed(c: Config, nodes: seq<Node>, source: Blob, base: nat, i: nat)
    requires i < |nodes|
  {
    && nodes[i].derived.depth > base
    && if nodes[i].derived.depth == base + 1 then Link(c, source, nodes[i]) else HasParent(c, nodes, i)
  }

  /** `nodes` lists, in preorder, the trees below `source`, which itself sits at depth `base`. */
  ghost predicate Preorder(c: Config, nodes: seq<Node>, source: Blob, base: nat) {
    forall i | 0 <= i < |nodes| :: Placed(c, nodes, source, base, i)
  }

  lemma PreorderConcat(c: Config, a: seq<Node>, b: seq<Node>, source: Blob, base: nat)
    requires Preorder(c, a, source, base) && Preorder(c, b, source, base)
    ensures Preorder(c, a + b, source, base)
  {
    hide Link, IsParentAt;
    forall i | 0 <= i < |a + b|
      ensures Placed(c, a + b, source, base, i)
    {
      if i < |a| {
        assert Placed(c, a, source, base, i);
        if a[i].derived.depth != base + 1 {
          var j :| 0 <= j < i && IsParentAt(c, a, j, i);
          KeptParent(c, a, b, j, i);
        }
      } else {
        assert Placed(c, b, source, base, i - |a|);
        if b[i - |a|].derived.depth != base + 1 {
          var j :| 0 <= j < i - |a| && IsParentAt(c, b, j, i - |a|);
          ShiftedParent(c, a, b, j, i - |a|);
        }
      }
    }
  }

  lemma KeptParent(c: Config, a: seq<Node>, b: seq<Node>, j: nat, i: nat)
    requires j < i < |a| && IsParentAt(c, a, j, i)
    ensures IsParentAt(c, a + b, j, i)
  {
    hide Link;
  }

  lemma ShiftedParent(c: Config, a: seq<Node>, b: seq<Node>, j: nat, i: nat)
    requires j < i < |b| && IsParentAt(c, b, j, i)
    ensures IsParentAt(c, a + b, |a| + j, |a| + i)
  {
    hide Link;
    forall k | |a| + j < k < |a| + i
      ensures (a + b)[k].derived.depth >= (a + b)[|a| + i].derived.depth
    {
      assert (a + b)[k] == b[k - |a|];
    }
  }

  /** A child followed by the preorder of what lies below it. */
  lemma PreorderNode(c: Config, n: Node, below: seq<Node>, source: Blob, base: nat)
    requires n.derived.depth == base + 1 && Link(c, source, n) && n.derived.sha == c.hash(n.blob)
    requires Preorder(c, below, n.blob, base + 1)
    ensures Preorder(c, [n] + below, source, base)
  {
    hide Link, IsParentAt;
    var whole := [n] + below;
    forall i | 0 <= i < |whole|
      ensures Placed(c, whole, source, base, i)
    {
      if i > 0 {
        assert whole[i] == below[i - 1];
        assert Placed(c, below, n.blob, base + 1, i - 1);
        if below[i - 1].derived.depth == base + 2 {
          DirectChild(c, n, below, base, i - 1);
        } else {
          var j :| 0 <= j < i - 1 && IsParentAt(c, below, j, i - 1);
          ShiftedParent(c, [n], below, j, i - 1);
        }
      }
    }
  }

  lemma DirectChild(c: Config, n: Node, below: seq<Node>, base: nat, i: nat)
    requires i < |below| && n.derived.depth == base + 1 && n.derived.sha == c.hash(n.blob)
    requires Preorder(c, below, n.blob, base + 1)
    requires below[i].derived.depth == base + 2
    ensures IsParentAt(c, [n] + below, 0, i + 1)
  {
    hide Link, HasParent;
    assert Placed(c, below, n.blob, base + 1, i);
    assert n.derived.sha == below[i].derived.parent by {
      LinkNamesParent(c, n.blob, below[i]);
    }
    forall k | 0 < k < i + 1
      ensures ([n] + below)[k].derived.depth >= base + 2
    {
      assert Placed(c, below, n.blob, base + 1, k - 1);
    }
  }

  lemma LinkNamesParent(c: Config, source: Blob, n: Node)
    requires Link(c, source, n)
    ensures n.derived.parent == c.hash(source)
  {
  }
}
