/**
 The two FAT traversals against each other.  Both are compared with the reference notion of a chain: a validator
 run without findings certifies chains, and the extractor reads a certified chain without raising.
 */
module FatAgreement {
  import opened Bytes
  import opened Fat
  import X = FatExtractor
  import opened V = FatValidator

  // ----- the extractor reads chains -----

  lemma OneMoreNumbered(v: Volume, fewer: Volume)
    requires v.clusters > 0 && fewer.clusters == v.clusters - 1
    ensures v.clusters + 1 !in Numbered(fewer) && Numbered(v) == Numbered(fewer) + {v.clusters + 1}
  {
  }

  lemma {:induction false} NumberedSize(v: Volume)
    ensures |Numbered(v)| == v.clusters
    decreases v.clusters
  {
    if v.clusters > 0 {
      hide Numbered;
      var fewer := v.(clusters := v.clusters - 1);
      NumberedSize(fewer);
      OneMoreNumbered(v, fewer);
    } else {
      assert Numbered(v) == {};
    }
  }

  lemma {:induction false} DistinctMembers(trail: seq<nat>)
    requires Distinct(trail)
    ensures |Members(trail)| == |trail|
  {
    if trail != [] {
      var k := |trail| - 1;
      DistinctMembers(trail[..k]);
      assert Members(trail) == Members(trail[..k]) + {trail[k]};
    } else {
      assert Members(trail) == {};
    }
  }

  /** A trail without repetition is no longer than the volume has clusters. */
  lemma TrailFits(v: Volume, trail: seq<nat>)
    requires AllInRange(v, trail) && Distinct(trail)
    ensures |trail| <= v.clusters
  {
    NumberedSize(v);
    DistinctMembers(trail);
    assert Members(trail) <= Numbered(v);
    SubsetSize(Members(trail), Numbered(v));
  }

  lemma {:induction false} SubsetSize<T>(a: set<T>, b: set<T>)
    requires a <= b
    ensures |a| <= |b|
  {
    assert b == a + (b - a);
  }

  lemma {:induction false} TrailPrefix(v: Volume, trail: seq<nat>, k: nat)
    requires LaidOut(v) && AllInRange(v, trail) && k <= |trail|
    ensures TrailBytes(v, trail[..k]) <= TrailBytes(v, trail)
    decreases |trail|
  {
    if k < |trail| {
      TrailPrefix(v, trail[..|trail| - 1], k);
      assert trail[..|trail| - 1][..k] == trail[..k];
    } else {
      assert trail[..k] == trail;
    }
  }

  /** What reading a whole chain of these bytes should give. */
  function ReadOf(bytes: seq<byte>, wanted: Option<nat>): Result<seq<byte>, X.Error> {
    match wanted
    case None => Ok(bytes)
    case Some(size) => if size <= |bytes| then Ok(bytes[..size]) else Err(X.TruncatedFile)
  }

  /** What the extractor sees at cluster `i` of a chain: readable bytes, then the chain's successor or its end. */
  lemma ChainStep(v: Volume, start: nat, trail: seq<nat>, i: nat)
    requires LaidOut(v) && IsChain(v, start, trail) && i < |trail|
    ensures trail[i] !in Members(trail[..i]) && |Members(trail[..i])| <= v.clusters
    ensures X.ClusterReadable(v, trail[i])
    ensures X.NextCluster(v, trail[i]) == Ok(if i == |trail| - 1 then None else Some(trail[i + 1]))
  {
    hide Entry, EndMark, ClusterOffset, ClusterSize, TrailBytes;
    DistinctMembers(trail[..i]);
    TrailFits(v, trail);
    assert InRange(v, trail[i]);
    if i < |trail| - 1 {
      assert IsLink(v, trail[i], trail[i + 1]);
    }
  }

  lemma TrailStep(v: Volume, trail: seq<nat>, i: nat)
    requires LaidOut(v) && AllInRange(v, trail) && i < |trail|
    ensures AllInRange(v, trail[..i]) && AllInRange(v, trail[..i + 1]) && InRange(v, trail[i])
    ensures TrailBytes(v, trail[..i + 1]) == TrailBytes(v, trail[..i]) + ClusterBytes(v, trail[i])
    ensures Members(trail[..i + 1]) == Members(trail[..i]) + {trail[i]}
    ensures TrailBytes(v, trail[..i + 1]) <= TrailBytes(v, trail)
  {
    hide ClusterOffset, ClusterSize, ClusterBytes;
    assert trail[..i + 1][..i] == trail[..i];
    assert trail[..i + 1] == trail[..i] + [trail[i]];
    TrailPrefix(v, trail, i + 1);
  }

  lemma {:induction false} ReadsFrom(v: Volume, start: nat, trail: seq<nat>, i: nat, wanted: Option<nat>)
    requires LaidOut(v) && IsChain(v, start, trail) && i < |trail|
    requires wanted.Some? && i > 0 ==> |TrailBytes(v, trail[..i])| < wanted.value
    ensures X.ChainFrom(v, trail[i], Members(trail[..i]), TrailBytes(v, trail[..i]), wanted)
         == ReadOf(TrailBytes(v, trail), wanted)
    decreases |trail| - i
  {
    hide X.NextCluster, ClusterOffset, ClusterSize, ClusterBytes, TrailBytes, Linked, Distinct, Members;
    ChainStep(v, start, trail, i);
    TrailStep(v, trail, i);
    var more := TrailBytes(v, trail[..i + 1]);
    if i == |trail| - 1 {
      assert trail[..i + 1] == trail;
    } else if wanted.Some? && |more| >= wanted.value {
      assert TrailBytes(v, trail)[..wanted.value] == more[..wanted.value];
    } else {
      ReadsFrom(v, start, trail, i + 1, wanted);
    }
  }

  /** The extractor reads a chain: all its bytes, or the wanted prefix of them, or a truncation error. */
  lemma ExtractorReadsChain(v: Volume, start: nat, trail: seq<nat>, wanted: Option<nat>)
    requires LaidOut(v) && IsChain(v, start, trail)
    ensures X.Chain(v, start, wanted) == ReadOf(TrailBytes(v, trail), wanted)
  {
    assert trail[..0] == [];
    assert Members([]) == {};
    ReadsFrom(v, start, trail, 0, wanted);
  }

  // ----- the validator certifies chains -----

  lemma {:induction false} CleanFollow(v: Volume, start: nat, current: nat, trail: seq<nat>, a: Audit, owner: string,
                                       maxNodes: nat)
    requires AllInRange(v, trail) && start >= 2
    requires if trail == [] then current == start else IsTrail(v, start, trail) && IsLink(v, trail[|trail| - 1], current)
    requires FollowFrom(v, current, trail, a, owner, maxNodes).audit.findings == []
    ensures IsChain(v, start, FollowFrom(v, current, trail, a, owner, maxNodes).trail)
    decreases Numbered(v) - Members(trail)
  {
    hide Entry, EndMark;
    var longer := trail + [current];
    var claimed := a.(reachable := a.reachable + {current}, used := a.used[current := owner]);
    var value := FatValue(v, current);
    assert IsTrail(v, start, longer);
    EndMarks(v.variant);
    if value < EndMark(v.variant) {
      assert IsLink(v, current, value);
      assert current in Numbered(v) && current in Members(longer);
      CleanFollow(v, start, value, longer, claimed, owner, maxNodes);
    }
  }

  lemma EndMarks(variant: Variant)
    ensures EndMark(variant) >= 2
  {
  }

  /** A chain followed without a finding is a chain of the table, long enough for the declared size. */
  lemma CleanChain(v: Volume, start: nat, a: Audit, owner: string, wanted: Option<nat>, maxNodes: nat)
    requires LaidOut(v) && AuditChain(v, start, a, owner, wanted, maxNodes).audit.findings == []
    ensures var trail := AuditChain(v, start, a, owner, wanted, maxNodes).trail;
            && (if start >= 2 then IsChain(v, start, trail) else trail == [])
            && (wanted.Some? ==> wanted.value <= |TrailBytes(v, trail)|)
  {
    if start >= 2 {
      CleanFollow(v, start, start, [], a, owner, maxNodes);
    }
  }

  /** Where the validator finds nothing wrong with a chain, the extractor reads the very bytes it returned. */
  lemma ChainsAgree(v: Volume, start: nat, a: Audit, owner: string, wanted: Option<nat>, maxNodes: nat)
    requires LaidOut(v) && AuditChain(v, start, a, owner, wanted, maxNodes).audit.findings == []
    ensures X.Chain(v, start, wanted)
         == Ok(Truncate(TrailBytes(v, AuditChain(v, start, a, owner, wanted, maxNodes).trail), wanted))
  {
    CleanChain(v, start, a, owner, wanted, maxNodes);
    if start >= 2 {
      ExtractorReadsChain(v, start, AuditChain(v, start, a, owner, wanted, maxNodes).trail, wanted);
    }
  }

  // ----- the walks agree -----

  /** A file row that was read: exactly its declared size, from the chain at its first cluster. */
  ghost predicate IsRead(v: Volume, file: FileRow)
    requires LaidOut(v)
  {
    && |file.data| == file.size
    && if file.start < 2 then file.size == 0 else
       exists trail :: IsChain(v, file.start, trail) && file.size <= |TrailBytes(v, trail)|
                       && file.data == TrailBytes(v, trail)[..file.size]
  }

  ghost predicate AllRead(v: Volume, files: seq<FileRow>)
    requires LaidOut(v)
  {
    forall i | 0 <= i < |files| :: IsRead(v, files[i])
  }

  /** The extractor's entries are the validator's file rows, in order. */
  ghost predicate Matches(files: seq<FileRow>, entries: seq<X.DiskEntry>) {
    && |files| == |entries|
    && forall i | 0 <= i < |files| :: entries[i].data == files[i].data && entries[i].index == i
  }

  lemma FileAgrees(v: Volume, row: Row, a: Audit, owner: string, maxNodes: nat)
    requires LaidOut(v) && row.File?
    requires AuditChain(v, row.start, a, owner, Some(row.size), maxNodes).audit.findings == []
    ensures var bytes := TrailBytes(v, AuditChain(v, row.start, a, owner, Some(row.size), maxNodes).trail);
            var file := FileRow(row.start, row.size, Truncate(bytes, Some(row.size)));
            X.Chain(v, row.start, Some(row.size)) == Ok(file.data) && IsRead(v, file)
  {
    ChainsAgree(v, row.start, a, owner, Some(row.size), maxNodes);
    CleanChain(v, row.start, a, owner, Some(row.size), maxNodes);
  }

  /** From equal visited sets, a finding-free scan and the extractor's walk go through the same rows. */
  lemma {:induction false} ScanAgrees(v: Volume, names: Names, directory: seq<byte>, offset: nat, prefix: string, logical: string,
                                      a: Audit, found: X.Found, maxNodes: nat)
    requires LaidOut(v)
    requires ScanFrom(v, names, directory, offset, prefix, a, maxNodes).findings == []
    requires ScanFrom(v, names, directory, offset, prefix, a, maxNodes).alike
    requires |directory| <= 32 * maxNodes
    requires ScanFrom(v, names, directory, offset, prefix, a, maxNodes).widest <= 32 * maxNodes
    requires found.visited == a.dirs && Matches(a.files, found.entries) && AllRead(v, a.files)
    ensures var r, w := ScanFrom(v, names, directory, offset, prefix, a, maxNodes), X.WalkFrom(v, names, directory, offset, logical, found);
            && w.Ok? && w.value.visited == r.dirs
            && Matches(r.files, w.value.entries) && AllRead(v, r.files)
    decreases Starts() - a.dirs, |directory| - offset
  {
    hide AuditChain, X.Chain, RowAt, IsRead, TrailBytes;
    if offset + 32 <= |directory| {
      var row, name := RowAt(directory, offset), Validated(names, directory, offset);
      if row.End? {
      } else if row.Skip? {
        ScanAgrees(v, names, directory, offset + 32, prefix, logical, a, found, maxNodes);
      } else if name.None? {
        ScanAgrees(v, names, directory, offset + 32, prefix, logical, Reached(a, names, directory, offset), found, maxNodes);
      } else {
        var b := Reached(a, names, directory, offset);
        assert b.alike;
        var owner, path := Owner(prefix, name.value), X.Logical(logical, Extracted(names, directory, offset).value);
        if row.File? {
          var f := AuditChain(v, row.start, b, owner, Some(row.size), maxNodes);
          var file := FileRow(row.start, row.size, Truncate(TrailBytes(v, f.trail), Some(row.size)));
          var entry := X.DiskEntry(path, file.data, |found.entries|);
          FileAgrees(v, row, b, owner, maxNodes);
          ScanAgrees(v, names, directory, offset + 32, prefix, logical, f.audit.(files := f.audit.files + [file]),
                     found.(entries := found.entries + [entry]), maxNodes);
        } else {
          assert row.start !in b.dirs;
          var f := AuditChain(v, row.start, b.(dirs := b.dirs + {row.start}), owner, None, maxNodes);
          var child := TrailBytes(v, f.trail);
          var entered := f.audit.(widest := Max(f.audit.widest, |child|));
          var inner := ScanFrom(v, names, child, 0, owner, entered, maxNodes);
          assert row.start in Starts();
          ChainsAgree(v, row.start, b.(dirs := b.dirs + {row.start}), owner, None, maxNodes);
          var visited := found.(visited := found.visited + {row.start});
          ScanAgrees(v, names, child, 0, owner, path, entered, visited, maxNodes);
          var innerFound := X.WalkFrom(v, names, child, 0, path, visited).value;
          ScanAgrees(v, names, directory, offset + 32, prefix, logical, inner, innerFound, maxNodes);
        }
      }
    }
  }

  /**
   If the validator ends with no findings, the extractor (when the signature and the FAT32 root fields are ones it
   accepts, directories fit in `maxNodes` rows, and on the rows the scan reached it passes over just the names the
   validator does) does not raise and returns exactly the files the validator walked, in order, each with its declared
   size and the bytes of its cluster chain.
   */
  lemma ValidImageExtracts(data: seq<byte>, names: Names, maxNodes: nat)
    requires |data| >= 512
    requires data[510] == 0x55 && data[511] == 0xAA
    requires VariantOf(Clusters(ReadBpb(data))).Fat32? ==> X.AcceptedFat32Root(ReadBpb(data))
    ensures Validate(data, names, maxNodes).findings == [] ==> Coherent(ReadBpb(data), |data|)
    ensures Validate(data, names, maxNodes).findings == [] && Validate(data, names, maxNodes).widest <= 32 * maxNodes
            && Validate(data, names, maxNodes).alike ==>
            var files, parsed := Validate(data, names, maxNodes).files, X.Parse(data, names);
            && parsed.Ok? && parsed.value.Some?
            && Matches(files, parsed.value.value)
            && AllRead(VolumeOf(data, ReadBpb(data)), files)
  {
    hide ScanFrom, AuditChain, X.Chain, X.WalkFrom, Orphans, ReadBpb, FatStart, RootSectors;
    if Validate(data, names, maxNodes).findings == [] {
      var b := ReadBpb(data);
      assert [] + [BpbInconsistent] != [];
      var v := VolumeOf(data, b);
      TablesInside(b, |data|);
      var (a, root) := AuditRoot(data, b, Start(), maxNodes);
      assert !CopiesDiffer(data, b);
      if v.variant.Fat32? {
        ChainsAgree(v, b.rootCluster, Start(), ROOT_OWNER, None, maxNodes);
      }
      assert X.RootDirectory(data) == Ok(root);
      if Validate(data, names, maxNodes).widest <= 32 * maxNodes && Validate(data, names, maxNodes).alike {
        ScanAgrees(v, names, root, 0, "", "", a.(widest := Max(a.widest, |root|)), X.Found([], {}), maxNodes);
      }
    }
  }
}
