/** When a FAT image is VALID: the exact condition, on the image's bytes and the tree of its rows. */
module FatVerdict {
  import opened Bytes
  import opened Fat
  import opened FatDisk
  import opened FatValidator
  import opened FatOwnership
  import opened Writing
  import A = FatAgreement
  import T = FatTree

  // ----- chains -----

  /** The whole chain from `start`: numbered clusters without repetition, linked by the table up to an end mark. */
  predicate WholeAt(im: T.Image, start: nat, trail: seq<nat>) {
    if start < 2 then trail == [] else
      && trail != [] && trail[0] == start < im.g.clusters + 2
      && (forall i, j | 0 <= i < j < |trail| :: trail[i] != trail[j])
      && (forall i | 0 <= i < |trail| - 1 :: T.LinkAt(im, trail[i], trail[i + 1]))
      && T.LastAt(im, trail[|trail| - 1])
  }

  lemma WholeIff(im: T.Image, v: Volume, start: nat, trail: seq<nat>)
    requires T.Represents(im, v)
    ensures WholeAt(im, start, trail) <==> if start < 2 then trail == [] else IsChain(v, start, trail)
  {
    hide IsEnd, IsLink, T.LastAt, T.LinkAt, T.Represents;
    T.EntryLinks(im, v, start);
    if start >= 2 && trail != [] {
      T.EntryLinks(im, v, trail[|trail| - 1]);
      forall i | 0 <= i < |trail| - 1
        ensures T.LinkAt(im, trail[i], trail[i + 1]) <==> IsLink(v, trail[i], trail[i + 1])
        ensures IsLink(v, trail[i], trail[i + 1]) ==> InRange(v, trail[i + 1])
      {
        T.EntryLinks(im, v, trail[i]);
        LinkInRange(v, trail[i], trail[i + 1]);
      }
      if WholeAt(im, start, trail) {
        forall i | 0 <= i < |trail|
          ensures InRange(v, trail[i])
        {
          if i > 0 {
            assert IsLink(v, trail[i - 1], trail[i - 1 + 1]);
          }
        }
      }
    }
  }

  lemma LinkInRange(v: Volume, cluster: nat, next: nat)
    ensures IsLink(v, cluster, next) ==> InRange(v, next)
  {
  }

  /** None of the clusters from `i` on is recorded for another owner. */
  predicate Free(used: map<nat, string>, trail: seq<nat>, i: nat, owner: string) {
    forall k | i <= k < |trail| :: trail[k] in used ==> used[trail[k]] == owner
  }

  /** Following a chain of the table is clean exactly when its clusters are free and it is within the limit. */
  lemma {:induction false} FollowIff(v: Volume, start: nat, trail: seq<nat>, i: nat, a: Audit, owner: string, maxNodes: nat)
    requires IsChain(v, start, trail) && i < |trail| && a.findings == [] && AllInRange(v, trail[..i])
    ensures var r := FollowFrom(v, trail[i], trail[..i], a, owner, maxNodes);
            && (r.audit.findings == [] <==> Free(a.used, trail, i, owner) && (i == |trail| - 1 || |trail| <= maxNodes + 1))
            && (r.audit.findings == [] ==> r.trail == trail)
    decreases |trail| - i
  {
    hide Entry, EndMark, FollowFrom;
    FollowOnce(v, trail[i], trail[..i], a, owner, maxNodes);
    assert InRange(v, trail[i]);
    var longer := trail[..i] + [trail[i]];
    assert longer == trail[..i + 1];
    var claimed := a.(reachable := a.reachable + {trail[i]}, used := a.used[trail[i] := owner]);
    if i == |trail| - 1 {
      assert longer == trail;
    } else {
      assert IsLink(v, trail[i], trail[i + 1]);
      FollowIff(v, start, trail, i + 1, claimed, owner, maxNodes);
      FreeNext(a.used, trail, i, owner);
    }
  }

  lemma FreeNext(used: map<nat, string>, trail: seq<nat>, i: nat, owner: string)
    requires Distinct(trail) && i < |trail|
    ensures Free(used, trail, i, owner)
       <==> (trail[i] in used ==> used[trail[i]] == owner) && Free(used[trail[i] := owner], trail, i + 1, owner)
  {
  }

  /** A chain is claimed without a finding exactly when it is whole, free, within the limit and long enough. */
  lemma ChainIff(v: Volume, start: nat, a: Audit, owner: string, wanted: Option<nat>, maxNodes: nat, trail: seq<nat>)
    requires LaidOut(v) && a.findings == []
    requires if start < 2 then trail == [] else IsChain(v, start, trail)
    ensures var r := AuditChain(v, start, a, owner, wanted, maxNodes);
            && (r.audit.findings == [] <==>
                  && Free(a.used, trail, 0, owner) && |trail| <= maxNodes + 1
                  && (wanted.Some? ==> wanted.value <= |TrailBytes(v, trail)|))
            && (r.audit.findings == [] ==> r.trail == trail && r.audit.claims == a.claims + [Claim(owner, start, trail)])
  {
    hide Entry, EndMark, TrailBytes;
    if start >= 2 {
      hide FollowFrom;
      assert trail[..0] == [];
      FollowIff(v, start, trail, 0, a, owner, maxNodes);
    }
  }

  // ----- rows -----

  /** A row that counts: a file or a directory, the path that owns its clusters, and its chain. */
  datatype Node =
    | File(owner: string, start: nat, size: nat, trail: seq<nat>)
    | Directory(owner: string, start: nat, trail: seq<nat>, rows: Rows)

  datatype Rows = Stop | Pass(rest: Rows) | Keep(node: Node, rest: Rows)

  /** The directory ends, or the limit on rows is reached. */
  predicate Stops(directory: seq<byte>, offset: nat, maxNodes: nat) {
    offset + 32 > |directory| || offset + 32 > maxNodes * 32 || directory[offset] == 0
  }

  predicate PassedOver(names: Names, directory: seq<byte>, offset: nat)
    requires offset + 32 <= |directory|
  {
    Passes(directory, offset) || names.validated(directory, offset) == "." || names.validated(directory, offset) == ".."
  }

  /** The clusters' bytes, where the image holds them. */
  function BytesOf(im: T.Image, trail: seq<nat>): seq<byte> {
    if forall i | 0 <= i < |trail| :: ClusterIn(im.data, im.g, trail[i]) then Gathered(im.data, im.g, trail) else []
  }

  ghost predicate RowsAt(im: T.Image, names: Names, directory: seq<byte>, offset: nat, rows: Rows, prefix: string,
                         dirs: set<nat>, maxNodes: nat)
    decreases rows
  {
    match rows
    case Stop => Stops(directory, offset, maxNodes)
    case Pass(rest) =>
      && !Stops(directory, offset, maxNodes) && PassedOver(names, directory, offset)
      && RowsAt(im, names, directory, offset + 32, rest, prefix, dirs, maxNodes)
    case Keep(node, rest) =>
      && !Stops(directory, offset, maxNodes) && !PassedOver(names, directory, offset)
      && NodeAt(im, names, directory, offset, node, prefix, dirs, maxNodes)
      && RowsAt(im, names, directory, offset + 32, rest, prefix, dirs + NodeDirs(node), maxNodes)
  }

  /** The row at `offset` is the node's: its chain is whole, covers its size, and no directory is entered twice. */
  ghost predicate NodeAt(im: T.Image, names: Names, directory: seq<byte>, offset: nat, node: Node, prefix: string,
                         dirs: set<nat>, maxNodes: nat)
    requires offset + 32 <= |directory|
    decreases node
  {
    && node.owner == prefix + "/" + names.validated(directory, offset) && StartIs(directory, offset, node.start)
    && WholeAt(im, node.start, node.trail) && |node.trail| <= maxNodes + 1
    && match node
       case File(_, _, size, trail) =>
         !IsDirectory(directory, offset) && SizeIs(directory, offset, size) && size <= |BytesOf(im, trail)|
       case Directory(owner, start, trail, rows) =>
         && IsDirectory(directory, offset) && start !in dirs
         && RowsAt(im, names, BytesOf(im, trail), 0, rows, owner, dirs + {start}, maxNodes)
  }

  function NodeDirs(node: Node): set<nat> {
    if node.File? then {} else {node.start} + RowDirs(node.rows)
  }

  function RowDirs(rows: Rows): set<nat> {
    match rows
    case Stop => {}
    case Pass(rest) => RowDirs(rest)
    case Keep(node, rest) => NodeDirs(node) + RowDirs(rest)
  }

  /** The chains claimed for the rows, in walking order. */
  function NodeClaims(node: Node): seq<Claim> {
    [Claim(node.owner, node.start, node.trail)] + if node.File? then [] else RowClaims(node.rows)
  }

  function RowClaims(rows: Rows): seq<Claim> {
    match rows
    case Stop => []
    case Pass(rest) => RowClaims(rest)
    case Keep(node, rest) => NodeClaims(node) + RowClaims(rest)
  }

  /** Two chains share a cluster only where one path owns both. */
  ghost predicate Shares(one: Claim, other: Claim) {
    one.owner != other.owner ==> Members(one.clusters) !! Members(other.clusters)
  }

  ghost predicate Compatible(claims: seq<Claim>) {
    forall i, j | 0 <= i < j < |claims| :: Shares(claims[i], claims[j])
  }

  /** On a sound audit, a chain is free exactly when it is compatible with every earlier claim. */
  lemma FreeIff(v: Volume, a: Audit, claim: Claim)
    requires Sound(v, a, [], "") && Compatible(a.claims)
    ensures Free(a.used, claim.clusters, 0, claim.owner) <==> Compatible(a.claims + [claim])
  {
    hide Live;
    var more := a.claims + [claim];
    if Free(a.used, claim.clusters, 0, claim.owner) {
      forall i, j | 0 <= i < j < |more|
        ensures Shares(more[i], more[j])
      {
        if j == |a.claims| {
          assert Owns(a.used, a.claims[i].clusters, a.claims[i].owner);
        } else {
          assert Shares(a.claims[i], a.claims[j]);
        }
      }
    }
    if Compatible(more) {
      forall k | 0 <= k < |claim.clusters| && claim.clusters[k] in a.used
        ensures a.used[claim.clusters[k]] == claim.owner
      {
        var c := claim.clusters[k];
        assert c in a.reachable;
        var i :| 0 <= i < |a.claims| && c in a.claims[i].clusters;
        assert Owns(a.used, a.claims[i].clusters, a.claims[i].owner);
        assert Shares(more[i], more[|a.claims|]) && c in Members(more[i].clusters) && c in Members(claim.clusters);
      }
    }
  }

  lemma CompatibleParts(claims: seq<Claim>, more: seq<Claim>)
    requires Compatible(claims + more)
    ensures Compatible(claims)
  {
    hide Shares;
    forall i, j | 0 <= i < j < |claims|
      ensures Shares(claims[i], claims[j])
    {
      assert (claims + more)[i] == claims[i] && (claims + more)[j] == claims[j];
    }
  }

  /** A sound audit's claims are compatible. */
  lemma SoundIsCompatible(v: Volume, a: Audit)
    requires Sound(v, a, [], "")
    ensures Compatible(a.claims)
  {
    hide Live, Claimed;
    forall i, j | 0 <= i < j < |a.claims|
      ensures Shares(a.claims[i], a.claims[j])
    {
      assert Owns(a.used, a.claims[i].clusters, a.claims[i].owner) && Owns(a.used, a.claims[j].clusters, a.claims[j].owner);
    }
  }

  lemma {:induction false} BytesAre(im: T.Image, v: Volume, trail: seq<nat>)
    requires T.Represents(im, v) && LaidOut(v) && AllInRange(v, trail)
    ensures BytesOf(im, trail) == TrailBytes(v, trail)
  {
    hide GeometryAt, VolumeAt, ClusterOffset, ClusterSize, ClusterPos;
    forall i | 0 <= i < |trail|
      ensures ClusterIn(im.data, im.g, trail[i]) && ClusterOf(im.data, im.g, trail[i]) == ClusterBytes(v, trail[i])
    {
      ClusterIsNumbered(im, v, trail[i]);
    }
    if trail != [] {
      var init := trail[..|trail| - 1];
      BytesAre(im, v, init);
      assert forall i | 0 <= i < |init| :: ClusterIn(im.data, im.g, init[i]);
    }
  }

  lemma ClusterIsNumbered(im: T.Image, v: Volume, cluster: nat)
    requires T.Represents(im, v) && LaidOut(v) && InRange(v, cluster)
    ensures ClusterIn(im.data, im.g, cluster) && ClusterOf(im.data, im.g, cluster) == ClusterBytes(v, cluster)
  {
    hide GeometryAt, VolumeAt, DataStart;
    TableIs(im.data, im.g);
  }

  // ----- the scan -----

  /** A whole chain, compatible with the earlier ones and long enough, is claimed without a finding. */
  lemma ChainClaimed(im: T.Image, v: Volume, start: nat, trail: seq<nat>, owner: string, wanted: Option<nat>, a: Audit,
                     maxNodes: nat)
    requires T.Represents(im, v) && LaidOut(v) && a.findings == [] && Sound(v, a, [], "")
    requires WholeAt(im, start, trail) && |trail| <= maxNodes + 1 && (wanted.Some? ==> wanted.value <= |BytesOf(im, trail)|)
    requires Compatible(a.claims + [Claim(owner, start, trail)])
    ensures var r := AuditChain(v, start, a, owner, wanted, maxNodes);
            && r.audit.findings == [] && r.trail == trail && r.audit.claims == a.claims + [Claim(owner, start, trail)]
            && Sound(v, r.audit, [], "") && TrailBytes(v, trail) == BytesOf(im, trail)
  {
    hide WholeAt, IsChain, AuditChain, Free, Sound, BytesOf, TrailBytes, Compatible, T.Represents;
    WholeIff(im, v, start, trail);
    CompatibleParts(a.claims, [Claim(owner, start, trail)]);
    FreeIff(v, a, Claim(owner, start, trail));
    ChainInRange(v, start, trail);
    BytesAre(im, v, trail);
    ChainIff(v, start, a, owner, wanted, maxNodes, trail);
    ChainSound(v, start, a, owner, wanted, maxNodes);
  }

  lemma ChainInRange(v: Volume, start: nat, trail: seq<nat>)
    requires if start < 2 then trail == [] else IsChain(v, start, trail)
    ensures AllInRange(v, trail)
  {
  }

  /** A chain claimed without a finding is whole, within the limit and long enough. */
  lemma ChainWasWhole(im: T.Image, v: Volume, start: nat, owner: string, wanted: Option<nat>, a: Audit, maxNodes: nat)
    requires T.Represents(im, v) && LaidOut(v) && a.findings == [] && Sound(v, a, [], "")
    requires AuditChain(v, start, a, owner, wanted, maxNodes).audit.findings == []
    ensures var r := AuditChain(v, start, a, owner, wanted, maxNodes);
            && WholeAt(im, start, r.trail) && |r.trail| <= maxNodes + 1
            && (wanted.Some? ==> wanted.value <= |BytesOf(im, r.trail)|)
            && r.audit.claims == a.claims + [Claim(owner, start, r.trail)]
            && Sound(v, r.audit, [], "") && TrailBytes(v, r.trail) == BytesOf(im, r.trail)
  {
    hide WholeAt, IsChain, AuditChain, Free, Sound, BytesOf, TrailBytes, T.Represents;
    A.CleanChain(v, start, a, owner, wanted, maxNodes);
    var trail := AuditChain(v, start, a, owner, wanted, maxNodes).trail;
    WholeIff(im, v, start, trail);
    BytesAre(im, v, trail);
    ChainIff(v, start, a, owner, wanted, maxNodes, trail);
    ChainSound(v, start, a, owner, wanted, maxNodes);
  }

  /** One row of the scan: the end, a row passed over, or one that counts. */
  lemma RowStep(v: Volume, names: Names, directory: seq<byte>, offset: nat, prefix: string, a: Audit, maxNodes: nat)
    requires LaidOut(v)
    ensures Stops(directory, offset, maxNodes) ==> ScanFrom(v, names, directory, offset, prefix, a, maxNodes) == a
    ensures !Stops(directory, offset, maxNodes) && PassedOver(names, directory, offset) ==>
              ScanFrom(v, names, directory, offset, prefix, a, maxNodes)
              == ScanFrom(v, names, directory, offset + 32, prefix,
                          if Passes(directory, offset) then a else Reached(a, names, directory, offset), maxNodes)
    ensures !Stops(directory, offset, maxNodes) && !PassedOver(names, directory, offset) ==>
              var row, b, owner := RowAt(directory, offset), Reached(a, names, directory, offset), prefix + "/" + names.validated(directory, offset);
              var r := ScanFrom(v, names, directory, offset, prefix, a, maxNodes);
              && !row.End? && !row.Skip?
              && if row.File? then
                   var f := AuditChain(v, row.start, b, owner, Some(row.size), maxNodes);
                   var file := FileRow(row.start, row.size, Truncate(TrailBytes(v, f.trail), Some(row.size)));
                   r == ScanFrom(v, names, directory, offset + 32, prefix, f.audit.(files := f.audit.files + [file]), maxNodes)
                 else if row.start in b.dirs then
                   r == ScanFrom(v, names, directory, offset + 32, prefix, Report(b, DirectoryLoop), maxNodes)
                 else
                   var f := AuditChain(v, row.start, b.(dirs := b.dirs + {row.start}), owner, None, maxNodes);
                   var child := TrailBytes(v, f.trail);
                   var inner := ScanFrom(v, names, child, 0, owner, f.audit.(widest := Max(f.audit.widest, |child|)), maxNodes);
                   r == ScanFrom(v, names, directory, offset + 32, prefix, inner, maxNodes)
  {
    hide Passes, IsDirectory, RowAt, AuditChain, TrailBytes;
    if offset + 32 <= |directory| {
      RowIff(directory, offset);
    }
  }

  lemma NotStopped(directory: seq<byte>, offset: nat, maxNodes: nat)
    requires !Stops(directory, offset, maxNodes)
    ensures offset + 32 <= |directory| && directory[offset] != 0
  {
  }

  lemma NodeRow(im: T.Image, names: Names, directory: seq<byte>, offset: nat, node: Node, prefix: string, dirs: set<nat>,
                maxNodes: nat)
    requires offset + 32 <= |directory| && directory[offset] != 0 && !PassedOver(names, directory, offset)
    requires NodeAt(im, names, directory, offset, node, prefix, dirs, maxNodes)
    ensures var row := RowAt(directory, offset);
            && row.start == node.start && (row.File? <==> node.File?) && (row.Directory? <==> node.Directory?)
            && (node.File? ==> row.size == node.size && node.size <= |BytesOf(im, node.trail)|)
    ensures node.owner == prefix + "/" + names.validated(directory, offset)
    ensures WholeAt(im, node.start, node.trail) && |node.trail| <= maxNodes + 1
    ensures node.Directory? ==>
              node.start !in dirs && RowsAt(im, names, BytesOf(im, node.trail), 0, node.rows, node.owner, dirs + {node.start}, maxNodes)
  {
    hide Passes, IsDirectory, RowAt, StartIs, SizeIs, WholeAt, BytesOf;
    RowIff(directory, offset);
  }

  /** A row whose chain is whole and compatible is scanned without a finding. */
  lemma {:induction false} NodeScans(im: T.Image, v: Volume, names: Names, directory: seq<byte>, offset: nat, node: Node,
                                     prefix: string,
                                     a: Audit, maxNodes: nat) returns (after: Audit)
    requires T.Represents(im, v) && LaidOut(v) && a.findings == [] && Sound(v, a, [], "")
    requires !Stops(directory, offset, maxNodes) && !PassedOver(names, directory, offset)
    requires NodeAt(im, names, directory, offset, node, prefix, a.dirs, maxNodes) && Compatible(a.claims + NodeClaims(node))
    ensures ScanFrom(v, names, directory, offset, prefix, a, maxNodes) == ScanFrom(v, names, directory, offset + 32, prefix, after, maxNodes)
    ensures after.findings == [] && Sound(v, after, [], "")
    ensures after.claims == a.claims + NodeClaims(node) && after.dirs == a.dirs + NodeDirs(node)
    decreases node
  {
    hide RowAt, ScanFrom, AuditChain, TrailBytes, BytesOf, T.Represents, NodeAt, PassedOver, WholeAt, Compatible, Sound, LaidOut;
    RowStep(v, names, directory, offset, prefix, a, maxNodes);
    hide Stops;
    NotStopped(directory, offset, maxNodes);
    var b := Reached(a, names, directory, offset);
    SoundIgnores(v, a, b);
    NodeRow(im, names, directory, offset, node, prefix, a.dirs, maxNodes);
    var claim := Claim(node.owner, node.start, node.trail);
    var inside := if node.File? then [] else RowClaims(node.rows);
    assert a.claims + NodeClaims(node) == a.claims + [claim] + inside;
    CompatibleParts(a.claims + [claim], inside);
    if node.File? {
      ChainClaimed(im, v, node.start, node.trail, node.owner, Some(node.size), b, maxNodes);
      var f := AuditChain(v, node.start, b, node.owner, Some(node.size), maxNodes);
      var file := FileRow(node.start, node.size, Truncate(TrailBytes(v, f.trail), Some(node.size)));
      after := f.audit.(files := f.audit.files + [file]);
      SoundIgnores(v, f.audit, after);
    } else {
      var visiting := b.(dirs := b.dirs + {node.start});
      SoundIgnores(v, b, visiting);
      ChainClaimed(im, v, node.start, node.trail, node.owner, None, visiting, maxNodes);
      var f := AuditChain(v, node.start, visiting, node.owner, None, maxNodes);
      var child := TrailBytes(v, f.trail);
      var entered := f.audit.(widest := Max(f.audit.widest, |child|));
      SoundIgnores(v, f.audit, entered);
      ScanReads(im, v, names, child, 0, node.rows, node.owner, entered, maxNodes);
      ScanSound(v, names, child, 0, node.owner, entered, maxNodes);
      after := ScanFrom(v, names, child, 0, node.owner, entered, maxNodes);
    }
  }

  /** Rows whose chains are whole and compatible are scanned without a finding. */
  lemma {:induction false} ScanReads(im: T.Image, v: Volume, names: Names, directory: seq<byte>, offset: nat, rows: Rows,
                                     prefix: string,
                                     a: Audit, maxNodes: nat)
    requires T.Represents(im, v) && LaidOut(v) && a.findings == [] && Sound(v, a, [], "")
    requires RowsAt(im, names, directory, offset, rows, prefix, a.dirs, maxNodes) && Compatible(a.claims + RowClaims(rows))
    ensures var r := ScanFrom(v, names, directory, offset, prefix, a, maxNodes);
            r.findings == [] && r.claims == a.claims + RowClaims(rows) && r.dirs == a.dirs + RowDirs(rows)
    decreases rows
  {
    hide RowAt, ScanFrom, AuditChain, T.Represents, NodeAt, PassedOver, Stops, Compatible, Sound, LaidOut;
    match rows
    case Stop => RowStep(v, names, directory, offset, prefix, a, maxNodes);
    case Pass(rest) =>
      RowStep(v, names, directory, offset, prefix, a, maxNodes);
      NotStopped(directory, offset, maxNodes);
      var b := Reached(a, names, directory, offset);
      SoundIgnores(v, a, b);
      ScanReads(im, v, names, directory, offset + 32, rest, prefix, if Passes(directory, offset) then a else b, maxNodes);
    case Keep(node, rest) =>
      assert a.claims + RowClaims(rows) == a.claims + NodeClaims(node) + RowClaims(rest);
      CompatibleParts(a.claims + NodeClaims(node), RowClaims(rest));
      NotStopped(directory, offset, maxNodes);
      var after := NodeScans(im, v, names, directory, offset, node, prefix, a, maxNodes);
      ScanReads(im, v, names, directory, offset + 32, rest, prefix, after, maxNodes);
  }

  /** A finding made stays. */
  lemma NothingFound(v: Volume, names: Names, directory: seq<byte>, offset: nat, prefix: string, a: Audit, maxNodes: nat)
    requires LaidOut(v) && ScanFrom(v, names, directory, offset, prefix, a, maxNodes).findings == []
    ensures a.findings == []
  {
    hide ScanFrom;
  }

  lemma FileFound(im: T.Image, names: Names, directory: seq<byte>, offset: nat, prefix: string, trail: seq<nat>,
                  dirs: set<nat>, maxNodes: nat)
    returns (node: Node)
    requires offset + 32 <= |directory| && RowAt(directory, offset).File?
    requires var row := RowAt(directory, offset); WholeAt(im, row.start, trail) && row.size <= |BytesOf(im, trail)|
    requires |trail| <= maxNodes + 1
    ensures node.File? && node.trail == trail && node.start == RowAt(directory, offset).start
    ensures NodeAt(im, names, directory, offset, node, prefix, dirs, maxNodes)
  {
    hide Passes, IsDirectory, RowAt, StartIs, SizeIs, WholeAt, BytesOf;
    RowIff(directory, offset);
    var row := RowAt(directory, offset);
    node := Node.File(prefix + "/" + names.validated(directory, offset), row.start, row.size, trail);
  }

  lemma DirectoryFound(im: T.Image, names: Names, directory: seq<byte>, offset: nat, prefix: string, trail: seq<nat>, rows: Rows,
                       dirs: set<nat>, maxNodes: nat) returns (node: Node)
    requires offset + 32 <= |directory| && RowAt(directory, offset).Directory? && RowAt(directory, offset).start !in dirs
    requires WholeAt(im, RowAt(directory, offset).start, trail) && |trail| <= maxNodes + 1
    requires RowsAt(im, names, BytesOf(im, trail), 0, rows, prefix + "/" + names.validated(directory, offset),
                    dirs + {RowAt(directory, offset).start}, maxNodes)
    ensures node.Directory? && node.trail == trail && node.rows == rows && node.start == RowAt(directory, offset).start
    ensures NodeAt(im, names, directory, offset, node, prefix, dirs, maxNodes)
  {
    hide Passes, IsDirectory, RowAt, StartIs, SizeIs, WholeAt, BytesOf;
    RowIff(directory, offset);
    node := Node.Directory(prefix + "/" + names.validated(directory, offset), RowAt(directory, offset).start, trail, rows);
  }

  /** A row scanned without a finding has a whole chain. */
  lemma {:induction false} NodeFound(im: T.Image, v: Volume, names: Names, directory: seq<byte>, offset: nat, prefix: string,
                                     a: Audit, maxNodes: nat) returns (node: Node, after: Audit)
    requires T.Represents(im, v) && LaidOut(v) && a.findings == [] && Sound(v, a, [], "")
    requires !Stops(directory, offset, maxNodes) && !PassedOver(names, directory, offset)
    requires ScanFrom(v, names, directory, offset, prefix, a, maxNodes).findings == []
    ensures NodeAt(im, names, directory, offset, node, prefix, a.dirs, maxNodes) && offset + 32 <= |directory|
    ensures ScanFrom(v, names, directory, offset, prefix, a, maxNodes) == ScanFrom(v, names, directory, offset + 32, prefix, after, maxNodes)
    ensures after.findings == [] && Sound(v, after, [], "")
    ensures after.claims == a.claims + NodeClaims(node) && after.dirs == a.dirs + NodeDirs(node)
    decreases Starts() - a.dirs, |directory| - offset, 0
  {
    hide ScanFrom, AuditChain, TrailBytes, BytesOf, T.Represents, NodeAt, PassedOver, WholeAt, Sound, LaidOut, RowAt;
    RowStep(v, names, directory, offset, prefix, a, maxNodes);
    hide Stops;
    NotStopped(directory, offset, maxNodes);
    var row, b, owner := RowAt(directory, offset), Reached(a, names, directory, offset), prefix + "/" + names.validated(directory, offset);
    SoundIgnores(v, a, b);
    if row.File? {
      var f := AuditChain(v, row.start, b, owner, Some(row.size), maxNodes);
      var file := FileRow(row.start, row.size, Truncate(TrailBytes(v, f.trail), Some(row.size)));
      after := f.audit.(files := f.audit.files + [file]);
      NothingFound(v, names, directory, offset + 32, prefix, after, maxNodes);
      ChainWasWhole(im, v, row.start, owner, Some(row.size), b, maxNodes);
      SoundIgnores(v, f.audit, after);
      node := FileFound(im, names, directory, offset, prefix, f.trail, a.dirs, maxNodes);
    } else {
      if row.start in b.dirs {
        NothingFound(v, names, directory, offset + 32, prefix, Report(b, DirectoryLoop), maxNodes);
        assert false;
      }
      assert row.start in Starts() by { StartIsStart(directory, offset); }
      var visiting := b.(dirs := b.dirs + {row.start});
      var f := AuditChain(v, row.start, visiting, owner, None, maxNodes);
      var child := TrailBytes(v, f.trail);
      var entered := f.audit.(widest := Max(f.audit.widest, |child|));
      after := ScanFrom(v, names, child, 0, owner, entered, maxNodes);
      NothingFound(v, names, directory, offset + 32, prefix, after, maxNodes);
      NothingFound(v, names, child, 0, owner, entered, maxNodes);
      SoundIgnores(v, b, visiting);
      ChainWasWhole(im, v, row.start, owner, None, visiting, maxNodes);
      SoundIgnores(v, f.audit, entered);
      var rows := RowsFound(im, v, names, child, 0, owner, entered, maxNodes);
      ScanSound(v, names, child, 0, owner, entered, maxNodes);
      node := DirectoryFound(im, names, directory, offset, prefix, f.trail, rows, a.dirs, maxNodes);
    }
    assert NodeClaims(node)[0] == Claim(owner, row.start, node.trail) by { OwnerIs(im, names, directory, offset, node, prefix, a.dirs, maxNodes); }
  }

  lemma OwnerIs(im: T.Image, names: Names, directory: seq<byte>, offset: nat, node: Node, prefix: string, dirs: set<nat>,
                maxNodes: nat)
    requires offset + 32 <= |directory| && NodeAt(im, names, directory, offset, node, prefix, dirs, maxNodes)
    ensures node.owner == prefix + "/" + names.validated(directory, offset)
  {
  }

  lemma StartIsStart(directory: seq<byte>, offset: nat)
    requires offset + 32 <= |directory| && RowAt(directory, offset).Directory?
    ensures RowAt(directory, offset).start in Starts()
  {
  }

  /** A directory scanned without a finding has rows whose chains are whole. */
  lemma {:induction false} RowsFound(im: T.Image, v: Volume, names: Names, directory: seq<byte>, offset: nat, prefix: string,
                                     a: Audit, maxNodes: nat) returns (rows: Rows)
    requires T.Represents(im, v) && LaidOut(v) && a.findings == [] && Sound(v, a, [], "")
    requires ScanFrom(v, names, directory, offset, prefix, a, maxNodes).findings == []
    ensures RowsAt(im, names, directory, offset, rows, prefix, a.dirs, maxNodes)
    ensures var r := ScanFrom(v, names, directory, offset, prefix, a, maxNodes);
            r.claims == a.claims + RowClaims(rows) && r.dirs == a.dirs + RowDirs(rows)
    decreases Starts() - a.dirs, |directory| - offset, 1
  {
    hide ScanFrom, AuditChain, TrailBytes, BytesOf, T.Represents, NodeAt, PassedOver, Sound, LaidOut, RowAt, Stops;
    if Stops(directory, offset, maxNodes) {
      RowStep(v, names, directory, offset, prefix, a, maxNodes);
      return Stop;
    }
    NotStopped(directory, offset, maxNodes);
    if PassedOver(names, directory, offset) {
      RowStep(v, names, directory, offset, prefix, a, maxNodes);
      var b := if Passes(directory, offset) then a else Reached(a, names, directory, offset);
      SoundIgnores(v, a, b);
      var rest := RowsFound(im, v, names, directory, offset + 32, prefix, b, maxNodes);
      return Pass(rest);
    }
    var node, after := NodeFound(im, v, names, directory, offset, prefix, a, maxNodes);
    var rest := RowsFound(im, v, names, directory, offset + 32, prefix, after, maxNodes);
    rows := Keep(node, rest);
  }

  // ----- the verdict -----

  /** A volume, its root directory's chain (on FAT32) and bytes, and the rows below it. */
  datatype Tree = Tree(g: Geometry, trail: seq<nat>, root: seq<byte>, rows: Rows)

  ghost predicate RootAt(im: T.Image, trail: seq<nat>, root: seq<byte>, maxNodes: nat) {
    if im.g.clusters < 65525 then
      && |root| == im.g.rootSectors * im.g.bps
      && At(im.data, (im.g.reserved + im.g.copies * im.g.fatSize) * im.g.bps, root)
    else WholeAt(im, im.g.rootCluster, trail) && |trail| <= maxNodes + 1 && root == BytesOf(im, trail)
  }

  function RootClaims(g: Geometry, trail: seq<nat>): seq<Claim> {
    if g.clusters < 65525 then [] else [Claim("<root>", g.rootCluster, trail)]
  }

  /** Every entry but those of claimed clusters is zero; cluster 2 of a FAT32 volume may have any. */
  ghost predicate NoneLost(im: T.Image, claims: seq<Claim>) {
    forall c: nat | 2 <= c < im.g.clusters + 2 ::
      EntryIs(im.table, im.g, c, 0) || Claimed(claims, c) || (c == 2 && im.g.clusters >= 65525)
  }

  ghost predicate Holds(data: seq<byte>, names: Names, t: Tree, maxNodes: nat) {
    && GeometryAt(data, t.g)
    && !(data[16] == 2 && exists i: nat :: TablesDifferAt(data, i))
    && var im, claims := T.ImageOf(data, t.g), RootClaims(t.g, t.trail) + RowClaims(t.rows);
       && RootAt(im, t.trail, t.root, maxNodes)
       && RowsAt(im, names, t.root, 0, t.rows, "", {}, maxNodes)
       && Compatible(claims) && NoneLost(im, claims)
  }

  lemma ReachedIsClaimed(v: Volume, a: Audit, c: nat)
    requires Sound(v, a, [], "")
    ensures c in a.reachable <==> Claimed(a.claims, c)
  {
    hide Live;
    if Claimed(a.claims, c) {
      var k :| 0 <= k < |a.claims| && c in a.claims[k].clusters;
      assert Owns(a.used, a.claims[k].clusters, a.claims[k].owner);
    }
  }

  lemma OrphansIff(im: T.Image, v: Volume, a: Audit)
    requires T.Represents(im, v) && Sound(v, a, [], "") && v.variant == VariantOf(im.g.clusters)
    ensures Orphans(v, a.reachable) == {} <==> NoneLost(im, a.claims)
  {
    hide Sound, Claimed, EntryIs, Entry, T.Represents;
    forall c: nat | 2 <= c < im.g.clusters + 2
      ensures InRange(v, c)
      ensures c in a.reachable <==> Claimed(a.claims, c)
      ensures EntryIs(im.table, im.g, c, 0) <==> c !in Allocated(v)
    {
      ReachedIsClaimed(v, a, c);
      T.EntryLinks(im, v, c);
    }
    T.EntryLinks(im, v, 2);
    if NoneLost(im, a.claims) {
      forall c: nat | 2 <= c < im.g.clusters + 2
        ensures c !in Orphans(v, a.reachable)
      {
        assert EntryIs(im.table, im.g, c, 0) || Claimed(a.claims, c) || (c == 2 && im.g.clusters >= 65525);
      }
    }
    if Orphans(v, a.reachable) == {} {
      forall c: nat | 2 <= c < im.g.clusters + 2
        ensures EntryIs(im.table, im.g, c, 0) || Claimed(a.claims, c) || (c == 2 && im.g.clusters >= 65525)
      {
        assert c !in Orphans(v, a.reachable);
      }
    }
  }

  lemma StartIsSound(v: Volume)
    ensures Sound(v, Start(), [], "")
  {
  }

  /** The volume both sides read, on an image that begins with one. */
  lemma VolumeReads(data: seq<byte>, g: Geometry)
    requires GeometryAt(data, g)
    ensures |data| >= 512 && Coherent(ReadBpb(data), |data|) && g == GeometryOf(ReadBpb(data))
    ensures var im, v := T.ImageOf(data, g), VolumeOf(data, ReadBpb(data));
            T.Represents(im, v) && v.variant == VariantOf(g.clusters) && im.data == data && im.g == g
  {
    hide ReadBpb, Coherent;
    assert |data| >= 512 by { T.GeometryIsLong(data, g); }
    GeometryIff(data, g);
    T.ImageStands(data, g);
    TableIs(data, g);
  }

  /** The root directory is read without a finding where it lies there. */
  lemma RootReads(data: seq<byte>, g: Geometry, trail: seq<nat>, root: seq<byte>, maxNodes: nat)
    requires GeometryAt(data, g) && RootAt(T.ImageOf(data, g), trail, root, maxNodes)
    ensures |data| >= 512 && Coherent(ReadBpb(data), |data|)
    ensures var (a, r) := AuditRoot(data, ReadBpb(data), Start(), maxNodes);
            && r == root && a.findings == [] && a.claims == RootClaims(g, trail) && a.dirs == {}
            && Sound(VolumeOf(data, ReadBpb(data)), a, [], "")
  {
    hide GeometryAt, ReadBpb, Coherent, WholeAt, BytesOf, AuditChain, TrailBytes, Sound, RootSectors, VolumeAt, FatStart, At;
    VolumeReads(data, g);
    var b, im, v := ReadBpb(data), T.ImageOf(data, g), VolumeOf(data, ReadBpb(data));
    StartIsSound(v);
    if g.clusters < 65525 {
      FixedRoot(data, b, g);
    } else {
      assert Start().claims + [Claim("<root>", g.rootCluster, trail)] == [Claim("<root>", g.rootCluster, trail)];
      ChainClaimed(im, v, g.rootCluster, trail, "<root>", None, Start(), maxNodes);
    }
  }

  lemma FixedRootAt(data: seq<byte>, b: Bpb, g: Geometry, maxNodes: nat)
    requires GeometryAt(data, g) && Coherent(b, |data|) && g == GeometryOf(b) && g.clusters < 65525
    requires FatStart(b, b.copies) + RootSectors(b) * b.bps <= |data|
    ensures RootAt(T.ImageOf(data, g), [], data[FatStart(b, b.copies)..FatStart(b, b.copies) + RootSectors(b) * b.bps], maxNodes)
  {
    hide GeometryAt, Coherent, RootSectors, FatStart, At, VolumeAt;
    FixedRoot(data, b, g);
    T.ImageStands(data, g);
  }

  /** A root directory read without a finding lies there. */
  lemma RootFound(data: seq<byte>, g: Geometry, maxNodes: nat) returns (trail: seq<nat>)
    requires GeometryAt(data, g) && |data| >= 512 && Coherent(ReadBpb(data), |data|)
    requires AuditRoot(data, ReadBpb(data), Start(), maxNodes).0.findings == []
    ensures RootAt(T.ImageOf(data, g), trail, AuditRoot(data, ReadBpb(data), Start(), maxNodes).1, maxNodes)
  {
    hide GeometryAt, ReadBpb, Coherent, WholeAt, BytesOf, AuditChain, TrailBytes, Sound, RootSectors, VolumeAt, FatStart, At;
    VolumeReads(data, g);
    var b, im, v := ReadBpb(data), T.ImageOf(data, g), VolumeOf(data, ReadBpb(data));
    StartIsSound(v);
    if g.clusters < 65525 {
      hide RootAt;
      TablesInside(b, |data|);
      FixedRootAt(data, b, g, maxNodes);
      trail := [];
    } else {
      trail := AuditChain(v, g.rootCluster, Start(), "<root>", None, maxNodes).trail;
      ChainWasWhole(im, v, g.rootCluster, "<root>", None, Start(), maxNodes);
    }
  }

  /** An audit of a coherent image that starts clean. */
  lemma WalkReads(data: seq<byte>, names: Names, t: Tree, maxNodes: nat)
    requires Holds(data, names, t, maxNodes)
    ensures |data| >= 512 && Validate(data, names, maxNodes).findings == []
  {
    hide GeometryAt, ReadBpb, Coherent, AuditRoot, ScanFrom, Sound, RowsAt, RootAt, NoneLost, Compatible, CopiesDiffer, TablesDifferAt,
         VolumeAt, T.Represents;
    VolumeReads(data, t.g);
    var b, im, v := ReadBpb(data), T.ImageOf(data, t.g), VolumeOf(data, ReadBpb(data));
    CopiesCompared(data);
    RootReads(data, t.g, t.trail, t.root, maxNodes);
    var (a, root) := AuditRoot(data, b, Start(), maxNodes);
    var entered := a.(widest := Max(a.widest, |root|));
    SoundIgnores(v, a, entered);
    ScanReads(im, v, names, root, 0, t.rows, "", entered, maxNodes);
    ScanSound(v, names, root, 0, "", entered, maxNodes);
    OrphansIff(im, v, ScanFrom(v, names, root, 0, "", entered, maxNodes));
  }

  lemma WalkFound(data: seq<byte>, names: Names, maxNodes: nat) returns (t: Tree)
    requires |data| >= 512 && Validate(data, names, maxNodes).findings == []
    ensures Holds(data, names, t, maxNodes)
  {
    hide GeometryAt, ReadBpb, Coherent, AuditRoot, ScanFrom, Sound, RowsAt, RootAt, NoneLost, Compatible, CopiesDiffer, TablesDifferAt,
         VolumeAt, T.Represents;
    assert [] + [BpbInconsistent] != [] && forall f: seq<Finding> :: f + [OrphansPresent] != [];
    var b := ReadBpb(data);
    var g := GeometryOf(b);
    GeometryIff(data, g);
    VolumeReads(data, g);
    var im, v := T.ImageOf(data, g), VolumeOf(data, b);
    CopiesCompared(data);
    var start := if CopiesDiffer(data, b) then Report(Start(), CopiesMismatch) else Start();
    var (a, root) := AuditRoot(data, b, start, maxNodes);
    var entered := a.(widest := Max(a.widest, |root|));
    NothingFound(v, names, root, 0, "", entered, maxNodes);
    RootKeeps(data, b, start, maxNodes);
    var trail := RootFound(data, g, maxNodes);
    RootReads(data, g, trail, root, maxNodes);
    SoundIgnores(v, a, entered);
    var rows := RowsFound(im, v, names, root, 0, "", entered, maxNodes);
    ScanSound(v, names, root, 0, "", entered, maxNodes);
    var end := ScanFrom(v, names, root, 0, "", entered, maxNodes);
    SoundIsCompatible(v, end);
    OrphansIff(im, v, end);
    t := Tree(g, trail, root, rows);
  }

  lemma RootKeeps(data: seq<byte>, b: Bpb, a: Audit, maxNodes: nat)
    requires |data| >= 512 && Coherent(b, |data|)
    ensures a.findings <= AuditRoot(data, b, a, maxNodes).0.findings
  {
    hide AuditChain, TrailBytes, RootSectors, Clusters;
  }

  /**
   A FAT image is judged VALID exactly when it begins with a volume that fits, its two tables (if there are two) are
   equal, and it holds a tree whose chains are whole and long enough, entered directories differ, chains of different
   paths share no cluster, and no other cluster is in use.
   */
  lemma ValidIff(data: seq<byte>, names: Names, maxNodes: nat)
    requires |data| >= 512
    ensures Validate(data, names, maxNodes).findings == [] <==> exists t :: Holds(data, names, t, maxNodes)
  {
    hide Validate, Holds;
    forall t | Holds(data, names, t, maxNodes)
      ensures Validate(data, names, maxNodes).findings == []
    {
      WalkReads(data, names, t, maxNodes);
    }
    if Validate(data, names, maxNodes).findings == [] {
      var t := WalkFound(data, names, maxNodes);
    }
  }
}
