/** What a VALID verdict says about the allocation table: an exact partition of the allocated clusters by owner. */
module FatOwnership {
  import opened Bytes
  import opened Fat
  import opened FatValidator

  /** Every cluster of the claim is recorded under the claim's owner. */
  ghost predicate Owns(used: map<nat, string>, clusters: seq<nat>, owner: string) {
    forall c | c in clusters :: c in used && used[c] == owner
  }

  ghost predicate Claimed(claims: seq<Claim>, c: nat) {
    exists k | 0 <= k < |claims| :: c in claims[k].clusters
  }

  /** The table holds an entry for the cluster, and it marks it in use. */
  predicate Live(v: Volume, c: nat) {
    Entry(v, c).Some? && Entry(v, c).value >= 2
  }

  /** Each claim's clusters are recorded under its owner. */
  ghost predicate AllOwned(used: map<nat, string>, claims: seq<Claim>) {
    forall k | 0 <= k < |claims| :: Owns(used, claims[k].clusters, claims[k].owner)
  }

  /** The invariant of the whole walk; `trail` and `owner` are the chain being followed, if any. */
  ghost predicate Sound(v: Volume, a: Audit, trail: seq<nat>, owner: string) {
    && a.used.Keys == a.reachable
    && AllOwned(a.used, a.claims) && Owns(a.used, trail, owner)
    && (forall c | c in a.reachable :: InRange(v, c) && (Claimed(a.claims, c) || c in trail))
    && (a.findings == [] ==> forall c | c in a.reachable :: Live(v, c))
  }

  lemma {:induction false} FollowSound(v: Volume, current: nat, trail: seq<nat>, a: Audit, owner: string, maxNodes: nat)
    requires AllInRange(v, trail) && Sound(v, a, trail, owner)
    ensures var r := FollowFrom(v, current, trail, a, owner, maxNodes);
            Sound(v, r.audit, r.trail, owner)
    decreases Numbered(v) - Members(trail)
  {
    hide Entry;
    if current >= 2 && current !in trail && current < v.clusters + 2 && (current in a.used ==> a.used[current] == owner) {
      var longer := trail + [current];
      var claimed := a.(reachable := a.reachable + {current}, used := a.used[current := owner]);
      var value := FatValue(v, current);
      ClaimSound(v, current, trail, a, owner);
      if value < EndMark(v.variant) && 2 <= value < v.clusters + 2 && |longer| <= maxNodes {
        assert current in Numbered(v) && current in Members(longer);
        FollowSound(v, value, longer, claimed, owner, maxNodes);
      }
    }
  }

  /** Claiming one cluster keeps the invariant, up to the entry's value, which the loop checks next. */
  lemma ClaimSound(v: Volume, current: nat, trail: seq<nat>, a: Audit, owner: string)
    requires Sound(v, a, trail, owner) && InRange(v, current)
    requires current in a.used ==> a.used[current] == owner
    ensures var claimed := a.(reachable := a.reachable + {current}, used := a.used[current := owner]);
            && Sound(v, Report(claimed, ReferenceInvalid), trail + [current], owner)
            && (FatValue(v, current) >= 2 ==> Sound(v, claimed, trail + [current], owner))
  {
    hide Entry, Claimed;
    var used := a.used[current := owner];
    assert AllOwned(used, a.claims) by {
      forall k | 0 <= k < |a.claims|
        ensures Owns(used, a.claims[k].clusters, a.claims[k].owner)
      {
        assert Owns(a.used, a.claims[k].clusters, a.claims[k].owner);
      }
    }
    assert Owns(used, trail + [current], owner);
    hide Owns, AllOwned;
  }

  lemma ChainSound(v: Volume, start: nat, a: Audit, owner: string, wanted: Option<nat>, maxNodes: nat)
    requires LaidOut(v) && Sound(v, a, [], "")
    ensures Sound(v, AuditChain(v, start, a, owner, wanted, maxNodes).audit, [], "")
  {
    hide Entry, TrailBytes, FollowFrom;
    var f := FollowFrom(v, start, [], a, owner, maxNodes);
    FollowSound(v, start, [], a, owner, maxNodes);
    var claims := f.audit.claims + [Claim(owner, start, f.trail)];
    forall c | c in f.audit.reachable
      ensures Claimed(claims, c)
    {
      if Claimed(f.audit.claims, c) {
        var k :| 0 <= k < |f.audit.claims| && c in f.audit.claims[k].clusters;
        assert c in claims[k].clusters;
      } else {
        assert c in claims[|f.audit.claims|].clusters;
      }
    }
  }

  /** The invariant does not depend on the visited directories, the file log, or on findings already made. */
  lemma SoundIgnores(v: Volume, a: Audit, b: Audit)
    requires Sound(v, a, [], "") && b.used == a.used && b.reachable == a.reachable && b.claims == a.claims
    requires a.findings <= b.findings
    ensures Sound(v, b, [], "")
  {
    hide Entry, Claimed, Owns;
  }

  lemma {:induction false} ScanSound(v: Volume, names: Names, directory: seq<byte>, offset: nat, prefix: string,
                                     a: Audit, maxNodes: nat)
    requires LaidOut(v) && Sound(v, a, [], "")
    ensures Sound(v, ScanFrom(v, names, directory, offset, prefix, a, maxNodes), [], "")
    decreases Starts() - a.dirs, |directory| - offset
  {
    hide AuditChain, RowAt, TrailBytes, Sound;
    if offset + 32 <= |directory| && offset + 32 <= maxNodes * 32 {
      var row, name := RowAt(directory, offset), Validated(names, directory, offset);
      if row.End? {
      } else if row.Skip? {
        ScanSound(v, names, directory, offset + 32, prefix, a, maxNodes);
      } else if name.None? {
        SoundIgnores(v, a, Reached(a, names, directory, offset));
        ScanSound(v, names, directory, offset + 32, prefix, Reached(a, names, directory, offset), maxNodes);
      } else {
        var owner, b := Owner(prefix, name.value), Reached(a, names, directory, offset);
        SoundIgnores(v, a, b);
        if row.File? {
          var f := AuditChain(v, row.start, b, owner, Some(row.size), maxNodes);
          var file := FileRow(row.start, row.size, Truncate(TrailBytes(v, f.trail), Some(row.size)));
          var next := f.audit.(files := f.audit.files + [file]);
          ChainSound(v, row.start, b, owner, Some(row.size), maxNodes);
          SoundIgnores(v, f.audit, next);
          ScanSound(v, names, directory, offset + 32, prefix, next, maxNodes);
        } else if row.start in b.dirs {
          SoundIgnores(v, b, Report(b, DirectoryLoop));
          ScanSound(v, names, directory, offset + 32, prefix, Report(b, DirectoryLoop), maxNodes);
        } else {
          assert row.start in Starts();
          var visiting := b.(dirs := b.dirs + {row.start});
          var f := AuditChain(v, row.start, visiting, owner, None, maxNodes);
          var child := TrailBytes(v, f.trail);
          var entered := f.audit.(widest := Max(f.audit.widest, |child|));
          SoundIgnores(v, b, visiting);
          ChainSound(v, row.start, visiting, owner, None, maxNodes);
          SoundIgnores(v, f.audit, entered);
          ScanSound(v, names, child, 0, owner, entered, maxNodes);
          ScanSound(v, names, directory, offset + 32, prefix, ScanFrom(v, names, child, 0, owner, entered, maxNodes), maxNodes);
        }
      }
    }
  }

  lemma WalkSound(data: seq<byte>, names: Names, maxNodes: nat)
    requires |data| >= 512 && Coherent(ReadBpb(data), |data|)
    ensures Sound(VolumeOf(data, ReadBpb(data)), WalkAll(data, names, maxNodes), [], "")
  {
    hide ScanFrom, AuditChain, CopiesDiffer, FatStart, RootSectors, ReadBpb, TrailBytes;
    var b := ReadBpb(data);
    var v := VolumeOf(data, b);
    TablesInside(b, |data|);
    var start := if CopiesDiffer(data, b) then Report(Start(), CopiesMismatch) else Start();
    assert Sound(v, start, [], "");
    var (a, root) := AuditRoot(data, b, start, maxNodes);
    if v.variant.Fat32? {
      ChainSound(v, b.rootCluster, start, ROOT_OWNER, None, maxNodes);
    }
    var entered := a.(widest := Max(a.widest, |root|));
    SoundIgnores(v, a, entered);
    ScanSound(v, names, root, 0, "", entered, maxNodes);
  }

  // ----- the two tables -----

  /** Following a chain reports nothing about the copies of the table. */
  lemma {:induction false} FollowKeepsCopies(v: Volume, current: nat, trail: seq<nat>, a: Audit, owner: string, maxNodes: nat)
    requires AllInRange(v, trail)
    ensures CopiesMismatch in FollowFrom(v, current, trail, a, owner, maxNodes).audit.findings <==> CopiesMismatch in a.findings
    decreases Numbered(v) - Members(trail)
  {
    hide Entry;
    if current >= 2 && current !in trail && current < v.clusters + 2 && (current in a.used ==> a.used[current] == owner) {
      var longer := trail + [current];
      var claimed := a.(reachable := a.reachable + {current}, used := a.used[current := owner]);
      var value := FatValue(v, current);
      if value < EndMark(v.variant) && 2 <= value < v.clusters + 2 && |longer| <= maxNodes {
        assert current in Numbered(v) && current in Members(longer);
        FollowKeepsCopies(v, value, longer, claimed, owner, maxNodes);
      }
    }
  }

  lemma ChainKeepsCopies(v: Volume, start: nat, a: Audit, owner: string, wanted: Option<nat>, maxNodes: nat)
    requires LaidOut(v)
    ensures CopiesMismatch in AuditChain(v, start, a, owner, wanted, maxNodes).audit.findings <==> CopiesMismatch in a.findings
  {
    hide FollowFrom, TrailBytes;
    FollowKeepsCopies(v, start, [], a, owner, maxNodes);
  }

  lemma {:induction false} ScanKeepsCopies(v: Volume, names: Names, directory: seq<byte>, offset: nat, prefix: string,
                                           a: Audit, maxNodes: nat)
    requires LaidOut(v)
    ensures CopiesMismatch in ScanFrom(v, names, directory, offset, prefix, a, maxNodes).findings <==> CopiesMismatch in a.findings
    decreases Starts() - a.dirs, |directory| - offset
  {
    hide AuditChain, RowAt, TrailBytes;
    if offset + 32 <= |directory| && offset + 32 <= maxNodes * 32 {
      var row, name := RowAt(directory, offset), Validated(names, directory, offset);
      if row.End? {
      } else if row.Skip? {
        ScanKeepsCopies(v, names, directory, offset + 32, prefix, a, maxNodes);
      } else {
        var b := Reached(a, names, directory, offset);
        if name.None? {
          ScanKeepsCopies(v, names, directory, offset + 32, prefix, b, maxNodes);
        } else {
          var owner := Owner(prefix, name.value);
          if row.File? {
            var f := AuditChain(v, row.start, b, owner, Some(row.size), maxNodes);
            var file := FileRow(row.start, row.size, Truncate(TrailBytes(v, f.trail), Some(row.size)));
            ChainKeepsCopies(v, row.start, b, owner, Some(row.size), maxNodes);
            ScanKeepsCopies(v, names, directory, offset + 32, prefix, f.audit.(files := f.audit.files + [file]), maxNodes);
          } else if row.start in b.dirs {
            ScanKeepsCopies(v, names, directory, offset + 32, prefix, Report(b, DirectoryLoop), maxNodes);
          } else {
            assert row.start in Starts();
            var visiting := b.(dirs := b.dirs + {row.start});
            var f := AuditChain(v, row.start, visiting, owner, None, maxNodes);
            var child := TrailBytes(v, f.trail);
            var entered := f.audit.(widest := Max(f.audit.widest, |child|));
            ChainKeepsCopies(v, row.start, visiting, owner, None, maxNodes);
            ScanKeepsCopies(v, names, child, 0, owner, entered, maxNodes);
            ScanKeepsCopies(v, names, directory, offset + 32, prefix, ScanFrom(v, names, child, 0, owner, entered, maxNodes), maxNodes);
          }
        }
      }
    }
  }

  /** The first table and the length of one, by the image's own words: reserved sectors, sectors a table, bytes a sector. */
  function FirstTable(data: seq<byte>): nat
    requires |data| >= 512
  {
    (data[14] as nat + 0x100 * data[15] as nat) * (data[11] as nat + 0x100 * data[12] as nat)
  }

  function TableLength(data: seq<byte>): nat
    requires |data| >= 512
  {
    (if data[22] == 0 && data[23] == 0 then Le32(data, 36) else Le16(data, 22)) * (data[11] as nat + 0x100 * data[12] as nat)
  }

  /** Byte `i` from `p` on and byte `i` from `q` on differ. */
  predicate DifferAt(data: seq<byte>, p: nat, q: nat, i: nat) {
    p + i < |data| && q + i < |data| && data[p + i] != data[q + i]
  }

  /** Byte `i` of the second table, which follows the first, is not that of the first. */
  predicate TablesDifferAt(data: seq<byte>, i: nat)
    requires |data| >= 512
  {
    i < TableLength(data) && DifferAt(data, FirstTable(data), FirstTable(data) + TableLength(data), i)
  }

  lemma SlicesDiffer(data: seq<byte>, p: nat, q: nat, n: nat)
    requires p + n <= |data| && q + n <= |data|
    ensures data[p..p + n] != data[q..q + n] <==> exists i: nat :: i < n && DifferAt(data, p, q, i)
  {
    var s, t := data[p..p + n], data[q..q + n];
    if s == t {
      forall i: nat | i < n
        ensures !DifferAt(data, p, q, i)
      {
        assert s[i] == t[i];
      }
    } else {
      var i: nat :| i < n && s[i] != t[i];
      assert DifferAt(data, p, q, i);
    }
  }

  /** An accepted block's own words say where the tables are. */
  lemma TableWords(data: seq<byte>)
    requires |data| >= 512
    ensures var b := ReadBpb(data);
            && b.bps == data[11] as nat + 0x100 * data[12] as nat && b.reserved == data[14] as nat + 0x100 * data[15] as nat
            && b.copies == data[16] as nat
            && b.fatSize == if data[22] == 0 && data[23] == 0 then Le32(data, 36) else Le16(data, 22)
  {
  }

  lemma TablePlaces(data: seq<byte>)
    requires |data| >= 512 && Coherent(ReadBpb(data), |data|)
    ensures var b := ReadBpb(data);
            && FatStart(b, 0) == FirstTable(data) && FatStart(b, 1) == FirstTable(data) + TableLength(data)
            && (data[16] == 2 ==> b.copies == 2 && FatStart(b, 2) == FatStart(b, 1) + TableLength(data) <= |data|)
  {
    hide ReadBpb, RootSectors;
    var b := ReadBpb(data);
    TableWords(data);
    TablesInside(b, |data|);
    Distribute(b.reserved, b.fatSize, b.bps);
    Distribute(b.reserved + b.fatSize, b.fatSize, b.bps);
  }

  lemma CopiesCompared(data: seq<byte>)
    requires |data| >= 512 && Coherent(ReadBpb(data), |data|)
    ensures CopiesDiffer(data, ReadBpb(data)) <==> data[16] == 2 && exists i: nat :: TablesDifferAt(data, i)
  {
    hide ReadBpb, RootSectors, FatStart, FirstTable, TableLength, DifferAt;
    var b := ReadBpb(data);
    TableWords(data);
    TablePlaces(data);
    if b.copies == 2 {
      var first, n := FirstTable(data), TableLength(data);
      SlicesDiffer(data, first, first + n, n);
      if CopiesDiffer(data, b) {
        var i: nat :| i < n && DifferAt(data, first, first + n, i);
        assert TablesDifferAt(data, i);
      }
    }
  }

  /**
   On a coherent image the mismatch of the two tables is reported exactly when there are two and some byte of the second
   differs from the same byte of the first.
   */
  lemma CopiesReported(data: seq<byte>, names: Names, maxNodes: nat)
    requires |data| >= 512 && Coherent(ReadBpb(data), |data|)
    ensures CopiesMismatch in Validate(data, names, maxNodes).findings <==> data[16] == 2 && exists i: nat :: TablesDifferAt(data, i)
  {
    hide ScanFrom, AuditChain, CopiesDiffer, ReadBpb, FatStart, RootSectors, TablesDifferAt, TrailBytes;
    var b := ReadBpb(data);
    var v := VolumeOf(data, b);
    CopiesCompared(data);
    var start := if CopiesDiffer(data, b) then Report(Start(), CopiesMismatch) else Start();
    var (a, root) := AuditRoot(data, b, start, maxNodes);
    if v.variant.Fat32? {
      ChainKeepsCopies(v, b.rootCluster, start, ROOT_OWNER, None, maxNodes);
    }
    ScanKeepsCopies(v, names, root, 0, "", a.(widest := Max(a.widest, |root|)), maxNodes);
  }

  // ----- the partition -----

  /**
   A FAT image judged VALID has an exact ownership partition: chains claimed for different paths are disjoint; the
   reached clusters are those claimed; each is in range with a live entry; every allocated cluster (cluster 2
   excepted on FAT32) is reached; and so the table holds an entry for every cluster.  Where there are two tables, they
   are equal byte for byte.
   */
  lemma OwnershipPartition(data: seq<byte>, names: Names, maxNodes: nat)
    requires |data| >= 512
    ensures Validate(data, names, maxNodes).findings == [] ==> Coherent(ReadBpb(data), |data|)
    ensures Validate(data, names, maxNodes).findings == [] ==>
            var v, a := VolumeOf(data, ReadBpb(data)), Validate(data, names, maxNodes);
            && (forall i, j | 0 <= i < |a.claims| && 0 <= j < |a.claims| && a.claims[i].owner != a.claims[j].owner ::
                  Members(a.claims[i].clusters) !! Members(a.claims[j].clusters))
            && (forall c :: c in a.reachable <==> Claimed(a.claims, c))
            && (forall c | c in a.reachable :: InRange(v, c) && Live(v, c))
            && Allocated(v) - (if v.variant.Fat32? then {2} else {}) <= a.reachable <= Allocated(v)
            && (forall c | InRange(v, c) :: Entry(v, c).Some?)
            && (data[16] == 2 ==> forall i: nat :: !TablesDifferAt(data, i))
  {
    hide TablesDifferAt, WalkAll, ReadBpb, FatStart, RootSectors, Clusters;
    if Validate(data, names, maxNodes).findings == [] {
      var b := ReadBpb(data);
      assert [] + [BpbInconsistent] != [];
      WalkSound(data, names, maxNodes);
      CopiesReported(data, names, maxNodes);
      var v, a := VolumeOf(data, b), Validate(data, names, maxNodes);
      assert a == WalkAll(data, names, maxNodes);
      forall i, j | 0 <= i < |a.claims| && 0 <= j < |a.claims| && a.claims[i].owner != a.claims[j].owner
        ensures Members(a.claims[i].clusters) !! Members(a.claims[j].clusters)
      {
        assert Owns(a.used, a.claims[i].clusters, a.claims[i].owner);
        assert Owns(a.used, a.claims[j].clusters, a.claims[j].owner);
      }
      forall c | InRange(v, c)
        ensures Entry(v, c).Some?
      {
        if Entry(v, c).None? {
          assert c in Allocated(v);
          assert c in Orphans(v, a.reachable) || c in a.reachable || c == 2;
        }
      }
    }
  }
}
