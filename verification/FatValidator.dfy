/**
 The FAT half of `structural.py`: never raises, collects findings, records which path owns each cluster, and
 compares the clusters it reached with those the table marks allocated.
 */
module FatValidator {
  import opened Bytes
  import opened Fat

  datatype Finding = BpbInconsistent | CopiesMismatch | ChainLoop | ClusterOutOfRange | CrosslinkDetected
                   | ReferenceInvalid | ChainLimit | FileChainTruncated | DirectoryLoop | OrphansPresent

  /** One call of the chain follower: who asked, from where, and the clusters it claimed. */
  datatype Claim = Claim(owner: string, start: nat, clusters: seq<nat>)

  /** One file row: what it declares and the bytes the chain follower returned for it. */
  datatype FileRow = FileRow(start: nat, size: nat, data: seq<byte>)

  /**
   The validator's mutable state.  `claims`, `files`, `widest` (the longest directory entered, in bytes) and `alike`
   (the extractor passes over the same names, so far) are a log of the run that the properties refer to; no branch
   depends on them.
   */
  datatype Audit = Audit(used: map<nat, string>, reachable: set<nat>, findings: seq<Finding>, dirs: set<nat>,
                         claims: seq<Claim>, files: seq<FileRow>, widest: nat, alike: bool)

  function Start(): Audit { Audit(map[], {}, [], {}, [], [], 0, true) }

  function Report(a: Audit, finding: Finding): Audit {
    a.(findings := a.findings + [finding])
  }

  /** `_fat_value`: an entry outside the table reads as 1. */
  function FatValue(v: Volume, cluster: nat): nat {
    match Entry(v, cluster)
    case None => 1
    case Some(value) => value
  }

  ghost function Members(trail: seq<nat>): set<nat> {
    set c | c in trail
  }

  ghost function Numbered(v: Volume): set<nat> {
    set c: nat | c < v.clusters + 2 && InRange(v, c)
  }

  predicate AllInRange(v: Volume, trail: seq<nat>) {
    forall i | 0 <= i < |trail| :: InRange(v, trail[i])
  }

  datatype Followed = Followed(audit: Audit, trail: seq<nat>)

  /** The chain loop from `current` on, `trail` being the clusters claimed so far. */
  ghost function FollowFrom(v: Volume, current: nat, trail: seq<nat>, a: Audit, owner: string, maxNodes: nat): (r: Followed)
    requires AllInRange(v, trail)
    ensures AllInRange(v, r.trail) && trail <= r.trail
    ensures r.audit.dirs == a.dirs && r.audit.claims == a.claims && r.audit.files == a.files
    ensures r.audit.widest == a.widest && r.audit.alike == a.alike
    ensures a.findings <= r.audit.findings
    decreases Numbered(v) - Members(trail)
  {
    if current < 2 then Followed(a, trail)
    else if current in trail then Followed(Report(a, ChainLoop), trail)
    else if current >= v.clusters + 2 then Followed(Report(a, ClusterOutOfRange), trail)
    else if current in a.used && a.used[current] != owner then Followed(Report(a, CrosslinkDetected), trail)
    else
      var longer := trail + [current];
      var claimed := a.(reachable := a.reachable + {current}, used := a.used[current := owner]);
      var value := FatValue(v, current);
      if value >= EndMark(v.variant) then Followed(claimed, longer)
      else if value < 2 || value >= v.clusters + 2 then Followed(Report(claimed, ReferenceInvalid), longer)
      else if |longer| > maxNodes then Followed(Report(claimed, ChainLimit), longer)
      else
        assert current in Numbered(v) && current in Members(longer);
        FollowFrom(v, value, longer, claimed, owner, maxNodes)
  }

  /** `_fat_chain` on the audit: follow, then compare what was collected with the declared size. */
  ghost function AuditChain(v: Volume, start: nat, a: Audit, owner: string, wanted: Option<nat>, maxNodes: nat): (r: Followed)
    requires LaidOut(v)
    ensures AllInRange(v, r.trail)
    ensures r.audit.dirs == a.dirs && r.audit.files == a.files && r.audit.widest == a.widest && r.audit.alike == a.alike
    ensures a.findings <= r.audit.findings
  {
    var f := FollowFrom(v, start, [], a, owner, maxNodes);
    var logged := f.audit.(claims := f.audit.claims + [Claim(owner, start, f.trail)]);
    if wanted.Some? && |TrailBytes(v, f.trail)| < wanted.value then Followed(Report(logged, FileChainTruncated), f.trail)
    else Followed(logged, f.trail)
  }

  function Truncate(data: seq<byte>, wanted: Option<nat>): seq<byte> {
    if wanted.Some? && wanted.value <= |data| then data[..wanted.value] else data
  }

  function Owner(prefix: string, name: string): string {
    prefix + "/" + name
  }

  /** Both sides pass over the name of the row at `offset`, or neither does. */
  predicate SameName(names: Names, directory: seq<byte>, offset: nat) {
    Extracted(names, directory, offset).None? <==> Validated(names, directory, offset).None?
  }

  /** A row was reached whose name counts. */
  function Reached(a: Audit, names: Names, directory: seq<byte>, offset: nat): Audit {
    a.(alike := a.alike && SameName(names, directory, offset))
  }

  /** The directory loop from `offset` on. */
  ghost function ScanFrom(v: Volume, names: Names, directory: seq<byte>, offset: nat, prefix: string, a: Audit,
                          maxNodes: nat): (r: Audit)
    requires LaidOut(v)
    ensures a.dirs <= r.dirs && a.findings <= r.findings && a.files <= r.files && a.widest <= r.widest && (r.alike ==> a.alike)
    decreases Starts() - a.dirs, |directory| - offset
  {
    if offset + 32 > |directory| || offset + 32 > maxNodes * 32 then a else
      var row, name := RowAt(directory, offset), Validated(names, directory, offset);
      if row.End? then a
      else if row.Skip? then ScanFrom(v, names, directory, offset + 32, prefix, a, maxNodes)
      else
        var b := Reached(a, names, directory, offset);
        if name.None? then ScanFrom(v, names, directory, offset + 32, prefix, b, maxNodes)
        else
          var owner := Owner(prefix, name.value);
          if row.Directory? then
            if row.start in b.dirs then
              ScanFrom(v, names, directory, offset + 32, prefix, Report(b, DirectoryLoop), maxNodes)
            else
              assert row.start in Starts();
              var f := AuditChain(v, row.start, b.(dirs := b.dirs + {row.start}), owner, None, maxNodes);
              var child := TrailBytes(v, f.trail);
              var inner := ScanFrom(v, names, child, 0, owner, f.audit.(widest := Max(f.audit.widest, |child|)), maxNodes);
              ScanFrom(v, names, directory, offset + 32, prefix, inner, maxNodes)
          else
            var f := AuditChain(v, row.start, b, owner, Some(row.size), maxNodes);
            var file := FileRow(row.start, row.size, Truncate(TrailBytes(v, f.trail), Some(row.size)));
            ScanFrom(v, names, directory, offset + 32, prefix, f.audit.(files := f.audit.files + [file]), maxNodes)
  }

  const ROOT_OWNER := "<root>"

  /** The root directory's bytes, and the audit after reading them. */
  ghost function AuditRoot(data: seq<byte>, b: Bpb, a: Audit, maxNodes: nat): (Audit, seq<byte>)
    requires |data| >= 512 && Coherent(b, |data|)
  {
    var v := VolumeOf(data, b);
    TablesInside(b, |data|);
    if v.variant.Fat32? then
      var f := AuditChain(v, b.rootCluster, a, ROOT_OWNER, None, maxNodes);
      (f.audit, TrailBytes(v, f.trail))
    else (a, data[FatStart(b, b.copies)..FatStart(b, b.copies) + RootSectors(b) * b.bps])
  }

  predicate CopiesDiffer(data: seq<byte>, b: Bpb)
    requires Coherent(b, |data|)
  {
    TablesInside(b, |data|);
    b.copies == 2 && data[FatStart(b, 0)..FatStart(b, 1)] != data[FatStart(b, 1)..FatStart(b, 2)]
  }

  /** The walk of a coherent image, before the orphan count. */
  ghost function WalkAll(data: seq<byte>, names: Names, maxNodes: nat): Audit
    requires |data| >= 512 && Coherent(ReadBpb(data), |data|)
  {
    var b := ReadBpb(data);
    var start := if CopiesDiffer(data, b) then Report(Start(), CopiesMismatch) else Start();
    var (a, root) := AuditRoot(data, b, start, maxNodes);
    ScanFrom(VolumeOf(data, b), names, root, 0, "", a.(widest := Max(a.widest, |root|)), maxNodes)
  }

  function Allocated(v: Volume): set<nat> {
    set c: nat | c < v.clusters + 2 && InRange(v, c) && FatValue(v, c) != 0 :: c
  }

  function Orphans(v: Volume, reachable: set<nat>): set<nat> {
    Allocated(v) - reachable - (if v.variant.Fat32? then {2} else {})
  }

  /** `_fat`, as the final audit. */
  ghost function Validate(data: seq<byte>, names: Names, maxNodes: nat): Audit
    requires |data| >= 512
  {
    var b := ReadBpb(data);
    if !Coherent(b, |data|) then Report(Start(), BpbInconsistent) else
      var a := WalkAll(data, names, maxNodes);
      if Orphans(VolumeOf(data, b), a.reachable) != {} then Report(a, OrphansPresent) else a
  }

  lemma EmptyTrail(v: Volume)
    requires LaidOut(v)
    ensures TrailBytes(v, []) == []
  {
  }

  lemma Extend(v: Volume, trail: seq<nat>, cluster: nat)
    requires LaidOut(v) && AllInRange(v, trail) && InRange(v, cluster) && cluster !in trail
    ensures AllInRange(v, trail + [cluster])
    ensures Members(trail + [cluster]) == Members(trail) + {cluster}
    ensures Numbered(v) - Members(trail + [cluster]) < Numbered(v) - Members(trail)
    ensures TrailBytes(v, trail + [cluster]) == TrailBytes(v, trail) + ClusterBytes(v, cluster)
  {
    var longer := trail + [cluster];
    assert longer[..|longer| - 1] == trail;
    assert cluster in Numbered(v) - Members(trail);
    assert cluster in longer;
  }

  /** One turn of the chain loop. */
  lemma FollowOnce(v: Volume, current: nat, trail: seq<nat>, a: Audit, owner: string, maxNodes: nat)
    requires AllInRange(v, trail) && current >= 2
    ensures var longer := trail + [current];
            var claimed := a.(reachable := a.reachable + {current}, used := a.used[current := owner]);
            var value := FatValue(v, current);
            FollowFrom(v, current, trail, a, owner, maxNodes) ==
            if current in trail then Followed(Report(a, ChainLoop), trail)
            else if current >= v.clusters + 2 then Followed(Report(a, ClusterOutOfRange), trail)
            else if current in a.used && a.used[current] != owner then Followed(Report(a, CrosslinkDetected), trail)
            else if value >= EndMark(v.variant) then Followed(claimed, longer)
            else if value < 2 || value >= v.clusters + 2 then Followed(Report(claimed, ReferenceInvalid), longer)
            else if |longer| > maxNodes then Followed(Report(claimed, ChainLimit), longer)
            else FollowFrom(v, value, longer, claimed, owner, maxNodes)
  {
  }

  lemma FollowEnd(v: Volume, current: nat, trail: seq<nat>, a: Audit, owner: string, maxNodes: nat)
    requires AllInRange(v, trail) && current < 2
    ensures FollowFrom(v, current, trail, a, owner, maxNodes) == Followed(a, trail)
  {
  }

  // ----- the loops -----

  class Validator {
    const v: Volume
    const names: Names
    const maxNodes: nat
    var used: map<nat, string>
    var reachable: set<nat>
    var findings: seq<Finding>
    var dirs: set<nat>
    ghost var claims: seq<Claim>
    ghost var files: seq<FileRow>
    ghost var widest: nat
    ghost var alike: bool

    ghost function State(): Audit
      reads this
    {
      Audit(used, reachable, findings, dirs, claims, files, widest, alike)
    }

    constructor (v: Volume, names: Names, maxNodes: nat, findings: seq<Finding>)
      ensures this.v == v && this.names == names && this.maxNodes == maxNodes
      ensures State() == Start().(findings := findings)
    {
      this.v, this.names, this.maxNodes, this.findings := v, names, maxNodes, findings;
      used, reachable, dirs, claims, files, widest, alike := map[], {}, {}, [], [], 0, true;
    }

    /** The chain loop: claims clusters for `owner` until the chain ends or a finding stops it. */
    method Follow(start: nat, owner: string) returns (out: seq<byte>, ghost trail: seq<nat>)
      requires LaidOut(v)
      modifies this
      ensures FollowFrom(v, start, [], old(State()), owner, maxNodes) == Followed(State(), trail)
      ensures AllInRange(v, trail) && out == TrailBytes(v, trail)
    {
      hide FatValue, EndMark, TrailBytes, ClusterBytes, Numbered, ClusterOffset, ClusterSize, FollowFrom;
      ghost var before := State();
      var seen: set<nat>, current: nat := {}, start;
      out, trail := [], [];
      assert out == TrailBytes(v, trail) by { EmptyTrail(v); }
      while current >= 2
        invariant AllInRange(v, trail) && seen == Members(trail) && out == TrailBytes(v, trail)
        invariant |seen| == |trail|
        invariant FollowFrom(v, start, [], before, owner, maxNodes)
               == FollowFrom(v, current, trail, State(), owner, maxNodes)
        decreases Numbered(v) - Members(trail)
      {
        FollowOnce(v, current, trail, State(), owner, maxNodes);
        if current in seen {
          findings := findings + [ChainLoop];
          return;
        }
        if current >= v.clusters + 2 {
          findings := findings + [ClusterOutOfRange];
          return;
        }
        if current in used && used[current] != owner {
          findings := findings + [CrosslinkDetected];
          return;
        }
        seen, reachable, used := seen + {current}, reachable + {current}, used[current := owner];
        out := out + ClusterBytes(v, current);
        Extend(v, trail, current);
        trail := trail + [current];
        var value := FatValue(v, current);
        if value >= EndMark(v.variant) {
          return;
        }
        if value < 2 || value >= v.clusters + 2 {
          findings := findings + [ReferenceInvalid];
          return;
        }
        current := value;
        if |seen| > maxNodes {
          findings := findings + [ChainLimit];
          return;
        }
      }
      FollowEnd(v, current, trail, State(), owner, maxNodes);
    }

    /** `_fat_chain`: the chain's bytes, cut to the wanted size. */
    method Chain(start: nat, owner: string, wanted: Option<nat>) returns (bytes: seq<byte>, ghost trail: seq<nat>)
      requires LaidOut(v)
      modifies this
      ensures AuditChain(v, start, old(State()), owner, wanted, maxNodes) == Followed(State(), trail)
      ensures AllInRange(v, trail) && bytes == Truncate(TrailBytes(v, trail), wanted)
    {
      var out;
      out, trail := Follow(start, owner);
      claims := claims + [Claim(owner, start, trail)];
      if wanted.Some? && |out| < wanted.value {
        findings := findings + [FileChainTruncated];
      }
      bytes := Truncate(out, wanted);
    }

    /** `_fat_directory`. */
    method Scan(directory: seq<byte>, prefix: string)
      requires LaidOut(v)
      modifies this
      ensures State() == ScanFrom(v, names, directory, 0, prefix, old(State()), maxNodes)
      decreases Starts() - dirs
    {
      hide AuditChain, RowAt, TrailBytes, SameName, LaidOut, AllInRange, Max;
      ghost var before := State();
      var offset := 0;
      while offset + 32 <= |directory| && offset + 32 <= maxNodes * 32
        invariant before.dirs <= dirs
        invariant ScanFrom(v, names, directory, offset, prefix, State(), maxNodes)
               == ScanFrom(v, names, directory, 0, prefix, before, maxNodes)
        decreases |directory| - offset
      {
        var row := RowAt(directory, offset);
        if row.End? {
          return;
        }
        var name := Validated(names, directory, offset);
        if !row.Skip? {
          alike := alike && SameName(names, directory, offset);
        }
        if !row.Skip? && name.Some? {
          var owner := Owner(prefix, name.value);
          if row.File? {
            var data, _ := Chain(row.start, owner, Some(row.size));
            files := files + [FileRow(row.start, row.size, data)];
          } else if row.start in dirs {
            findings := findings + [DirectoryLoop];
          } else {
            assert row.start in Starts();
            dirs := dirs + {row.start};
            var child, _ := Chain(row.start, owner, None);
            widest := Max(widest, |child|);
            Scan(child, owner);
          }
        }
        offset := offset + 32;
      }
    }

    /** The root directory: a chain on FAT32, the fixed area otherwise. */
    method Root(b: Bpb) returns (root: seq<byte>)
      requires |v.data| >= 512 && Coherent(b, |v.data|) && v == VolumeOf(v.data, b)
      modifies this
      ensures (State(), root) == AuditRoot(v.data, b, old(State()), maxNodes)
    {
      TablesInside(b, |v.data|);
      hide RootSectors, FatStart, Coherent;
      if v.variant.Fat32? {
        ghost var trail;
        root, trail := Chain(b.rootCluster, ROOT_OWNER, None);
      } else {
        root := v.data[FatStart(b, b.copies)..FatStart(b, b.copies) + RootSectors(b) * b.bps];
      }
    }
  }

  /** `_fat`: the findings are empty exactly when the state is VALID. */
  method ValidateFat(data: seq<byte>, names: Names, maxNodes: nat) returns (findings: seq<Finding>)
    requires |data| >= 512
    ensures findings == Validate(data, names, maxNodes).findings
  {
    hide AuditRoot, Coherent, CopiesDiffer, ReadBpb, ScanFrom;
    var b := ReadBpb(data);
    if !Coherent(b, |data|) {
      return [BpbInconsistent];
    }
    var v := VolumeOf(data, b);
    var validator := new Validator(v, names, maxNodes, if CopiesDiffer(data, b) then [CopiesMismatch] else []);
    assert [] + [CopiesMismatch] == [CopiesMismatch];
    var root := validator.Root(b);
    validator.widest := Max(validator.widest, |root|);
    validator.Scan(root, "");
    findings := validator.findings;
    if Orphans(v, validator.reachable) != {} {
      findings := findings + [OrphansPresent];
    }
  }
}
