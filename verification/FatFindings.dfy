/** What the FAT validator reports of a chain, on the table's entries. */
module FatFindings {
  import opened Bytes
  import opened Fat
  import opened FatDisk
  import opened FatValidator
  import T = FatTree

  /** The cluster that comes after the trail: the start, or what the table gives the last one. */
  predicate Ahead(im: T.Image, start: nat, trail: seq<nat>, next: nat) {
    if trail == [] then next == start && start >= 2 else T.LinkAt(im, trail[|trail| - 1], next)
  }

  /** Clusters claimed: numbered, without repetition, linked by the table, and recorded for no other owner before. */
  ghost predicate Claims(im: T.Image, start: nat, trail: seq<nat>, used: map<nat, string>, owner: string) {
    && (forall i | 0 <= i < |trail| :: 2 <= trail[i] < im.g.clusters + 2 && (trail[i] in used ==> used[trail[i]] == owner))
    && (forall i, j | 0 <= i < j < |trail| :: trail[i] != trail[j])
    && (forall i | 0 <= i < |trail| :: Ahead(im, start, trail[..i], trail[i]))
  }

  ghost predicate HasNext(im: T.Image, cluster: nat) {
    exists next: nat :: T.LinkAt(im, cluster, next)
  }

  /** Why a chain ends behind its trail. */
  ghost predicate Stopped(im: T.Image, start: nat, trail: seq<nat>, used: map<nat, string>, owner: string, maxNodes: nat,
                          finding: Option<Finding>) {
    match finding
    case None => if trail == [] then start < 2 else T.LastAt(im, trail[|trail| - 1])
    case Some(ChainLoop) => |trail| <= maxNodes && exists next: nat | Ahead(im, start, trail, next) :: next in trail
    case Some(ClusterOutOfRange) => trail == [] && start >= im.g.clusters + 2
    case Some(CrosslinkDetected) =>
      && (trail == [] || |trail| <= maxNodes)
      && exists next: nat | Ahead(im, start, trail, next) :: next < im.g.clusters + 2 && next !in trail && next in used && used[next] != owner
    case Some(ReferenceInvalid) =>
      trail != [] && !T.LastAt(im, trail[|trail| - 1]) && !HasNext(im, trail[|trail| - 1])
    case Some(ChainLimit) => |trail| > maxNodes && trail != [] && HasNext(im, trail[|trail| - 1])
    case Some(_) => false
  }

  function Added(finding: Option<Finding>): seq<Finding> {
    match finding
    case None => []
    case Some(f) => [f]
  }

  /** What the audit has recorded since: the trail, for this owner. */
  ghost predicate Recorded(used: map<nat, string>, before: map<nat, string>, trail: seq<nat>) {
    forall c | c !in trail :: (c in used <==> c in before) && (c in before ==> used[c] == before[c])
  }

  lemma ClaimsNext(im: T.Image, start: nat, trail: seq<nat>, used: map<nat, string>, owner: string, next: nat)
    requires Claims(im, start, trail, used, owner) && Ahead(im, start, trail, next) && next !in trail
    requires 2 <= next < im.g.clusters + 2 && (next in used ==> used[next] == owner)
    ensures Claims(im, start, trail + [next], used, owner)
  {
    hide T.LinkAt;
    var more := trail + [next];
    forall i | 0 <= i < |more|
      ensures Ahead(im, start, more[..i], more[i])
    {
      assert more[..i] == trail[..i];
    }
  }

  lemma RecordedNext(used: map<nat, string>, before: map<nat, string>, trail: seq<nat>, next: nat, owner: string)
    requires Recorded(used, before, trail)
    ensures Recorded(used[next := owner], before, trail + [next])
  {
  }

  lemma AheadIsNumbered(im: T.Image, start: nat, trail: seq<nat>, next: nat)
    requires Ahead(im, start, trail, next)
    ensures next >= 2 && (trail != [] ==> next < im.g.clusters + 2)
  {
  }

  /** The chain loop from the cluster ahead of the trail. */
  lemma {:induction false} FollowStops(im: T.Image, v: Volume, start: nat, current: nat, trail: seq<nat>, a: Audit,
                                       before: map<nat, string>,
                                       owner: string, maxNodes: nat) returns (finding: Option<Finding>)
    requires T.Represents(im, v) && AllInRange(v, trail) && Claims(im, start, trail, before, owner) && Recorded(a.used, before, trail)
    requires Ahead(im, start, trail, current) && (trail == [] || |trail| <= maxNodes)
    ensures var r := FollowFrom(v, current, trail, a, owner, maxNodes);
            && r.audit.findings == a.findings + Added(finding)
            && Claims(im, start, r.trail, before, owner) && Stopped(im, start, r.trail, before, owner, maxNodes, finding)
    decreases Numbered(v) - Members(trail)
  {
    hide Entry, EndMark, FollowFrom, T.LinkAt, T.LastAt, T.Represents, Claims, Recorded;
    AheadIsNumbered(im, start, trail, current);
    FollowOnce(v, current, trail, a, owner, maxNodes);
    T.EntryLinks(im, v, current);
    if current in trail {
      return Some(ChainLoop);
    }
    if current >= v.clusters + 2 {
      return Some(ClusterOutOfRange);
    }
    assert (current in a.used <==> current in before) && (current in before ==> a.used[current] == before[current]) by {
      RecordedAt(a.used, before, trail, current);
    }
    if current in a.used && a.used[current] != owner {
      return Some(CrosslinkDetected);
    }
    var longer := trail + [current];
    var claimed := a.(reachable := a.reachable + {current}, used := a.used[current := owner]);
    ClaimsNext(im, start, trail, before, owner, current);
    RecordedNext(a.used, before, trail, current, owner);
    var value := FatValue(v, current);
    EntryKinds(v, current);
    if value >= EndMark(v.variant) {
      finding := None;
      assert a.findings + [] == a.findings;
    } else if value < 2 || value >= v.clusters + 2 {
      finding := Some(ReferenceInvalid);
    } else if |longer| > maxNodes {
      assert T.LinkAt(im, current, value);
      finding := Some(ChainLimit);
    } else {
      assert T.LinkAt(im, current, value);
      assert current in Numbered(v) && current in Members(longer);
      finding := FollowStops(im, v, start, value, longer, claimed, before, owner, maxNodes);
    }
  }

  lemma RecordedAt(used: map<nat, string>, before: map<nat, string>, trail: seq<nat>, c: nat)
    requires Recorded(used, before, trail) && c !in trail
    ensures (c in used <==> c in before) && (c in before ==> used[c] == before[c])
  {
  }

  /** An entry's value as the loop looks at it: an end, a link, or neither. */
  lemma EntryKinds(v: Volume, cluster: nat)
    ensures var value := FatValue(v, cluster);
            && (IsEnd(v, cluster) <==> value >= EndMark(v.variant))
            && (forall next: nat :: IsLink(v, cluster, next) <==> next == value && 2 <= value < v.clusters + 2 && value < EndMark(v.variant))
  {
    hide Entry;
  }

  /**
   Following a chain reports the one thing that stopped it, if it did not come to its end, and then whether it is too
   short for the declared size.
   */
  lemma ChainReport(im: T.Image, v: Volume, start: nat, a: Audit, owner: string, wanted: Option<nat>, maxNodes: nat)
    returns (finding: Option<Finding>)
    requires T.Represents(im, v) && LaidOut(v)
    ensures var r := AuditChain(v, start, a, owner, wanted, maxNodes);
            && Claims(im, start, r.trail, a.used, owner) && Stopped(im, start, r.trail, a.used, owner, maxNodes, finding)
            && r.audit.findings == a.findings + Added(finding)
               + if wanted.Some? && |TrailBytes(v, r.trail)| < wanted.value then [FileChainTruncated] else []
  {
    hide FollowFrom, TrailBytes, T.LinkAt, T.LastAt, T.Represents;
    if start < 2 {
      FollowEnd(v, start, [], a, owner, maxNodes);
      finding := None;
      assert a.findings + [] == a.findings;
    } else {
      finding := FollowStops(im, v, start, start, [], a, a.used, owner, maxNodes);
    }
    var found := FollowFrom(v, start, [], a, owner, maxNodes).audit.findings;
    assert found + [] == found;
  }
}
