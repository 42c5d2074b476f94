/**
 The engine's shared state: the usage record, the two result lists, what holds between any two steps, and what one call
 may add.
 */
module ContainerRun {
  import opened Bytes
  import opened Containers

  /** `ExtractionUsage`, the job's lists and the scratch directory.  `nodes` and `passed` are a log of the run. */
  datatype Run = Run(completeness: Completeness, events: seq<Event>, discovered: nat, materialized: nat, totalBytes: nat,
                     maxDepthReached: nat, partitionBytes: nat, derived: seq<Derived>, relationships: seq<Relationship>,
                     files: map<nat, Blob>, nodes: seq<Node>, passed: nat)

  function TotalSize(nodes: seq<Node>): nat {
    if nodes == [] then 0 else TotalSize(nodes[..|nodes| - 1]) + |nodes[|nodes| - 1].blob|
  }

  /** The bytes of the partition children among `nodes`. */
  function PartitionSum(nodes: seq<Node>): nat {
    if nodes == [] then 0
    else PartitionSum(nodes[..|nodes| - 1]) + if nodes[|nodes| - 1].relation.PartitionOf? then |nodes[|nodes| - 1].blob| else 0
  }

  lemma PartitionSumNext(nodes: seq<Node>, n: Node)
    ensures PartitionSum(nodes + [n]) == PartitionSum(nodes) + if n.relation.PartitionOf? then |n.blob| else 0
  {
    assert (nodes + [n])[..|nodes|] == nodes;
  }

  /** Bytes of recorded partition children that are not yet counted. */
  function Unsettled(r: Run): int {
    PartitionSum(r.nodes) - r.partitionBytes
  }

  /** How many of the entries sit at `level`. */
  function CountAt(nodes: seq<Node>, level: nat): nat {
    if nodes == [] then 0
    else CountAt(nodes[..|nodes| - 1], level) + if nodes[|nodes| - 1].derived.depth == level then 1 else 0
  }

  lemma {:induction false} CountConcat(a: seq<Node>, b: seq<Node>, level: nat)
    ensures CountAt(a + b, level) == CountAt(a, level) + CountAt(b, level)
  {
    if b == [] {
      assert a + b == a;
    } else {
      assert (a + b)[..|a + b| - 1] == a + b[..|b| - 1];
      CountConcat(a, b[..|b| - 1], level);
    }
  }

  lemma {:induction false} CountNone(nodes: seq<Node>, level: nat)
    requires forall i | 0 <= i < |nodes| :: nodes[i].derived.depth != level
    ensures CountAt(nodes, level) == 0
  {
    if nodes != [] {
      CountNone(nodes[..|nodes| - 1], level);
    }
  }

  /** The two lists and the counters agree and stay within the global budget, whatever the nesting. */
  ghost predicate Consistent(c: Config, r: Run) {
    && r.materialized == |r.derived| == |r.relationships| == |r.nodes| <= c.budget.maxTotalChildren
    && r.totalBytes == TotalSize(r.nodes) <= c.budget.maxTotalBytes
    && r.partitionBytes <= r.totalBytes
    && (forall i | 0 <= i < |r.nodes| :: Recorded(c, r, i))
    && r.maxDepthReached <= c.budget.maxDepth
  }

  /** Entry `i` of both lists describes the same object. */
  predicate Recorded(c: Config, r: Run, i: nat)
    requires i < |r.nodes| == |r.derived| == |r.relationships|
  {
    && r.derived[i] == r.nodes[i].derived
    && r.relationships[i] == Edge(r.nodes[i])
    && r.derived[i].sha == c.hash(r.nodes[i].blob) && r.derived[i].size == |r.nodes[i].blob|
    && 1 <= r.derived[i].depth <= r.maxDepthReached
  }

  /** The live files are exactly `child-0` to `child-(n-1)`, each holding the bytes of its entry. */
  predicate FilesMatch(r: Run) {
    && (forall k | k in r.files :: 0 <= k < |r.nodes|)
    && (forall k | 0 <= k < |r.nodes| :: k in r.files && r.files[k] == r.nodes[k].blob)
  }

  /** What holds between any two steps of the engine. */
  ghost predicate Inv(c: Config, r: Run) {
    Consistent(c, r) && FilesMatch(r)
  }

  /** Without a limit event, everything discovered was materialized or was a directory row. */
  predicate Balanced(r: Run) {
    r.events == [] ==> r.discovered == r.materialized + r.passed
  }

  function Scaled(k: nat, n: nat): nat {
    if k == 0 then 0 else n + Scaled(k - 1, n)
  }

  // ----- partition tables inside partitions -----

  /** The object's partition table is opened: it is above the depth bound and no document parser takes the object. */
  predicate OpensTable(c: Config, blob: Blob, depth: nat) {
    depth < c.budget.maxDepth && !DocumentOf(c, blob).Document? && c.decode(blob).Partitions?
  }

  predicate NoTables(c: Config, nodes: seq<Node>) {
    forall i | 0 <= i < |nodes| :: !OpensTable(c, nodes[i].blob, nodes[i].derived.depth)
  }

  /** Entry `j` is a partition, and entry `i` is it or lies below it. */
  predicate InPartition(nodes: seq<Node>, j: nat, i: nat)
    requires j <= i < |nodes|
  {
    nodes[j].relation.PartitionOf? && forall k | j < k <= i :: nodes[k].derived.depth > nodes[j].derived.depth
  }

  /** No partition's own bytes, and nothing extracted from below a partition, are opened as a partition table. */
  predicate NoNestedTables(c: Config, nodes: seq<Node>) {
    forall j, i | 0 <= j <= i < |nodes| && InPartition(nodes, j, i) :: !OpensTable(c, nodes[i].blob, nodes[i].derived.depth)
  }

  lemma NoNestedInPrefix(c: Config, nodes: seq<Node>, k: nat)
    requires NoNestedTables(c, nodes) && k <= |nodes|
    ensures NoNestedTables(c, nodes[..k])
  {
    hide OpensTable;
    forall j, i | 0 <= j <= i < k && InPartition(nodes[..k], j, i)
      ensures !OpensTable(c, nodes[i].blob, nodes[i].derived.depth)
    {
      assert forall m | j < m <= i :: nodes[..k][m] == nodes[m];
      assert InPartition(nodes, j, i);
    }
  }

  lemma NoTablesApart(c: Config, a: seq<Node>, b: seq<Node>)
    requires NoTables(c, a + b)
    ensures NoTables(c, a) && NoTables(c, b)
  {
    hide OpensTable;
    assert forall i | 0 <= i < |a| :: a[i] == (a + b)[i];
    assert forall i | 0 <= i < |b| :: b[i] == (a + b)[|a| + i];
  }

  /** The counter of partition bytes: where tables can move it, and how far. */
  ghost predicate Tabled(c: Config, before: Run, after: Run, source: Blob, depth: nat)
    requires before.nodes <= after.nodes
  {
    && (!OpensTable(c, source, depth) && NoTables(c, after.nodes[|before.nodes|..]) ==> after.partitionBytes == before.partitionBytes)
    && (NoNestedTables(c, after.nodes) ==> after.partitionBytes <= Max(before.partitionBytes, c.budget.maxTotalPartition))
  }

  lemma TabledTransitive(c: Config, before: Run, between: Run, after: Run, source: Blob, depth: nat)
    requires before.nodes <= between.nodes <= after.nodes
    requires Tabled(c, before, between, source, depth) && Tabled(c, between, after, source, depth)
    ensures Tabled(c, before, after, source, depth)
  {
    hide OpensTable, NoTables, NoNestedTables;
    var a, b := between.nodes[|before.nodes|..], after.nodes[|between.nodes|..];
    assert after.nodes[|before.nodes|..] == a + b;
    if NoTables(c, a + b) {
      NoTablesApart(c, a, b);
    }
    if NoNestedTables(c, after.nodes) {
      NoNestedInPrefix(c, after.nodes, |between.nodes|);
      assert after.nodes[..|between.nodes|] == between.nodes;
    }
  }

  lemma TabledChild(c: Config, r: Run, n: Node, after: Run, source: Blob, depth: nat)
    requires n.derived.depth == depth + 1 && Append(r, n).nodes <= after.nodes
    requires Tabled(c, Append(r, n), after, n.blob, depth + 1)
    ensures r.nodes <= after.nodes && Tabled(c, r, after, source, depth)
  {
    hide OpensTable, NoNestedTables;
    var added, below := after.nodes[|r.nodes|..], after.nodes[|r.nodes| + 1..];
    if NoTables(c, added) {
      assert added[0] == n;
      assert forall i | 0 <= i < |below| :: below[i] == added[i + 1];
    }
  }

  /** While a partition is open, no table below it means the counter does not move. */
  lemma TabledPartition(c: Config, r: Run, n: Node, after: Run)
    requires n.relation.PartitionOf? && Append(r, n).nodes <= after.nodes
    requires Tabled(c, Append(r, n), after, n.blob, n.derived.depth)
    requires Preorder(c, after.nodes[|r.nodes| + 1..], n.blob, n.derived.depth)
    requires NoNestedTables(c, after.nodes)
    ensures after.partitionBytes == r.partitionBytes
  {
    hide OpensTable, Link, HasParent;
    var j, below := |r.nodes|, after.nodes[|r.nodes| + 1..];
    assert after.nodes[j] == n;
    forall i | j <= i < |after.nodes|
      ensures InPartition(after.nodes, j, i)
    {
      forall k | j < k <= i
        ensures after.nodes[k].derived.depth > n.derived.depth
      {
        assert after.nodes[k] == below[k - j - 1] && Placed(c, below, n.blob, n.derived.depth, k - j - 1);
      }
    }
    assert InPartition(after.nodes, j, j);
    forall i | 0 <= i < |below|
      ensures !OpensTable(c, below[i].blob, below[i].derived.depth)
    {
      assert below[i] == after.nodes[j + 1 + i] && InPartition(after.nodes, j, j + 1 + i);
    }
  }

  lemma TabledCount(c: Config, before: Run, returned: Run, length: nat, source: Blob, depth: nat)
    requires before.nodes <= returned.nodes && OpensTable(c, source, depth)
    requires before.partitionBytes + length <= c.budget.maxTotalPartition
    requires NoNestedTables(c, returned.nodes) ==> returned.partitionBytes == before.partitionBytes
    ensures Tabled(c, before, returned.(partitionBytes := returned.partitionBytes + length), source, depth)
  {
    hide OpensTable, NoNestedTables;
  }

  // ----- what a call may do -----

  /** What processing the object `source` at `depth` may do to the state. */
  ghost predicate Extends(c: Config, before: Run, after: Run, source: Blob, depth: nat) {
    && depth <= c.budget.maxDepth
    && before.nodes <= after.nodes
    && Preorder(c, after.nodes[|before.nodes|..], source, depth)
    && before.events <= after.events
    && (before.completeness != COMPLETE ==> after.completeness != COMPLETE)
    && before.totalBytes <= after.totalBytes && before.partitionBytes <= after.partitionBytes
    && after.partitionBytes - before.partitionBytes <= after.totalBytes - before.totalBytes
    && after.partitionBytes <= Max(before.partitionBytes, Scaled(c.budget.maxDepth - depth, c.budget.maxTotalPartition))
    && Tabled(c, before, after, source, depth)
  }

  /** `_limit` and `_skip` record an event once. */
  function WithEvent(events: seq<Event>, event: Event): (r: seq<Event>)
    ensures event in r && events <= r
  {
    if event in events then events else events + [event]
  }

  function Noted(r: Run, event: Event): Run {
    r.(events := WithEvent(r.events, event))
  }

  function Failed(r: Run, event: Event, value: Completeness): Run {
    Noted(r, event).(completeness := value)
  }

  /** The state after one more child. */
  function Append(r: Run, n: Node): Run {
    r.(materialized := r.materialized + 1, totalBytes := r.totalBytes + |n.blob|,
       maxDepthReached := Max(r.maxDepthReached, n.derived.depth),
       derived := r.derived + [n.derived], relationships := r.relationships + [Edge(n)],
       files := r.files[r.materialized := n.blob], nodes := r.nodes + [n])
  }

  /** `n` is a proper record of a child of `source`, which sits at `depth`. */
  ghost predicate ChildNode(c: Config, n: Node, source: Blob, depth: nat) {
    && depth < c.budget.maxDepth && n.derived.depth == depth + 1
    && n.derived.sha == c.hash(n.blob) && n.derived.size == |n.blob|
    && Link(c, source, n)
  }

  /** The record the engine makes of bytes that were offered and fit the caps. */
  function Record(c: Config, source: Blob, relation: Relation, name: string, index: nat, bytes: Blob, depth: nat): Node {
    Node(Derived(c.hash(bytes), |bytes|, c.hash(source), depth + 1, name, index), bytes, relation)
  }

  lemma RecordIsChild(c: Config, source: Blob, relation: Relation, name: string, index: nat, bytes: Blob, depth: nat)
    requires depth < c.budget.maxDepth && Offered(c, source, relation, name, index, bytes)
    requires |bytes| <= c.budget.maxSingleChild
    requires |source| > 0 ==> |bytes| as real <= c.budget.maxRatio * |source| as real
    ensures ChildNode(c, Record(c, source, relation, name, index, bytes, depth), source, depth)
  {
    hide Offered;
  }

  /** The name `child-n` is free for the next child. */
  lemma NextFileIsFree(c: Config, r: Run)
    requires Inv(c, r)
    ensures r.materialized !in r.files
  {
  }

  /** The invariant does not read events, completeness or the discovery counter. */
  lemma InvIgnores(c: Config, before: Run, after: Run)
    requires Inv(c, before)
    requires after == before.(completeness := after.completeness, events := after.events,
                              discovered := after.discovered, passed := after.passed)
    ensures Inv(c, after)
  {
    forall i | 0 <= i < |after.nodes|
      ensures Recorded(c, after, i)
    {
      assert Recorded(c, before, i);
    }
  }

  lemma AppendKeepsInv(c: Config, r: Run, n: Node, source: Blob, depth: nat)
    requires Inv(c, r) && ChildNode(c, n, source, depth)
    requires r.materialized < c.budget.maxTotalChildren && r.totalBytes + |n.blob| <= c.budget.maxTotalBytes
    ensures Inv(c, Append(r, n))
  {
    hide Link;
    var s := Append(r, n);
    assert s.nodes[..|s.nodes| - 1] == r.nodes;
    forall i | 0 <= i < |s.nodes|
      ensures Recorded(c, s, i)
    {
      if i < |r.nodes| {
        assert Recorded(c, r, i);
      }
    }
  }

  /** Of a child and what lies below it, only the child is one level below its parent. */
  lemma OneDirect(c: Config, n: Node, below: seq<Node>, depth: nat)
    requires n.derived.depth == depth + 1 && Preorder(c, below, n.blob, depth + 1)
    ensures CountAt([n] + below, depth + 1) == 1
  {
    hide Link, HasParent;
    forall i | 0 <= i < |below|
      ensures below[i].derived.depth != depth + 1
    {
      assert Placed(c, below, n.blob, depth + 1, i);
    }
    CountNone(below, depth + 1);
    CountConcat([n], below, depth + 1);
    assert [n][..0] == [];
  }

  /** What two calls add, counted together. */
  lemma CountSince(before: seq<Node>, between: seq<Node>, after: seq<Node>, level: nat)
    requires before <= between <= after
    ensures CountAt(after[|before|..], level) == CountAt(between[|before|..], level) + CountAt(after[|between|..], level)
  {
    assert after[|before|..] == between[|before|..] + after[|between|..];
    CountConcat(between[|before|..], after[|between|..], level);
  }

  /** A child and what lies below it extend the state of the object it was found in. */
  lemma ChildExtends(c: Config, r: Run, n: Node, after: Run, source: Blob, depth: nat)
    requires ChildNode(c, n, source, depth) && Extends(c, Append(r, n), after, n.blob, depth + 1)
    ensures Extends(c, r, after, source, depth)
    ensures after.partitionBytes - r.partitionBytes + |n.blob| <= after.totalBytes - r.totalBytes
    ensures after.partitionBytes <= Max(r.partitionBytes, Scaled(c.budget.maxDepth - depth - 1, c.budget.maxTotalPartition))
    ensures n.relation.PartitionOf? && NoNestedTables(c, after.nodes) ==> after.partitionBytes == r.partitionBytes
    ensures CountAt(after.nodes[|r.nodes|..], depth + 1) == 1
  {
    hide Link, Preorder, Tabled, NoNestedTables, CountAt;
    var below := after.nodes[|r.nodes| + 1..];
    assert after.nodes[|r.nodes|..] == [n] + below;
    PreorderNode(c, n, below, source, depth);
    OneDirect(c, n, below, depth);
    TabledChild(c, r, n, after, source, depth);
    if n.relation.PartitionOf? && NoNestedTables(c, after.nodes) {
      TabledPartition(c, r, n, after);
    }
  }

  lemma ExtendsSame(c: Config, r: Run, source: Blob, depth: nat)
    requires depth <= c.budget.maxDepth
    ensures Extends(c, r, r, source, depth)
  {
    assert r.nodes[|r.nodes|..] == [];
  }

  lemma ExtendsTransitive(c: Config, before: Run, between: Run, after: Run, source: Blob, depth: nat)
    requires Extends(c, before, between, source, depth) && Extends(c, between, after, source, depth)
    ensures Extends(c, before, after, source, depth)
  {
    hide Preorder, Scaled, Tabled;
    TabledTransitive(c, before, between, after, source, depth);
    var a, b := between.nodes[|before.nodes|..], after.nodes[|between.nodes|..];
    assert after.nodes[|before.nodes|..] == a + b;
    PreorderConcat(c, a, b, source, depth);
  }

  /** A new event, a changed counter or a lowered completeness extends the state. */
  lemma ExtendsCounters(c: Config, before: Run, after: Run, source: Blob, depth: nat)
    requires depth <= c.budget.maxDepth
    requires after.nodes == before.nodes && before.events <= after.events
    requires before.completeness != COMPLETE ==> after.completeness != COMPLETE
    requires after.totalBytes == before.totalBytes && after.partitionBytes == before.partitionBytes
    ensures Extends(c, before, after, source, depth)
  {
    assert after.nodes[|before.nodes|..] == [];
  }

  /** The number of records only grows. */
  lemma MaterializedGrows(c: Config, before: Run, after: Run, source: Blob, depth: nat)
    requires Inv(c, before) && Inv(c, after) && Extends(c, before, after, source, depth)
    ensures before.materialized <= after.materialized
  {
  }

  lemma InvBounds(c: Config, r: Run)
    requires Inv(c, r)
    ensures r.partitionBytes <= r.totalBytes <= c.budget.maxTotalBytes && r.materialized == |r.nodes|
  {
  }

  lemma ConsistentIgnores(c: Config, before: Run, after: Run)
    requires Consistent(c, before)
    requires after == before.(completeness := after.completeness, files := after.files)
    ensures Consistent(c, after)
  {
    forall i | 0 <= i < |after.nodes|
      ensures Recorded(c, after, i)
    {
      assert Recorded(c, before, i);
    }
  }

  /**
   Adding a materialized partition's length keeps the counter below the bytes extracted and below one cap a level, and
   below the cap itself if the partition holds no table.
   */
  lemma PartitionCounted(c: Config, before: Run, returned: Run, length: nat, source: Blob, depth: nat)
    requires Inv(c, returned) && Extends(c, before, returned, source, depth) && OpensTable(c, source, depth)
    requires NoNestedTables(c, returned.nodes) ==> returned.partitionBytes == before.partitionBytes
    requires returned.partitionBytes - before.partitionBytes + length <= returned.totalBytes - before.totalBytes
    requires before.partitionBytes <= before.totalBytes
    requires before.partitionBytes + length <= c.budget.maxTotalPartition
    requires returned.partitionBytes
      <= Max(before.partitionBytes, Scaled(c.budget.maxDepth - depth - 1, c.budget.maxTotalPartition))
    ensures var after := returned.(partitionBytes := returned.partitionBytes + length);
            Inv(c, after) && Extends(c, before, after, source, depth)
  {
    hide Preorder, Tabled, NoNestedTables;
    TabledCount(c, before, returned, length, source, depth);
    var after := returned.(partitionBytes := returned.partitionBytes + length);
    forall i | 0 <= i < |after.nodes|
      ensures Recorded(c, after, i)
    {
      assert Recorded(c, returned, i);
    }
  }
}
