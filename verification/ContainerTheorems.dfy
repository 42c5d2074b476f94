/** What a finished extraction says about the job's result lists. */
module ContainerTheorems {
  import opened Bytes
  import opened ContainerEngine
  import opened ContainerFit
  import opened Containers
  import opened ContainerRun

  /** Entry `j` of the list is where entry `i` hangs: one level up, named by hash, nothing shallower in between. */
  predicate HangsBelow(derived: seq<Derived>, j: nat, i: nat)
    requires j < i < |derived|
  {
    && derived[j].depth + 1 == derived[i].depth
    && derived[j].sha == derived[i].parent
    && forall k | j < k < i :: derived[k].depth >= derived[i].depth
  }

  /**
   `derived_objects` is a preorder of the extraction tree, and `relationships` is the same sequence edge for edge:
   entries of depth 1 name the root, deeper ones hang below exactly one earlier entry.
   */
  lemma ListsArePreorder(c: Config, r: Run, source: Blob, i: nat)
    requires Consistent(c, r) && Preorder(c, r.nodes, source, 0) && i < |r.derived|
    ensures var d, e := r.derived[i], r.relationships[i];
            && e.source == d.parent && e.target == d.sha && e.depth == d.depth && e.name == d.name && e.index == d.index
            && 1 <= d.depth <= c.budget.maxDepth
            && (d.depth == 1 ==> d.parent == c.hash(source))
            && (d.depth > 1 ==> exists j :: 0 <= j < i && HangsBelow(r.derived, j, i)
                                            && forall k | 0 <= k < i && HangsBelow(r.derived, k, i) :: k == j)
  {
    hide Offered;
    assert Recorded(c, r, i) && Placed(c, r.nodes, source, 0, i);
    if r.derived[i].depth > 1 {
      var j :| 0 <= j < i && IsParentAt(c, r.nodes, j, i);
      forall k | 0 <= k < |r.nodes|
        ensures r.derived[k] == r.nodes[k].derived
      {
        assert Recorded(c, r, k);
      }
      assert HangsBelow(r.derived, j, i);
      forall k | 0 <= k < i && HangsBelow(r.derived, k, i)
        ensures k == j
      {
      }
    }
  }

  function SumSizes(derived: seq<Derived>): nat {
    if derived == [] then 0 else SumSizes(derived[..|derived| - 1]) + derived[|derived| - 1].size
  }

  lemma {:induction false} SizesAreListed(c: Config, r: Run, k: nat)
    requires Consistent(c, r) && k <= |r.nodes|
    ensures SumSizes(r.derived[..k]) == TotalSize(r.nodes[..k])
  {
    if k > 0 {
      SizesAreListed(c, r, k - 1);
      assert Recorded(c, r, k - 1);
      assert r.derived[..k][..k - 1] == r.derived[..k - 1];
      assert r.nodes[..k][..k - 1] == r.nodes[..k - 1];
    }
  }

  /** One global budget, whatever the nesting: the counters are the lists' lengths and the sum of the listed sizes. */
  lemma GlobalBudget(c: Config, r: Run)
    requires Consistent(c, r)
    ensures r.materialized == |r.derived| == |r.relationships| <= c.budget.maxTotalChildren
    ensures r.totalBytes == SumSizes(r.derived) <= c.budget.maxTotalBytes
    ensures r.partitionBytes <= SumSizes(r.derived)
  {
    SizesAreListed(c, r, |r.nodes|);
    assert r.derived[..|r.nodes|] == r.derived && r.nodes[..|r.nodes|] == r.nodes;
  }

  /** An empty object has no children. */
  ghost predicate EmptyIsBarren(c: Config) {
    forall relation, name, index, bytes :: !Offered(c, [], relation, name, index, bytes)
  }

  function Power(x: real, n: nat): real {
    if n == 0 then 1.0 else x * Power(x, n - 1)
  }

  lemma PowerNext(x: real, n: nat)
    ensures Power(x, 0) == 1.0 && Power(x, n + 1) == x * Power(x, n)
  {
  }

  /** The bytes an entry was extracted from: the root's, or those of the entry it hangs below. */
  ghost predicate ParentOf(c: Config, nodes: seq<Node>, source: Blob, i: nat, parent: Blob)
    requires i < |nodes|
  {
    if nodes[i].derived.depth == 1 then parent == source
    else exists j :: 0 <= j < i && IsParentAt(c, nodes, j, i) && parent == nodes[j].blob
  }

  lemma {:induction false} CompoundExpansion(c: Config, nodes: seq<Node>, source: Blob, i: nat)
    requires EmptyIsBarren(c) && Preorder(c, nodes, source, 0) && i < |nodes|
    ensures |nodes[i].blob| as real <= Power(c.budget.maxRatio, nodes[i].derived.depth) * |source| as real
    ensures |nodes[i].blob| <= c.budget.maxSingleChild
    decreases i
  {
    hide Offered, Power;
    var n, ratio := nodes[i], c.budget.maxRatio;
    assert Placed(c, nodes, source, 0, i);
    if n.derived.depth == 1 {
      NotEmpty(c, source, n);
      PowerNext(ratio, 0);
    } else {
      var j :| 0 <= j < i && IsParentAt(c, nodes, j, i);
      CompoundExpansion(c, nodes, source, j);
      NotEmpty(c, nodes[j].blob, n);
      ScaleUp(|n.blob| as real, ratio, |nodes[j].blob| as real, Power(ratio, nodes[j].derived.depth), |source| as real);
      PowerNext(ratio, nodes[j].derived.depth);
    }
  }

  lemma NotEmpty(c: Config, source: Blob, n: Node)
    requires EmptyIsBarren(c) && Link(c, source, n)
    ensures source != []
  {
    assert Offered(c, source, n.relation, n.derived.name, n.derived.index, n.blob);
  }

  lemma ScaleUp(child: real, ratio: real, parent: real, power: real, root: real)
    requires ratio >= 1.0 && child <= ratio * parent && parent <= power * root
    ensures child <= ratio * power * root
  {
    assert ratio * parent <= ratio * (power * root);
  }

  /** A partition child is its parent's slice, byte for byte, at the range the table gave. */
  lemma PartitionIsSlice(c: Config, nodes: seq<Node>, source: Blob, i: nat, parent: Blob)
    requires Preorder(c, nodes, source, 0) && i < |nodes| && nodes[i].relation == PartitionOf
    requires ParentOf(c, nodes, source, i, parent)
    ensures c.decode(parent).Partitions?
    ensures exists k :: 0 <= k < |c.decode(parent).ranges|
                        && IsSlice(parent, c.decode(parent).ranges[k], nodes[i].derived.name, nodes[i].derived.index, nodes[i].blob)
  {
    assert Placed(c, nodes, source, 0, i);
    assert Link(c, parent, nodes[i]);
    assert Offered(c, parent, PartitionOf, nodes[i].derived.name, nodes[i].derived.index, nodes[i].blob);
  }

  /**
   A run of its own: before the deadline it ends COMPLETE exactly when the whole expansion fits, and then lists just that,
   entry for entry, and has counted the bytes of its partitions.
   */
  method FreshRun(c: Config, source: Blob) returns (e: Engine, outcome: Outcome)
    ensures fresh(e) && e.c == c
    ensures !e.late ==> (outcome == Done && e.completeness == COMPLETE <==> Fits(c, source, 0, Usage(0, 0, 0)))
    ensures outcome == Done && e.completeness == COMPLETE ==>
      && e.limitEvents == [] && e.materializedPartitionBytes == PartitionSum(Expansion(c, source, 0))
      && |e.derivedObjects| == |e.relationships| == |Expansion(c, source, 0)|
      && forall i | 0 <= i < |e.derivedObjects| ::
           e.derivedObjects[i] == Expansion(c, source, 0)[i].derived && e.relationships[i] == Edge(Expansion(c, source, 0)[i])
  {
    hide Fits, Expansion, PartitionSum, Preorder, Edge, NoNestedTables;
    e := new Engine(c, COMPLETE);
    outcome := e.Process(source);
    forall i | 0 <= i < |e.nodes|
      ensures e.derivedObjects[i] == e.nodes[i].derived && e.relationships[i] == Edge(e.nodes[i])
    {
      assert Recorded(c, e.Current(), i);
    }
  }
}
