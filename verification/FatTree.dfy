/** The tree of files in a FAT image: the extractor returns a tree's files exactly when the image holds the tree. */
module FatTree {
  import opened Bytes
  import opened Fat
  import opened FatDisk
  import opened Paths
  import opened Writing
  import X = FatExtractor

  /** An image with its volume's parameters and its first allocation table. */
  datatype Image = Image(data: seq<byte>, g: Geometry, table: seq<byte>)

  ghost predicate IsImage(im: Image) {
    && GeometryAt(im.data, im.g)
    && im.g.reserved * im.g.bps <= (im.g.reserved + im.g.fatSize) * im.g.bps <= |im.data|
    && im.table == im.data[im.g.reserved * im.g.bps..(im.g.reserved + im.g.fatSize) * im.g.bps]
  }

  // ----- chains -----

  /** The table gives `next` as the successor of `cluster`. */
  predicate LinkAt(im: Image, cluster: nat, next: nat) {
    EntryIs(im.table, im.g, cluster, next) && !Ends(im.g, next) && 2 <= next < im.g.clusters + 2
  }

  /** The table ends the chain at `cluster`. */
  predicate LastAt(im: Image, cluster: nat) {
    Stride(im.g) * (cluster + 1) <= 2 * |im.table| && Ends(im.g, Number(im.table, Stride(im.g) * cluster, Width(im.g)))
  }

  /** The first clusters of the chain from `start`, without repetition and inside the image. */
  predicate TrailAt(im: Image, start: nat, trail: seq<nat>) {
    && trail != [] && trail[0] == start && |trail| <= im.g.clusters + 1
    && (forall i, j | 0 <= i < j < |trail| :: trail[i] != trail[j])
    && (forall i | 0 <= i < |trail| :: ClusterIn(im.data, im.g, trail[i]))
    && (forall i | 0 <= i < |trail| - 1 :: LinkAt(im, trail[i], trail[i + 1]))
  }

  /**
   What is read from `start`: a directory's chain to its end, of a file only as many clusters as its size needs, and at
   least one; nothing at all from a start below 2, where a file must be empty.
   */
  predicate ReadAt(im: Image, start: nat, wanted: Option<nat>, trail: seq<nat>, content: seq<byte>) {
    if start < 2 then trail == [] && content == [] && (wanted.Some? ==> wanted.value == 0)
    else
      && TrailAt(im, start, trail)
      && var bytes := Gathered(im.data, im.g, trail);
         match wanted
         case None => LastAt(im, trail[|trail| - 1]) && content == bytes
         case Some(size) =>
           && size <= |bytes| && content == bytes[..size]
           && (|trail| > 1 ==> |Gathered(im.data, im.g, trail[..|trail| - 1])| < size)
  }

  ghost predicate Represents(im: Image, v: Volume) {
    IsImage(im) && v == VolumeAt(im.data, im.g)
  }

  /** The table as both sides read it. */
  lemma EntryLinks(im: Image, v: Volume, cluster: nat)
    requires Represents(im, v)
    ensures LastAt(im, cluster) <==> IsEnd(v, cluster)
    ensures forall next: nat :: LinkAt(im, cluster, next) <==> IsLink(v, cluster, next)
    ensures EntryIs(im.table, im.g, cluster, 0) <==> Entry(v, cluster) == Some(0)
    ensures v.clusters == im.g.clusters
  {
    hide Number, Entry, Ends, EndMark, GeometryAt, VolumeAt;
    TableIs(im.data, im.g);
    EntryIff(v, im.g, cluster, 0);
    forall next: nat
      ensures LinkAt(im, cluster, next) <==> IsLink(v, cluster, next)
    {
      EntryIff(v, im.g, cluster, next);
      EndsIff(im.g, next);
    }
    if Stride(im.g) * (cluster + 1) <= 2 * |im.table| {
      var value := Number(im.table, Stride(im.g) * cluster, Width(im.g));
      EntryIff(v, im.g, cluster, value);
      EndsIff(im.g, value);
    } else if Entry(v, cluster).Some? {
      EntryIff(v, im.g, cluster, Entry(v, cluster).value);
    }
  }

  lemma NextIff(im: Image, v: Volume, cluster: nat)
    requires Represents(im, v)
    ensures LastAt(im, cluster) <==> X.NextCluster(v, cluster) == Ok(None)
    ensures forall next: nat :: LinkAt(im, cluster, next) <==> X.NextCluster(v, cluster) == Ok(Some(next))
  {
    hide LastAt, LinkAt, Entry, EndMark, Represents;
    EntryLinks(im, v, cluster);
    forall next: nat
      ensures LinkAt(im, cluster, next) <==> X.NextCluster(v, cluster) == Ok(Some(next))
    {
      assert LinkAt(im, cluster, next) <==> IsLink(v, cluster, next);
    }
  }

  lemma ClusterIff(im: Image, v: Volume, cluster: nat)
    requires Represents(im, v)
    ensures ClusterIn(im.data, im.g, cluster) <==> X.ClusterReadable(v, cluster)
    ensures ClusterIn(im.data, im.g, cluster) ==> ClusterBytes(v, cluster) == ClusterOf(im.data, im.g, cluster)
  {
    hide GeometryAt, VolumeAt, DataStart;
    TableIs(im.data, im.g);
  }

  function Seen(trail: seq<nat>): set<nat> {
    set i | 0 <= i < |trail| :: trail[i]
  }

  lemma SeenNext(trail: seq<nat>, next: nat)
    ensures Seen(trail + [next]) == Seen(trail) + {next}
  {
    var more := trail + [next];
    assert more[|trail|] == next;
    forall i | 0 <= i < |trail|
      ensures trail[i] in Seen(more)
    {
      assert more[i] == trail[i];
    }
  }

  lemma {:induction false} SeenSize(trail: seq<nat>)
    requires forall i, j | 0 <= i < j < |trail| :: trail[i] != trail[j]
    ensures |Seen(trail)| == |trail|
  {
    if trail != [] {
      var k := |trail| - 1;
      SeenSize(trail[..k]);
      SeenNext(trail[..k], trail[k]);
      assert trail[..k] + [trail[k]] == trail;
    }
  }

  lemma GatheredNext(data: seq<byte>, g: Geometry, trail: seq<nat>, next: nat)
    requires (forall i | 0 <= i < |trail| :: ClusterIn(data, g, trail[i])) && ClusterIn(data, g, next)
    ensures Gathered(data, g, trail + [next]) == Gathered(data, g, trail) + ClusterOf(data, g, next)
  {
    hide ClusterIn, ClusterOf;
    assert (trail + [next])[..|trail|] == trail;
  }

  lemma {:induction false} GatheredGrows(data: seq<byte>, g: Geometry, trail: seq<nat>, i: nat)
    requires (forall i | 0 <= i < |trail| :: ClusterIn(data, g, trail[i])) && i <= |trail|
    ensures |Gathered(data, g, trail[..i])| <= |Gathered(data, g, trail)|
    decreases |trail|
  {
    hide ClusterIn, ClusterOf;
    if i < |trail| {
      assert trail[..|trail| - 1][..i] == trail[..i];
      GatheredGrows(data, g, trail[..|trail| - 1], i);
    } else {
      assert trail[..i] == trail;
    }
  }

  /** One turn of the chain loop. */
  lemma ChainStep(im: Image, v: Volume, trail: seq<nat>, current: nat, wanted: Option<nat>)
    requires Represents(im, v) && (forall i | 0 <= i < |trail| :: ClusterIn(im.data, im.g, trail[i]))
    requires (forall i, j | 0 <= i < j < |trail| :: trail[i] != trail[j])
    ensures |Seen(trail)| == |trail|
    ensures var r := X.ChainFrom(v, current, Seen(trail), Gathered(im.data, im.g, trail), wanted);
            if current in Seen(trail) || |trail| > im.g.clusters || !ClusterIn(im.data, im.g, current) then r.Err?
            else
              var more := Gathered(im.data, im.g, trail + [current]);
              if wanted.Some? && |more| >= wanted.value then r == Ok(more[..wanted.value])
              else
                var next := X.NextCluster(v, current);
                if next.Err? then r.Err?
                else if next.value.Some? then r == X.ChainFrom(v, next.value.value, Seen(trail + [current]), more, wanted)
                else if wanted.Some? then r.Err? else r == Ok(more)
  {
    hide Gathered, ClusterIn, ClusterOf, X.NextCluster, ClusterBytes, X.ClusterReadable, Seen;
    SeenSize(trail);
    ClusterIff(im, v, current);
    SeenNext(trail, current);
    assert v.clusters == im.g.clusters;
    if ClusterIn(im.data, im.g, current) {
      GatheredNext(im.data, im.g, trail, current);
    }
  }

  /** A chain is read as it lies there. */
  lemma {:induction false} ChainReads(im: Image, v: Volume, start: nat, wanted: Option<nat>, trail: seq<nat>,
                                      content: seq<byte>, i: nat)
    requires Represents(im, v) && start >= 2 && ReadAt(im, start, wanted, trail, content) && i < |trail|
    ensures forall j | 0 <= j < i :: ClusterIn(im.data, im.g, trail[..i][j])
    ensures X.ChainFrom(v, trail[i], Seen(trail[..i]), Gathered(im.data, im.g, trail[..i]), wanted) == Ok(content)
    decreases |trail| - i
  {
    hide Gathered, ClusterIn, X.NextCluster, X.ChainFrom, Represents, LinkAt, LastAt;
    var init := trail[..i];
    assert init + [trail[i]] == trail[..i + 1];
    NotSeen(trail, i);
    ChainStep(im, v, init, trail[i], wanted);
    NextIff(im, v, trail[i]);
    if i == |trail| - 1 {
      assert trail[..i + 1] == trail;
    } else {
      assert LinkAt(im, trail[i], trail[i + 1]);
      ShortOfSize(im, start, wanted, trail, content, i + 1);
      ChainReads(im, v, start, wanted, trail, content, i + 1);
    }
  }

  lemma NotSeen(trail: seq<nat>, i: nat)
    requires i < |trail| && forall i, j | 0 <= i < j < |trail| :: trail[i] != trail[j]
    ensures trail[i] !in Seen(trail[..i])
  {
  }

  lemma ShortOfSize(im: Image, start: nat, wanted: Option<nat>, trail: seq<nat>, content: seq<byte>, i: nat)
    requires start >= 2 && ReadAt(im, start, wanted, trail, content) && i < |trail|
    ensures forall j | 0 <= j < i :: ClusterIn(im.data, im.g, trail[..i][j])
    ensures i > 0 && wanted.Some? ==> |Gathered(im.data, im.g, trail[..i])| < wanted.value
  {
    hide Gathered, ClusterIn;
    var init := trail[..|trail| - 1];
    assert init[..i] == trail[..i];
    GatheredGrows(im.data, im.g, init, i);
  }

  /** A chain passed so far, its last cluster not yet looked at. */
  predicate PartAt(im: Image, start: nat, part: seq<nat>) {
    && part != [] && part[0] == start
    && (forall i, j | 0 <= i < j < |part| - 1 :: part[i] != part[j])
    && (forall i | 0 <= i < |part| - 1 :: ClusterIn(im.data, im.g, part[i]) && LinkAt(im, part[i], part[i + 1]))
  }

  /** What was read lies there as a chain. */
  lemma {:induction false} ChainFound(im: Image, v: Volume, start: nat, wanted: Option<nat>, done: seq<nat>,
                                      current: nat) returns (trail: seq<nat>)
    requires Represents(im, v) && start >= 2 && PartAt(im, start, done + [current])
    requires forall i | 0 <= i < |done| :: ClusterIn(im.data, im.g, done[i])
    requires done != [] && wanted.Some? ==> |Gathered(im.data, im.g, done)| < wanted.value
    requires X.ChainFrom(v, current, Seen(done), Gathered(im.data, im.g, done), wanted).Ok?
    ensures ReadAt(im, start, wanted, trail, X.ChainFrom(v, current, Seen(done), Gathered(im.data, im.g, done), wanted).value)
    decreases im.g.clusters + 1 - |done|
  {
    hide Gathered, ClusterIn, X.NextCluster, X.ChainFrom, Represents, LinkAt, LastAt, Seen;
    PartDistinct(im, start, done, current);
    ChainStep(im, v, done, current, wanted);
    NextIff(im, v, current);
    trail := done + [current];
    assert trail[..|trail| - 1] == done;
    TrailFound(im, start, done, current);
    if wanted.Some? && |Gathered(im.data, im.g, trail)| >= wanted.value {
      return;
    }
    var next := X.NextCluster(v, current).value;
    if next.Some? {
      PartNext(im, start, done, current, next.value);
      trail := ChainFound(im, v, start, wanted, trail, next.value);
    }
  }

  lemma PartDistinct(im: Image, start: nat, done: seq<nat>, current: nat)
    requires PartAt(im, start, done + [current])
    ensures forall i, j | 0 <= i < j < |done| :: done[i] != done[j]
  {
    hide ClusterIn, LinkAt;
    forall i, j | 0 <= i < j < |done|
      ensures done[i] != done[j]
    {
      assert (done + [current])[i] == done[i] && (done + [current])[j] == done[j];
    }
  }

  lemma TrailFound(im: Image, start: nat, done: seq<nat>, current: nat)
    requires PartAt(im, start, done + [current]) && current !in Seen(done) && ClusterIn(im.data, im.g, current)
    requires |done| <= im.g.clusters
    ensures TrailAt(im, start, done + [current])
  {
    hide ClusterIn, LinkAt;
    var trail := done + [current];
    forall i | 0 <= i < |done|
      ensures trail[i] == done[i] && trail[i] != current
    {
      assert done[i] in Seen(done);
    }
  }

  lemma PartNext(im: Image, start: nat, done: seq<nat>, current: nat, next: nat)
    requires TrailAt(im, start, done + [current]) && LinkAt(im, current, next)
    ensures PartAt(im, start, done + [current] + [next])
    ensures forall i | 0 <= i < |done| + 1 :: ClusterIn(im.data, im.g, (done + [current])[i])
  {
    hide ClusterIn, LinkAt;
    var trail, part := done + [current], done + [current] + [next];
    assert part[..|trail|] == trail;
    forall i | 0 <= i < |part| - 1
      ensures ClusterIn(im.data, im.g, part[i]) && LinkAt(im, part[i], part[i + 1])
    {
      assert part[i] == trail[i];
      assert i < |done| ==> LinkAt(im, trail[i], trail[i + 1]);
    }
  }

  /** Reading succeeds with this content exactly when a chain gives it. */
  lemma ReadIff(im: Image, v: Volume, start: nat, wanted: Option<nat>, content: seq<byte>)
    requires Represents(im, v)
    ensures X.Chain(v, start, wanted) == Ok(content) <==> exists trail :: ReadAt(im, start, wanted, trail, content)
  {
    hide Represents, X.ChainFrom, Gathered, LinkAt, LastAt, ClusterIn;
    if start < 2 {
      assert ReadAt(im, start, wanted, [], []) <==> (wanted.Some? ==> wanted.value == 0);
    } else {
      forall trail | ReadAt(im, start, wanted, trail, content)
        ensures X.Chain(v, start, wanted) == Ok(content)
      {
        ChainReads(im, v, start, wanted, trail, content, 0);
        NothingGathered(im.data, im.g, trail);
      }
      if X.Chain(v, start, wanted) == Ok(content) {
        NothingGathered(im.data, im.g, []);
        assert [] + [start] == [start];
        var trail := ChainFound(im, v, start, wanted, [], start);
      }
    }
  }

  lemma NothingGathered(data: seq<byte>, g: Geometry, trail: seq<nat>)
    ensures trail[..0] == [] && Gathered(data, g, []) == [] && Seen([]) == {}
  {
  }

  // ----- directories -----

  /** What a kept row stands for: a file with the clusters read and their content, or a directory with its own rows. */
  datatype Node =
    | File(name: string, start: nat, size: nat, trail: seq<nat>, content: seq<byte>)
    | Directory(name: string, start: nat, trail: seq<nat>, content: seq<byte>, rows: Rows)

  /** The rows of a directory, up to its end. */
  datatype Rows = Stop | Pass(rest: Rows) | Keep(node: Node, rest: Rows)

  predicate NameCounts(name: string) {
    name != "" && name != "." && name != ".."
  }

  predicate Marked(directory: seq<byte>, offset: nat) {
    offset + 32 > |directory| || directory[offset] == 0
  }

  /** Passed over: a row without file or name, or a directory entered before. */
  ghost predicate PassedOver(names: Names, directory: seq<byte>, offset: nat, visited: set<nat>)
    requires offset + 32 <= |directory|
  {
    || Passes(directory, offset)
    || !NameCounts(names.extracted(directory, offset))
    || (IsDirectory(directory, offset) && exists start | start in visited :: StartIs(directory, offset, start))
  }

  ghost predicate RowsAt(im: Image, names: Names, directory: seq<byte>, offset: nat, rows: Rows, visited: set<nat>)
    decreases rows
  {
    match rows
    case Stop => Marked(directory, offset)
    case Pass(rest) =>
      && !Marked(directory, offset) && PassedOver(names, directory, offset, visited)
      && RowsAt(im, names, directory, offset + 32, rest, visited)
    case Keep(node, rest) =>
      && !Marked(directory, offset) && !PassedOver(names, directory, offset, visited)
      && NodeAt(im, names, directory, offset, node, visited)
      && RowsAt(im, names, directory, offset + 32, rest, visited + NodeDirs(node))
  }

  /** The row at `offset` is the node's; `visited` are the first clusters of the directories entered before. */
  ghost predicate NodeAt(im: Image, names: Names, directory: seq<byte>, offset: nat, node: Node, visited: set<nat>)
    requires offset + 32 <= |directory|
    decreases node
  {
    && node.name == names.extracted(directory, offset) && StartIs(directory, offset, node.start)
    && match node
       case File(_, start, size, trail, content) =>
         !IsDirectory(directory, offset) && SizeIs(directory, offset, size) && ReadAt(im, start, Some(size), trail, content)
       case Directory(_, start, trail, content, rows) =>
         && IsDirectory(directory, offset) && ReadAt(im, start, None, trail, content)
         && RowsAt(im, names, content, 0, rows, visited + {start})
  }

  /** The first clusters of the directories entered. */
  function NodeDirs(node: Node): set<nat> {
    if node.File? then {} else {node.start} + RowDirs(node.rows)
  }

  function RowDirs(rows: Rows): set<nat> {
    match rows
    case Stop => {}
    case Pass(rest) => RowDirs(rest)
    case Keep(node, rest) => NodeDirs(node) + RowDirs(rest)
  }

  datatype TreeFile = TreeFile(path: seq<string>, content: seq<byte>)

  function NodeFiles(node: Node, above: seq<string>): seq<TreeFile> {
    var path := above + [node.name];
    if node.File? then [TreeFile(path, node.content)] else RowFiles(node.rows, path)
  }

  function RowFiles(rows: Rows, above: seq<string>): seq<TreeFile> {
    match rows
    case Stop => []
    case Pass(rest) => RowFiles(rest, above)
    case Keep(node, rest) => NodeFiles(node, above) + RowFiles(rest, above)
  }

  /** The files as the extractor lists them, numbered from `start`. */
  function Listed(files: seq<TreeFile>, start: nat): (r: seq<X.DiskEntry>)
    ensures |r| == |files|
  {
    seq(|files|, i requires 0 <= i < |files| => X.DiskEntry(Slashed(files[i].path, '/'), files[i].content, start + i))
  }

  function Grown(f: X.Found, files: seq<TreeFile>, dirs: set<nat>): X.Found {
    X.Found(f.entries + Listed(files, |f.entries|), f.visited + dirs)
  }

  lemma ListedConcat(a: seq<TreeFile>, b: seq<TreeFile>, start: nat)
    ensures Listed(a + b, start) == Listed(a, start) + Listed(b, start + |a|)
  {
  }

  lemma GrowTwice(f: X.Found, a: seq<TreeFile>, b: seq<TreeFile>, da: set<nat>, db: set<nat>)
    ensures Grown(Grown(f, a, da), b, db) == Grown(f, a + b, da + db)
    ensures Grown(f, [], {}) == f && Grown(f, a, da).visited == f.visited + da
  {
    ListedConcat(a, b, |f.entries|);
    assert f.entries + [] == f.entries;
  }

  predicate PathTo(path: seq<string>) {
    forall i | 0 <= i < |path| :: path[i] != []
  }

  lemma SlashedIsLogical(above: seq<string>, name: string)
    requires PathTo(above) && name != ""
    ensures PathTo(above + [name]) && Slashed(above + [name], '/') == X.Logical(Slashed(above, '/'), name)
  {
    SlashedNext(above, name, '/');
    assert ['/'] == "/";
  }

  /** One row of the walk: the end, a row passed over, or a kept one. */
  lemma RowStep(v: Volume, names: Names, directory: seq<byte>, offset: nat, above: seq<string>, f: X.Found)
    requires PathTo(above)
    ensures Marked(directory, offset) ==> X.WalkFrom(v, names, directory, offset, Slashed(above, '/'), f) == Ok(f)
    ensures !Marked(directory, offset) && PassedOver(names, directory, offset, f.visited) ==>
              X.WalkFrom(v, names, directory, offset, Slashed(above, '/'), f)
              == X.WalkFrom(v, names, directory, offset + 32, Slashed(above, '/'), f)
    ensures !Marked(directory, offset) && !PassedOver(names, directory, offset, f.visited) ==>
              var row, path := RowAt(directory, offset), above + [names.extracted(directory, offset)];
              && PathTo(path) && !row.End? && !row.Skip?
              && var r := X.WalkFrom(v, names, directory, offset, Slashed(above, '/'), f);
                 if row.File? then
                   var data := X.Chain(v, row.start, Some(row.size));
                   if data.Err? then r.Err?
                   else
                     var entry := X.DiskEntry(Slashed(path, '/'), data.value, |f.entries|);
                     r == X.WalkFrom(v, names, directory, offset + 32, Slashed(above, '/'), f.(entries := f.entries + [entry]))
                 else
                   var child := X.Chain(v, row.start, None);
                   if child.Err? then r.Err?
                   else
                     var inner := X.WalkFrom(v, names, child.value, 0, Slashed(path, '/'), f.(visited := f.visited + {row.start}));
                     if inner.Err? then r.Err?
                     else r == X.WalkFrom(v, names, directory, offset + 32, Slashed(above, '/'), inner.value)
  {
    hide Passes, IsDirectory, StartIs, SizeIs, RowAt, Slashed, PathTo;
    if offset + 32 <= |directory| {
      RowIff(directory, offset);
      var name := names.extracted(directory, offset);
      if name != "" {
        SlashedIsLogical(above, name);
      }
    }
  }

  /** What a kept row says is what the walk reads. */
  lemma NodeReads(im: Image, v: Volume, names: Names, directory: seq<byte>, offset: nat, node: Node, visited: set<nat>)
    requires Represents(im, v) && offset + 32 <= |directory| && directory[offset] != 0 && !PassedOver(names, directory, offset, visited)
    requires NodeAt(im, names, directory, offset, node, visited)
    ensures var row := RowAt(directory, offset);
            && node.name == names.extracted(directory, offset) && !row.End? && !row.Skip? && row.start == node.start
            && (row.File? <==> node.File?)
            && (node.File? ==> X.Chain(v, row.start, Some(row.size)) == Ok(node.content))
            && (node.Directory? ==>
                  && X.Chain(v, row.start, None) == Ok(node.content) && node.start !in visited
                  && RowsAt(im, names, node.content, 0, node.rows, visited + {node.start}))
  {
    hide Passes, IsDirectory, StartIs, SizeIs, RowAt, Represents, ReadAt, X.Chain;
    RowIff(directory, offset);
    if node.File? {
      ReadIff(im, v, node.start, Some(node.size), node.content);
    } else {
      ReadIff(im, v, node.start, None, node.content);
    }
  }

  /** A directory's rows are walked as they lie there. */
  lemma {:induction false} RowsRead(im: Image, v: Volume, names: Names, directory: seq<byte>, offset: nat, rows: Rows,
                                    above: seq<string>, f: X.Found)
    requires Represents(im, v) && RowsAt(im, names, directory, offset, rows, f.visited) && PathTo(above)
    ensures X.WalkFrom(v, names, directory, offset, Slashed(above, '/'), f) == Ok(Grown(f, RowFiles(rows, above), RowDirs(rows)))
    decreases rows
  {
    hide RowAt, Slashed, PathTo, X.WalkFrom, X.Chain, Represents, NodeAt, PassedOver, Marked, Grown;
    RowStep(v, names, directory, offset, above, f);
    match rows
    case Stop => GrowTwice(f, [], [], {}, {});
    case Pass(rest) => RowsRead(im, v, names, directory, offset + 32, rest, above, f);
    case Keep(node, rest) =>
      var path := above + [node.name];
      assert offset + 32 <= |directory| && directory[offset] != 0 by { NotMarked(directory, offset); }
      NodeReads(im, v, names, directory, offset, node, f.visited);
      GrowTwice(f, NodeFiles(node, above), RowFiles(rest, above), NodeDirs(node), RowDirs(rest));
      var after := Grown(f, NodeFiles(node, above), NodeDirs(node));
      if node.File? {
        OneListed(f, path, node.content);
      } else {
        var entered := f.(visited := f.visited + {node.start});
        RowsRead(im, v, names, node.content, 0, node.rows, path, entered);
        EnteredGrown(f, node.start, RowFiles(node.rows, path), RowDirs(node.rows));
      }
      RowsRead(im, v, names, directory, offset + 32, rest, above, after);
  }

  lemma NotMarked(directory: seq<byte>, offset: nat)
    requires !Marked(directory, offset)
    ensures offset + 32 <= |directory| && directory[offset] != 0
  {
  }

  lemma OneListed(f: X.Found, path: seq<string>, content: seq<byte>)
    ensures Grown(f, [TreeFile(path, content)], {})
         == f.(entries := f.entries + [X.DiskEntry(Slashed(path, '/'), content, |f.entries|)])
  {
    assert Listed([TreeFile(path, content)], |f.entries|) == [X.DiskEntry(Slashed(path, '/'), content, |f.entries|)];
  }

  lemma EnteredGrown(f: X.Found, start: nat, files: seq<TreeFile>, dirs: set<nat>)
    ensures Grown(f.(visited := f.visited + {start}), files, dirs) == Grown(f, files, {start} + dirs)
  {
  }

  // ----- what is read is a tree -----

  /** The file a row that was read stands for. */
  lemma FileFound(im: Image, v: Volume, names: Names, directory: seq<byte>, offset: nat, visited: set<nat>) returns (node: Node)
    requires Represents(im, v) && !Marked(directory, offset) && !PassedOver(names, directory, offset, visited)
    requires var row := RowAt(directory, offset); row.File? && X.Chain(v, row.start, Some(row.size)).Ok?
    ensures node.File? && NodeAt(im, names, directory, offset, node, visited)
    ensures node.name == names.extracted(directory, offset)
    ensures var row := RowAt(directory, offset); X.Chain(v, row.start, Some(row.size)) == Ok(node.content)
  {
    hide Passes, IsDirectory, StartIs, SizeIs, RowAt, Represents, ReadAt, X.Chain;
    RowIff(directory, offset);
    var row := RowAt(directory, offset);
    var content := X.Chain(v, row.start, Some(row.size)).value;
    ReadIff(im, v, row.start, Some(row.size), content);
    var trail :| ReadAt(im, row.start, Some(row.size), trail, content);
    node := Node.File(names.extracted(directory, offset), row.start, row.size, trail, content);
  }

  lemma DirectoryFound(im: Image, v: Volume, names: Names, directory: seq<byte>, offset: nat, rows: Rows, visited: set<nat>)
    returns (node: Node)
    requires Represents(im, v) && !Marked(directory, offset) && !PassedOver(names, directory, offset, visited)
    requires var row := RowAt(directory, offset);
             && row.Directory? && X.Chain(v, row.start, None).Ok?
             && RowsAt(im, names, X.Chain(v, row.start, None).value, 0, rows, visited + {row.start})
    ensures node.Directory? && node.rows == rows && node.start == RowAt(directory, offset).start
    ensures NodeAt(im, names, directory, offset, node, visited)
  {
    hide Passes, IsDirectory, StartIs, SizeIs, RowAt, Represents, ReadAt, X.Chain;
    RowIff(directory, offset);
    var row := RowAt(directory, offset);
    var content := X.Chain(v, row.start, None).value;
    ReadIff(im, v, row.start, None, content);
    var trail :| ReadAt(im, row.start, None, trail, content);
    node := Node.Directory(names.extracted(directory, offset), row.start, trail, content, rows);
  }

  /** A directory that was walked to its end has such rows. */
  lemma {:induction false} RowsFound(im: Image, v: Volume, names: Names, directory: seq<byte>, offset: nat,
                                     above: seq<string>, f: X.Found)
    returns (rows: Rows)
    requires Represents(im, v) && PathTo(above)
    requires X.WalkFrom(v, names, directory, offset, Slashed(above, '/'), f).Ok?
    ensures RowsAt(im, names, directory, offset, rows, f.visited)
    decreases Starts() - f.visited, |directory| - offset
  {
    hide RowAt, Slashed, PathTo, X.WalkFrom, X.Chain, Represents, NodeAt, PassedOver, Marked, Grown;
    RowStep(v, names, directory, offset, above, f);
    if Marked(directory, offset) {
      return Stop;
    }
    NotMarked(directory, offset);
    if PassedOver(names, directory, offset, f.visited) {
      var rest := RowsFound(im, v, names, directory, offset + 32, above, f);
      return Pass(rest);
    }
    var row, path := RowAt(directory, offset), above + [names.extracted(directory, offset)];
    var node, after;
    if row.File? {
      node := FileFound(im, v, names, directory, offset, f.visited);
      after := f.(entries := f.entries + [X.DiskEntry(Slashed(path, '/'), node.content, |f.entries|)]);
    } else {
      NotEntered(names, directory, offset, f.visited);
      var entered, child := f.(visited := f.visited + {row.start}), X.Chain(v, row.start, None).value;
      var rows := RowsFound(im, v, names, child, 0, path, entered);
      node := DirectoryFound(im, v, names, directory, offset, rows, f.visited);
      after := X.WalkFrom(v, names, child, 0, Slashed(path, '/'), entered).value;
      RowsRead(im, v, names, child, 0, rows, path, entered);
      EnteredGrown(f, row.start, RowFiles(rows, path), RowDirs(rows));
      GrowTwice(f, RowFiles(rows, path), [], NodeDirs(node), {});
    }
    assert after.visited == f.visited + NodeDirs(node);
    var rest := RowsFound(im, v, names, directory, offset + 32, above, after);
    rows := Keep(node, rest);
  }

  lemma NotEntered(names: Names, directory: seq<byte>, offset: nat, visited: set<nat>)
    requires !Marked(directory, offset) && !PassedOver(names, directory, offset, visited) && RowAt(directory, offset).Directory?
    ensures RowAt(directory, offset).start !in visited && RowAt(directory, offset).start in Starts()
  {
    hide Passes, IsDirectory, StartIs, SizeIs, RowAt;
    RowIff(directory, offset);
  }

  // ----- the theorems -----

  /** A volume, its root directory's chain (on FAT32) and bytes, and the rows below it. */
  datatype Tree = Tree(g: Geometry, trail: seq<nat>, root: seq<byte>, rows: Rows)

  /** The image with its first table, which follows the reserved sectors. */
  function ImageOf(data: seq<byte>, g: Geometry): Image {
    var start, end := g.reserved * g.bps, (g.reserved + g.fatSize) * g.bps;
    Image(data, g, if start <= end <= |data| then data[start..end] else [])
  }

  lemma ImageStands(data: seq<byte>, g: Geometry)
    requires GeometryAt(data, g)
    ensures Represents(ImageOf(data, g), VolumeAt(data, g))
  {
    hide GeometryAt, VolumeAt;
    TableIs(data, g);
  }

  /** The root directory: behind the tables, or on FAT32 a chain. */
  ghost predicate RootAt(im: Image, trail: seq<nat>, root: seq<byte>) {
    if im.g.clusters < 65525 then
      |root| == im.g.rootSectors * im.g.bps && At(im.data, (im.g.reserved + im.g.copies * im.g.fatSize) * im.g.bps, root)
    else ReadAt(im, im.g.rootCluster, None, trail, root)
  }

  /** The image begins with a volume that is recognized. */
  ghost predicate VolumeFound(data: seq<byte>, g: Geometry) {
    && GeometryAt(data, g) && data[510] == 0x55 && data[511] == 0xAA
    && (g.clusters >= 65525 ==> g.rootEntries == 0 && g.rootCluster >= 2)
  }

  ghost predicate Holds(data: seq<byte>, names: Names, t: Tree) {
    && VolumeFound(data, t.g)
    && RootAt(ImageOf(data, t.g), t.trail, t.root)
    && RowsAt(ImageOf(data, t.g), names, t.root, 0, t.rows, {})
  }

  lemma FoundIff(data: seq<byte>, g: Geometry)
    requires |data| >= 512
    ensures VolumeFound(data, g) <==> X.Recognized(data) && g == GeometryOf(ReadBpb(data))
  {
    hide GeometryAt, Coherent, ReadBpb, RootSectors, Clusters;
    GeometryIff(data, g);
  }

  lemma RootReads(data: seq<byte>, g: Geometry, root: seq<byte>)
    requires |data| >= 512 && X.Recognized(data) && VolumeFound(data, g) && g == GeometryOf(ReadBpb(data))
    ensures X.RootDirectory(data) == Ok(root) <==> exists trail :: RootAt(ImageOf(data, g), trail, root)
  {
    hide GeometryAt, Coherent, ReadBpb, RootSectors, Clusters, ReadAt, X.Chain, Represents, At, FatStart;
    var b, im := ReadBpb(data), ImageOf(data, g);
    GeometryIff(data, g);
    TableIs(data, g);
    ImageStands(data, g);
    if g.clusters < 65525 {
      hide VolumeAt, VolumeOf;
      FixedRoot(data, b, g);
      assert RootAt(im, [], root) <==> X.RootDirectory(data) == Ok(root);
      assert forall trail | RootAt(im, trail, root) :: RootAt(im, [], root);
    } else {
      ReadIff(im, VolumeAt(data, g), g.rootCluster, None, root);
      assert forall trail :: RootAt(im, trail, root) <==> ReadAt(im, g.rootCluster, None, trail, root);
    }
  }

  /** An image that holds a tree is read as exactly the tree's files, in walking order. */
  lemma TreeIsRead(data: seq<byte>, names: Names, t: Tree)
    requires Holds(data, names, t)
    ensures X.Parse(data, names) == Ok(Some(Listed(RowFiles(t.rows, []), 0)))
  {
    hide GeometryAt, X.Recognized, ReadBpb, RowsAt, RootAt, X.WalkFrom, X.RootDirectory, Represents, Listed;
    var im, v := ImageOf(data, t.g), VolumeAt(data, t.g);
    assert |data| >= 512 by { GeometryIsLong(data, t.g); }
    FoundIff(data, t.g);
    GeometryIff(data, t.g);
    ImageStands(data, t.g);
    RootReads(data, t.g, t.root);
    RowsRead(im, v, names, t.root, 0, t.rows, [], X.Found([], {}));
    assert [] + Listed(RowFiles(t.rows, []), 0) == Listed(RowFiles(t.rows, []), 0);
  }

  lemma GeometryIsLong(data: seq<byte>, g: Geometry)
    requires GeometryAt(data, g)
    ensures |data| >= 512
  {
  }

  /** An image read to the end holds a tree. */
  lemma ReadIsTree(data: seq<byte>, names: Names) returns (t: Tree)
    requires X.Parse(data, names).Ok? && X.Parse(data, names).value.Some?
    ensures Holds(data, names, t)
  {
    hide GeometryAt, X.Recognized, ReadBpb, RowsAt, RootAt, X.WalkFrom, X.RootDirectory, Represents;
    assert |data| >= 512 by { RecognizedIsLong(data); }
    var g := GeometryOf(ReadBpb(data));
    FoundIff(data, g);
    GeometryIff(data, g);
    ImageStands(data, g);
    var root := X.RootDirectory(data).value;
    RootReads(data, g, root);
    var trail :| RootAt(ImageOf(data, g), trail, root);
    var rows := RowsFound(ImageOf(data, g), VolumeAt(data, g), names, root, 0, [], X.Found([], {}));
    t := Tree(g, trail, root, rows);
  }

  lemma RecognizedIsLong(data: seq<byte>)
    ensures X.Recognized(data) ==> |data| >= 512
  {
  }

  /** Extraction succeeds with these entries exactly when the image holds a tree whose files they are. */
  lemma ParseIffTree(data: seq<byte>, names: Names, entries: seq<X.DiskEntry>)
    ensures X.Parse(data, names) == Ok(Some(entries))
       <==> exists t :: Holds(data, names, t) && entries == Listed(RowFiles(t.rows, []), 0)
  {
    hide X.Parse, Holds, Listed, RowFiles;
    forall t | Holds(data, names, t)
      ensures X.Parse(data, names) == Ok(Some(Listed(RowFiles(t.rows, []), 0)))
    {
      TreeIsRead(data, names, t);
    }
    if X.Parse(data, names) == Ok(Some(entries)) {
      var t := ReadIsTree(data, names);
      TreeIsRead(data, names, t);
    }
  }

  /** Nothing is returned, and no error raised, exactly when the image does not begin with a volume that is recognized. */
  lemma NothingIff(data: seq<byte>, names: Names)
    ensures X.Parse(data, names) == Ok(None) <==> !exists g :: VolumeFound(data, g)
  {
    hide X.Recognized, VolumeFound, X.WalkFrom, X.RootDirectory, ReadBpb;
    RecognizedIsLong(data);
    if |data| >= 512 {
      FoundIff(data, GeometryOf(ReadBpb(data)));
    }
    forall g | VolumeFound(data, g)
      ensures X.Recognized(data)
    {
      FoundIsLong(data, g);
      FoundIff(data, g);
    }
  }

  lemma FoundIsLong(data: seq<byte>, g: Geometry)
    requires VolumeFound(data, g)
    ensures |data| >= 512
  {
  }
}
