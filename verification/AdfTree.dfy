/** The tree of files on an ADF disk: the extractor returns a tree's files exactly when the disk holds the tree. */
module AdfTree {
  import opened Bytes
  import opened Adf
  import opened AdfDisk
  import opened Writing
  import opened Paths
  import X = AdfExtractor

  /** A header block with what it stands for: a file with its pointer table and the pieces read, or a directory. */
  datatype Node =
    | File(key: nat, name: seq<byte>, slots: seq<nat>, pieces: seq<seq<byte>>, content: seq<byte>)
    | Directory(key: nat, name: seq<byte>, buckets: seq<Chain>)

  /** A hash chain. */
  datatype Chain = End | Link(node: Node, rest: Chain)

  function FirstKey(chain: Chain): nat {
    if chain.End? then 0 else chain.node.key
  }

  function FirstKeys(buckets: seq<Chain>): (r: seq<nat>)
    ensures |r| == |buckets|
  {
    seq(|buckets|, b requires 0 <= b < |buckets| => FirstKey(buckets[b]))
  }

  /** The node lies on the disk, and its header names `next` as the following one of the hash chain. */
  predicate NodeAt(d: Disk, node: Node, next: nat)
    requires Sized(d)
  {
    && PathName(node.name)
    && WordIs(d.data, 512 * node.key + 496, next)
    && match node
       case File(key, name, slots, pieces, content) =>
         HeaderAt(d.data, key, name, slots, 0xFFFF_FFFD) && FileAt(d, key, slots, pieces, content)
       case Directory(key, name, buckets) =>
         HeaderAt(d.data, key, name, FirstKeys(buckets), 2) && BucketsAt(d, buckets)
  }

  predicate ChainAt(d: Disk, chain: Chain)
    requires Sized(d)
  {
    chain.Link? ==> NodeAt(d, chain.node, FirstKey(chain.rest)) && ChainAt(d, chain.rest)
  }

  predicate BucketsAt(d: Disk, buckets: seq<Chain>)
    requires Sized(d)
  {
    forall b | 0 <= b < |buckets| :: ChainAt(d, buckets[b])
  }

  // ----- the headers of a tree -----

  function NodeKeys(node: Node): set<nat> {
    {node.key} + if node.File? then {} else BucketKeys(node.buckets)
  }

  function ChainKeys(chain: Chain): set<nat> {
    if chain.End? then {} else NodeKeys(chain.node) + ChainKeys(chain.rest)
  }

  function BucketKeys(buckets: seq<Chain>): set<nat> {
    if buckets == [] then {} else ChainKeys(buckets[0]) + BucketKeys(buckets[1..])
  }

  /** No header block is used twice. */
  predicate NodeOnce(node: Node) {
    node.File? || (node.key !in BucketKeys(node.buckets) && BucketsOnce(node.buckets))
  }

  predicate ChainOnce(chain: Chain) {
    chain.Link? ==> NodeOnce(chain.node) && ChainOnce(chain.rest) && NodeKeys(chain.node) !! ChainKeys(chain.rest)
  }

  predicate BucketsOnce(buckets: seq<Chain>) {
    buckets != [] ==> ChainOnce(buckets[0]) && BucketsOnce(buckets[1..]) && ChainKeys(buckets[0]) !! BucketKeys(buckets[1..])
  }

  // ----- the files of a tree -----

  datatype TreeFile = TreeFile(path: seq<seq<byte>>, content: seq<byte>)

  function NodeFiles(node: Node, above: seq<seq<byte>>): seq<TreeFile> {
    var path := above + [node.name];
    if node.File? then [TreeFile(path, node.content)] else BucketFiles(node.buckets, path)
  }

  function ChainFiles(chain: Chain, above: seq<seq<byte>>): seq<TreeFile> {
    if chain.End? then [] else NodeFiles(chain.node, above) + ChainFiles(chain.rest, above)
  }

  function BucketFiles(buckets: seq<Chain>, above: seq<seq<byte>>): seq<TreeFile> {
    if buckets == [] then [] else ChainFiles(buckets[0], above) + BucketFiles(buckets[1..], above)
  }

  /** The files as the extractor lists them, numbered from `start`. */
  function Listed(files: seq<TreeFile>, start: nat): (r: seq<X.DiskEntry>)
    ensures |r| == |files|
  {
    seq(|files|, i requires 0 <= i < |files| => X.DiskEntry(Slashed(files[i].path, 0x2F), files[i].content, start + i))
  }

  /** The image holds a volume whose root directory has these buckets. */
  ghost predicate Holds(data: seq<byte>, buckets: seq<Chain>) {
    && |data| == 901120 && At(data, 0, [0x44, 0x4F, 0x53]) && (data[3] == 0 || data[3] == 1)
    && (exists volume :: HeaderAt(data, 880, volume, FirstKeys(buckets), 1))
    && BucketsAt(Disk(data, data[3] == 0), buckets)
    && BucketsOnce(buckets) && 880 !in BucketKeys(buckets)
  }

  // ----- a tree is read -----

  predicate PathTo(path: seq<seq<byte>>) {
    forall i | 0 <= i < |path| :: PathName(path[i])
  }

  lemma SlashedIsLogical(above: seq<seq<byte>>, name: seq<byte>)
    requires PathTo(above) && PathName(name)
    ensures PathTo(above + [name]) && Slashed(above + [name], 0x2F) == X.Logical(Slashed(above, 0x2F), name)
  {
    SlashedNext(above, name, 0x2F);
  }

  lemma NameIsSafe(name: seq<byte>)
    ensures PathName(name) <==> SafeName(name)
  {
  }

  lemma ListedConcat(a: seq<TreeFile>, b: seq<TreeFile>, start: nat)
    ensures Listed(a + b, start) == Listed(a, start) + Listed(b, start + |a|)
  {
  }

  lemma KindIs(block: seq<byte>)
    requires |block| == BLOCK
    ensures Kind(block) == DIRECTORY <==> Be32(block, 508) == 2
    ensures Kind(block) == FILE <==> Be32(block, 508) == 0xFFFF_FFFD
  {
  }

  function Grown(f: X.Found, files: seq<TreeFile>, keys: set<nat>): X.Found {
    X.Found(f.entries + Listed(files, |f.entries|), f.visited + keys)
  }

  lemma GrowTwice(f: X.Found, a: seq<TreeFile>, b: seq<TreeFile>, ka: set<nat>, kb: set<nat>)
    ensures Grown(Grown(f, a, ka), b, kb) == Grown(f, a + b, ka + kb)
  {
    ListedConcat(a, b, |f.entries|);
  }

  /** What the walk sees of a node's header. */
  lemma NodeReads(d: Disk, node: Node, next: nat)
    requires Sized(d) && NodeAt(d, node, next)
    ensures InImage(node.key)
    ensures var header := Block(d, node.key);
            && X.ReadHeader(d, header).None? && HasCountedString(header, 432) && CountedString(header, 432) == node.name
            && NextInChain(header) == next
            && (node.File? ==> Kind(header) == FILE && X.FileData(d, header, node.key) == Ok(node.content))
            && (node.Directory? ==> Kind(header) == DIRECTORY && TableIs(header, FirstKeys(node.buckets)) && BucketsAt(d, node.buckets))
  {
    hide Be32, Block, WordIs, At, CountedString, HasCountedString, ValidChecksum, ChainAt, PieceAt, Pointers, Sealed;
    var header := Block(d, node.key);
    NameIsSafe(node.name);
    KindIs(header);
    BlockWord(d, node.key, 496, next);
    if node.File? {
      HeaderReads(d, node.key, node.name, node.slots, 0xFFFF_FFFD);
      BlockWord(d, node.key, 324, |node.content|);
      FileIsRead(d, header, node);
    } else {
      HeaderReads(d, node.key, node.name, FirstKeys(node.buckets), 2);
    }
  }

  lemma FileIsRead(d: Disk, header: seq<byte>, node: Node)
    requires Sized(d) && |header| == BLOCK && node.File? && TableIs(header, node.slots) && FileSize(header) == |node.content|
    requires FileAt(d, node.key, node.slots, node.pieces, node.content)
    ensures X.FileData(d, header, node.key) == Ok(node.content)
  {
    hide Slot, PieceAt, Pointers, X.FileFrom, FileSize, WordIs;
    var pointers := Pointers(node.slots, 72);
    assert pointers[0..] == pointers && node.pieces[..0] == [];
    FileReads(d, header, node.key, node.slots, node.pieces, node.content, 72, 0);
    assert Taken(pointers, 0) == {};
  }

  lemma FirstIsKey(d: Disk, chain: Chain)
    requires Sized(d) && ChainAt(d, chain)
    ensures IsKey(FirstKey(chain))
  {
    hide HeaderAt, FileAt, BucketsAt, ChainAt;
    if chain.Link? {
      assert NodeAt(d, chain.node, FirstKey(chain.rest)) by { LinkIsThere(d, chain); }
      NodeReads(d, chain.node, FirstKey(chain.rest));
    }
  }

  lemma LinkIsThere(d: Disk, chain: Chain)
    requires Sized(d) && ChainAt(d, chain) && chain.Link?
    ensures NodeAt(d, chain.node, FirstKey(chain.rest)) && ChainAt(d, chain.rest)
  {
    hide NodeAt;
  }

  /** One header on the walk. */
  lemma NodeStep(d: Disk, node: Node, next: nat, above: seq<seq<byte>>, f: X.Found)
    requires Sized(d) && NodeAt(d, node, next) && PathTo(above) && node.key !in f.visited
    ensures IsKey(node.key) && IsKey(next)
    ensures node.File? ==>
              X.WalkChain(d, node.key, Slashed(above, 0x2F), f)
              == X.WalkChain(d, next, Slashed(above, 0x2F), Grown(f, NodeFiles(node, above), NodeKeys(node)))
    ensures InImage(node.key)
    ensures node.Directory? ==>
              var inner := X.WalkBuckets(d, Block(d, node.key), 0, Slashed(above + [node.name], 0x2F), f.(visited := f.visited + {node.key}));
              inner.Ok? ==> X.WalkChain(d, node.key, Slashed(above, 0x2F), f) == X.WalkChain(d, next, Slashed(above, 0x2F), inner.value)
  {
    hide Block, Kind, X.ReadHeader, CountedString, HasCountedString, X.FileData, NodeAt, PathTo, Slashed, NextInChain, X.WalkBuckets;
    NodeReads(d, node, next);
    NodeNamed(d, node, next);
    SlashedIsLogical(above, node.name);
    if node.File? {
      var path := above + [node.name];
      assert Listed([TreeFile(path, node.content)], |f.entries|) == [X.DiskEntry(Slashed(path, 0x2F), node.content, |f.entries|)];
      assert f.visited + NodeKeys(node) == f.visited + {node.key};
    }
  }

  lemma NodeNamed(d: Disk, node: Node, next: nat)
    requires Sized(d) && NodeAt(d, node, next)
    ensures PathName(node.name)
  {
  }

  lemma {:induction false} ChainReads(d: Disk, chain: Chain, above: seq<seq<byte>>, f: X.Found)
    requires Sized(d) && ChainAt(d, chain) && ChainOnce(chain) && f.visited !! ChainKeys(chain) && PathTo(above)
    ensures IsKey(FirstKey(chain))
    ensures X.WalkChain(d, FirstKey(chain), Slashed(above, 0x2F), f) == Ok(Grown(f, ChainFiles(chain, above), ChainKeys(chain)))
    decreases chain
  {
    hide Block, NodeAt, BucketsAt, PathTo, Slashed, X.WalkBuckets, Grown;
    if chain.End? {
      NothingGrown(f);
      return;
    }
    var node, rest := chain.node, chain.rest;
    NodeStep(d, node, FirstKey(rest), above, f);
    hide X.WalkChain;
    var after := Grown(f, NodeFiles(node, above), NodeKeys(node));
    if node.Directory? {
      NodeReads(d, node, FirstKey(rest));
      NodeNamed(d, node, FirstKey(rest));
      SlashedIsLogical(above, node.name);
      var g := f.(visited := f.visited + {node.key});
      assert g == Grown(f, [], {node.key}) by { GrownKey(f, node.key); }
      BucketsRead(d, Block(d, node.key), 0, node.buckets, above + [node.name], g);
      GrowTwice(f, [], NodeFiles(node, above), {node.key}, BucketKeys(node.buckets));
      assert [] + NodeFiles(node, above) == NodeFiles(node, above);
    }
    assert after.visited == f.visited + NodeKeys(node) by { GrownVisited(f, NodeFiles(node, above), NodeKeys(node)); }
    ChainReads(d, rest, above, after);
    GrowTwice(f, NodeFiles(node, above), ChainFiles(rest, above), NodeKeys(node), ChainKeys(rest));
  }

  lemma NothingGrown(f: X.Found)
    ensures Grown(f, [], {}) == f
  {
    assert f.entries + [] == f.entries;
  }

  lemma GrownKey(f: X.Found, key: nat)
    ensures Grown(f, [], {key}) == f.(visited := f.visited + {key})
  {
    assert f.entries + [] == f.entries;
  }

  lemma GrownVisited(f: X.Found, files: seq<TreeFile>, keys: set<nat>)
    ensures Grown(f, files, keys).visited == f.visited + keys
  {
  }

  /** The buckets of a directory from `bucket` on. */
  lemma {:induction false} BucketsRead(d: Disk, directory: seq<byte>, bucket: nat, buckets: seq<Chain>,
                                       above: seq<seq<byte>>, f: X.Found)
    requires Sized(d) && |directory| == BLOCK && bucket + |buckets| == 72 && PathTo(above)
    requires forall b | 0 <= b < |buckets| :: Slot(directory, bucket + b) == FirstKey(buckets[b])
    requires BucketsAt(d, buckets) && BucketsOnce(buckets) && f.visited !! BucketKeys(buckets)
    ensures X.WalkBuckets(d, directory, bucket, Slashed(above, 0x2F), f) == Ok(Grown(f, BucketFiles(buckets, above), BucketKeys(buckets)))
    decreases buckets
  {
    hide Block, ChainAt, PathTo, Slashed, X.WalkChain, Grown, Slot;
    if buckets == [] {
      NothingGrown(f);
    } else {
      ChainReads(d, buckets[0], above, f);
      var g := Grown(f, ChainFiles(buckets[0], above), ChainKeys(buckets[0]));
      GrownVisited(f, ChainFiles(buckets[0], above), ChainKeys(buckets[0]));
      forall b | 0 <= b < |buckets| - 1
        ensures Slot(directory, bucket + 1 + b) == FirstKey(buckets[1..][b])
      {
        assert Slot(directory, bucket + (b + 1)) == FirstKey(buckets[b + 1]);
      }
      BucketsRead(d, directory, bucket + 1, buckets[1..], above, g);
      GrowTwice(f, ChainFiles(buckets[0], above), BucketFiles(buckets[1..], above), ChainKeys(buckets[0]), BucketKeys(buckets[1..]));
    }
  }

  // ----- what is read is a tree -----

  lemma FileNodeFound(d: Disk, key: nat) returns (node: Node)
    requires Sized(d) && InImage(key) && X.ReadHeader(d, Block(d, key)).None? && Kind(Block(d, key)) == FILE
    requires X.FileData(d, Block(d, key), key).Ok?
    ensures node.File? && node.key == key && NodeAt(d, node, NextInChain(Block(d, key)))
  {
    hide Be32, Block, WordIs, At, CountedString, HasCountedString, ValidChecksum, ChainAt, PieceAt, Sealed, Slot, X.FileFrom, Pointers, SafeName;
    var header := Block(d, key);
    var name, slots := CountedString(header, 432), Table(header);
    HeaderFound(d, key);
    NameIsSafe(name);
    KindIs(header);
    BlockWord(d, key, 496, NextInChain(header));
    BlockWord(d, key, 324, FileSize(header));
    var pointers := Pointers(slots, 72);
    assert Taken(pointers, 0) == {};
    assert pointers[0..] == pointers;
    var pieces := FileFound(d, header, key, slots, 72, []);
    node := File(key, name, slots, pieces, X.FileData(d, header, key).value);
  }

  lemma DirectoryFound(d: Disk, key: nat, buckets: seq<Chain>)
    requires Sized(d) && InImage(key) && X.ReadHeader(d, Block(d, key)).None? && Kind(Block(d, key)) == DIRECTORY
    requires FirstKeys(buckets) == Table(Block(d, key)) && BucketsAt(d, buckets)
    ensures X.ReadHeader(d, Block(d, key)).None? && NodeAt(d, Directory(key, CountedString(Block(d, key), 432), buckets), NextInChain(Block(d, key)))
  {
    hide Be32, Block, WordIs, At, CountedString, HasCountedString, ValidChecksum, ChainAt, Sealed, Slot, SafeName;
    var header := Block(d, key);
    HeaderFound(d, key);
    NameIsSafe(CountedString(header, 432));
    KindIs(header);
    BlockWord(d, key, 496, NextInChain(header));
  }

  lemma {:induction false} ChainFound(d: Disk, key: nat, above: seq<seq<byte>>, f: X.Found) returns (chain: Chain)
    requires Sized(d) && IsKey(key) && PathTo(above) && X.WalkChain(d, key, Slashed(above, 0x2F), f).Ok?
    ensures FirstKey(chain) == key && ChainAt(d, chain) && ChainOnce(chain) && f.visited !! ChainKeys(chain)
    decreases Keys() - f.visited, 0
  {
    hide Block, NodeAt, PathTo, Slashed, Slot, CountedString, HasCountedString, NextInChain, Kind, X.ReadHeader, X.FileData, X.WalkBuckets;
    if key == 0 {
      return End;
    }
    assert key in Keys();
    var header := Block(d, key);
    var node;
    var after := f.(visited := f.visited + {key});
    var name := NameFound(d, key, above);
    if Kind(header) == DIRECTORY {
      var buckets := BucketsFound(d, header, 0, above + [name], after);
      BucketsRead(d, header, 0, buckets, above + [name], after);
      DirectoryFound(d, key, buckets);
      node := Directory(key, name, buckets);
      after := X.WalkBuckets(d, header, 0, Slashed(above + [name], 0x2F), after).value;
    } else {
      node := FileNodeFound(d, key);
      var content := X.FileData(d, header, key).value;
      after := after.(entries := f.entries + [X.DiskEntry(Slashed(above + [name], 0x2F), content, |f.entries|)]);
    }
    var rest := ChainFound(d, NextInChain(header), above, after);
    chain := Link(node, rest);
  }

  lemma NameFound(d: Disk, key: nat, above: seq<seq<byte>>) returns (name: seq<byte>)
    requires Sized(d) && InImage(key) && X.ReadHeader(d, Block(d, key)).None? && PathTo(above)
    ensures HasCountedString(Block(d, key), 432) && name == CountedString(Block(d, key), 432)
    ensures PathTo(above + [name]) && Slashed(above + [name], 0x2F) == X.Logical(Slashed(above, 0x2F), name)
  {
    hide Block, PathTo, Slashed, CountedString, HasCountedString, SafeName, PathName;
    name := CountedString(Block(d, key), 432);
    NameIsSafe(name);
    SlashedIsLogical(above, name);
  }

  lemma {:induction false} BucketsFound(d: Disk, directory: seq<byte>, bucket: nat, above: seq<seq<byte>>, f: X.Found)
    returns (buckets: seq<Chain>)
    requires Sized(d) && |directory| == BLOCK && bucket <= 72 && PathTo(above)
    requires X.WalkBuckets(d, directory, bucket, Slashed(above, 0x2F), f).Ok?
    ensures bucket + |buckets| == 72 && forall b | 0 <= b < |buckets| :: Slot(directory, bucket + b) == FirstKey(buckets[b])
    ensures BucketsAt(d, buckets) && BucketsOnce(buckets) && f.visited !! BucketKeys(buckets)
    decreases Keys() - f.visited, 73 - bucket
  {
    hide Block, ChainAt, PathTo, Slashed, X.WalkChain, Slot;
    if bucket == 72 {
      return [];
    }
    var first := ChainFound(d, Slot(directory, bucket), above, f);
    ChainReads(d, first, above, f);
    var after := X.WalkChain(d, Slot(directory, bucket), Slashed(above, 0x2F), f).value;
    GrownVisited(f, ChainFiles(first, above), ChainKeys(first));
    var rest := BucketsFound(d, directory, bucket + 1, above, after);
    buckets := [first] + rest;
    assert buckets[1..] == rest;
    forall b | 0 <= b < |buckets|
      ensures Slot(directory, bucket + b) == FirstKey(buckets[b])
    {
      assert b > 0 ==> Slot(directory, bucket + 1 + (b - 1)) == FirstKey(rest[b - 1]);
    }
  }

  // ----- the theorems -----

  lemma DosIff(data: seq<byte>)
    requires |data| == IMAGE_SIZE
    ensures At(data, 0, [0x44, 0x4F, 0x53]) <==> data[0] == 0x44 && data[1] == 0x4F && data[2] == 0x53
  {
    var dos: seq<byte> := [0x44, 0x4F, 0x53];
    if At(data, 0, dos) {
      assert data[0 + 0] == dos[0] && data[0 + 1] == dos[1] && data[0 + 2] == dos[2];
    }
  }

  /** An image that holds a tree is read as exactly the tree's files, in walking order. */
  lemma TreeIsRead(data: seq<byte>, buckets: seq<Chain>)
    requires Holds(data, buckets)
    ensures X.Parse(data) == Ok(Some(Listed(BucketFiles(buckets, []), 0)))
  {
    hide Be32, Block, WordIs, At, ChainAt, ValidChecksum, HasCountedString, CountedString, BucketsOnce, X.WalkBuckets, Slot;
    var d := X.DiskOf(data);
    var root := Block(d, ROOT);
    var volume :| HeaderAt(data, 880, volume, FirstKeys(buckets), 1);
    HeaderReads(d, ROOT, volume, FirstKeys(buckets), 1);
    DosIff(data);
    BucketsRead(d, root, 0, buckets, [], X.Found([], {ROOT}));
    assert [] + Listed(BucketFiles(buckets, []), 0) == Listed(BucketFiles(buckets, []), 0);
  }

  /** An image read to the end holds a tree. */
  lemma ReadIsTree(data: seq<byte>) returns (buckets: seq<Chain>)
    requires X.Parse(data).Ok? && X.Parse(data).value.Some?
    ensures Holds(data, buckets)
  {
    hide Be32, Block, WordIs, At, ChainAt, ValidChecksum, HasCountedString, CountedString, BucketsOnce, X.WalkBuckets, Slot;
    var d := X.DiskOf(data);
    var root := Block(d, ROOT);
    buckets := BucketsFound(d, root, 0, [], X.Found([], {ROOT}));
    HeaderFound(d, ROOT);
    DosIff(data);
    assert FirstKeys(buckets) == Table(root);
  }

  /** Extraction succeeds with these entries exactly when the image holds a tree whose files they are. */
  lemma ParseIffTree(data: seq<byte>, entries: seq<X.DiskEntry>)
    ensures X.Parse(data) == Ok(Some(entries))
       <==> exists buckets :: Holds(data, buckets) && entries == Listed(BucketFiles(buckets, []), 0)
  {
    hide X.Parse, Holds, Listed, BucketFiles;
    forall buckets | Holds(data, buckets)
      ensures X.Parse(data) == Ok(Some(Listed(BucketFiles(buckets, []), 0)))
    {
      TreeIsRead(data, buckets);
    }
    if X.Parse(data) == Ok(Some(entries)) {
      var buckets := ReadIsTree(data);
    }
  }

  /** What is not a recognized image gives nothing, and neither an error nor entries. */
  lemma NothingIff(data: seq<byte>)
    ensures X.Parse(data) == Ok(None)
       <==> !(|data| == 901120 && At(data, 0, [0x44, 0x4F, 0x53]) && (data[3] == 0 || data[3] == 1)
              && WordIs(data, 512 * 880, 2) && WordIs(data, 512 * 880 + 508, 1))
  {
    hide Be32, Block, WordIs, At, ValidChecksum, HasCountedString, X.WalkBuckets;
    if |data| == IMAGE_SIZE {
      DosIff(data);
      var d := X.DiskOf(data);
      BlockWord(d, ROOT, 0, 2);
      BlockWord(d, ROOT, 508, 1);
    }
  }
}
