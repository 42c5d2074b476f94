/** The verdict on an ADF disk that holds a tree: the reference walk passes exactly when no block of the tree is used twice. */
module AdfVerdict {
  import opened Bytes
  import opened Adf
  import opened AdfDisk
  import opened AdfTree
  import opened Writing
  import opened BootChecksum
  import X = AdfExtractor
  import V = AdfValidator

  /** The pointers a file is read from, from the `i`-th on. */
  function From(pointers: seq<nat>, i: nat, end: nat): set<nat>
    requires i <= end <= |pointers|
  {
    set j | i <= j < end :: pointers[j]
  }

  function DataBlocks(node: Node): set<nat>
    requires node.File?
  {
    if |node.slots| != 72 || |node.pieces| > |Pointers(node.slots, 72)| then {} else From(Pointers(node.slots, 72), 0, |node.pieces|)
  }

  /** Every block of a tree: its headers and the data blocks of its files. */
  function NodeBlocks(node: Node): set<nat> {
    {node.key} + if node.File? then DataBlocks(node) else BucketBlocks(node.buckets)
  }

  function ChainBlocks(chain: Chain): set<nat> {
    if chain.End? then {} else NodeBlocks(chain.node) + ChainBlocks(chain.rest)
  }

  function BucketBlocks(buckets: seq<Chain>): set<nat> {
    if buckets == [] then {} else ChainBlocks(buckets[0]) + BucketBlocks(buckets[1..])
  }

  /** No block of the tree is used twice, be it as a header or as data. */
  predicate NodeApart(node: Node) {
    if node.File? then node.key !in DataBlocks(node) else node.key !in BucketBlocks(node.buckets) && BucketsApart(node.buckets)
  }

  predicate ChainApart(chain: Chain) {
    chain.Link? ==> NodeApart(chain.node) && ChainApart(chain.rest) && NodeBlocks(chain.node) !! ChainBlocks(chain.rest)
  }

  predicate BucketsApart(buckets: seq<Chain>) {
    buckets != [] ==>
      ChainApart(buckets[0]) && BucketsApart(buckets[1..]) && ChainBlocks(buckets[0]) !! BucketBlocks(buckets[1..])
  }

  function NodeCount(node: Node): nat {
    1 + if node.File? then 0 else BucketCount(node.buckets)
  }

  function ChainCount(chain: Chain): nat {
    if chain.End? then 0 else NodeCount(chain.node) + ChainCount(chain.rest)
  }

  function BucketCount(buckets: seq<Chain>): nat {
    if buckets == [] then 0 else ChainCount(buckets[0]) + BucketCount(buckets[1..])
  }

  // ----- files -----

  lemma FromNext(d: Disk, key: nat, pointers: seq<nat>, pieces: seq<seq<byte>>, i: nat)
    requires Sized(d) && PiecesAt(d, key, pointers, pieces) && i < |pieces|
    ensures From(pointers, i, |pieces|) == {pointers[i]} + From(pointers, i + 1, |pieces|)
    ensures pointers[i] !in From(pointers, i + 1, |pieces|) && PieceAt(d, key, pointers[i], pieces[i])
  {
    hide PieceAt;
  }

  /** One pointer: an unseen one is taken, and taking stops at the declared size. */
  lemma TakeStep(d: Disk, header: seq<byte>, key: nat, n: nat, t: V.Taken, total: nat, bytes: seq<byte>)
    requires Sized(d) && |header| == BLOCK && 0 < n <= 72 && Slot(header, n - 1) != 0
    requires PieceAt(d, key, Slot(header, n - 1), bytes)
    ensures var pointer := Slot(header, n - 1);
            var taken := V.Taken(t.seen + {pointer}, t.blocks + [pointer]);
            V.TakeFrom(d, header, key, n, t, total)
            == if pointer in t.seen then Err(V.CyclicBlocks)
               else if total + |bytes| >= FileSize(header) then Ok(taken)
               else V.TakeFrom(d, header, key, n - 1, taken, total + |bytes|)
  {
    hide Slot, GoodDataBlock, Payload, PayloadSize, Block, PieceAt, FileSize;
    PieceIff(d, key, Slot(header, n - 1));
    assert |Payload(d, Block(d, Slot(header, n - 1)), key)| == |bytes|;
  }

  lemma SkipZero(d: Disk, header: seq<byte>, key: nat, n: nat, t: V.Taken, total: nat)
    requires Sized(d) && |header| == BLOCK && 0 < n <= 72 && Slot(header, n - 1) == 0
    ensures V.TakeFrom(d, header, key, n, t, total) == V.TakeFrom(d, header, key, n - 1, t, total)
  {
  }

  lemma TakeNone(d: Disk, header: seq<byte>, key: nat, t: V.Taken, total: nat)
    requires Sized(d) && |header| == BLOCK
    ensures V.TakeFrom(d, header, key, 0, t, total) == if total < FileSize(header) then Err(V.TruncatedFile) else Ok(t)
  {
  }

  /** A file's blocks are taken exactly when none of them has been seen. */
  lemma {:induction false} FileTaken(d: Disk, header: seq<byte>, key: nat, slots: seq<nat>, pieces: seq<seq<byte>>,
                                     content: seq<byte>,
                                     n: nat, i: nat, t: V.Taken)
    requires Sized(d) && |header| == BLOCK && |slots| == 72 && TableIs(header, slots) && n <= 72 && FileSize(header) == |content|
    requires var pointers := Pointers(slots, 72);
             && PiecesAt(d, key, pointers, pieces) && Covers(pieces, content, pointers == [])
             && i <= |pointers| && Pointers(slots, n) == pointers[i..] && (i < |pieces| || (pieces == [] && i == 0))
    ensures i <= |pieces| <= |Pointers(slots, 72)|
    ensures var pointers, r := Pointers(slots, 72), V.TakeFrom(d, header, key, n, t, |Flatten(pieces[..i])|);
            && (r.Ok? <==> From(pointers, i, |pieces|) !! t.seen)
            && (r.Ok? ==> r.value.seen == t.seen + From(pointers, i, |pieces|))
  {
    hide Slot, GoodDataBlock, Block, PieceAt, FileSize, V.TakeFrom, TableIs, Pointers, From, PiecesAt;
    var pointers := Pointers(slots, 72);
    EnoughPointers(d, key, pointers, pieces);
    if n == 0 {
      NoPointer(d, header, key, slots, i, {}, []);
      TakeNone(d, header, key, t, 0);
      assert pieces[..i] == pieces == [];
      NothingFrom(pointers, 0);
      return;
    }
    hide Flatten;
    NextPointer(header, slots, n, i);
    if slots[n - 1] == 0 {
      SkipZero(d, header, key, n, t, |Flatten(pieces[..i])|);
      FileTaken(d, header, key, slots, pieces, content, n - 1, i, t);
    } else {
      FromNext(d, key, pointers, pieces, i);
      TakeStep(d, header, key, n, t, |Flatten(pieces[..i])|, pieces[i]);
      FlattenStep(pieces, i);
      var taken := V.Taken(t.seen + {pointers[i]}, t.blocks + [pointers[i]]);
      if i + 1 == |pieces| {
        assert pieces[..i + 1] == pieces;
        assert From(pointers, i + 1, |pieces|) == {} by { NothingFrom(pointers, i + 1); }
      } else {
        ShortOfContent(pieces, content, i + 1);
        hide Covers;
        FileTaken(d, header, key, slots, pieces, content, n - 1, i + 1, taken);
      }
    }
  }

  lemma NothingFrom(pointers: seq<nat>, i: nat)
    requires i <= |pointers|
    ensures From(pointers, i, i) == {}
  {
  }

  // ----- the walk -----

  /** The walk's outcome on a part of the tree: it passes on fresh blocks within the node limit, and has then seen them all. */
  predicate Outcome(a: V.Audit, r: Result<V.Audit, V.Error>, apart: bool, blocks: set<nat>, count: nat, maxNodes: nat) {
    && (r.Ok? <==> apart && blocks !! a.seen && a.nodes + count <= maxNodes)
    && (r.Ok? ==> r.value.seen == a.seen + blocks && r.value.nodes == a.nodes + count)
  }

  /** A header's own visit. */
  lemma NodeVisited(d: Disk, node: Node, next: nat, a: V.Audit)
    requires Sized(d) && NodeAt(d, node, next) && InImage(node.key)
    ensures var r, blocks := V.VisitHeader(d, node.key, a), if node.File? then DataBlocks(node) else {};
            && (r.Ok? <==> blocks !! a.seen)
            && (r.Ok? ==> r.value.seen == a.seen + blocks && r.value.nodes == a.nodes)
  {
    hide Be32, Block, WordIs, CountedString, HasCountedString, ValidChecksum, BucketsAt, PieceAt, Pointers, Sealed, V.TakeFrom, From;
    var header := Block(d, node.key);
    KindIs(header);
    if node.File? {
      HeaderReads(d, node.key, node.name, node.slots, 0xFFFF_FFFD);
      BlockWord(d, node.key, 324, |node.content|);
      var pointers := Pointers(node.slots, 72);
      assert pointers[0..] == pointers && node.pieces[..0] == [];
      FileTaken(d, header, node.key, node.slots, node.pieces, node.content, 72, 0, V.Taken(a.seen, []));
    } else {
      HeaderReads(d, node.key, node.name, FirstKeys(node.buckets), 2);
    }
  }

  /** One header on the walk. */
  lemma NodeWalked(d: Disk, node: Node, next: nat, a: V.Audit, maxNodes: nat)
    requires Sized(d) && NodeAt(d, node, next)
    ensures InImage(node.key) && IsKey(node.key) && IsKey(next)
    ensures var r := V.WalkChain(d, node.key, a, maxNodes);
            if a.nodes + 1 > maxNodes || node.key in a.seen then r.Err?
            else
              var b := V.VisitHeader(d, node.key, a.(nodes := a.nodes + 1, seen := a.seen + {node.key}));
              if b.Err? then r.Err?
              else if node.File? then r == V.WalkChain(d, next, b.value, maxNodes)
              else
                var inner := V.WalkBuckets(d, Block(d, node.key), 0, b.value, maxNodes);
                if inner.Err? then r.Err? else r == V.WalkChain(d, next, inner.value, maxNodes)
  {
    hide Block, Kind, IsHeader, CountedString, HasCountedString, X.FileData, NodeAt, NextInChain, V.VisitHeader, V.WalkBuckets, Accepted;
    NodeReads(d, node, next);
  }

  lemma {:induction false} ChainWalked(d: Disk, chain: Chain, a: V.Audit, maxNodes: nat)
    requires Sized(d) && ChainAt(d, chain) && a.nodes <= maxNodes
    ensures IsKey(FirstKey(chain))
    ensures Outcome(a, V.WalkChain(d, FirstKey(chain), a, maxNodes), ChainApart(chain), ChainBlocks(chain), ChainCount(chain), maxNodes)
    decreases chain
  {
    hide Block, NodeAt, BucketsAt, DataBlocks, V.WalkBuckets, V.VisitHeader;
    if chain.End? {
      return;
    }
    var node, rest := chain.node, chain.rest;
    NodeWalked(d, node, FirstKey(rest), a, maxNodes);
    hide V.WalkChain;
    if a.nodes + 1 > maxNodes || node.key in a.seen {
      assert node.key in ChainBlocks(chain);
      return;
    }
    var start := a.(nodes := a.nodes + 1, seen := a.seen + {node.key});
    NodeVisited(d, node, FirstKey(rest), start);
    var b := V.VisitHeader(d, node.key, start);
    if b.Err? {
      return;
    }
    if node.Directory? {
      NodeReads(d, node, FirstKey(rest));
      BucketsWalked(d, Block(d, node.key), 0, node.buckets, b.value, maxNodes);
      var inner := V.WalkBuckets(d, Block(d, node.key), 0, b.value, maxNodes);
      if inner.Err? {
        return;
      }
      ChainWalked(d, rest, inner.value, maxNodes);
    } else {
      ChainWalked(d, rest, b.value, maxNodes);
    }
  }

  lemma {:induction false} BucketsWalked(d: Disk, directory: seq<byte>, bucket: nat, buckets: seq<Chain>, a: V.Audit,
                                         maxNodes: nat)
    requires Sized(d) && |directory| == BLOCK && bucket + |buckets| == 72 && a.nodes <= maxNodes
    requires forall b | 0 <= b < |buckets| :: Slot(directory, bucket + b) == FirstKey(buckets[b])
    requires BucketsAt(d, buckets)
    ensures Outcome(a, V.WalkBuckets(d, directory, bucket, a, maxNodes),
                    BucketsApart(buckets), BucketBlocks(buckets), BucketCount(buckets), maxNodes)
    decreases buckets
  {
    hide Block, ChainAt, V.WalkChain, Slot, ChainBlocks, ChainApart, ChainCount;
    if buckets != [] {
      ChainWalked(d, buckets[0], a, maxNodes);
      var b := V.WalkChain(d, FirstKey(buckets[0]), a, maxNodes);
      forall b | 0 <= b < |buckets| - 1
        ensures Slot(directory, bucket + 1 + b) == FirstKey(buckets[1..][b])
      {
        assert Slot(directory, bucket + (b + 1)) == FirstKey(buckets[b + 1]);
      }
      if b.Ok? {
        BucketsWalked(d, directory, bucket + 1, buckets[1..], b.value, maxNodes);
      }
    }
  }

  // ----- the verdict -----

  lemma {:induction false} SumIsTotal(block: seq<byte>, n: nat)
    requires 4 * n <= |block|
    ensures Sum(Words(block, n)) == WordSum(block, n)
  {
    if n > 0 {
      SumIsTotal(block, n - 1);
      assert Words(block, n)[..n - 1] == Words(block, n - 1);
    }
  }

  /** The boot block's words sum to a positive multiple of 2^32 - 1. */
  lemma BootIff(boot: seq<byte>)
    requires |boot| == 1024
    ensures Accepts(Words(boot, 256)) <==> WordTotal(boot) > 0 && WordTotal(boot) % 0xFFFF_FFFF == 0
  {
    hide Accepts, Sum, WordSum, WordTotal;
    AcceptedIffSumVanishes(Words(boot, 256));
    SumIsTotal(boot, 256);
    TotalIsSum(boot, 256);
    assert boot[..1024] == boot;
  }

  /** The root block's bitmap slot names `key`. */
  predicate BitmapKey(data: seq<byte>, slot: nat, key: nat) {
    WordIs(data, 512 * 880 + 316 + 4 * slot, key)
  }

  /** The root block's bitmap slot names no block, or a sealed one. */
  ghost predicate BitmapAt(data: seq<byte>, slot: nat)
    requires |data| == IMAGE_SIZE && slot < 24
  {
    forall key: nat | BitmapKey(data, slot, key) ::
      key == 0 || (key < 1760 && Sealed(data[512 * key..512 * key + 512]))
  }

  lemma BitmapIff(d: Disk, slot: nat)
    requires Sized(d) && slot < 24
    ensures V.BitmapSlotGood(d, slot) <==> BitmapAt(d.data, slot)
  {
    hide Be32, WordIs, Sealed, ValidChecksum;
    var pos := 316 + 4 * slot;
    var key := Be32(Block(d, ROOT), pos);
    BlockWord(d, ROOT, pos, key);
    assert BitmapKey(d.data, slot, key);
    forall k: nat | BitmapKey(d.data, slot, k)
      ensures k == key
    {
      BlockWord(d, ROOT, pos, k);
    }
    if key < BLOCKS {
      SealedIffValid(V.AnyBlock(d, key));
      assert V.AnyBlock(d, key) == d.data[512 * key..512 * key + 512];
    }
  }

  /**
   An image that holds a tree gets state VALID exactly when its boot block sums up, its bitmap blocks are sealed, no
   block of the tree is used twice, and the tree has no more than `maxNodes` headers.
   */
  lemma ValidIff(data: seq<byte>, buckets: seq<Chain>, maxNodes: nat)
    requires Holds(data, buckets)
    ensures V.IsValid(data, maxNodes)
       <==> && WordTotal(data[..1024]) > 0 && WordTotal(data[..1024]) % 0xFFFF_FFFF == 0
            && (forall slot | 0 <= slot < 24 :: BitmapAt(data, slot))
            && BucketsApart(buckets) && 880 !in BucketBlocks(buckets) && BucketCount(buckets) <= maxNodes
  {
    hide Be32, Block, WordIs, ChainAt, ValidChecksum, HasCountedString, CountedString, BucketsOnce, V.WalkBuckets, Slot;
    hide Accepts, Words, WordTotal, Sealed, BitmapAt, V.BitmapSlotGood;
    var d := X.DiskOf(data);
    var root := Block(d, ROOT);
    var volume :| HeaderAt(data, 880, volume, FirstKeys(buckets), 1);
    HeaderReads(d, ROOT, volume, FirstKeys(buckets), 1);
    BootIff(data[..1024]);
    forall slot | 0 <= slot < 24
      ensures V.BitmapSlotGood(d, slot) <==> BitmapAt(data, slot)
    {
      BitmapIff(d, slot);
    }
    BucketsWalked(d, root, 0, buckets, V.Start(), maxNodes);
  }
}
