/** The ADF extractor refines the reference walk. */
module AdfAgreement {
  import opened Bytes
  import opened Adf
  import X = AdfExtractor
  import opened V = AdfValidator

  // ----- what a visited file holds -----

  predicate AllGood(d: Disk, key: nat, blocks: seq<nat>)
    requires Sized(d)
  {
    forall i | 0 <= i < |blocks| :: InImage(blocks[i]) && GoodDataBlock(d, Block(d, blocks[i]), key)
  }

  /** The payloads of a file's data blocks, in order. */
  function FileBytes(d: Disk, key: nat, blocks: seq<nat>): seq<byte>
    requires Sized(d) && AllGood(d, key, blocks)
  {
    if blocks == [] then [] else
      FileBytes(d, key, blocks[..|blocks| - 1]) + Payload(d, Block(d, blocks[|blocks| - 1]), key)
  }

  /** `data` is the visited file at full size: its blocks' payloads, cut to the declared size. */
  predicate IsContent(d: Disk, visit: Visit, data: seq<byte>)
    requires Sized(d)
  {
    && AllGood(d, visit.key, visit.blocks)
    && visit.size <= |FileBytes(d, visit.key, visit.blocks)|
    && data == FileBytes(d, visit.key, visit.blocks)[..visit.size]
  }

  /** The entries are the visited files, in order, each at full size and numbered by position. */
  predicate Reads(d: Disk, visits: seq<Visit>, entries: seq<X.DiskEntry>)
    requires Sized(d)
    decreases |visits|
  {
    if visits == [] then entries == [] else
      var v, n := visits[|visits| - 1], |entries| - 1;
      if v.kind == FILE then
        entries != [] && IsContent(d, v, entries[n].data) && entries[n].index == n
        && Reads(d, visits[..|visits| - 1], entries[..n])
      else Reads(d, visits[..|visits| - 1], entries)
  }

  /** From `first` on, every visited header has a kind and a name the extractor accepts. */
  predicate AllAccepted(d: Disk, visits: seq<Visit>, first: nat)
    requires Sized(d)
  {
    forall i | first <= i < |visits| :: InImage(visits[i].key) && Accepted(Block(d, visits[i].key))
  }

  ghost function Members(blocks: seq<nat>): set<nat> {
    set b | b in blocks
  }

  // ----- files -----

  lemma AddBlock(d: Disk, key: nat, blocks: seq<nat>, pointer: nat)
    requires Sized(d) && AllGood(d, key, blocks) && InImage(pointer) && GoodDataBlock(d, Block(d, pointer), key)
    ensures AllGood(d, key, blocks + [pointer])
    ensures FileBytes(d, key, blocks + [pointer]) == FileBytes(d, key, blocks) + Payload(d, Block(d, pointer), key)
    ensures Members(blocks + [pointer]) == Members(blocks) + {pointer}
  {
    hide Block, GoodDataBlock, Payload;
    var more := blocks + [pointer];
    assert more[..|more| - 1] == blocks;
    assert pointer in more;
  }

  /** One data block: both sides add its payload, and stop at the declared size. */
  lemma BlockAgrees(d: Disk, header: seq<byte>, key: nat, n: nat, t: Taken, seen: set<nat>)
    requires Sized(d) && |header| == BLOCK && 0 < n <= 72 && AllGood(d, key, t.blocks) && Slot(header, n - 1) != 0
    requires seen == Members(t.blocks) <= t.seen
    requires TakeFrom(d, header, key, n, t, |FileBytes(d, key, t.blocks)|).Ok?
    ensures var pointer := Slot(header, n - 1);
            var taken := Taken(t.seen + {pointer}, t.blocks + [pointer]);
            && AllGood(d, key, taken.blocks) && seen + {pointer} == Members(taken.blocks) <= taken.seen
            && var more := FileBytes(d, key, taken.blocks);
               && TakeFrom(d, header, key, n, t, |FileBytes(d, key, t.blocks)|)
                  == (if |more| >= FileSize(header) then Ok(taken) else TakeFrom(d, header, key, n - 1, taken, |more|))
               && X.FileFrom(d, header, key, n, seen, FileBytes(d, key, t.blocks))
                  == (if |more| >= FileSize(header) then Ok(more[..FileSize(header)])
                      else X.FileFrom(d, header, key, n - 1, seen + {pointer}, more))
  {
    hide Be32, Block, Slot, GoodDataBlock, FileSize, AllGood, Members, FileBytes;
    AddBlock(d, key, t.blocks, Slot(header, n - 1));
  }

  /** Where the validator takes a file's blocks to the end, the extractor reads their payloads. */
  lemma {:induction false} FileAgrees(d: Disk, header: seq<byte>, key: nat, n: nat, t: Taken, seen: set<nat>)
    requires Sized(d) && |header| == BLOCK && n <= 72 && AllGood(d, key, t.blocks)
    requires seen == Members(t.blocks) <= t.seen
    requires var total := |FileBytes(d, key, t.blocks)|;
             && (total < FileSize(header) || t.blocks == [])
             && TakeFrom(d, header, key, n, t, total).Ok?
    ensures var r := TakeFrom(d, header, key, n, t, |FileBytes(d, key, t.blocks)|).value;
            && AllGood(d, key, r.blocks)
            && FileSize(header) <= |FileBytes(d, key, r.blocks)|
            && X.FileFrom(d, header, key, n, seen, FileBytes(d, key, t.blocks))
               == Ok(FileBytes(d, key, r.blocks)[..FileSize(header)])
  {
    hide Be32, Block, Slot, GoodDataBlock, FileSize, AllGood, Members, Payload;
    if n > 0 {
      var pointer := Slot(header, n - 1);
      if pointer == 0 {
        FileAgrees(d, header, key, n - 1, t, seen);
      } else {
        hide TakeFrom, X.FileFrom, FileBytes;
        BlockAgrees(d, header, key, n, t, seen);
        var taken := Taken(t.seen + {pointer}, t.blocks + [pointer]);
        if |FileBytes(d, key, taken.blocks)| < FileSize(header) {
          FileAgrees(d, header, key, n - 1, taken, seen + {pointer});
        }
      }
    }
  }

  // ----- the walks -----

  /** What one run of the extractor makes of the headers the validator has just visited. */
  ghost predicate Outcome(d: Disk, a: Audit, b: Audit, r: Result<X.Found, X.Error>)
    requires Sized(d)
  {
    if AllAccepted(d, b.visits, |a.visits|)
    then r.Ok? && r.value.visited <= b.seen && Reads(d, b.visits, r.value.entries)
    else r.Err?
  }

  /** Accepting a longer log is accepting its parts. */
  lemma AcceptedSplit(d: Disk, a: Audit, b: Audit, c: Audit)
    requires Sized(d) && a.visits <= b.visits <= c.visits
    ensures AllAccepted(d, c.visits, |a.visits|) <==> AllAccepted(d, b.visits, |a.visits|) && AllAccepted(d, c.visits, |b.visits|)
  {
    hide Block, Accepted;
    forall i | |a.visits| <= i < |b.visits|
      ensures b.visits[i] == c.visits[i]
    {
    }
  }

  /** One accepted header: a file is read and appended, a directory only logged; an unaccepted one raises. */
  lemma HeaderAgrees(d: Disk, key: nat, prefix: seq<byte>, a: Audit, f: X.Found)
    requires Sized(d) && InImage(key) && IsHeader(Block(d, key)) && key !in a.seen
    requires VisitHeader(d, key, a.(nodes := a.nodes + 1, seen := a.seen + {key})).Ok?
    requires f.visited <= a.seen && Reads(d, a.visits, f.entries)
    ensures var header := Block(d, key);
            var b := VisitHeader(d, key, a.(nodes := a.nodes + 1, seen := a.seen + {key})).value;
            && (AllAccepted(d, b.visits, |a.visits|) <==> Accepted(header))
            && (Accepted(header) && Kind(header) == DIRECTORY ==> Reads(d, b.visits, f.entries))
            && (Accepted(header) && Kind(header) != DIRECTORY ==>
                  && X.FileData(d, header, key).Ok?
                  && var logical := X.Logical(prefix, CountedString(header, 432));
                     var entry := X.DiskEntry(logical, X.FileData(d, header, key).value, |f.entries|);
                     Reads(d, b.visits, f.entries + [entry]))
  {
    hide Block, Be32, CountedString, HasCountedString, SafeName, TakeFrom, AllGood, X.FileFrom;
    var header := Block(d, key);
    var b := VisitHeader(d, key, a.(nodes := a.nodes + 1, seen := a.seen + {key})).value;
    assert b.visits[..|b.visits| - 1] == a.visits;
    var visit := b.visits[|a.visits|];
    assert visit.key == key;
    assert AllAccepted(d, b.visits, |a.visits|) <==> Accepted(header);
    if Kind(header) == FILE {
      NoBlocksYet(d, key);
      FileAgrees(d, header, key, 72, Taken(a.seen + {key}, []), {});
      if Accepted(header) {
        var entry := X.DiskEntry(X.Logical(prefix, CountedString(header, 432)), X.FileData(d, header, key).value, |f.entries|);
        assert (f.entries + [entry])[..|f.entries|] == f.entries;
      }
    }
  }

  lemma NoBlocksYet(d: Disk, key: nat)
    requires Sized(d)
    ensures AllGood(d, key, []) && FileBytes(d, key, []) == [] && Members([]) == {}
  {
  }

  lemma {:induction false} BucketsAgree(d: Disk, directory: seq<byte>, bucket: nat, prefix: seq<byte>, a: Audit,
                                        f: X.Found, maxNodes: nat)
    requires Sized(d) && |directory| == BLOCK && bucket <= 72
    requires V.WalkBuckets(d, directory, bucket, a, maxNodes).Ok?
    requires f.visited <= a.seen && Reads(d, a.visits, f.entries)
    ensures Outcome(d, a, V.WalkBuckets(d, directory, bucket, a, maxNodes).value, X.WalkBuckets(d, directory, bucket, prefix, f))
    decreases Keys() - a.seen, 73 - bucket
  {
    hide Block, Slot, Accepted, Reads, AllAccepted;
    if bucket < 72 {
      var b := V.WalkChain(d, Slot(directory, bucket), a, maxNodes).value;
      ChainAgrees(d, Slot(directory, bucket), prefix, a, f, maxNodes);
      AcceptedSplit(d, a, b, V.WalkBuckets(d, directory, bucket, a, maxNodes).value);
      if AllAccepted(d, b.visits, |a.visits|) {
        BucketsAgree(d, directory, bucket + 1, prefix, b, X.WalkChain(d, Slot(directory, bucket), prefix, f).value, maxNodes);
      }
    } else {
      NothingVisited(d, a);
    }
  }

  lemma NothingVisited(d: Disk, a: Audit)
    requires Sized(d)
    ensures AllAccepted(d, a.visits, |a.visits|)
  {
  }

  lemma {:induction false} ChainAgrees(d: Disk, key: nat, prefix: seq<byte>, a: Audit, f: X.Found, maxNodes: nat)
    requires Sized(d) && IsKey(key)
    requires V.WalkChain(d, key, a, maxNodes).Ok?
    requires f.visited <= a.seen && Reads(d, a.visits, f.entries)
    ensures Outcome(d, a, V.WalkChain(d, key, a, maxNodes).value, X.WalkChain(d, key, prefix, f))
    decreases Keys() - a.seen, 0
  {
    hide Block, NextInChain, IsHeader, Accepted, Kind, Reads, AllAccepted, VisitHeader, CountedString, HasCountedString, X.FileData;
    if key == 0 {
      NothingVisited(d, a);
    } else {
      assert key in Keys();
      var whole := V.WalkChain(d, key, a, maxNodes).value;
      var header := Block(d, key);
      var b := VisitHeader(d, key, a.(nodes := a.nodes + 1, seen := a.seen + {key})).value;
      var g := f.(visited := f.visited + {key});
      HeaderAgrees(d, key, prefix, a, f);
      AcceptedSplit(d, a, b, whole);
      if Accepted(header) {
        AcceptedHasName(header);
        var logical := X.Logical(prefix, CountedString(header, 432));
        if Kind(header) == DIRECTORY {
          var inner := V.WalkBuckets(d, header, 0, b, maxNodes).value;
          BucketsAgree(d, header, 0, logical, b, g, maxNodes);
          AcceptedSplit(d, b, inner, whole);
          if AllAccepted(d, inner.visits, |b.visits|) {
            ChainAgrees(d, NextInChain(header), prefix, inner, X.WalkBuckets(d, header, 0, logical, g).value, maxNodes);
          }
        } else {
          var entry := X.DiskEntry(logical, X.FileData(d, header, key).value, |g.entries|);
          ChainAgrees(d, NextInChain(header), prefix, b, g.(entries := g.entries + [entry]), maxNodes);
        }
      }
    }
  }

  lemma AcceptedHasName(header: seq<byte>)
    requires |header| == BLOCK && Accepted(header)
    ensures HasCountedString(header, 432)
  {
  }

  // ----- ownership -----

  /** A header block and, for a file, its data blocks. */
  ghost function Owned(visit: Visit): set<nat> {
    {visit.key} + Members(visit.blocks)
  }

  ghost predicate NoRepeats(blocks: seq<nat>) {
    forall i, j | 0 <= i < j < |blocks| :: blocks[i] != blocks[j]
  }

  /** Every visit's blocks are seen, none is the root, none repeats, and no block belongs to two visits. */
  ghost predicate Disjoint(a: Audit) {
    && ROOT in a.seen
    && (forall i | 0 <= i < |a.visits| :: Owned(a.visits[i]) <= a.seen && ROOT !in Owned(a.visits[i]))
    && (forall i | 0 <= i < |a.visits| :: NoRepeats([a.visits[i].key] + a.visits[i].blocks))
    && (forall i, j | 0 <= i < j < |a.visits| :: Owned(a.visits[i]) !! Owned(a.visits[j]))
  }

  /** Taking blocks only takes unseen ones. */
  lemma {:induction false} TakeIsFresh(d: Disk, header: seq<byte>, key: nat, n: nat, t: Taken, total: nat, before: set<nat>)
    requires Sized(d) && |header| == BLOCK && n <= 72 && TakeFrom(d, header, key, n, t, total).Ok?
    requires t.seen == before + Members(t.blocks) && before !! Members(t.blocks) && NoRepeats(t.blocks)
    ensures var r := TakeFrom(d, header, key, n, t, total).value;
            r.seen == before + Members(r.blocks) && before !! Members(r.blocks) && NoRepeats(r.blocks)
  {
    hide Block, Slot, GoodDataBlock, PayloadSize, FileSize;
    if n > 0 {
      var pointer := Slot(header, n - 1);
      if pointer == 0 {
        TakeIsFresh(d, header, key, n - 1, t, total, before);
      } else {
        var more, taken := total + PayloadSize(d, Block(d, pointer)), Taken(t.seen + {pointer}, t.blocks + [pointer]);
        assert pointer in taken.blocks && Members(taken.blocks) == Members(t.blocks) + {pointer};
        if more < FileSize(header) {
          TakeIsFresh(d, header, key, n - 1, taken, more, before);
        }
      }
    }
  }

  lemma VisitDisjoint(d: Disk, key: nat, a: Audit)
    requires Sized(d) && InImage(key) && key !in a.seen && Disjoint(a)
    requires VisitHeader(d, key, a.(nodes := a.nodes + 1, seen := a.seen + {key})).Ok?
    ensures Disjoint(VisitHeader(d, key, a.(nodes := a.nodes + 1, seen := a.seen + {key})).value)
  {
    hide Block, Kind, FileSize, TakeFrom;
    var b := VisitHeader(d, key, a.(nodes := a.nodes + 1, seen := a.seen + {key})).value;
    var visit := b.visits[|a.visits|];
    if Kind(Block(d, key)) == FILE {
      assert Members([]) == {};
      TakeIsFresh(d, Block(d, key), key, 72, Taken(a.seen + {key}, []), 0, a.seen + {key});
    }
    assert Owned(visit) !! a.seen && Owned(visit) <= b.seen;
    forall i | 0 <= i < |a.visits|
      ensures b.visits[i] == a.visits[i] && Owned(b.visits[i]) <= b.seen
    {
    }
    assert NoRepeats([visit.key] + visit.blocks) by {
      forall i, j | 0 <= i < j < |[visit.key] + visit.blocks|
        ensures ([visit.key] + visit.blocks)[i] != ([visit.key] + visit.blocks)[j]
      {
        assert visit.blocks[j - 1] in Members(visit.blocks);
      }
    }
  }

  lemma {:induction false} BucketsDisjoint(d: Disk, directory: seq<byte>, bucket: nat, a: Audit, maxNodes: nat)
    requires Sized(d) && |directory| == BLOCK && bucket <= 72 && Disjoint(a)
    requires V.WalkBuckets(d, directory, bucket, a, maxNodes).Ok?
    ensures Disjoint(V.WalkBuckets(d, directory, bucket, a, maxNodes).value)
    decreases Keys() - a.seen, 73 - bucket
  {
    hide Block, Slot, Disjoint;
    if bucket < 72 {
      ChainDisjoint(d, Slot(directory, bucket), a, maxNodes);
      BucketsDisjoint(d, directory, bucket + 1, V.WalkChain(d, Slot(directory, bucket), a, maxNodes).value, maxNodes);
    }
  }

  lemma {:induction false} ChainDisjoint(d: Disk, key: nat, a: Audit, maxNodes: nat)
    requires Sized(d) && IsKey(key) && Disjoint(a)
    requires V.WalkChain(d, key, a, maxNodes).Ok?
    ensures Disjoint(V.WalkChain(d, key, a, maxNodes).value)
    decreases Keys() - a.seen, 0
  {
    hide Block, NextInChain, IsHeader, Kind, VisitHeader, Disjoint;
    if key != 0 {
      assert key in Keys();
      var header := Block(d, key);
      var b := VisitHeader(d, key, a.(nodes := a.nodes + 1, seen := a.seen + {key})).value;
      VisitDisjoint(d, key, a);
      if Kind(header) == DIRECTORY {
        BucketsDisjoint(d, header, 0, b, maxNodes);
        ChainDisjoint(d, NextInChain(header), V.WalkBuckets(d, header, 0, b, maxNodes).value, maxNodes);
      } else {
        ChainDisjoint(d, NextInChain(header), b, maxNodes);
      }
    }
  }

  // ----- the theorem -----

  /**
   On an image whose root is valid and whose reference walk succeeds, the extractor succeeds exactly when every
   visited header has a kind and a name it accepts and the volume name is readable; it then returns the visited
   files in order at full size.  In either case no visited header or data block belongs to two entries.
   */
  lemma ExtractorRefinesWalk(data: seq<byte>, maxNodes: nat)
    requires |data| == IMAGE_SIZE && data[0] == 0x44 && data[1] == 0x4F && data[2] == 0x53 && data[3] in {0, 1}
    requires RootValid(X.DiskOf(data)) && V.Walk(X.DiskOf(data), maxNodes).Ok?
    ensures var d := X.DiskOf(data);
            var audit := V.Walk(d, maxNodes).value;
            && (X.Parse(data).Ok? <==> AllAccepted(d, audit.visits, 0) && HasCountedString(Block(d, ROOT), 432))
            && (X.Parse(data).Ok? ==> X.Parse(data).value.Some? && Reads(d, audit.visits, X.Parse(data).value.value))
            && Disjoint(audit)
  {
    hide Block, Be32, WordSum, HasCountedString, Accepted, X.WalkBuckets, V.WalkBuckets;
    var d := X.DiskOf(data);
    BucketsAgree(d, Block(d, ROOT), 0, [], Start(), X.Found([], {ROOT}), maxNodes);
    BucketsDisjoint(d, Block(d, ROOT), 0, Start(), maxNodes);
  }
}
