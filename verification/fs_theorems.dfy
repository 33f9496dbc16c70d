/** What keeps Storage's filesystem consistent, and what a write may touch. */
module FsTheorems {
  import opened Common
  import opened FsModel

  /** The logical blocks that are names of physical block `p`. */
  ghost function Refs(links: map<BlockId, nat>, p: nat): set<BlockId> {
    set id | id in links && links[id] == p
  }

  /** The inode's link count: the physical block's own name plus one per logical block. */
  ghost predicate LinkCounts(s: FsState) {
    forall p :: 0 <= p < |s.nlink| ==> s.nlink[p] == 1 + |Refs(s.links, p)|
  }

  /** Every hard link is recorded in the BLOCKS of its metadata file. */
  ghost predicate LinksRecorded(s: FsState) {
    forall id :: id in s.links ==>
                   id.ft in s.meta && id.block < |s.meta[id.ft].blocks| && s.meta[id.ft].blocks[id.block] == s.links[id]
  }

  /** The BLOCKS of every metadata file are exactly the targets of its hard links. */
  ghost predicate MetaOk(s: FsState) {
    && LinksRecorded(s)
    && (forall ft, b :: ft in s.meta && 0 <= b < |s.meta[ft].blocks| ==> BlockId(ft, b) in s.links)
  }

  ghost predicate Referenced(s: FsState, p: nat) {
    exists id :: id in s.links && s.links[id] == p
  }

  /** A bit is set exactly when some logical block is a name of that physical block. */
  ghost predicate BitmapOk(s: FsState) {
    forall p :: 0 <= p < |s.bitmap| ==> (s.bitmap[p] <==> p < |s.disk| && Referenced(s, p))
  }

  /** initial_file:BASE is committed, its first block is physical block 0, and that block is all zeros. */
  ghost predicate ZeroBlock(s: FsState) {
    && BASE in s.meta && 0 < |s.meta[BASE].blocks| && s.meta[BASE].state == Committed
    && BlockId(BASE, 0) in s.links && s.links[BlockId(BASE, 0)] == 0
    && 0 < |s.disk| && s.disk[0] == Zeros(s.blockSize)
  }

  /** What also holds in the middle of a truncate or delete. */
  ghost predicate Core(s: FsState) {
    Shape(s) && LinkCounts(s) && LinksRecorded(s) && BitmapOk(s) && ZeroBlock(s)
  }

  ghost predicate Consistent(s: FsState) {
    Core(s) && MetaOk(s)
  }

  /** What a reader of logical block `id` gets. */
  function Content(s: FsState, id: BlockId): Block
    requires id in s.links && s.links[id] < |s.disk|
  {
    s.disk[s.links[id]]
  }

  lemma ReadIsContent(s: FsState, id: BlockId)
    requires Consistent(s)
    ensures ReadBlock(s, id).0 == 0 <==> id in s.links
    ensures id in s.links ==> ReadBlock(s, id).1 == Content(s, id)
    ensures id !in s.links ==> ReadBlock(s, id).0 == if id.ft in s.meta then READ_OUT_OF_BOUNDS else FILE_TAG_MISSING
  {
  }

  // ---------------------------------------------------------------- link counts

  lemma RefsAfterLink(links: map<BlockId, nat>, id: BlockId, p: nat, x: nat)
    requires id !in links
    ensures |Refs(links[id := p], x)| == |Refs(links, x)| + if x == p then 1 else 0
  {
    assert Refs(links[id := p], x) == if x == p then Refs(links, x) + {id} else Refs(links, x);
  }

  lemma RefsAfterUnlink(links: map<BlockId, nat>, id: BlockId, x: nat)
    requires id in links
    ensures |Refs(links - {id}, x)| == |Refs(links, x)| - if x == links[id] then 1 else 0
  {
    assert Refs(links - {id}, x) == if x == links[id] then Refs(links, x) - {id} else Refs(links, x);
  }

  lemma LinkKeepsCounts(s: FsState, id: BlockId, p: nat)
    requires LinkCounts(s) && id !in s.links && p < |s.nlink|
    ensures LinkCounts(Link(s, id, p))
  {
    hide Refs;
    forall x | 0 <= x < |s.nlink|
      ensures Link(s, id, p).nlink[x] == 1 + |Refs(Link(s, id, p).links, x)|
    {
      RefsAfterLink(s.links, id, p, x);
    }
  }

  lemma UnlinkKeepsCounts(s: FsState, id: BlockId)
    requires LinkCounts(s) && id in s.links && s.links[id] < |s.nlink|
    ensures LinkCounts(Unlink(s, id))
  {
    hide Refs;
    forall x | 0 <= x < |s.nlink|
      ensures Unlink(s, id).nlink[x] == 1 + |Refs(Unlink(s, id).links, x)|
    {
      RefsAfterUnlink(s.links, id, x);
    }
  }

  lemma TwoElementsIff(r: set<BlockId>, a: BlockId)
    requires a in r
    ensures 2 <= |r| <==> exists b :: b in r && b != a
  {
    assert |r - {a}| == |r| - 1;
    if 2 <= |r| {
      var b :| b in r - {a};
    }
    forall b | b in r && b != a
      ensures 2 <= |r|
    {
      assert b in r - {a};
    }
  }

  /** The local test `nlink > 2` decides a global fact: another logical block is a name of the same block. */
  lemma SharedIffAliased(s: FsState, id: BlockId)
    requires LinkCounts(s) && id in s.links && s.links[id] < |s.nlink|
    ensures Shared(s, id) <==> exists x :: x in s.links && x != id && s.links[x] == s.links[id]
  {
    var r := Refs(s.links, s.links[id]);
    TwoElementsIff(r, id);
    assert forall x :: x in r <==> x in s.links && s.links[x] == s.links[id];
  }

  /** A link count of 1 means that no logical block is left. */
  lemma AloneIffUnreferenced(s: FsState, p: nat)
    requires LinkCounts(s) && p < |s.nlink|
    ensures 1 <= s.nlink[p]
    ensures s.nlink[p] == 1 <==> !Referenced(s, p)
  {
    var r := Refs(s.links, p);
    assert forall x :: x in r <==> x in s.links && s.links[x] == p;
    assert |r| == 0 <==> r == {};
    assert r != {} <==> exists x :: x in r;
  }

  // ---------------------------------------------------------------- WRITE

  /** A write would find a physical block to move a shared logical block to. */
  ghost predicate HasFreeBlock(s: FsState)
    requires |s.disk| <= |s.bitmap|
  {
    exists p :: 0 <= p < |s.disk| && !s.bitmap[p]
  }

  predicate Writable(s: FsState, id: BlockId) {
    id.ft in s.meta && s.meta[id.ft].state == WorkInProgress && id.block < |s.meta[id.ft].blocks|
  }

  lemma FreeBitInRange(s: FsState)
    requires Consistent(s)
    ensures FreeBit(s.bitmap) < |s.disk| <==> HasFreeBlock(s)
    ensures FreeBit(s.bitmap) < |s.disk| ==> !Referenced(s, FreeBit(s.bitmap))
  {
  }

  /** A write succeeds exactly on an existing block of an uncommitted tag, given a free physical block if
      the block is shared. */
  lemma WriteSucceedsIff(s: FsState, id: BlockId, data: seq<Byte>)
    requires Consistent(s)
    ensures WriteBlock(s, id, data).1 == 0 <==> Writable(s, id) && (Shared(s, id) ==> HasFreeBlock(s))
  {
    FreeBitInRange(s);
  }

  /** The target holds the data, zero-padded or cut to one block; every other logical block of every tag
      reads as before. */
  ghost predicate OnlyWrote(s: FsState, t: FsState, id: BlockId, data: seq<Byte>)
    requires Shape(s) && Shape(t)
  {
    && t.links.Keys == s.links.Keys && id in t.links
    && Content(t, id) == Fit(data, s.blockSize)
    && forall x :: x in s.links && x != id ==> Content(t, x) == Content(s, x)
  }

  lemma StoreKeeps(s: FsState, id: BlockId, data: seq<Byte>)
    requires Consistent(s) && id in s.links && !Shared(s, id) && Writable(s, id)
    ensures Consistent(Store(s, id, data)) && OnlyWrote(s, Store(s, id, data), id, data)
  {
    SharedIffAliased(s, id);
    assert s.links[id] != 0;
    var t := Store(s, id, data);
    assert t.links == s.links;
    assert forall p :: Referenced(t, p) == Referenced(s, p);
  }

  lemma CopyOnWriteKeepsShape(s: FsState, id: BlockId, q: nat)
    requires Consistent(s) && Shared(s, id) && Writable(s, id) && q < |s.disk|
    ensures Shape(CopyOnWrite(s, id, q)) && LinkCounts(CopyOnWrite(s, id, q)) && MetaOk(CopyOnWrite(s, id, q))
    ensures CopyOnWrite(s, id, q).links == s.links[id := q]
  {
    var t := CopyOnWrite(s, id, q);
    var u := SetBit(Unlink(s, id), q, true);
    UnlinkKeepsCounts(s, id);
    LinkKeepsCounts(u, id, q);
    assert t.links == s.links[id := q];
    forall ft, b | ft in t.meta && 0 <= b < |t.meta[ft].blocks|
      ensures BlockId(ft, b) in t.links
    {
      assert ft in s.meta && b < |s.meta[ft].blocks|;
    }
  }

  /** Moving a shared name elsewhere leaves every other block as referenced as it was. */
  lemma ReferencedAfterMove(s: FsState, t: FsState, id: BlockId, q: nat, p: nat)
    requires id in s.links && t.links == s.links[id := q] && s.links[id] != q
    requires exists x :: x in s.links && x != id && s.links[x] == s.links[id]
    ensures Referenced(t, p) <==> p == q || Referenced(s, p)
  {
    assert t.links[id] == q;
    if Referenced(s, p) {
      var x :| x in s.links && s.links[x] == p && (x != id || p == s.links[id]);
      var y :| y in s.links && y != id && s.links[y] == s.links[id];
      assert t.links[if x == id then y else x] == p;
    }
    if p != q {
      forall x | x in t.links && t.links[x] == p
        ensures Referenced(s, p)
      {
        assert s.links[x] == p;
      }
    }
  }

  lemma CopyOnWriteKeeps(s: FsState, id: BlockId, q: nat)
    requires Consistent(s) && Shared(s, id) && Writable(s, id) && q < |s.disk| && !Referenced(s, q)
    ensures Consistent(CopyOnWrite(s, id, q)) && !Shared(CopyOnWrite(s, id, q), id)
    ensures CopyOnWrite(s, id, q).links == s.links[id := q]
  {
    CopyOnWriteKeepsShape(s, id, q);
    SharedIffAliased(s, id);
    var t := CopyOnWrite(s, id, q);
    assert s.links[id] != q;
    hide LinkCounts, MetaOk;
    forall p | 0 <= p < |t.bitmap|
      ensures t.bitmap[p] <==> p < |t.disk| && Referenced(t, p)
    {
      ReferencedAfterMove(s, t, id, q, p);
    }
    SharedIffAliased(t, id);
    forall x | x in t.links && x != id
      ensures t.links[x] != q
    {
      assert s.links[x] != q;
    }
  }

  /** Copy-on-write isolation. */
  lemma WriteIsIsolated(s: FsState, id: BlockId, data: seq<Byte>)
    requires Consistent(s) && WriteBlock(s, id, data).1 == 0
    ensures var t := WriteBlock(s, id, data).0;
            Consistent(t) && OnlyWrote(s, t, id, data)
  {
    WriteSucceedsIff(s, id, data);
    assert id in s.links;
    if !Shared(s, id) {
      StoreKeeps(s, id, data);
    } else {
      FreeBitInRange(s);
      var q := FreeBit(s.bitmap);
      CopyOnWriteKeeps(s, id, q);
      var c := CopyOnWrite(s, id, q);
      StoreKeeps(c, id, data);
    }
  }

  /** The source unlinks the logical block before it looks for space: the filesystem stays consistent
      exactly when a shared block finds a free one. */
  lemma WriteKeepsConsistentIff(s: FsState, id: BlockId, data: seq<Byte>)
    requires Consistent(s)
    ensures Consistent(WriteBlock(s, id, data).0) <==> (Writable(s, id) && Shared(s, id) ==> HasFreeBlock(s))
  {
    WriteSucceedsIff(s, id, data);
    if Writable(s, id) && Shared(s, id) && !HasFreeBlock(s) {
      FreeBitInRange(s);
      var t := WriteBlock(s, id, data).0;
      assert id.ft in t.meta && id.block < |t.meta[id.ft].blocks| && BlockId(id.ft, id.block) == id;
      assert id !in t.links;
    } else if WriteBlock(s, id, data).1 == 0 {
      WriteIsIsolated(s, id, data);
    } else {
      assert Writable(s, id) ==> id in s.links;
    }
  }
}
