/** CREATE, TAG, TRUNCATE and DELETE keep the filesystem consistent and touch only their own blocks. */
module FsNamespace {
  import opened Common
  import opened FsModel
  import opened FsTheorems

  /** The logical blocks in `ids` exist before and after, with the same content. */
  ghost predicate Kept(s: FsState, t: FsState, ids: set<BlockId>)
    requires Shape(s) && Shape(t)
  {
    forall x :: x in ids ==> x in s.links && x in t.links && Content(t, x) == Content(s, x)
  }

  /** No physical block and no entry of the hash index changes, and no logical block that stays is relinked. */
  ghost predicate SameStore(s: FsState, t: FsState) {
    && t.disk == s.disk && t.md5 == s.md5 && t.index == s.index && t.blockSize == s.blockSize
    && forall x :: x in s.links && x in t.links ==> t.links[x] == s.links[x]
  }

  // ---------------------------------------------------------------- CREATE

  lemma CreateFileKeeps(s: FsState, ft: FileTag)
    requires Consistent(s)
    ensures var (t, code) := CreateFile(s, ft);
            && Consistent(t) && (code == 0 <==> ft !in s.meta)
            && t.links == s.links && Kept(s, t, s.links.Keys) && SameStore(s, t)
            && t.dirs == if code == 0 then s.dirs + {ft.file} else s.dirs
  {
    var t := CreateFile(s, ft).0;
    assert forall p :: Referenced(t, p) == Referenced(s, p);
  }

  // ---------------------------------------------------------------- TAG

  ghost function Renamed(names: set<BlockId>, dst: FileTag): set<BlockId> {
    set id | id in names :: BlockId(dst, id.block)
  }

  lemma RenamedMembers(names: set<BlockId>, src: FileTag, dst: FileTag, y: BlockId)
    requires forall id :: id in names ==> id.ft == src
    ensures y in Renamed(names, dst) <==> y.ft == dst && BlockId(src, y.block) in names
  {
    assert y.ft == dst ==> BlockId(dst, BlockId(src, y.block).block) == y;
    if y in Renamed(names, dst) {
      var id :| id in names && y == BlockId(dst, id.block);
      assert id == BlockId(src, y.block);
    }
  }

  /** Renaming the names of one tag gives as many names of another. */
  lemma {:induction false} RenamedCount(names: set<BlockId>, src: FileTag, dst: FileTag)
    requires forall id :: id in names ==> id.ft == src
    ensures |Renamed(names, dst)| == |names|
  {
    if names != {} {
      var x :| x in names;
      RenamedCount(names - {x}, src, dst);
      var y := BlockId(dst, x.block);
      RenamedMembers(names - {x}, src, dst, y);
      assert x == BlockId(src, x.block);
      assert Renamed(names, dst) == Renamed(names - {x}, dst) + {y};
    }
  }

  lemma CopyLinksTargets(s: FsState, src: FileTag, dst: FileTag)
    requires forall id :: id in s.links ==> id.ft != dst
    ensures var t := CopyLinks(s, src, dst);
            && (forall id :: id in t.links <==> id in s.links || (id.ft == dst && BlockId(src, id.block) in s.links))
            && (forall id :: id in s.links ==> t.links[id] == s.links[id])
            && (forall id :: id in t.links && id.ft == dst ==> t.links[id] == s.links[BlockId(src, id.block)])
  {
    var t := CopyLinks(s, src, dst);
    forall id: BlockId | id.ft == dst && BlockId(src, id.block) in s.links
      ensures id in t.links && t.links[id] == s.links[BlockId(src, id.block)]
    {
      assert BlockId(dst, BlockId(src, id.block).block) == id;
    }
  }

  lemma CopiedRefs(links: map<BlockId, nat>, copied: map<BlockId, nat>, src: FileTag, dst: FileTag, p: nat)
    requires forall id :: id in links ==> id.ft != dst
    requires forall id :: id in copied <==> id in links || (id.ft == dst && BlockId(src, id.block) in links)
    requires forall id :: id in links ==> copied[id] == links[id]
    requires forall id :: id in copied && id.ft == dst ==> copied[id] == links[BlockId(src, id.block)]
    ensures |Refs(copied, p)| == |Refs(links, p)| + |NamesIn(links, src, p)|
  {
    var names := NamesIn(links, src, p);
    var renamed := Renamed(names, dst);
    RenamedCount(names, src, dst);
    forall y
      ensures y in Refs(copied, p) <==> y in Refs(links, p) || y in renamed
      ensures !(y in Refs(links, p) && y in renamed)
    {
      RenamedMembers(names, src, dst, y);
    }
    hide Renamed;
    assert Refs(copied, p) == Refs(links, p) + renamed && Refs(links, p) !! renamed;
  }

  lemma CopyLinksCounts(s: FsState, src: FileTag, dst: FileTag)
    requires LinkCounts(s) && forall id :: id in s.links ==> id.ft != dst
    ensures LinkCounts(CopyLinks(s, src, dst))
  {
    hide Refs;
    CopyLinksTargets(s, src, dst);
    forall p | 0 <= p < |s.nlink|
      ensures CopyLinks(s, src, dst).nlink[p] == 1 + |Refs(CopyLinks(s, src, dst).links, p)|
    {
      CopiedRefs(s.links, CopyLinks(s, src, dst).links, src, dst, p);
    }
  }

  lemma ForkMeta(s: FsState, src: FileTag, dst: FileTag)
    requires Consistent(s) && src in s.meta && dst !in s.meta && dst.file in s.dirs
    ensures var t := CreateTag(s, src, dst).0; Shape(t) && MetaOk(t) && ZeroBlock(t)
  {
    var t := CreateTag(s, src, dst).0;
    CopyLinksTargets(s, src, dst);
    hide LinkCounts, BitmapOk, CopyLinks;
    forall ft, b | ft in t.meta && 0 <= b < |t.meta[ft].blocks|
      ensures BlockId(ft, b) in t.links
    {
      assert ft == dst ==> BlockId(src, b) in s.links;
    }
  }

  lemma ForkConsistent(s: FsState, src: FileTag, dst: FileTag)
    requires Consistent(s) && src in s.meta && dst !in s.meta && dst.file in s.dirs
    ensures Consistent(CreateTag(s, src, dst).0)
  {
    var c := CopyLinks(s, src, dst);
    var t := CreateTag(s, src, dst).0;
    ForkMeta(s, src, dst);
    CopyLinksCounts(s, src, dst);
    ForkBitmap(s, src, dst);
    SameCounts(c, t);
    hide LinkCounts, MetaOk, ZeroBlock;
    assert forall p :: Referenced(t, p) == Referenced(c, p);
  }

  /** A fork succeeds exactly from an existing tag to a new one of a file that has a directory. It reads as its
      source; nothing else changes. */
  lemma ForkKeeps(s: FsState, src: FileTag, dst: FileTag)
    requires Consistent(s)
    ensures CreateTag(s, src, dst).1 == 0 <==> src in s.meta && dst !in s.meta && dst.file in s.dirs
    ensures CreateTag(s, src, dst).0.dirs == s.dirs && (CreateTag(s, src, dst).1 != 0 ==> CreateTag(s, src, dst).0 == s)
    ensures Consistent(CreateTag(s, src, dst).0)
    ensures Kept(s, CreateTag(s, src, dst).0, s.links.Keys) && SameStore(s, CreateTag(s, src, dst).0)
    ensures CreateTag(s, src, dst).1 == 0 ==>
              var t := CreateTag(s, src, dst).0;
              && t.meta == s.meta[dst := s.meta[src].(state := WorkInProgress)]
              && forall b :: 0 <= b < |s.meta[src].blocks| ==>
                               BlockId(dst, b) in t.links && BlockId(src, b) in s.links && Content(t, BlockId(dst, b)) == Content(s, BlockId(src, b))
  {
    if src in s.meta && dst !in s.meta && dst.file in s.dirs {
      CopyLinksTargets(s, src, dst);
      ForkConsistent(s, src, dst);
    }
  }

  lemma ForkBitmap(s: FsState, src: FileTag, dst: FileTag)
    requires Consistent(s) && dst !in s.meta
    ensures forall p :: Referenced(CopyLinks(s, src, dst), p) <==> Referenced(s, p)
  {
    var t := CopyLinks(s, src, dst);
    CopyLinksTargets(s, src, dst);
    forall p
      ensures Referenced(t, p) <==> Referenced(s, p)
    {
      forall id | id in s.links && s.links[id] == p
        ensures Referenced(t, p)
      {
        assert t.links[id] == p;
      }
      forall id | id in t.links && t.links[id] == p
        ensures Referenced(s, p)
      {
        if id.ft == dst {
          assert s.links[BlockId(src, id.block)] == p;
        } else {
          assert s.links[id] == p;
        }
      }
    }
  }

  // ---------------------------------------------------------------- deleting logical blocks

  /** Deleting a logical block frees its physical block exactly when no other name of it is left. */
  lemma DeleteLogicalKeeps(s: FsState, id: BlockId)
    requires Core(s) && id in s.links && id != BlockId(BASE, 0)
    ensures var (t, code) := DeleteLogicalBlock(s, id, s.links[id]);
            && code == 0 && Core(t) && t.links == s.links - {id}
            && t == s.(links := t.links, nlink := t.nlink, bitmap := t.bitmap)
  {
    var u := Unlink(s, id);
    var p := s.links[id];
    UnlinkKeepsCounts(s, id);
    AloneIffUnreferenced(u, p);
    var t := DeleteLogicalBlock(s, id, p).0;
    hide LinkCounts;
    forall x | 0 <= x < |t.bitmap|
      ensures t.bitmap[x] <==> x < |t.disk| && Referenced(t, x)
    {
      assert Referenced(t, x) == Referenced(u, x);
      if x != p {
        ReferencedAfterUnlink(s, id, x);
      } else {
        assert Referenced(s, p);
      }
    }
    assert LinkCounts(t) by {
      assert t.links == u.links && t.nlink == u.nlink;
      SameCounts(u, t);
    }
  }

  lemma SameCounts(s: FsState, t: FsState)
    requires LinkCounts(s) && t.links == s.links && t.nlink == s.nlink
    ensures LinkCounts(t)
  {
  }

  lemma ReferencedAfterUnlink(s: FsState, id: BlockId, p: nat)
    requires id in s.links && s.links[id] != p && s.links[id] < |s.nlink|
    ensures Referenced(Unlink(s, id), p) <==> Referenced(s, p)
  {
    var u := Unlink(s, id);
    forall x | x in s.links && s.links[x] == p
      ensures Referenced(u, p)
    {
      assert u.links[x] == p;
    }
    forall x | x in u.links && u.links[x] == p
      ensures Referenced(s, p)
    {
      assert s.links[x] == p;
    }
  }

  /** The logical blocks of `ft` from `from` on. */
  ghost function Tail(ft: FileTag, from: nat, end: nat): set<BlockId> {
    set b | from <= b < end :: BlockId(ft, b)
  }

  ghost predicate Recorded(s: FsState, ft: FileTag, from: nat, blocks: seq<nat>) {
    forall b :: from <= b < |blocks| ==> BlockId(ft, b) in s.links && s.links[BlockId(ft, b)] == blocks[b]
  }

  lemma {:induction false} ShrinkKeeps(s: FsState, ft: FileTag, from: nat, blocks: seq<nat>)
    requires Core(s) && (ft == BASE ==> 0 < from) && Recorded(s, ft, from, blocks)
    ensures var t := ShrinkFrom(s, ft, from, blocks);
            && Core(t) && t.links == s.links - Tail(ft, from, |blocks|)
            && t == s.(links := t.links, nlink := t.nlink, bitmap := t.bitmap)
    decreases |blocks| - from
  {
    hide LinkCounts, LinksRecorded, BitmapOk, ZeroBlock, DeleteLogicalBlock;
    if from < |blocks| {
      var id := BlockId(ft, from);
      DeleteLogicalKeeps(s, id);
      var u := DeleteLogicalBlock(s, id, blocks[from]).0;
      ShrinkKeeps(u, ft, from + 1, blocks);
      assert Tail(ft, from, |blocks|) == Tail(ft, from + 1, |blocks|) + {id};
      assert s.links - {id} - Tail(ft, from + 1, |blocks|) == s.links - Tail(ft, from, |blocks|);
    } else {
      assert Tail(ft, from, |blocks|) == {};
      assert s.links - {} == s.links;
    }
  }

  lemma {:induction false} DeleteFromKeeps(s: FsState, ft: FileTag, from: nat, blocks: seq<nat>)
    requires Core(s) && (ft == BASE ==> 0 < from) && Recorded(s, ft, from, blocks)
    ensures DeleteFrom(s, ft, from, blocks) == (ShrinkFrom(s, ft, from, blocks), 0)
    decreases |blocks| - from
  {
    if from < |blocks| {
      DeleteLogicalKeeps(s, BlockId(ft, from));
      var u := DeleteLogicalBlock(s, BlockId(ft, from), blocks[from]).0;
      DeleteFromKeeps(u, ft, from + 1, blocks);
    }
  }

  // ---------------------------------------------------------------- TRUNCATE

  /** BlockCount rounds up. */
  lemma BlockCountIsCeiling(size: nat, blockSize: nat)
    requires 0 < blockSize
    ensures var n := BlockCount(size, blockSize);
            size <= n * blockSize < size + blockSize
  {
    var n := BlockCount(size, blockSize);
    assert size + blockSize - 1 == n * blockSize + (size + blockSize - 1) % blockSize;
  }

  lemma {:induction false} GrowKeeps(s: FsState, ft: FileTag, from: nat, end: nat)
    requires LinkCounts(s) && 0 < |s.nlink| && from <= end
    requires forall b :: from <= b < end ==> BlockId(ft, b) !in s.links
    ensures var (t, code) := GrowFrom(s, ft, from, end);
            && code == 0 && LinkCounts(t) && t == s.(links := t.links, nlink := t.nlink) && |t.nlink| == |s.nlink|
            && (forall id :: id in t.links <==> id in s.links || id in Tail(ft, from, end))
            && (forall id :: id in s.links ==> t.links[id] == s.links[id])
            && (forall id :: id in Tail(ft, from, end) ==> t.links[id] == 0)
    decreases end - from
  {
    if from < end {
      var id := BlockId(ft, from);
      LinkKeepsCounts(s, id, 0);
      GrowKeeps(Link(s, id, 0), ft, from + 1, end);
      assert Tail(ft, from, end) == Tail(ft, from + 1, end) + {id};
    }
  }

  /** What a successful truncate leaves: the rounded-up number of blocks, kept blocks with their content,
      new blocks reading as zeros, and every other tag untouched. */
  ghost predicate Truncated(s: FsState, t: FsState, ft: FileTag, size: nat)
    requires Shape(s) && Shape(t) && ft in s.meta && ft in t.meta
  {
    var n := BlockCount(size, s.blockSize);
    && |t.meta[ft].blocks| == n && t.meta[ft].size == size && t.meta[ft].state == s.meta[ft].state
    && t.meta == s.meta[ft := t.meta[ft]]
    && Kept(s, t, set id | id in s.links && (id.ft != ft || id.block < n))
    && (forall id :: id in t.links ==> id.ft != ft || id.block < n)
    && (forall b :: |s.meta[ft].blocks| <= b < n ==> BlockId(ft, b) in t.links && Content(t, BlockId(ft, b)) == Zeros(s.blockSize))
  }

  lemma ShrinkTruncates(s: FsState, ft: FileTag, size: nat)
    requires Consistent(s) && ft in s.meta && BlockCount(size, s.blockSize) <= |s.meta[ft].blocks|
    requires ft == BASE ==> 0 < BlockCount(size, s.blockSize)
    ensures var (t, code) := Truncate(s, ft, size); code == 0 && Consistent(t) && Truncated(s, t, ft, size) && SameStore(s, t) && t.dirs == s.dirs
  {
    hide ShrinkFrom, LinkCounts, LinksRecorded, MetaOk, BitmapOk;
    var m := s.meta[ft];
    var n := BlockCount(size, s.blockSize);
    MetaIsRecordedFrom(s, ft, n);
    ShrinkKeeps(s, ft, n, m.blocks);
    var u := ShrinkFrom(s, ft, n, m.blocks);
    var t := Truncate(s, ft, size).0;
    ShrinkConsistent(s, u, t, ft, n, size);
    TailIsRest(s, ft, n);
  }

  lemma MetaIsRecordedFrom(s: FsState, ft: FileTag, n: nat)
    requires Consistent(s) && ft in s.meta
    ensures Recorded(s, ft, n, s.meta[ft].blocks)
  {
  }

  lemma TailIsRest(s: FsState, ft: FileTag, n: nat)
    requires LinksRecorded(s) && ft in s.meta
    ensures forall id :: id in s.links && id.ft == ft && n <= id.block ==> id in Tail(ft, n, |s.meta[ft].blocks|)
  {
    forall id | id in s.links && id.ft == ft && n <= id.block
      ensures id in Tail(ft, n, |s.meta[ft].blocks|)
    {
      assert id == BlockId(ft, id.block);
    }
  }

  lemma ShrinkConsistent(s: FsState, u: FsState, t: FsState, ft: FileTag, n: nat, size: nat)
    requires Consistent(s) && Core(u) && ft in s.meta && (ft == BASE ==> 0 < n) && n <= |s.meta[ft].blocks|
    requires u == s.(links := u.links, nlink := u.nlink, bitmap := u.bitmap)
    requires u.links == s.links - Tail(ft, n, |s.meta[ft].blocks|)
    requires t == u.(meta := s.meta[ft := s.meta[ft].(size := size, blocks := s.meta[ft].blocks[..n])])
    ensures Consistent(t)
  {
    SameCounts(u, t);
    ShrinkMeta(s, t, ft, n, size);
    SameBitmap(u, t);
    hide LinkCounts, LinksRecorded, MetaOk, BitmapOk;
    MetaIsRecorded(t);
  }

  lemma MetaIsRecorded(s: FsState)
    requires MetaOk(s)
    ensures LinksRecorded(s)
  {
  }

  lemma SameBitmap(s: FsState, t: FsState)
    requires BitmapOk(s) && t.links == s.links && t.bitmap == s.bitmap && t.disk == s.disk
    ensures BitmapOk(t)
  {
    assert forall p :: Referenced(t, p) == Referenced(s, p);
  }

  lemma ShrinkMeta(s: FsState, t: FsState, ft: FileTag, n: nat, size: nat)
    requires MetaOk(s) && ft in s.meta && n <= |s.meta[ft].blocks|
    requires t.meta == s.meta[ft := s.meta[ft].(size := size, blocks := s.meta[ft].blocks[..n])]
    requires t.links == s.links - Tail(ft, n, |s.meta[ft].blocks|)
    ensures MetaOk(t)
  {
    forall id | id in t.links
      ensures id.ft in t.meta && id.block < |t.meta[id.ft].blocks| && t.meta[id.ft].blocks[id.block] == t.links[id]
    {
      assert id in s.links && id == BlockId(id.ft, id.block);
    }
    forall g, b | g in t.meta && 0 <= b < |t.meta[g].blocks|
      ensures BlockId(g, b) in t.links
    {
      assert BlockId(g, b) in s.links;
    }
  }

  lemma GrowTruncates(s: FsState, ft: FileTag, size: nat)
    requires Consistent(s) && ft in s.meta && |s.meta[ft].blocks| < BlockCount(size, s.blockSize)
    ensures var (t, code) := Truncate(s, ft, size); code == 0 && Consistent(t) && Truncated(s, t, ft, size) && SameStore(s, t) && t.dirs == s.dirs
  {
    var m := s.meta[ft];
    var n := BlockCount(size, s.blockSize);
    GrowKeeps(s, ft, |m.blocks|, n);
    var u := GrowFrom(s, ft, |m.blocks|, n).0;
    var t := Truncate(s, ft, size).0;
    hide GrowFrom, LinkCounts;
    SameCounts(u, t);
    GrowMeta(s, t, ft, n, size);
    forall p
      ensures Referenced(t, p) <==> Referenced(s, p)
    {
      GrowReferenced(s, t, ft, |m.blocks|, n, p);
    }
    forall b | |m.blocks| <= b < n
      ensures BlockId(ft, b) in t.links && t.links[BlockId(ft, b)] == 0
    {
      assert BlockId(ft, b) in Tail(ft, |m.blocks|, n);
    }
  }

  lemma GrowReferenced(s: FsState, t: FsState, ft: FileTag, from: nat, end: nat, p: nat)
    requires ZeroBlock(s)
    requires forall id :: id in t.links <==> id in s.links || id in Tail(ft, from, end)
    requires forall id :: id in s.links ==> t.links[id] == s.links[id]
    requires forall id :: id in Tail(ft, from, end) ==> t.links[id] == 0
    ensures Referenced(t, p) <==> Referenced(s, p)
  {
    assert s.links[BlockId(BASE, 0)] == 0;
    forall id | id in s.links && s.links[id] == p
      ensures Referenced(t, p)
    {
      assert t.links[id] == p;
    }
    forall id | id in t.links && t.links[id] == p
      ensures Referenced(s, p)
    {
      if id in s.links {
        assert s.links[id] == p;
      }
    }
  }

  lemma GrowMeta(s: FsState, t: FsState, ft: FileTag, n: nat, size: nat)
    requires MetaOk(s) && ft in s.meta && |s.meta[ft].blocks| < n
    requires t.meta == s.meta[ft := s.meta[ft].(size := size, blocks := s.meta[ft].blocks + seq(n - |s.meta[ft].blocks|, _ => 0))]
    requires forall id :: id in t.links <==> id in s.links || id in Tail(ft, |s.meta[ft].blocks|, n)
    requires forall id :: id in s.links ==> t.links[id] == s.links[id]
    requires forall id :: id in Tail(ft, |s.meta[ft].blocks|, n) ==> t.links[id] == 0
    ensures MetaOk(t)
  {
    forall g, b | g in t.meta && 0 <= b < |t.meta[g].blocks|
      ensures BlockId(g, b) in t.links
    {
      if g == ft && |s.meta[ft].blocks| <= b {
        assert BlockId(g, b) in Tail(ft, |s.meta[ft].blocks|, n);
      } else {
        assert BlockId(g, b) in s.links;
      }
    }
  }

  /** Truncate is correct for every size, growing or shrinking. */
  lemma TruncateKeeps(s: FsState, ft: FileTag, size: nat)
    requires Consistent(s) && ft in s.meta && (ft == BASE ==> 0 < BlockCount(size, s.blockSize))
    ensures var (t, code) := Truncate(s, ft, size); code == 0 && Consistent(t) && Truncated(s, t, ft, size) && SameStore(s, t) && t.dirs == s.dirs
  {
    if BlockCount(size, s.blockSize) <= |s.meta[ft].blocks| {
      ShrinkTruncates(s, ft, size);
    } else {
      GrowTruncates(s, ft, size);
    }
  }

  /** The source lets initial_file:BASE be truncated: the filesystem survives exactly the sizes that leave it a
      block, because its first block is what keeps physical block 0 allocated, shared and zero. */
  lemma TruncateBaseKeepsIff(s: FsState, size: nat)
    requires Consistent(s)
    ensures Consistent(Truncate(s, BASE, size).0) <==> 1 <= BlockCount(size, s.blockSize)
  {
    if 1 <= BlockCount(size, s.blockSize) {
      TruncateKeeps(s, BASE, size);
    } else {
      assert Truncate(s, BASE, size).0.meta[BASE].blocks == [];
    }
  }

  // ---------------------------------------------------------------- DELETE

  /** The tag is gone, its unshared blocks are free again, and every other tag reads as before. */
  lemma DeleteKeeps(s: FsState, ft: FileTag)
    requires Consistent(s)
    ensures var (t, code) := DeleteTag(s, ft);
            && (code == 0 <==> ft in s.meta && ft != BASE) && Consistent(t) && SameStore(s, t) && t.dirs == s.dirs
            && (code == 0 ==>
                  && t.meta == s.meta - {ft}
                  && t.links.Keys == (set id | id in s.links && id.ft != ft)
                  && Kept(s, t, set id | id in s.links && id.ft != ft))
  {
    if ft in s.meta && ft != BASE {
      var blocks := s.meta[ft].blocks;
      ShrinkKeeps(s, ft, 0, blocks);
      DeleteFromKeeps(s, ft, 0, blocks);
      hide ShrinkFrom, DeleteFrom, RemoveDirectory;
      RemoveEmptyDirectory(s, ShrinkFrom(s, ft, 0, blocks), ft);
    }
  }

  lemma RemoveEmptyDirectory(s: FsState, u: FsState, ft: FileTag)
    requires Consistent(s) && Core(u) && ft in s.meta && ft != BASE
    requires u == s.(links := u.links, nlink := u.nlink, bitmap := u.bitmap)
    requires u.links == s.links - Tail(ft, 0, |s.meta[ft].blocks|)
    ensures var t := RemoveDirectory(u, ft);
            && Consistent(t) && SameStore(s, t) && t.meta == s.meta - {ft} && t.dirs == s.dirs
            && t.links.Keys == (set id | id in s.links && id.ft != ft)
            && Kept(s, t, set id | id in s.links && id.ft != ft)
  {
    TailIsRest(s, ft, 0);
    NoNamesLeft(u, ft);
    var t := RemoveDirectory(u, ft);
    hide RemoveDirectory, LinkCounts, BitmapOk;
    SameCounts(u, t);
    SameBitmap(u, t);
    forall g, b | g in t.meta && 0 <= b < |t.meta[g].blocks|
      ensures BlockId(g, b) in t.links
    {
      assert BlockId(g, b) in s.links;
    }
  }

  lemma NoNamesLeft(u: FsState, ft: FileTag)
    requires forall id :: id in u.links ==> id.ft != ft
    ensures RemoveDirectory(u, ft) == u.(meta := u.meta - {ft})
  {
    var t := RemoveDirectory(u, ft);
    forall p | 0 <= p < |u.nlink|
      ensures t.nlink[p] == u.nlink[p]
    {
      assert NamesIn(u.links, ft, p) == {};
    }
    assert t.nlink == u.nlink;
    assert t.links == u.links;
  }
}
