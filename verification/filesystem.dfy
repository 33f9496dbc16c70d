/** Storage's operations as they run: system calls, loops, and metadata and index kept in memory until saved. */
module FilesystemModule {
  import opened Common
  import opened FsModel
  import opened FsTheorems

  lemma UpdateTwice(m: map<FileTag, Metadata>, ft: FileTag, x: Metadata, y: Metadata)
    ensures m[ft := x][ft := y] == m[ft := y]
  {
  }

  class Filesystem {
    const blockSize: nat
    const md5: Block -> Digest
    var disk: seq<Block>
    var bitmap: seq<bool>
    var links: map<BlockId, nat>
    var nlink: seq<int>
    var meta: map<FileTag, Metadata>
    var index: map<Digest, nat>
    var dirs: set<string>

    ghost function State(): FsState
      reads this
    {
      FsState(blockSize, md5, disk, bitmap, links, nlink, meta, index, dirs)
    }

    ghost predicate Valid()
      reads this
    {
      0 < blockSize && |nlink| == |disk| <= |bitmap| && forall x :: x in links ==> links[x] < |disk|
    }

    // ---------------------------------------------------------------- system calls

    method LinkBlock(id: BlockId, p: nat) returns (ok: bool)
      requires Valid()
      modifies this`links, this`nlink
      ensures Valid() && ok == (id !in old(links) && p < |disk|)
      ensures State() == if ok then Link(old(State()), id, p) else old(State())
    {
      ok := id !in links && p < |disk|;
      if ok {
        links := links[id := p];
        nlink := nlink[p := nlink[p] + 1];
      }
    }

    method RemoveLink(id: BlockId) returns (ok: bool)
      requires Valid()
      modifies this`links, this`nlink
      ensures Valid() && ok == (id in old(links))
      ensures State() == if ok then Unlink(old(State()), id) else old(State())
    {
      ok := id in links;
      if ok {
        var p := links[id];
        links := links - {id};
        nlink := nlink[p := nlink[p] - 1];
      }
    }

    method GetFreeBitIndex() returns (r: nat)
      ensures r == FreeBit(bitmap)
    {
      r := 0;
      while r < |bitmap| && bitmap[r]
        invariant r <= |bitmap|
        invariant forall k :: 0 <= k < r ==> bitmap[k]
      {
        r := r + 1;
      }
    }

    // ---------------------------------------------------------------- fresh start

    /** init_bitmap, init_physical_blocks and init_files, over `totalBlocks` blocks. */
    constructor (totalBlocks: nat, blockSize: nat, md5: Block -> Digest)
      requires 0 < totalBlocks && 0 < blockSize
      ensures Valid() && State() == FreshStart(totalBlocks, blockSize, md5)
    {
      this.blockSize := blockSize;
      this.md5 := md5;
      var bits := seq((totalBlocks + 7) / 8 * 8, _ => false);
      bitmap := bits[0 := true];
      index := map[];
      dirs := {BASE.file};
      disk, nlink, links, meta := [], [], map[], map[];
      new;
      for i := 0 to totalBlocks
        invariant |disk| == |nlink| == i && links == map[] && meta == map[] && index == map[] && dirs == {BASE.file}
        invariant bitmap == bits[0 := true]
        invariant forall p :: 0 <= p < i ==> disk[p] == Zeros(blockSize) && nlink[p] == 1
      {
        disk := disk + [Zeros(blockSize)];
        nlink := nlink + [1];
      }
      var ok := LinkBlock(BlockId(BASE, 0), 0);
      meta := meta[BASE := Metadata(0, [0], Committed)];
      ghost var f := FreshStart(totalBlocks, blockSize, md5);
      assert disk == f.disk && nlink == f.nlink && bitmap == f.bitmap && links == f.links && meta == f.meta;
    }

    // ---------------------------------------------------------------- WRITE and READ

    method ExecuteBlockWrite(id: BlockId, data: seq<Byte>) returns (code: int)
      requires Valid()
      modifies this
      ensures Valid() && (State(), code) == WriteBlock(old(State()), id, data)
    {
      if id.ft !in meta { return FILE_TAG_MISSING; }
      var m := meta[id.ft];
      if m.state == Committed { return FILE_ALREADY_COMMITTED; }
      if id.block >= |m.blocks| { return READ_OUT_OF_BOUNDS; }
      if id !in links { return -1; }
      if nlink[links[id]] > 2 {
        var ok := RemoveLink(id);
        var q := GetFreeBitIndex();
        if q == |bitmap| { return NOT_ENOUGH_SPACE; }
        bitmap := bitmap[q := true];
        ok := LinkBlock(id, q);
        if !ok { return -5; }
        meta := meta[id.ft := m.(blocks := m.blocks[id.block := q])];
      }
      disk := disk[links[id] := Fit(data, blockSize)];
      return 0;
    }

    method ExecuteBlockRead(id: BlockId) returns (code: int, content: Block)
      requires Valid()
      ensures (code, content) == ReadBlock(State(), id)
    {
      if id.ft !in meta { return FILE_TAG_MISSING, []; }
      if id.block >= |meta[id.ft].blocks| { return READ_OUT_OF_BOUNDS, []; }
      if id !in links { return -1, []; }
      return 0, disk[links[id]];
    }

    // ---------------------------------------------------------------- CREATE, TAG, TRUNCATE, DELETE

    method ExecuteCreateFile(ft: FileTag) returns (code: int)
      requires Valid()
      modifies this`meta, this`dirs
      ensures Valid() && (State(), code) == CreateFile(old(State()), ft)
    {
      if ft in meta { return FILE_TAG_ALREADY_EXISTS; }
      dirs := dirs + {ft.file};
      meta := meta[ft := Metadata(0, [], WorkInProgress)];
      return 0;
    }

    /** cp -rl of the logical blocks of `src` into the directory of `dst`. */
    method CopyHardLinks(src: FileTag, dst: FileTag)
      requires Valid()
      modifies this`links, this`nlink
      ensures Valid() && State() == CopyLinks(old(State()), src, dst)
    {
      hide CopiedLinks, CopiedCounts;
      var names := links;
      links := CopiedLinks(names, src, dst);
      nlink := CopiedCounts(nlink, names, src);
      forall x | x in links
        ensures links[x] < |disk|
      {
        assert links[x] in names.Values;
      }
    }

    method ExecuteCreateTag(src: FileTag, dst: FileTag) returns (code: int)
      requires Valid()
      modifies this
      ensures Valid() && (State(), code) == CreateTag(old(State()), src, dst)
    {
      if dst in meta { return FILE_TAG_ALREADY_EXISTS; }
      if src !in meta { return FILE_TAG_MISSING; }
      if dst.file !in dirs { return -1; }
      CopyHardLinks(src, dst);
      meta := meta[dst := meta[src].(state := WorkInProgress)];
      return 0;
    }

    method ExecuteDeleteLogicalBlock(id: BlockId, p: nat) returns (code: int)
      requires Valid()
      modifies this`links, this`nlink, this`bitmap
      ensures Valid() && (State(), code) == DeleteLogicalBlock(old(State()), id, p)
    {
      var ok := RemoveLink(id);
      if !ok { return -1; }
      if p >= |disk| { return -2; }
      if nlink[p] != 1 { return 0; }
      bitmap := bitmap[p := false];
      return 0;
    }

    method ExecuteTruncate(ft: FileTag, size: nat) returns (code: int)
      requires Valid()
      modifies this
      ensures Valid() && (State(), code) == Truncate(old(State()), ft, size)
    {
      if ft !in meta { return -1; }
      var m := meta[ft];
      var n := BlockCount(size, blockSize);
      var blocks := m.blocks;
      if n < |m.blocks| {
        blocks := m.blocks[..n];
        for i := n to |m.blocks|
          invariant Valid() && meta == old(meta)
          invariant ShrinkFrom(State(), ft, i, m.blocks) == ShrinkFrom(old(State()), ft, n, m.blocks)
        {
          var _ := ExecuteDeleteLogicalBlock(BlockId(ft, i), m.blocks[i]);
        }
      } else {
        for i := |m.blocks| to n
          invariant Valid() && meta == old(meta)
          invariant blocks == m.blocks + seq(i - |m.blocks|, _ => 0)
          invariant GrowFrom(State(), ft, i, n) == GrowFrom(old(State()), ft, |m.blocks|, n)
        {
          var ok := LinkBlock(BlockId(ft, i), 0);
          if !ok { return -2; }
          blocks := blocks + [0];
        }
      }
      meta := meta[ft := m.(size := size, blocks := blocks)];
      return 0;
    }

    method ExecuteDeleteTag(ft: FileTag) returns (code: int)
      requires Valid()
      modifies this
      ensures Valid() && (State(), code) == DeleteTag(old(State()), ft)
    {
      if ft == BASE { return -1; }
      if ft !in meta { return FILE_TAG_MISSING; }
      var m := meta[ft];
      for i := 0 to |m.blocks|
        invariant Valid() && meta == old(meta)
        invariant DeleteFrom(State(), ft, i, m.blocks) == DeleteFrom(old(State()), ft, 0, m.blocks)
      {
        var removed := ExecuteDeleteLogicalBlock(BlockId(ft, i), m.blocks[i]);
        if removed != 0 { return -2; }
      }
      var before := links;
      nlink := RemovedCounts(nlink, before, ft);
      links := map id | id in before && id.ft != ft :: before[id];
      meta := meta - {ft};
      return 0;
    }

    // ---------------------------------------------------------------- COMMIT

    method FreePhysicalBlockIfUnused(p: nat) returns (ok: bool)
      requires Valid()
      modifies this`bitmap
      ensures Valid() && ok == (p < |disk|)
      ensures State() == if ok then FreeIfUnused(old(State()), p) else old(State())
    {
      ok := p < |disk|;
      if ok && nlink[p] <= 1 {
        bitmap := bitmap[p := false];
      }
    }

    /** The state a running commit works on: the saved one with its in-memory metadata and hash index. */
    ghost function Working(ft: FileTag, blocks: seq<nat>, idx: map<Digest, nat>): FsState
      requires ft in meta
      reads this
    {
      SetBlocks(State(), ft, blocks).(index := idx)
    }

    /** One round of deduplicate_blocks; `blocks` and `idx` are in memory. */
    method DeduplicateBlock(ft: FileTag, b: nat, blocks: seq<nat>, idx: map<Digest, nat>)
      returns (code: int, blocks': seq<nat>, idx': map<Digest, nat>)
      requires Valid() && ft in meta && b < |blocks|
      modifies this`links, this`nlink, this`bitmap
      ensures Valid() && |blocks'| == |blocks| && code <= 0
      ensures (Working(ft, blocks', idx'), code) == DedupBlock(old(Working(ft, blocks, idx)), ft, b)
    {
      blocks', idx' := blocks, idx;
      var id := BlockId(ft, b);
      if id !in links { return -3, blocks', idx'; }
      var p := blocks[b];
      var h := md5(disk[links[id]]);
      if h !in idx { return 0, blocks', idx[h := p]; }
      var q := idx[h];
      if q == p { return 0, blocks', idx'; }
      var ok := RemoveLink(id);
      ok := LinkBlock(id, q);
      if !ok { return -5, blocks', idx'; }
      blocks' := blocks[b := q];
      UpdateTwice(meta, ft, meta[ft].(blocks := blocks), meta[ft].(blocks := blocks'));
      ok := FreePhysicalBlockIfUnused(p);
      code := if ok then 0 else -7;
    }

    method DeduplicateBlocks(ft: FileTag) returns (code: int, blocks: seq<nat>, idx: map<Digest, nat>)
      requires Valid() && ft in meta
      modifies this`links, this`nlink, this`bitmap
      ensures Valid() && code <= 0 && (Working(ft, blocks, idx), code) == DedupFrom(old(State()), ft, 0)
    {
      blocks, idx := meta[ft].blocks, index;
      code := 0;
      assert Working(ft, blocks, idx) == State();
      for b := 0 to |blocks|
        invariant Valid() && |blocks| == |meta[ft].blocks|
        invariant DedupFrom(Working(ft, blocks, idx), ft, b) == DedupFrom(old(State()), ft, 0)
      {
        code, blocks, idx := DeduplicateBlock(ft, b, blocks, idx);
        if code != 0 { return; }
      }
    }

    method ExecuteTagCommit(ft: FileTag) returns (code: int)
      requires Valid()
      modifies this
      ensures Valid() && (State(), code) == CommitTag(old(State()), ft)
    {
      if ft !in meta { return FILE_TAG_MISSING; }
      if meta[ft].state == Committed { return FILE_ALREADY_COMMITTED; }
      var blocks, idx;
      code, blocks, idx := DeduplicateBlocks(ft);
      if code < 0 { return -1; }
      UpdateTwice(meta, ft, meta[ft].(blocks := blocks), meta[ft].(blocks := blocks, state := Committed));
      index := idx;
      meta := meta[ft := meta[ft].(blocks := blocks, state := Committed)];
      return 0;
    }
  }
}
