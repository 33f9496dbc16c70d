/** Storage's filesystem as a value, and every operation as a function on it. */
module FsModel {
  import opened Common

  type Block = seq<Byte>
  type Digest = seq<Byte>

  datatype TagState = WorkInProgress | Committed

  /** metadata.config of one File:Tag. */
  datatype Metadata = Metadata(size: nat, blocks: seq<nat>, state: TagState)

  /** Everything below the mount point. A logical block is a hard link, so `links` maps its path to the
      physical block it is a name of, and `nlink` is the link count of each physical block's inode. `dirs` are
      the files that have a directory; deleting the last tag of a file leaves its directory. */
  datatype FsState = FsState(
    blockSize: nat,
    md5: Block -> Digest,
    disk: seq<Block>,
    bitmap: seq<bool>,
    links: map<BlockId, nat>,
    nlink: seq<int>,
    meta: map<FileTag, Metadata>,
    index: map<Digest, nat>,
    dirs: set<string>)

  const FILE_TAG_MISSING := -128
  const FILE_TAG_ALREADY_EXISTS := -127
  const NOT_ENOUGH_SPACE := -126
  const FILE_ALREADY_COMMITTED := -125
  const READ_OUT_OF_BOUNDS := -124

  const BASE := FileTag("initial_file", "BASE")

  /** What holds of every filesystem, also after an operation failed half way. */
  ghost predicate Shape(s: FsState) {
    && 0 < s.blockSize
    && |s.nlink| == |s.disk| <= |s.bitmap|
    && (forall p :: 0 <= p < |s.disk| ==> |s.disk[p]| == s.blockSize)
    && (forall id :: id in s.links ==> s.links[id] < |s.disk| && id.ft in s.meta)
  }

  // ---------------------------------------------------------------- system calls

  function Link(s: FsState, id: BlockId, p: nat): FsState
    requires p < |s.nlink|
  {
    s.(links := s.links[id := p], nlink := s.nlink[p := s.nlink[p] + 1])
  }

  function Unlink(s: FsState, id: BlockId): FsState
    requires id in s.links && s.links[id] < |s.nlink|
  {
    var p := s.links[id];
    s.(links := s.links - {id}, nlink := s.nlink[p := s.nlink[p] - 1])
  }

  function SetBit(s: FsState, p: nat, b: bool): FsState
    requires p < |s.bitmap|
  {
    s.(bitmap := s.bitmap[p := b])
  }

  /** fwrite through the path of a logical block. */
  function Store(s: FsState, id: BlockId, data: seq<Byte>): FsState
    requires id in s.links && s.links[id] < |s.disk|
  {
    s.(disk := s.disk[s.links[id] := Fit(data, s.blockSize)])
  }

  function SetBlocks(s: FsState, ft: FileTag, blocks: seq<nat>): FsState
    requires ft in s.meta
  {
    s.(meta := s.meta[ft := s.meta[ft].(blocks := blocks)])
  }

  /** The lowest clear bit, or the length of the bitmap. */
  function FreeBit(bitmap: seq<bool>): (r: nat)
    ensures r <= |bitmap|
    ensures r < |bitmap| ==> !bitmap[r]
    ensures forall k :: 0 <= k < r ==> bitmap[k]
  {
    if bitmap == [] || !bitmap[0] then 0 else 1 + FreeBit(bitmap[1..])
  }

  // ---------------------------------------------------------------- WRITE

  /** A shared logical block moves to physical block `q`, which was free. */
  function CopyOnWrite(s: FsState, id: BlockId, q: nat): FsState
    requires id in s.links && s.links[id] < |s.nlink| <= |s.bitmap| && q < |s.nlink|
    requires id.ft in s.meta && id.block < |s.meta[id.ft].blocks|
  {
    SetBlocks(Link(SetBit(Unlink(s, id), q, true), id, q), id.ft, s.meta[id.ft].blocks[id.block := q])
  }

  predicate Shared(s: FsState, id: BlockId) {
    id in s.links && s.links[id] < |s.nlink| && s.nlink[s.links[id]] > 2
  }

  /** execute_block_write: the new filesystem and the result code. */
  function WriteBlock(s: FsState, id: BlockId, data: seq<Byte>): (FsState, int)
    requires |s.nlink| == |s.disk| <= |s.bitmap|
    requires forall x :: x in s.links ==> s.links[x] < |s.disk|
  {
    if id.ft !in s.meta then (s, FILE_TAG_MISSING)
    else if s.meta[id.ft].state == Committed then (s, FILE_ALREADY_COMMITTED)
    else if id.block >= |s.meta[id.ft].blocks| then (s, READ_OUT_OF_BOUNDS)
    else if id !in s.links then (s, -1)
    else if !Shared(s, id) then (Store(s, id, data), 0)
    else
      var q := FreeBit(s.bitmap);
      if q == |s.bitmap| then (Unlink(s, id), NOT_ENOUGH_SPACE)
      else if q >= |s.disk| then (SetBit(Unlink(s, id), q, true), -5)
      else (Store(CopyOnWrite(s, id, q), id, data), 0)
  }

  // ---------------------------------------------------------------- READ

  /** execute_block_read: the result code and the block read. */
  function ReadBlock(s: FsState, id: BlockId): (int, Block)
    requires forall x :: x in s.links ==> s.links[x] < |s.disk|
  {
    if id.ft !in s.meta then (FILE_TAG_MISSING, [])
    else if id.block >= |s.meta[id.ft].blocks| then (READ_OUT_OF_BOUNDS, [])
    else if id !in s.links then (-1, [])
    else (0, s.disk[s.links[id]])
  }

  // ---------------------------------------------------------------- CREATE and TAG

  /** _create_file makes every directory on the way. */
  function CreateFile(s: FsState, ft: FileTag): (FsState, int) {
    if ft in s.meta then (s, FILE_TAG_ALREADY_EXISTS)
    else (s.(meta := s.meta[ft := Metadata(0, [], WorkInProgress)], dirs := s.dirs + {ft.file}), 0)
  }

  /** The logical blocks of `ft` that are names of physical block `p`. */
  function NamesIn(links: map<BlockId, nat>, ft: FileTag, p: nat): set<BlockId> {
    set id | id in links && id.ft == ft && links[id] == p
  }

  function CopiedLinks(links: map<BlockId, nat>, src: FileTag, dst: FileTag): (r: map<BlockId, nat>)
    ensures r.Values <= links.Values
  {
    links + map id | id in links && id.ft == src :: BlockId(dst, id.block) := links[id]
  }

  function CopiedCounts(nlink: seq<int>, links: map<BlockId, nat>, src: FileTag): (r: seq<int>)
    ensures |r| == |nlink|
  {
    seq(|nlink|, p requires 0 <= p < |nlink| => nlink[p] + |NamesIn(links, src, p)|)
  }

  /** cp -rl: every logical block of `src` gets a second name under `dst`. */
  function CopyLinks(s: FsState, src: FileTag, dst: FileTag): FsState {
    s.(links := CopiedLinks(s.links, src, dst), nlink := CopiedCounts(s.nlink, s.links, src))
  }

  /** create_tag: a fork starts as a set of hard links to the blocks of its source. Its directory is made
      with a plain mkdir, which fails when the file has none. */
  function CreateTag(s: FsState, src: FileTag, dst: FileTag): (FsState, int) {
    if dst in s.meta then (s, FILE_TAG_ALREADY_EXISTS)
    else if src !in s.meta then (s, FILE_TAG_MISSING)
    else if dst.file !in s.dirs then (s, -1)
    else
      var c := CopyLinks(s, src, dst);
      (c.(meta := c.meta[dst := s.meta[src].(state := WorkInProgress)]), 0)
  }

  // ---------------------------------------------------------------- TRUNCATE and DELETE

  /** delete_logical_block: the physical block is freed when its own name is the only one left. */
  function DeleteLogicalBlock(s: FsState, id: BlockId, p: nat): (FsState, int)
    requires |s.nlink| == |s.disk| <= |s.bitmap|
    requires forall x :: x in s.links ==> s.links[x] < |s.disk|
  {
    if id !in s.links then (s, -1)
    else
      var u := Unlink(s, id);
      if p >= |s.disk| then (u, -2)
      else if u.nlink[p] != 1 then (u, 0)
      else (SetBit(u, p, false), 0)
  }

  function BlockCount(size: nat, blockSize: nat): nat
    requires 0 < blockSize
  {
    (size + blockSize - 1) / blockSize
  }

  /** Truncating to fewer blocks: logical blocks `from`, `from + 1`, ... are deleted, whatever each returns. */
  function ShrinkFrom(s: FsState, ft: FileTag, from: nat, blocks: seq<nat>): FsState
    requires |s.nlink| == |s.disk| <= |s.bitmap|
    requires forall x :: x in s.links ==> s.links[x] < |s.disk|
    decreases |blocks| - from
  {
    if from >= |blocks| then s
    else ShrinkFrom(DeleteLogicalBlock(s, BlockId(ft, from), blocks[from]).0, ft, from + 1, blocks)
  }

  /** Truncating to more blocks: each new logical block is a name of physical block 0. */
  function GrowFrom(s: FsState, ft: FileTag, from: nat, end: nat): (FsState, int)
    decreases end - from
  {
    if from >= end then (s, 0)
    else if BlockId(ft, from) in s.links || |s.nlink| == 0 then (s, -2)
    else GrowFrom(Link(s, BlockId(ft, from), 0), ft, from + 1, end)
  }

  function Truncate(s: FsState, ft: FileTag, size: nat): (FsState, int)
    requires 0 < s.blockSize && |s.nlink| == |s.disk| <= |s.bitmap|
    requires forall x :: x in s.links ==> s.links[x] < |s.disk|
  {
    if ft !in s.meta then (s, -1)
    else
      var m := s.meta[ft];
      var n := BlockCount(size, s.blockSize);
      if n <= |m.blocks| then
        var t := ShrinkFrom(s, ft, n, m.blocks);
        (t.(meta := t.meta[ft := m.(size := size, blocks := m.blocks[..n])]), 0)
      else
        var (t, code) := GrowFrom(s, ft, |m.blocks|, n);
        if code != 0 then (t, code)
        else (t.(meta := t.meta[ft := m.(size := size, blocks := m.blocks + seq(n - |m.blocks|, _ => 0))]), 0)
  }

  /** delete_tag's loop: stops at the first logical block that cannot be deleted. */
  function DeleteFrom(s: FsState, ft: FileTag, from: nat, blocks: seq<nat>): (FsState, int)
    requires |s.nlink| == |s.disk| <= |s.bitmap|
    requires forall x :: x in s.links ==> s.links[x] < |s.disk|
    decreases |blocks| - from
  {
    if from >= |blocks| then (s, 0)
    else
      var (t, code) := DeleteLogicalBlock(s, BlockId(ft, from), blocks[from]);
      if code != 0 then (t, -2) else DeleteFrom(t, ft, from + 1, blocks)
  }

  function RemovedCounts(nlink: seq<int>, links: map<BlockId, nat>, ft: FileTag): (r: seq<int>)
    ensures |r| == |nlink|
  {
    seq(|nlink|, p requires 0 <= p < |nlink| => nlink[p] - |NamesIn(links, ft, p)|)
  }

  /** rm -rf of the directory of `ft`: the names left in it go too. */
  function RemoveDirectory(s: FsState, ft: FileTag): FsState {
    var kept := map id | id in s.links && id.ft != ft :: s.links[id];
    s.(meta := s.meta - {ft}, links := kept, nlink := RemovedCounts(s.nlink, s.links, ft))
  }

  function DeleteTag(s: FsState, ft: FileTag): (FsState, int)
    requires |s.nlink| == |s.disk| <= |s.bitmap|
    requires forall x :: x in s.links ==> s.links[x] < |s.disk|
  {
    if ft == BASE then (s, -1)
    else if ft !in s.meta then (s, FILE_TAG_MISSING)
    else
      var (t, code) := DeleteFrom(s, ft, 0, s.meta[ft].blocks);
      if code != 0 then (t, code) else (RemoveDirectory(t, ft), 0)
  }

  // ---------------------------------------------------------------- COMMIT

  /** free_ph_block_if_unused. */
  function FreeIfUnused(s: FsState, p: nat): FsState
    requires p < |s.nlink| <= |s.bitmap|
  {
    if s.nlink[p] > 1 then s else SetBit(s, p, false)
  }

  /** The deduplication of logical block `b`, on a state that already carries the metadata and the hash
      index the commit holds in memory. */
  function DedupBlock(s: FsState, ft: FileTag, b: nat): (FsState, int)
    requires |s.nlink| == |s.disk| <= |s.bitmap|
    requires forall x :: x in s.links ==> s.links[x] < |s.disk|
    requires ft in s.meta && b < |s.meta[ft].blocks|
  {
    var id := BlockId(ft, b);
    var p := s.meta[ft].blocks[b];
    if id !in s.links then (s, -3)
    else
      var h := s.md5(s.disk[s.links[id]]);
      if h !in s.index then (s.(index := s.index[h := p]), 0)
      else
        var q := s.index[h];
        if q == p then (s, 0)
        else
          var u := Unlink(s, id);
          if q >= |s.disk| then (u, -5)
          else
            var v := SetBlocks(Link(u, id, q), ft, s.meta[ft].blocks[b := q]);
            if p >= |s.disk| then (v, -7) else (FreeIfUnused(v, p), 0)
  }

  /** deduplicate_blocks from logical block `b` on; it stops at the first failure. */
  function DedupFrom(s: FsState, ft: FileTag, b: nat): (r: (FsState, int))
    requires |s.nlink| == |s.disk| <= |s.bitmap|
    requires forall x :: x in s.links ==> s.links[x] < |s.disk|
    requires ft in s.meta
    ensures ft in r.0.meta && r.0.disk == s.disk
    decreases |s.meta[ft].blocks| - b
  {
    if b >= |s.meta[ft].blocks| then (s, 0)
    else
      var (t, code) := DedupBlock(s, ft, b);
      if code != 0 then (t, code) else DedupFrom(t, ft, b + 1)
  }

  /** execute_tag_commit: metadata and index are saved at the end only. */
  function CommitTag(s: FsState, ft: FileTag): (FsState, int)
    requires |s.nlink| == |s.disk| <= |s.bitmap|
    requires forall x :: x in s.links ==> s.links[x] < |s.disk|
  {
    if ft !in s.meta then (s, FILE_TAG_MISSING)
    else if s.meta[ft].state == Committed then (s, FILE_ALREADY_COMMITTED)
    else
      var (t, code) := DedupFrom(s, ft, 0);
      if code != 0 then (t.(meta := s.meta, index := s.index), -1)
      else (t.(meta := t.meta[ft := t.meta[ft].(state := Committed)]), 0)
  }

  // ---------------------------------------------------------------- FRESH_START

  /** init_storage: `n` zeroed physical blocks, block 0 taken by initial_file:BASE, an empty hash index. */
  function FreshStart(n: nat, blockSize: nat, md5: Block -> Digest): FsState
    requires 0 < n
  {
    FsState(blockSize, md5,
            seq(n, _ => Zeros(blockSize)),
            [true] + seq((n + 7) / 8 * 8 - 1, _ => false),
            map[BlockId(BASE, 0) := 0],
            [2] + seq(n - 1, _ => 1),
            map[BASE := Metadata(0, [0], Committed)],
            map[],
            {BASE.file})
  }
}
