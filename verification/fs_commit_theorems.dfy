/** What a whole COMMIT does to the contents, the hash index and the sharing of physical blocks. */
module FsCommitTheorems {
  import opened Common
  import opened FsModel
  import opened FsTheorems
  import opened FsNamespace
  import opened FsCommit

  /** What every operation keeps. */
  ghost predicate Good(s: FsState) {
    Consistent(s) && IndexTrue(s) && CommittedIndexed(s)
  }

  predicate Committable(s: FsState, ft: FileTag) {
    ft in s.meta && s.meta[ft].state == WorkInProgress
  }

  function Marked(s: FsState, ft: FileTag): FsState
    requires ft in s.meta
  {
    s.(meta := s.meta[ft := s.meta[ft].(state := Committed)])
  }

  lemma CommitStarts(s: FsState, ft: FileTag)
    requires Good(s) && Committable(s, ft)
    ensures ft != BASE && IndexTrueUpTo(s, ft, 0) && BlocksIndexed(s, ft, 0)
  {
    forall h | h in s.index
      ensures HeldBy(s, s.index[h], ft, 0)
    {
      assert HeldBy(s, s.index[h], BASE, 0);
    }
  }

  lemma MarkedKeeps(s: FsState, ft: FileTag)
    requires Consistent(s) && ft in s.meta && ft != BASE && IndexTrueUpTo(s, ft, |s.meta[ft].blocks|)
    ensures Consistent(Marked(s, ft)) && IndexTrue(Marked(s, ft))
  {
    var n := |s.meta[ft].blocks|;
    var t := Marked(s, ft);
    SameCounts(s, t);
    SameBitmap(s, t);
    hide LinkCounts, BitmapOk;
    forall h | h in t.index
      ensures HeldBy(t, t.index[h], BASE, 0)
    {
      assert HeldBy(s, s.index[h], ft, n);
    }
  }

  lemma MarkedIndexed(s: FsState, t: FsState, ft: FileTag)
    requires CommittedIndexed(s) && ft in s.meta && RedirectedAll(s, t, ft) && BlocksIndexed(t, ft, |t.meta[ft].blocks|)
    ensures CommittedIndexed(Marked(t, ft))
  {
    var u := Marked(t, ft);
    forall g | g in u.meta && g != BASE && u.meta[g].state == Committed
      ensures BlocksIndexed(u, g, |u.meta[g].blocks|)
    {
      forall i | 0 <= i < |u.meta[g].blocks|
        ensures Indexed(u, u.meta[g].blocks[i])
      {
        if g == ft {
          assert Indexed(t, t.meta[ft].blocks[i]);
        } else {
          IndexedStays(s, u, s.meta[g].blocks[i]);
        }
      }
    }
  }

  lemma CommitIsMarkedDedup(s: FsState, ft: FileTag)
    requires Good(s) && Committable(s, ft)
    ensures var d := DedupFrom(s, ft, 0).0;
            && CommitTag(s, ft) == (Marked(d, ft), 0)
            && Consistent(d) && RedirectedAll(s, d, ft)
            && IndexTrueUpTo(d, ft, |d.meta[ft].blocks|) && BlocksIndexed(d, ft, |d.meta[ft].blocks|)
  {
    CommitStarts(s, ft);
    DedupFromKeeps(s, ft, 0);
  }

  /** COMMIT succeeds exactly on an uncommitted tag; it marks the tag, keeps the filesystem consistent and
      its index truthful, touches no physical block, and relinks only blocks of that tag, to equal digests. */
  lemma CommitKeeps(s: FsState, ft: FileTag)
    requires Good(s)
    ensures var (t, code) := CommitTag(s, ft);
            && (code == 0 <==> Committable(s, ft)) && Good(t)
            && (code != 0 ==> t == s)
            && (code == 0 ==> RedirectedAll(s, t, ft) && t.meta[ft].state == Committed)
  {
    if Committable(s, ft) {
      CommitIsMarkedDedup(s, ft);
      var d := DedupFrom(s, ft, 0).0;
      hide Consistent, IndexTrueUpTo, CommittedIndexed, DedupFrom, CommitTag, BlocksIndexed;
      MarkedKeeps(d, ft);
      MarkedIndexed(s, d, ft);
      RedirectedMarked(s, d, ft);
    }
  }

  lemma RedirectedMarked(s: FsState, d: FsState, ft: FileTag)
    requires ft in s.meta && RedirectedAll(s, d, ft)
    ensures RedirectedAll(s, Marked(d, ft), ft)
  {
  }

  /** Commit preserves meaning: every logical block of every tag reads as before. */
  lemma CommitPreservesContent(s: FsState, ft: FileTag)
    requires Good(s) && NoCollision(s)
    ensures CommitTag(s, ft).0.links.Keys == s.links.Keys && Good(CommitTag(s, ft).0)
    ensures Kept(s, CommitTag(s, ft).0, s.links.Keys)
  {
    CommitKeeps(s, ft);
  }

  /** Equal blocks of tags that went through COMMIT share one physical block. */
  lemma CommittedShare(s: FsState, x: BlockId, y: BlockId)
    requires Good(s) && x in s.links && y in s.links && x.ft != BASE && y.ft != BASE
    requires s.meta[x.ft].state == Committed && s.meta[y.ft].state == Committed
    ensures Content(s, x) == Content(s, y) <==> s.links[x] == s.links[y]
  {
    assert BlocksIndexed(s, x.ft, |s.meta[x.ft].blocks|) && BlocksIndexed(s, y.ft, |s.meta[y.ft].blocks|);
    assert Indexed(s, s.meta[x.ft].blocks[x.block]) && Indexed(s, s.meta[y.ft].blocks[y.block]);
  }

  /** COMMIT frees exactly the physical blocks that lose their last logical block, and takes none. */
  lemma CommitFreesUnreferenced(s: FsState, ft: FileTag, p: nat)
    requires Good(s) && p < |s.bitmap| && |CommitTag(s, ft).0.bitmap| == |s.bitmap|
    ensures s.bitmap[p] && !CommitTag(s, ft).0.bitmap[p] <==> Referenced(s, p) && !Referenced(CommitTag(s, ft).0, p)
  {
    CommitKeeps(s, ft);
  }

  // ---------------------------------------------------------------- representatives

  /** The first block of the tag, from logical block `b` on, whose digest is `h`. */
  function FirstWith(s: FsState, blocks: seq<nat>, b: nat, h: Digest): (r: nat)
    ensures b <= r
    decreases |blocks| - b
  {
    if b >= |blocks| || (blocks[b] < |s.disk| && s.md5(s.disk[blocks[b]]) == h) then b else FirstWith(s, blocks, b + 1, h)
  }

  lemma {:induction false} FirstWithFound(s: FsState, blocks: seq<nat>, b: nat, h: Digest, i: nat)
    requires b <= i < |blocks| && blocks[i] < |s.disk| && s.md5(s.disk[blocks[i]]) == h
    ensures FirstWith(s, blocks, b, h) <= i
    decreases |blocks| - b
  {
    if b < i {
      FirstWithFound(s, blocks, b + 1, h, i);
    }
  }

  /** What stands for logical block `i` once the blocks from `b` on are deduplicated: whatever the hash index
      has for its digest, or the first of those blocks with that digest. */
  function RepresentativeFrom(s: FsState, blocks: seq<nat>, b: nat, i: nat): nat
    requires b <= i < |blocks| && blocks[i] < |s.disk|
  {
    var h := s.md5(s.disk[blocks[i]]);
    FirstWithFound(s, blocks, b, h, i);
    if h in s.index then s.index[h] else blocks[FirstWith(s, blocks, b, h)]
  }

  /** The physical block that stands for logical block `b` of the tag once it is committed. */
  function Representative(s: FsState, ft: FileTag, b: nat): nat
    requires ft in s.meta && b < |s.meta[ft].blocks| && s.meta[ft].blocks[b] < |s.disk|
  {
    RepresentativeFrom(s, s.meta[ft].blocks, 0, b)
  }

  /** What deduplication relies on, also with a hash index that is not truthful. */
  ghost predicate Linked(s: FsState, ft: FileTag) {
    && Shape(s) && ft in s.meta
    && forall i :: 0 <= i < |s.meta[ft].blocks| ==>
                     BlockId(ft, i) in s.links && s.links[BlockId(ft, i)] == s.meta[ft].blocks[i] < |s.disk|
  }

  /** One round: the block moves to what the index has for its digest, which is then recorded. */
  ghost predicate Moved(s: FsState, t: FsState, ft: FileTag, b: nat)
    requires Linked(s, ft) && b < |s.meta[ft].blocks|
  {
    var h := s.md5(s.disk[s.meta[ft].blocks[b]]);
    var q := if h in s.index then s.index[h] else s.meta[ft].blocks[b];
    && q < |s.disk| && t.disk == s.disk && t.md5 == s.md5 && t.blockSize == s.blockSize
    && t.links == s.links[BlockId(ft, b) := q] && t.index == s.index[h := q]
    && t.meta == s.meta[ft := s.meta[ft].(blocks := s.meta[ft].blocks[b := q])]
  }

  /** A round succeeds exactly when what the index has is a physical block. */
  lemma RoundMoves(s: FsState, ft: FileTag, b: nat)
    requires Linked(s, ft) && b < |s.meta[ft].blocks|
    ensures var (t, code) := DedupBlock(s, ft, b);
            && (code == 0 <==> RepresentativeFrom(s, s.meta[ft].blocks, b, b) < |s.disk|)
            && (code == 0 ==> Moved(s, t, ft, b) && Linked(t, ft))
  {
    var id := BlockId(ft, b);
    var p := s.meta[ft].blocks[b];
    var h := s.md5(s.disk[p]);
    assert s.meta[ft].blocks[b := p] == s.meta[ft].blocks && s.links[id := p] == s.links;
    assert s.meta[ft := s.meta[ft]] == s.meta;
    assert h in s.index ==> s.index[h := s.index[h]] == s.index;
    if h in s.index && s.index[h] != p && s.index[h] < |s.disk| {
      RelinkedEffect(s, id, s.index[h]);
    }
  }

  lemma {:induction false} FirstWithFrame(s: FsState, blocks: seq<nat>, t: FsState, after: seq<nat>, b: nat, h: Digest)
    requires t.disk == s.disk && t.md5 == s.md5 && |after| == |blocks|
    requires forall i :: b <= i < |blocks| ==> after[i] == blocks[i]
    ensures FirstWith(t, after, b, h) == FirstWith(s, blocks, b, h)
    decreases |blocks| - b
  {
    if b < |blocks| {
      FirstWithFrame(s, blocks, t, after, b + 1, h);
    }
  }

  /** A round does not change what stands for the blocks that follow. */
  lemma MovedKeepsRepresentatives(s: FsState, t: FsState, ft: FileTag, b: nat, i: nat)
    requires Linked(s, ft) && b < i < |s.meta[ft].blocks| && Moved(s, t, ft, b)
    ensures t.meta[ft].blocks[i] == s.meta[ft].blocks[i]
    ensures RepresentativeFrom(t, t.meta[ft].blocks, b + 1, i) == RepresentativeFrom(s, s.meta[ft].blocks, b, i)
  {
    var h := s.md5(s.disk[s.meta[ft].blocks[i]]);
    var own := s.md5(s.disk[s.meta[ft].blocks[b]]);
    FirstWithFrame(s, s.meta[ft].blocks, t, t.meta[ft].blocks, b + 1, h);
    FirstWithFound(s, s.meta[ft].blocks, b, h, i);
    assert h != own ==> FirstWith(s, s.meta[ft].blocks, b, h) == FirstWith(s, s.meta[ft].blocks, b + 1, h);
    assert h == own ==> FirstWith(s, s.meta[ft].blocks, b, h) == b;
  }

  /** Where the blocks from `b` on end up. */
  ghost predicate Settled(s: FsState, t: FsState, ft: FileTag, b: nat)
    requires Linked(s, ft)
  {
    && Linked(t, ft) && t.disk == s.disk && t.md5 == s.md5 && t.blockSize == s.blockSize
    && t.links.Keys == s.links.Keys && |t.meta[ft].blocks| == |s.meta[ft].blocks|
    && (forall x :: x in s.links && (x.ft != ft || x.block < b || x.block >= |s.meta[ft].blocks|) ==> t.links[x] == s.links[x])
    && (forall i :: b <= i < |s.meta[ft].blocks| ==>
                      BlockId(ft, i) in t.links && t.links[BlockId(ft, i)] == RepresentativeFrom(s, s.meta[ft].blocks, b, i))
  }

  ghost predicate AllPhysical(s: FsState, ft: FileTag, b: nat)
    requires Linked(s, ft)
  {
    forall i :: b <= i < |s.meta[ft].blocks| ==> RepresentativeFrom(s, s.meta[ft].blocks, b, i) < |s.disk|
  }

  lemma SettledThen(s: FsState, t: FsState, u: FsState, ft: FileTag, b: nat)
    requires Linked(s, ft) && b < |s.meta[ft].blocks| && Moved(s, t, ft, b) && Linked(t, ft) && Settled(t, u, ft, b + 1)
    ensures Settled(s, u, ft, b)
  {
    hide RepresentativeFrom;
    var id := BlockId(ft, b);
    assert t.links.Keys == s.links.Keys;
    forall i | b <= i < |s.meta[ft].blocks|
      ensures BlockId(ft, i) in u.links && u.links[BlockId(ft, i)] == RepresentativeFrom(s, s.meta[ft].blocks, b, i)
    {
      if i == b {
        MovedToRepresentative(s, t, ft, b);
        assert id in t.links;
      } else {
        MovedKeepsRepresentatives(s, t, ft, b, i);
      }
    }
  }

  lemma MovedToRepresentative(s: FsState, t: FsState, ft: FileTag, b: nat)
    requires Linked(s, ft) && b < |s.meta[ft].blocks| && Moved(s, t, ft, b)
    ensures t.links[BlockId(ft, b)] == RepresentativeFrom(s, s.meta[ft].blocks, b, b)
  {
  }

  lemma PhysicalStep(s: FsState, t: FsState, ft: FileTag, b: nat)
    requires Linked(s, ft) && b < |s.meta[ft].blocks| && Moved(s, t, ft, b) && Linked(t, ft)
    requires RepresentativeFrom(s, s.meta[ft].blocks, b, b) < |s.disk|
    ensures AllPhysical(t, ft, b + 1) <==> AllPhysical(s, ft, b)
  {
    hide RepresentativeFrom;
    forall i | b < i < |s.meta[ft].blocks|
      ensures RepresentativeFrom(t, t.meta[ft].blocks, b + 1, i) == RepresentativeFrom(s, s.meta[ft].blocks, b, i)
    {
      MovedKeepsRepresentatives(s, t, ft, b, i);
    }
    if AllPhysical(t, ft, b + 1) {
      forall i | b <= i < |s.meta[ft].blocks|
        ensures RepresentativeFrom(s, s.meta[ft].blocks, b, i) < |s.disk|
      {
        assert i == b || RepresentativeFrom(t, t.meta[ft].blocks, b + 1, i) < |t.disk|;
      }
    }
    if AllPhysical(s, ft, b) {
      var next := b + 1;
      forall i | next <= i < |t.meta[ft].blocks|
        ensures RepresentativeFrom(t, t.meta[ft].blocks, next, i) < |t.disk|
      {
        assert RepresentativeFrom(s, s.meta[ft].blocks, b, i) < |s.disk|;
      }
    }
  }

  /** Deduplication succeeds exactly when every block has a representative, and then each is moved to its own. */
  lemma {:induction false} DedupSettles(s: FsState, ft: FileTag, b: nat)
    requires Linked(s, ft) && b <= |s.meta[ft].blocks|
    ensures var (t, code) := DedupFrom(s, ft, b);
            (code == 0 <==> AllPhysical(s, ft, b)) && (code == 0 ==> Settled(s, t, ft, b))
    decreases |s.meta[ft].blocks| - b
  {
    if b < |s.meta[ft].blocks| {
      RoundMoves(s, ft, b);
      var (t, code) := DedupBlock(s, ft, b);
      if code == 0 {
        PhysicalStep(s, t, ft, b);
        hide RepresentativeFrom, Moved, AllPhysical, DedupBlock;
        DedupSettles(t, ft, b + 1);
        if DedupFrom(t, ft, b + 1).1 == 0 {
          SettledThen(s, t, DedupFrom(t, ft, b + 1).0, ft, b);
        }
      }
    }
  }

  lemma ConsistentIsLinked(s: FsState, ft: FileTag)
    requires Consistent(s) && ft in s.meta
    ensures Linked(s, ft)
  {
    hide LinkCounts, BitmapOk, ZeroBlock;
    forall i | 0 <= i < |s.meta[ft].blocks|
      ensures BlockId(ft, i) in s.links && s.links[BlockId(ft, i)] == s.meta[ft].blocks[i] < |s.disk|
    {
      var id := BlockId(ft, i);
      assert id.ft == ft && id.block == i && id in s.links;
    }
  }

  lemma AllPhysicalIff(s: FsState, ft: FileTag)
    requires Linked(s, ft)
    ensures AllPhysical(s, ft, 0) <==> forall b :: 0 <= b < |s.meta[ft].blocks| ==> Representative(s, ft, b) < |s.disk|
  {
    hide RepresentativeFrom;
    assert forall b {:trigger Representative(s, ft, b)} {:trigger RepresentativeFrom(s, s.meta[ft].blocks, 0, b)} ::
        0 <= b < |s.meta[ft].blocks| ==> Representative(s, ft, b) == RepresentativeFrom(s, s.meta[ft].blocks, 0, b);
  }

  /** Where a whole COMMIT leaves the links. */
  ghost predicate AtRepresentatives(s: FsState, t: FsState, ft: FileTag)
    requires Linked(s, ft)
  {
    && Shape(t) && t.disk == s.disk && t.links.Keys == s.links.Keys
    && (forall x :: x in s.links && x.ft != ft ==> t.links[x] == s.links[x])
    && forall b :: 0 <= b < |s.meta[ft].blocks| ==>
                     BlockId(ft, b) in t.links && t.links[BlockId(ft, b)] == Representative(s, ft, b)
  }

  lemma SettledAtRepresentatives(s: FsState, t: FsState, ft: FileTag)
    requires Linked(s, ft) && Settled(s, t, ft, 0)
    ensures AtRepresentatives(s, Marked(t, ft), ft)
  {
    hide RepresentativeFrom;
    forall b | 0 <= b < |s.meta[ft].blocks|
      ensures t.links[BlockId(ft, b)] == Representative(s, ft, b)
    {
      assert t.links[BlockId(ft, b)] == RepresentativeFrom(s, s.meta[ft].blocks, 0, b);
    }
  }

  /** Every block of a committed tag becomes a name of its representative, and no other link changes. COMMIT
      of an uncommitted tag fails exactly when the index has something that is not a physical block. */
  lemma CommitLinksRepresentative(s: FsState, ft: FileTag)
    requires Consistent(s) && Committable(s, ft)
    ensures Linked(s, ft)
    ensures var (t, code) := CommitTag(s, ft);
            && (code == 0 <==> forall b :: 0 <= b < |s.meta[ft].blocks| ==> Representative(s, ft, b) < |s.disk|)
            && (code == 0 ==> AtRepresentatives(s, t, ft))
  {
    ConsistentIsLinked(s, ft);
    hide LinkCounts, BitmapOk, LinksRecorded, MetaOk, ZeroBlock, DedupFrom, Representative, AllPhysical, Settled, AtRepresentatives;
    AllPhysicalIff(s, ft);
    DedupSettles(s, ft, 0);
    if CommitTag(s, ft).1 == 0 {
      SettledAtRepresentatives(s, DedupFrom(s, ft, 0).0, ft);
    }
  }

  /** What COMMIT preserves, for any digest and any hash index, truthful or not: it keeps all contents exactly
      when each block of the tag equals its representative. */
  lemma CommitPreservesContentIff(s: FsState, ft: FileTag)
    requires Consistent(s) && Committable(s, ft) && CommitTag(s, ft).1 == 0
    ensures Linked(s, ft) && Shape(CommitTag(s, ft).0)
    ensures forall b :: 0 <= b < |s.meta[ft].blocks| ==> Representative(s, ft, b) < |s.disk|
    ensures Kept(s, CommitTag(s, ft).0, s.links.Keys) <==>
            forall b :: 0 <= b < |s.meta[ft].blocks| ==> s.disk[Representative(s, ft, b)] == s.disk[s.meta[ft].blocks[b]]
  {
    CommitLinksRepresentative(s, ft);
    hide LinkCounts, BitmapOk, MetaOk, ZeroBlock, Representative, CommitTag, Kept;
    RepresentativesDecide(s, CommitTag(s, ft).0, ft);
  }

  lemma RepresentativesDecide(s: FsState, t: FsState, ft: FileTag)
    requires Linked(s, ft) && Shape(t) && LinksRecorded(s) && t.disk == s.disk && t.links.Keys == s.links.Keys
    requires forall x :: x in s.links && x.ft != ft ==> t.links[x] == s.links[x]
    requires forall b :: 0 <= b < |s.meta[ft].blocks| ==>
                           BlockId(ft, b) in t.links && t.links[BlockId(ft, b)] == Representative(s, ft, b) < |s.disk|
    ensures Kept(s, t, s.links.Keys) <==>
            forall b :: 0 <= b < |s.meta[ft].blocks| ==> s.disk[Representative(s, ft, b)] == s.disk[s.meta[ft].blocks[b]]
  {
    hide Representative;
    if Kept(s, t, s.links.Keys) {
      forall b | 0 <= b < |s.meta[ft].blocks|
        ensures s.disk[Representative(s, ft, b)] == s.disk[s.meta[ft].blocks[b]]
      {
        assert Content(t, BlockId(ft, b)) == Content(s, BlockId(ft, b));
      }
    }
    if forall b :: 0 <= b < |s.meta[ft].blocks| ==> s.disk[Representative(s, ft, b)] == s.disk[s.meta[ft].blocks[b]] {
      forall x | x in s.links
        ensures x in t.links && Content(t, x) == Content(s, x)
      {
        assert x == BlockId(x.ft, x.block);
      }
    }
  }

  /** A single block keeps what it reads exactly when its representative has the same content. */
  lemma CommitKeepsBlockIff(s: FsState, ft: FileTag, b: nat)
    requires Consistent(s) && Committable(s, ft) && CommitTag(s, ft).1 == 0 && b < |s.meta[ft].blocks|
    ensures Linked(s, ft) && Representative(s, ft, b) < |s.disk| && Shape(CommitTag(s, ft).0)
    ensures BlockId(ft, b) in s.links && BlockId(ft, b) in CommitTag(s, ft).0.links
    ensures Content(CommitTag(s, ft).0, BlockId(ft, b)) == s.disk[Representative(s, ft, b)]
    ensures Content(CommitTag(s, ft).0, BlockId(ft, b)) == Content(s, BlockId(ft, b)) <==>
            s.disk[Representative(s, ft, b)] == s.disk[s.meta[ft].blocks[b]]
  {
    CommitLinksRepresentative(s, ft);
    hide LinkCounts, BitmapOk, MetaOk, ZeroBlock, Representative, CommitTag;
  }
}
