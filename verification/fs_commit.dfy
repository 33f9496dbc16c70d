/** COMMIT: deduplication through the hash index preserves what every tag reads. */
module FsCommit {
  import opened Common
  import opened FsModel
  import opened FsTheorems
  import opened FsNamespace

  /** Some committed logical block is a name of `p`; so is, during the commit of `ft`, one of its blocks
      below `b`. */
  ghost predicate HeldBy(s: FsState, p: nat, ft: FileTag, b: nat) {
    exists id :: id in s.links && s.links[id] == p && id.ft in s.meta
                 && (s.meta[id.ft].state == Committed || (id.ft == ft && id.block < b))
  }

  /** Every entry of the hash index names an allocated block with that digest, held by a committed tag (or
      already visited by the running commit of `ft`). */
  ghost predicate IndexTrueUpTo(s: FsState, ft: FileTag, b: nat) {
    forall h :: h in s.index ==>
                  s.index[h] < |s.disk| && s.md5(s.disk[s.index[h]]) == h && HeldBy(s, s.index[h], ft, b)
  }

  ghost predicate IndexTrue(s: FsState) {
    IndexTrueUpTo(s, BASE, 0)
  }

  /** The index names `p` as the one block with its content. */
  ghost predicate Indexed(s: FsState, p: nat) {
    p < |s.disk| && s.md5(s.disk[p]) in s.index && s.index[s.md5(s.disk[p])] == p
  }

  ghost predicate BlocksIndexed(s: FsState, ft: FileTag, b: nat)
    requires ft in s.meta && b <= |s.meta[ft].blocks|
  {
    forall i :: 0 <= i < b ==> Indexed(s, s.meta[ft].blocks[i])
  }

  /** Every block of every tag that went through COMMIT is the one the index names. */
  ghost predicate CommittedIndexed(s: FsState) {
    forall ft :: ft in s.meta && ft != BASE && s.meta[ft].state == Committed ==>
                   BlocksIndexed(s, ft, |s.meta[ft].blocks|)
  }

  /** Digests of physical blocks do not collide. */
  ghost predicate NoCollision(s: FsState) {
    forall p, q :: 0 <= p < |s.disk| && 0 <= q < |s.disk| && s.md5(s.disk[p]) == s.md5(s.disk[q]) ==> s.disk[p] == s.disk[q]
  }

  // ---------------------------------------------------------------- one block

  /** The state after the logical block was pointed at physical block `q`. */
  function Relinked(s: FsState, id: BlockId, q: nat): FsState
    requires id in s.links && s.links[id] < |s.nlink| && q < |s.nlink| <= |s.bitmap|
    requires id.ft in s.meta && id.block < |s.meta[id.ft].blocks|
  {
    var v := SetBlocks(Link(Unlink(s, id), id, q), id.ft, s.meta[id.ft].blocks[id.block := q]);
    FreeIfUnused(v, s.links[id])
  }

  lemma RelinkedEffect(s: FsState, id: BlockId, q: nat)
    requires id in s.links && s.links[id] < |s.nlink| && q < |s.nlink| <= |s.bitmap| && s.links[id] != q
    requires id.ft in s.meta && id.block < |s.meta[id.ft].blocks|
    ensures var t := Relinked(s, id, q);
            && t.links == s.links[id := q]
            && t.meta == s.meta[id.ft := s.meta[id.ft].(blocks := s.meta[id.ft].blocks[id.block := q])]
            && t.nlink == Link(Unlink(s, id), id, q).nlink && |t.nlink| == |s.nlink|
            && t.bitmap == (if t.nlink[s.links[id]] > 1 then s.bitmap else s.bitmap[s.links[id] := false])
            && t == s.(links := t.links, meta := t.meta, nlink := t.nlink, bitmap := t.bitmap)
  {
    assert (s.links - {id})[id := q] == s.links[id := q];
  }

  lemma RelinkedCounts(s: FsState, id: BlockId, q: nat)
    requires LinkCounts(s) && id in s.links && s.links[id] < |s.nlink| && q < |s.nlink| <= |s.bitmap| && s.links[id] != q
    requires id.ft in s.meta && id.block < |s.meta[id.ft].blocks|
    ensures LinkCounts(Relinked(s, id, q))
  {
    var u := Unlink(s, id);
    UnlinkKeepsCounts(s, id);
    LinkKeepsCounts(u, id, q);
    RelinkedEffect(s, id, q);
    SameCounts(Link(u, id, q), Relinked(s, id, q));
  }

  lemma MetaAfterRelink(s: FsState, t: FsState, id: BlockId, q: nat)
    requires MetaOk(s) && id in s.links && t.links == s.links[id := q]
    requires t.meta == s.meta[id.ft := s.meta[id.ft].(blocks := s.meta[id.ft].blocks[id.block := q])]
    ensures MetaOk(t)
  {
    forall g, b | g in t.meta && 0 <= b < |t.meta[g].blocks|
      ensures BlockId(g, b) in t.links
    {
      assert BlockId(g, b) in s.links;
    }
    forall x | x in t.links
      ensures x.ft in t.meta && x.block < |t.meta[x.ft].blocks| && t.meta[x.ft].blocks[x.block] == t.links[x]
    {
      assert x in s.links;
    }
  }

  lemma BitmapAfterRelink(s: FsState, t: FsState, id: BlockId, q: nat)
    requires BitmapOk(s) && LinkCounts(t) && id in s.links && s.links[id] < |s.disk| && |t.nlink| == |t.disk| == |s.disk| <= |s.bitmap|
    requires Referenced(s, q) && t.links == s.links[id := q]
    requires t.bitmap == (if t.nlink[s.links[id]] > 1 then s.bitmap else s.bitmap[s.links[id] := false])
    ensures BitmapOk(t)
  {
    var p := s.links[id];
    AloneIffUnreferenced(t, p);
    assert Referenced(s, p);
    hide LinkCounts;
    forall x | 0 <= x < |t.bitmap| && x != p
      ensures t.bitmap[x] <==> x < |t.disk| && Referenced(t, x)
    {
      RelinkedReferenced(s, t, id, q, x);
    }
  }

  /** Relinking to a block that is in use elsewhere frees the old block exactly when nobody else names it. */
  lemma RelinkedKeeps(s: FsState, id: BlockId, q: nat)
    requires Consistent(s) && id in s.links && id.ft != BASE && q < |s.disk| && Referenced(s, q) && q != s.links[id]
    requires id.ft in s.meta && id.block < |s.meta[id.ft].blocks|
    ensures Consistent(Relinked(s, id, q))
  {
    hide LinkCounts, MetaOk, LinksRecorded, BitmapOk, Relinked;
    var t := Relinked(s, id, q);
    RelinkedCounts(s, id, q);
    RelinkedEffect(s, id, q);
    MetaAfterRelink(s, t, id, q);
    MetaIsRecorded(t);
    BitmapAfterRelink(s, t, id, q);
  }

  lemma RelinkedReferenced(s: FsState, t: FsState, id: BlockId, q: nat, x: nat)
    requires id in s.links && t.links == s.links[id := q] && Referenced(s, q) && x != s.links[id]
    ensures Referenced(t, x) <==> Referenced(s, x)
  {
    forall y | y in s.links && s.links[y] == x
      ensures Referenced(t, x)
    {
      assert t.links[y] == x;
    }
    forall y | y in t.links && t.links[y] == x
      ensures Referenced(s, x)
    {
      if y != id {
        assert s.links[y] == x;
      }
    }
  }

  /** What deduplicating one logical block changes: at most where it points, to a block of equal digest. */
  ghost predicate Redirected(s: FsState, t: FsState, id: BlockId)
    requires id.ft in s.meta && id.block < |s.meta[id.ft].blocks|
  {
    && t.disk == s.disk && t.md5 == s.md5 && t.blockSize == s.blockSize && t.dirs == s.dirs && id in s.links
    && id in t.links && t.links[id] < |t.disk| && s.links[id] < |s.disk|
    && t.links == s.links[id := t.links[id]]
    && t.meta == s.meta[id.ft := s.meta[id.ft].(blocks := s.meta[id.ft].blocks[id.block := t.links[id]])]
    && s.md5(t.disk[t.links[id]]) == s.md5(s.disk[s.links[id]])
    && Indexed(t, t.links[id])
    && (forall h :: h in s.index ==> h in t.index && t.index[h] == s.index[h])
    && (forall h :: h in t.index && h !in s.index ==> h == s.md5(s.disk[s.links[id]]) && t.index[h] == s.links[id])
  }

  lemma DedupNew(s: FsState, ft: FileTag, b: nat)
    requires Consistent(s) && ft in s.meta && ft != BASE && b < |s.meta[ft].blocks| && IndexTrueUpTo(s, ft, b)
    requires BlockId(ft, b) in s.links && s.md5(s.disk[s.links[BlockId(ft, b)]]) !in s.index
    ensures var (t, code) := DedupBlock(s, ft, b);
            && code == 0 && Consistent(t) && Redirected(s, t, BlockId(ft, b)) && IndexTrueUpTo(t, ft, b + 1)
  {
    var id := BlockId(ft, b);
    var p := s.links[id];
    assert p == s.meta[ft].blocks[b];
    IndexedAnew(s, ft, b);
    hide Consistent, IndexTrueUpTo;
    assert s.meta[ft].blocks[b := p] == s.meta[ft].blocks;
    assert s.links[id := p] == s.links;
  }

  lemma DedupSame(s: FsState, ft: FileTag, b: nat)
    requires Consistent(s) && ft in s.meta && ft != BASE && b < |s.meta[ft].blocks| && IndexTrueUpTo(s, ft, b)
    requires BlockId(ft, b) in s.links && Indexed(s, s.links[BlockId(ft, b)])
    ensures var (t, code) := DedupBlock(s, ft, b);
            && code == 0 && Consistent(t) && Redirected(s, t, BlockId(ft, b)) && IndexTrueUpTo(t, ft, b + 1)
  {
    var id := BlockId(ft, b);
    var p := s.links[id];
    assert p == s.meta[ft].blocks[b];
    HeldLonger(s, ft, b);
    hide Consistent, IndexTrueUpTo;
    assert s.meta[ft].blocks[b := p] == s.meta[ft].blocks;
    assert s.links[id := p] == s.links;
  }

  lemma MoveIsRelinked(s: FsState, ft: FileTag, b: nat, p: nat, q: nat)
    requires |s.nlink| == |s.disk| <= |s.bitmap| && (forall x :: x in s.links ==> s.links[x] < |s.disk|)
    requires ft in s.meta && b < |s.meta[ft].blocks| && s.meta[ft].blocks[b] == p
    requires BlockId(ft, b) in s.links && s.links[BlockId(ft, b)] == p != q < |s.disk|
    requires s.md5(s.disk[p]) in s.index && s.index[s.md5(s.disk[p])] == q
    ensures DedupBlock(s, ft, b) == (Relinked(s, BlockId(ft, b), q), 0)
  {
  }

  /** The indexed block of a digest is in use, and it has that digest. */
  lemma IndexedInUse(s: FsState, ft: FileTag, b: nat, h: Digest)
    requires IndexTrueUpTo(s, ft, b) && h in s.index
    ensures s.index[h] < |s.disk| && s.md5(s.disk[s.index[h]]) == h && Referenced(s, s.index[h])
  {
    assert HeldBy(s, s.index[h], ft, b);
  }

  lemma RelinkedRedirects(s: FsState, id: BlockId, q: nat)
    requires Shape(s) && id in s.links && q < |s.disk| && q != s.links[id]
    requires id.ft in s.meta && id.block < |s.meta[id.ft].blocks|
    requires s.md5(s.disk[q]) == s.md5(s.disk[s.links[id]]) && Indexed(s, q)
    ensures Redirected(s, Relinked(s, id, q), id)
  {
    RelinkedEffect(s, id, q);
    hide Relinked;
  }

  lemma RelinkedIndexTrue(s: FsState, ft: FileTag, b: nat, p: nat, q: nat)
    requires Shape(s) && ft in s.meta && b < |s.meta[ft].blocks| && IndexTrueUpTo(s, ft, b)
    requires BlockId(ft, b) in s.links && s.links[BlockId(ft, b)] == p
    requires s.md5(s.disk[p]) in s.index && s.index[s.md5(s.disk[p])] == q && q != p && q < |s.disk|
    ensures IndexTrueUpTo(Relinked(s, BlockId(ft, b), q), ft, b + 1)
  {
    RelinkedEffect(s, BlockId(ft, b), q);
    hide Relinked, IndexTrueUpTo;
    RedirectedIndex(s, Relinked(s, BlockId(ft, b), q), ft, b);
  }

  lemma DedupMove(s: FsState, ft: FileTag, b: nat, p: nat, q: nat)
    requires Consistent(s) && ft in s.meta && ft != BASE && b < |s.meta[ft].blocks| && IndexTrueUpTo(s, ft, b)
    requires BlockId(ft, b) in s.links && s.links[BlockId(ft, b)] == p
    requires s.md5(s.disk[p]) in s.index && s.index[s.md5(s.disk[p])] == q && q != p
    ensures q < |s.disk|
    ensures var t := Relinked(s, BlockId(ft, b), q);
            Consistent(t) && Redirected(s, t, BlockId(ft, b)) && IndexTrueUpTo(t, ft, b + 1)
  {
    var id := BlockId(ft, b);
    IndexedInUse(s, ft, b, s.md5(s.disk[p]));
    hide Relinked, HeldBy, Referenced, IndexTrueUpTo, LinkCounts, BitmapOk, MetaOk, LinksRecorded, ZeroBlock, Redirected;
    RelinkedKeeps(s, id, q);
    RelinkedRedirects(s, id, q);
    RelinkedIndexTrue(s, ft, b, p, q);
  }

  lemma DedupBlockKeeps(s: FsState, ft: FileTag, b: nat)
    requires Consistent(s) && ft in s.meta && ft != BASE && b < |s.meta[ft].blocks| && IndexTrueUpTo(s, ft, b)
    ensures var (t, code) := DedupBlock(s, ft, b);
            && code == 0 && Consistent(t) && Redirected(s, t, BlockId(ft, b)) && IndexTrueUpTo(t, ft, b + 1)
  {
    var id := BlockId(ft, b);
    assert id in s.links && s.meta[ft].blocks[b] == s.links[id];
    hide DedupBlock, IndexTrueUpTo, Redirected, LinkCounts, BitmapOk, MetaOk, LinksRecorded, ZeroBlock;
    var p := s.links[id];
    var h := s.md5(s.disk[p]);
    if h !in s.index {
      DedupNew(s, ft, b);
    } else if s.index[h] == p {
      DedupSame(s, ft, b);
    } else {
      DedupMove(s, ft, b, p, s.index[h]);
      MoveIsRelinked(s, ft, b, p, s.index[h]);
    }
  }

  lemma HeldLonger(s: FsState, ft: FileTag, b: nat)
    requires IndexTrueUpTo(s, ft, b)
    ensures IndexTrueUpTo(s, ft, b + 1)
  {
    forall h | h in s.index
      ensures HeldBy(s, s.index[h], ft, b + 1)
    {
      var id :| id in s.links && s.links[id] == s.index[h] && id.ft in s.meta
                && (s.meta[id.ft].state == Committed || (id.ft == ft && id.block < b));
    }
  }

  lemma IndexedAnew(s: FsState, ft: FileTag, b: nat)
    requires Consistent(s) && ft in s.meta && b < |s.meta[ft].blocks| && IndexTrueUpTo(s, ft, b)
    ensures BlockId(ft, b) in s.links
    ensures var p := s.links[BlockId(ft, b)];
            var t := s.(index := s.index[s.md5(s.disk[p]) := p]);
            IndexTrueUpTo(t, ft, b + 1) && Consistent(t)
  {
    var id := BlockId(ft, b);
    var p := s.links[id];
    var t := s.(index := s.index[s.md5(s.disk[p]) := p]);
    HeldLonger(s, ft, b);
    assert HeldBy(t, p, ft, b + 1);
    forall h | h in s.index
      ensures HeldBy(t, s.index[h], ft, b + 1)
    {
      assert HeldBy(s, s.index[h], ft, b + 1);
    }
    assert forall x :: Referenced(t, x) == Referenced(s, x);
  }

  /** After a relink the entries keep their holders: none of them names the block that was left. */
  lemma RedirectedIndex(s: FsState, t: FsState, ft: FileTag, b: nat)
    requires IndexTrueUpTo(s, ft, b) && ft in s.meta && b < |s.meta[ft].blocks|
    requires BlockId(ft, b) in s.links && s.links[BlockId(ft, b)] < |s.disk|
    requires t.disk == s.disk && t.index == s.index && t.md5 == s.md5
    requires s.md5(s.disk[s.links[BlockId(ft, b)]]) in s.index
    requires s.index[s.md5(s.disk[s.links[BlockId(ft, b)]])] != s.links[BlockId(ft, b)]
    requires t.links == s.links[BlockId(ft, b) := s.index[s.md5(s.disk[s.links[BlockId(ft, b)]])]]
    requires t.meta.Keys == s.meta.Keys && forall g :: g in s.meta ==> t.meta[g].state == s.meta[g].state
    ensures IndexTrueUpTo(t, ft, b + 1)
  {
    var id := BlockId(ft, b);
    forall h | h in t.index
      ensures HeldBy(t, t.index[h], ft, b + 1)
    {
      assert HeldBy(s, s.index[h], ft, b);
      var x :| x in s.links && s.links[x] == s.index[h] && x.ft in s.meta
               && (s.meta[x.ft].state == Committed || (x.ft == ft && x.block < b));
      assert s.md5(s.disk[s.index[h]]) == h;
      assert x != id;
      assert t.links[x] == t.index[h];
    }
  }

  // ---------------------------------------------------------------- all blocks

  /** What deduplicating all blocks from `b` on changes: only targets of blocks of `ft`, to equal digests. */
  ghost predicate RedirectedAll(s: FsState, t: FsState, ft: FileTag)
    requires ft in s.meta
  {
    && t.disk == s.disk && t.md5 == s.md5 && t.blockSize == s.blockSize && t.dirs == s.dirs
    && t.links.Keys == s.links.Keys && t.meta.Keys == s.meta.Keys
    && (forall g :: g in s.meta && g != ft ==> t.meta[g] == s.meta[g])
    && t.meta[ft] == s.meta[ft].(blocks := t.meta[ft].blocks, state := t.meta[ft].state) && |t.meta[ft].blocks| == |s.meta[ft].blocks|
    && (forall x :: x in s.links && x.ft != ft ==> t.links[x] == s.links[x])
    && (forall x :: x in s.links ==>
                      s.links[x] < |s.disk| && t.links[x] < |t.disk| && s.md5(s.disk[t.links[x]]) == s.md5(s.disk[s.links[x]]))
    && (forall h :: h in s.index ==> h in t.index && t.index[h] == s.index[h])
  }

  lemma RedirectedAllRefl(s: FsState, ft: FileTag)
    requires Shape(s) && ft in s.meta
    ensures RedirectedAll(s, s, ft)
  {
  }

  lemma RedirectedThen(s: FsState, t: FsState, u: FsState, ft: FileTag, b: nat)
    requires Shape(s) && ft in s.meta && b < |s.meta[ft].blocks| && Redirected(s, t, BlockId(ft, b)) && RedirectedAll(t, u, ft)
    ensures RedirectedAll(s, u, ft)
  {
    assert t.links.Keys == s.links.Keys;
    assert t.meta.Keys == s.meta.Keys;
    forall x | x in s.links
      ensures s.links[x] < |s.disk| && u.links[x] < |u.disk| && s.md5(s.disk[u.links[x]]) == s.md5(s.disk[s.links[x]])
    {
      assert x in t.links;
    }
  }

  lemma IndexedStays(s: FsState, t: FsState, p: nat)
    requires Indexed(s, p) && t.disk == s.disk && t.md5 == s.md5
    requires forall h :: h in s.index ==> h in t.index && t.index[h] == s.index[h]
    ensures Indexed(t, p)
  {
  }

  lemma {:induction false} DedupFromKeeps(s: FsState, ft: FileTag, b: nat)
    requires Consistent(s) && ft in s.meta && ft != BASE && b <= |s.meta[ft].blocks|
    requires IndexTrueUpTo(s, ft, b) && BlocksIndexed(s, ft, b)
    ensures var (t, code) := DedupFrom(s, ft, b);
            && code == 0 && Consistent(t) && RedirectedAll(s, t, ft)
            && IndexTrueUpTo(t, ft, |t.meta[ft].blocks|) && BlocksIndexed(t, ft, |t.meta[ft].blocks|)
    decreases |s.meta[ft].blocks| - b
  {
    if b == |s.meta[ft].blocks| {
      RedirectedAllRefl(s, ft);
    } else {
      var t := DedupBlock(s, ft, b).0;
      DedupBlockKeeps(s, ft, b);
      NextBlockIndexed(s, t, ft, b);
      DedupFromKeeps(t, ft, b + 1);
      RedirectedThen(s, t, DedupFrom(t, ft, b + 1).0, ft, b);
    }
  }

  lemma NextBlockIndexed(s: FsState, t: FsState, ft: FileTag, b: nat)
    requires ft in s.meta && b < |s.meta[ft].blocks| && BlocksIndexed(s, ft, b) && Redirected(s, t, BlockId(ft, b))
    ensures ft in t.meta && |t.meta[ft].blocks| == |s.meta[ft].blocks| && BlocksIndexed(t, ft, b + 1)
  {
    forall i | 0 <= i < b
      ensures Indexed(t, t.meta[ft].blocks[i])
    {
      IndexedStays(s, t, s.meta[ft].blocks[i]);
    }
  }
}
