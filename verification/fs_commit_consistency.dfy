/** COMMIT with any hash index: exactly when it keeps the filesystem consistent. */
module FsCommitConsistency {
  import opened Common
  import opened FsModel
  import opened FsTheorems
  import opened FsNamespace
  import opened FsCommit
  import opened FsCommitTheorems

  /** Physical block `q` has a name that is not one of the blocks from `b` up to `i`, which will have moved. */
  ghost predicate StillHeld(s: FsState, ft: FileTag, b: nat, i: nat, q: nat) {
    exists x :: x in s.links && s.links[x] == q && (x.ft != ft || x.block < b || i <= x.block)
  }

  /** An earlier block from `b` on moves to `q` as well. */
  ghost predicate FollowsEarlier(s: FsState, ft: FileTag, b: nat, i: nat, q: nat)
    requires Linked(s, ft) && b <= i < |s.meta[ft].blocks|
  {
    exists j :: b <= j < i && RepresentativeFrom(s, s.meta[ft].blocks, b, j) == q
  }

  /** Block `i` stays where it is, or follows an earlier one, or moves to a block that is in use by then. */
  ghost predicate MovesToHeld(s: FsState, ft: FileTag, b: nat, i: nat)
    requires Linked(s, ft) && b <= i < |s.meta[ft].blocks|
  {
    var blocks := s.meta[ft].blocks;
    var q := RepresentativeFrom(s, blocks, b, i);
    || q == blocks[i]
    || FollowsEarlier(s, ft, b, i, q)
    || StillHeld(s, ft, b, i, q)
  }

  ghost predicate AllHeld(s: FsState, ft: FileTag, b: nat)
    requires Linked(s, ft)
  {
    forall i :: b <= i < |s.meta[ft].blocks| ==> MovesToHeld(s, ft, b, i)
  }

  // ---------------------------------------------------------------- one round

  lemma FirstMoveIff(s: FsState, ft: FileTag, b: nat)
    requires Linked(s, ft) && b < |s.meta[ft].blocks|
    ensures var q := RepresentativeFrom(s, s.meta[ft].blocks, b, b);
            MovesToHeld(s, ft, b, b) <==> q == s.meta[ft].blocks[b] || Referenced(s, q)
  {
    hide RepresentativeFrom;
    var q := RepresentativeFrom(s, s.meta[ft].blocks, b, b);
    if Referenced(s, q) {
      var x :| x in s.links && s.links[x] == q;
      assert x.ft != ft || x.block < b || b <= x.block;
    }
  }

  /** What a later block moves to is held after the round exactly when it was before. */
  lemma HeldAfterMove(s: FsState, t: FsState, ft: FileTag, b: nat, i: nat, q: nat)
    requires Linked(s, ft) && b < i < |s.meta[ft].blocks| && Moved(s, t, ft, b)
    ensures StillHeld(t, ft, b + 1, i, q) <==> StillHeld(s, ft, b, i, q) || RepresentativeFrom(s, s.meta[ft].blocks, b, b) == q
  {
    MovedToRepresentative(s, t, ft, b);
    hide RepresentativeFrom;
    var id := BlockId(ft, b);
    if StillHeld(s, ft, b, i, q) {
      var x :| x in s.links && s.links[x] == q && (x.ft != ft || x.block < b || i <= x.block);
      assert x in t.links && t.links[x] == q;
    }
    if t.links[id] == q {
      assert id in t.links && id.block < b + 1;
    }
    if StillHeld(t, ft, b + 1, i, q) {
      var x :| x in t.links && t.links[x] == q && (x.ft != ft || x.block < b + 1 || i <= x.block);
      assert x != id ==> x in s.links && s.links[x] == q;
      assert x.ft == ft && x.block == b ==> x == id;
    }
  }

  lemma FollowsAfterMove(s: FsState, t: FsState, ft: FileTag, b: nat, i: nat, q: nat)
    requires Linked(s, ft) && b < i < |s.meta[ft].blocks| && Moved(s, t, ft, b) && Linked(t, ft)
    ensures FollowsEarlier(s, ft, b, i, q) <==>
            RepresentativeFrom(s, s.meta[ft].blocks, b, b) == q || FollowsEarlier(t, ft, b + 1, i, q)
  {
    hide RepresentativeFrom;
    var next := b + 1;
    forall j | next <= j < i
      ensures RepresentativeFrom(t, t.meta[ft].blocks, next, j) == RepresentativeFrom(s, s.meta[ft].blocks, b, j)
    {
      MovedKeepsRepresentatives(s, t, ft, b, j);
    }
    if FollowsEarlier(s, ft, b, i, q) {
      var j :| b <= j < i && RepresentativeFrom(s, s.meta[ft].blocks, b, j) == q;
      assert j == b || RepresentativeFrom(t, t.meta[ft].blocks, next, j) == q;
    }
    if FollowsEarlier(t, ft, next, i, q) {
      var j :| next <= j < i && RepresentativeFrom(t, t.meta[ft].blocks, next, j) == q;
      assert RepresentativeFrom(s, s.meta[ft].blocks, b, j) == q;
    }
  }

  lemma MovesAfterMove(s: FsState, t: FsState, ft: FileTag, b: nat, i: nat)
    requires Linked(s, ft) && b < i < |s.meta[ft].blocks| && Moved(s, t, ft, b) && Linked(t, ft)
    ensures MovesToHeld(t, ft, b + 1, i) <==> MovesToHeld(s, ft, b, i)
  {
    hide RepresentativeFrom, StillHeld, FollowsEarlier;
    var q := RepresentativeFrom(s, s.meta[ft].blocks, b, i);
    MovedKeepsRepresentatives(s, t, ft, b, i);
    HeldAfterMove(s, t, ft, b, i, q);
    FollowsAfterMove(s, t, ft, b, i, q);
  }

  lemma AllHeldStep(s: FsState, t: FsState, ft: FileTag, b: nat)
    requires Linked(s, ft) && b < |s.meta[ft].blocks| && Moved(s, t, ft, b) && Linked(t, ft) && MovesToHeld(s, ft, b, b)
    ensures AllHeld(t, ft, b + 1) <==> AllHeld(s, ft, b)
  {
    hide MovesToHeld;
    var next := b + 1;
    assert |t.meta[ft].blocks| == |s.meta[ft].blocks|;
    forall i | b < i < |s.meta[ft].blocks|
      ensures MovesToHeld(t, ft, next, i) <==> MovesToHeld(s, ft, b, i)
    {
      MovesAfterMove(s, t, ft, b, i);
    }
  }

  // ---------------------------------------------------------------- consistency of a round

  lemma IndexIsNoMatter(s: FsState, index: map<Digest, nat>)
    requires Consistent(s)
    ensures Consistent(s.(index := index))
  {
    var t := s.(index := index);
    SameCounts(s, t);
    SameBitmap(s, t);
    hide LinkCounts, BitmapOk;
  }

  /** A round that moves its block to one in use keeps the filesystem consistent. */
  lemma HeldMoveKeeps(s: FsState, ft: FileTag, b: nat)
    requires Consistent(s) && ft in s.meta && ft != BASE && b < |s.meta[ft].blocks| && DedupBlock(s, ft, b).1 == 0
    requires Linked(s, ft) && MovesToHeld(s, ft, b, b)
    ensures Consistent(DedupBlock(s, ft, b).0)
  {
    FirstMoveIff(s, ft, b);
    var id := BlockId(ft, b);
    var p := s.meta[ft].blocks[b];
    var h := s.md5(s.disk[p]);
    hide LinkCounts, BitmapOk, LinksRecorded, MetaOk, ZeroBlock, MovesToHeld, Referenced;
    if h !in s.index {
      IndexIsNoMatter(s, s.index[h := p]);
    } else if s.index[h] != p {
      RelinkedKeeps(s, id, s.index[h]);
      MoveIsRelinked(s, ft, b, p, s.index[h]);
    }
  }

  /** Deduplication never sets a bit. */
  lemma RoundOnlyClears(s: FsState, ft: FileTag, b: nat, q: nat)
    requires Linked(s, ft) && b < |s.meta[ft].blocks| && q < |s.bitmap| && !s.bitmap[q]
    ensures var t := DedupBlock(s, ft, b).0; |t.bitmap| == |s.bitmap| && !t.bitmap[q]
  {
  }

  lemma {:induction false} DedupOnlyClears(s: FsState, ft: FileTag, b: nat, q: nat)
    requires Linked(s, ft) && b <= |s.meta[ft].blocks| && q < |s.bitmap| && !s.bitmap[q]
    ensures var t := DedupFrom(s, ft, b).0; |t.bitmap| == |s.bitmap| && !t.bitmap[q]
    decreases |s.meta[ft].blocks| - b
  {
    if b < |s.meta[ft].blocks| {
      RoundOnlyClears(s, ft, b, q);
      RoundMoves(s, ft, b);
      var (t, code) := DedupBlock(s, ft, b);
      hide DedupBlock;
      if code == 0 {
        DedupOnlyClears(t, ft, b + 1, q);
      }
    }
  }

  /** A block that moves to a free one is a name of a block whose bit stays clear. */
  lemma FreeMoveBreaks(s: FsState, ft: FileTag, b: nat)
    requires Consistent(s) && Linked(s, ft) && b < |s.meta[ft].blocks| && DedupFrom(s, ft, b).1 == 0 && !MovesToHeld(s, ft, b, b)
    ensures !BitmapOk(DedupFrom(s, ft, b).0)
  {
    FirstMoveIff(s, ft, b);
    DedupSettles(s, ft, b);
    var q := RepresentativeFrom(s, s.meta[ft].blocks, b, b);
    var u := DedupFrom(s, ft, b).0;
    assert q < |s.disk| && !s.bitmap[q];
    DedupOnlyClears(s, ft, b, q);
    hide RepresentativeFrom, DedupFrom, MovesToHeld;
    assert u.links[BlockId(ft, b)] == q && Referenced(u, q);
    assert q < |u.bitmap| && q < |u.disk| && !u.bitmap[q];
  }

  // ---------------------------------------------------------------- the whole COMMIT

  lemma {:induction false} DedupConsistentIff(s: FsState, ft: FileTag, b: nat)
    requires Consistent(s) && Linked(s, ft) && ft != BASE && b <= |s.meta[ft].blocks| && DedupFrom(s, ft, b).1 == 0
    ensures AllHeld(s, ft, b) ==> Consistent(DedupFrom(s, ft, b).0)
    ensures !AllHeld(s, ft, b) ==> !BitmapOk(DedupFrom(s, ft, b).0)
    decreases |s.meta[ft].blocks| - b
  {
    if b < |s.meta[ft].blocks| {
      var t := DedupBlock(s, ft, b).0;
      RoundMoves(s, ft, b);
      if MovesToHeld(s, ft, b, b) {
        HeldMoveKeeps(s, ft, b);
        AllHeldStep(s, t, ft, b);
        hide LinkCounts, BitmapOk, LinksRecorded, MetaOk, ZeroBlock, MovesToHeld, DedupBlock, AllHeld, Moved;
        DedupConsistentIff(t, ft, b + 1);
      } else {
        FreeMoveBreaks(s, ft, b);
      }
    }
  }

  lemma MarkingIsNoMatter(s: FsState, ft: FileTag)
    requires ft in s.meta && ft != BASE
    ensures Consistent(s) ==> Consistent(Marked(s, ft))
    ensures !BitmapOk(s) ==> !BitmapOk(Marked(s, ft))
  {
    var t := Marked(s, ft);
    if Consistent(s) {
      SameCounts(s, t);
      SameBitmap(s, t);
    }
    if BitmapOk(t) {
      SameBitmap(t, s);
    }
  }

  /** With any hash index, truthful or not, a successful COMMIT keeps the filesystem consistent exactly when
      every representative is in use when the first block moves to it. */
  lemma CommitKeepsConsistentIff(s: FsState, ft: FileTag)
    requires Consistent(s) && Committable(s, ft) && CommitTag(s, ft).1 == 0
    ensures Linked(s, ft) && (Consistent(CommitTag(s, ft).0) <==> AllHeld(s, ft, 0))
  {
    ConsistentIsLinked(s, ft);
    assert ft != BASE;
    DedupSettles(s, ft, 0);
    DedupConsistentIff(s, ft, 0);
    var d := DedupFrom(s, ft, 0).0;
    assert CommitTag(s, ft).0 == Marked(d, ft);
    hide LinkCounts, BitmapOk, LinksRecorded, MetaOk, ZeroBlock, DedupFrom, AllHeld, CommitTag;
    MarkingIsNoMatter(d, ft);
  }
}
