/** Which refusal gets which code, and what a refused request leaves. */
module FsCodes {
  import opened Common
  import opened FsModel
  import opened FsTheorems
  import opened FsNamespace
  import opened FsCommitTheorems

  /** Every physical block has its bit set, and so has every bit beyond them. */
  predicate NoClearBit(s: FsState) {
    forall p :: 0 <= p < |s.bitmap| ==> s.bitmap[p]
  }

  /** The bit a copy-on-write would take; beyond the physical blocks it takes it all the same. */
  ghost predicate FirstClear(s: FsState, q: nat) {
    q < |s.bitmap| && !s.bitmap[q] && forall p :: 0 <= p < q ==> s.bitmap[p]
  }

  /** The code of a write names the first check that fails. */
  lemma WriteCodes(s: FsState, id: BlockId, data: seq<Byte>)
    requires Consistent(s)
    ensures var code := WriteBlock(s, id, data).1;
            && (code == FILE_TAG_MISSING <==> id.ft !in s.meta)
            && (code == FILE_ALREADY_COMMITTED <==> id.ft in s.meta && s.meta[id.ft].state == Committed)
            && (code == READ_OUT_OF_BOUNDS <==> id.ft in s.meta && s.meta[id.ft].state != Committed && |s.meta[id.ft].blocks| <= id.block)
            && (code == NOT_ENOUGH_SPACE <==> Writable(s, id) && Shared(s, id) && NoClearBit(s))
            && (code == -5 <==> Writable(s, id) && Shared(s, id) && !HasFreeBlock(s) && !NoClearBit(s))
            && (code == 0 <==> Writable(s, id) && (Shared(s, id) ==> HasFreeBlock(s)))
            && code in {0, -5, FILE_TAG_MISSING, FILE_ALREADY_COMMITTED, READ_OUT_OF_BOUNDS, NOT_ENOUGH_SPACE}
  {
    WriteSucceedsIff(s, id, data);
    assert Writable(s, id) ==> BlockId(id.ft, id.block) in s.links;
    FreeBitInRange(s);
    assert NoClearBit(s) <==> FreeBit(s.bitmap) == |s.bitmap|;
  }

  /** A refused write stores nothing. It leaves the filesystem as it was, except that a shared block for which
      there is no free one has lost its name, and that a clear bit beyond the physical blocks is taken. */
  lemma RefusedWrite(s: FsState, id: BlockId, data: seq<Byte>)
    requires Consistent(s) && WriteBlock(s, id, data).1 != 0
    ensures var (t, code) := WriteBlock(s, id, data);
            && t.disk == s.disk && t.meta == s.meta && t.index == s.index && t.dirs == s.dirs
            && t == s.(links := t.links, nlink := t.nlink, bitmap := t.bitmap)
            && t.links == (if Writable(s, id) && Shared(s, id) && !HasFreeBlock(s) then s.links - {id} else s.links)
            && (t.links == s.links ==> t.nlink == s.nlink)
            && (code != -5 ==> t.bitmap == s.bitmap)
            && (code == -5 ==> exists q: nat :: FirstClear(s, q) && t.bitmap == s.bitmap[q := true])
            && forall x :: x in s.links && x != id ==> x in t.links && t.links[x] == s.links[x] < |s.disk| && Content(t, x) == Content(s, x)
  {
    WriteCodes(s, id, data);
    FreeBitInRange(s);
    hide LinkCounts, BitmapOk, MetaOk, LinksRecorded, ZeroBlock;
    var t := WriteBlock(s, id, data).0;
    if Writable(s, id) && Shared(s, id) && !HasFreeBlock(s) {
      assert t.links == s.links - {id};
      if WriteBlock(s, id, data).1 == -5 {
        assert FirstClear(s, FreeBit(s.bitmap));
      }
    } else {
      assert id in s.links ==> s.links - {id} != s.links;
    }
  }

  /** The codes of the other requests; a refused one changes nothing. */
  lemma CreateCodes(s: FsState, ft: FileTag)
    ensures var (t, code) := CreateFile(s, ft);
            && (code == FILE_TAG_ALREADY_EXISTS <==> ft in s.meta) && (code == 0 <==> ft !in s.meta)
            && (code != 0 ==> t == s)
  {
  }

  lemma TagCodes(s: FsState, src: FileTag, dst: FileTag)
    ensures var (t, code) := CreateTag(s, src, dst);
            && (code == FILE_TAG_ALREADY_EXISTS <==> dst in s.meta)
            && (code == FILE_TAG_MISSING <==> dst !in s.meta && src !in s.meta)
            && (code == -1 <==> dst !in s.meta && src in s.meta && dst.file !in s.dirs)
            && code in {0, -1, FILE_TAG_ALREADY_EXISTS, FILE_TAG_MISSING} && (code != 0 ==> t == s)
  {
  }

  lemma TruncateCodes(s: FsState, ft: FileTag, size: nat)
    requires Consistent(s)
    ensures var (t, code) := Truncate(s, ft, size);
            && (code == -1 <==> ft !in s.meta) && (code == 0 <==> ft in s.meta) && (code != 0 ==> t == s)
  {
    hide BitmapOk, LinkCounts;
    if ft in s.meta {
      var n := BlockCount(size, s.blockSize);
      var blocks := s.meta[ft].blocks;
      assert forall b :: |blocks| <= b < n ==> BlockId(ft, b) !in s.links;
      if n > |blocks| {
        GrowSucceeds(s, ft, |blocks|, n);
      }
    }
  }

  lemma {:induction false} GrowSucceeds(s: FsState, ft: FileTag, from: nat, end: nat)
    requires 0 < |s.nlink| && forall b :: from <= b < end ==> BlockId(ft, b) !in s.links
    ensures GrowFrom(s, ft, from, end).1 == 0
    decreases end - from
  {
    if from < end {
      GrowSucceeds(Link(s, BlockId(ft, from), 0), ft, from + 1, end);
    }
  }

  lemma CommitCodes(s: FsState, ft: FileTag)
    requires Consistent(s)
    ensures var (t, code) := CommitTag(s, ft);
            && (code == FILE_TAG_MISSING <==> ft !in s.meta)
            && (code == FILE_ALREADY_COMMITTED <==> ft in s.meta && s.meta[ft].state == Committed)
            && (code == -1 || code == 0 <==> Committable(s, ft))
            && (code == FILE_TAG_MISSING || code == FILE_ALREADY_COMMITTED ==> t == s)
  {
  }

  lemma DeleteCodes(s: FsState, ft: FileTag)
    requires Consistent(s)
    ensures var (t, code) := DeleteTag(s, ft);
            && (code == -1 <==> ft == BASE) && (code == FILE_TAG_MISSING <==> ft !in s.meta)
            && (code == 0 <==> ft in s.meta && ft != BASE) && (code != 0 ==> t == s)
  {
    DeleteKeeps(s, ft);
  }
}
