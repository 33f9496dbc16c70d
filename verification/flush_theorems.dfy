/** Flushing, and what dropping or shrinking a page table does to views and frames. */
module FlushTheorems {
  import opened Common
  import opened PagingModel
  import opened PagingTheorems

  // ---------------------------------------------------------------- flush

  /** Some dirty pages of `s` have been written back and are clean now; nothing observable has changed. */
  ghost predicate PartlyFlushed(s: MmState, t: MmState) {
    && Transparent(s, t)
    && t == s.(pages := t.pages, blocks := t.blocks)
    && t.pages.Keys == s.pages.Keys
    && (forall id :: id in s.pages ==>
                       t.pages[id] == s.pages[id].(dirty := t.pages[id].dirty) && (t.pages[id].dirty ==> s.pages[id].dirty))
    && (forall id :: !(id in s.pages && s.pages[id].dirty) ==>
                       (id in t.blocks <==> id in s.blocks) && (id in s.blocks ==> t.blocks[id] == s.blocks[id]))
  }

  lemma PartlyFlushedRefl(s: MmState)
    ensures PartlyFlushed(s, s)
  {
  }

  lemma PartlyFlushedKeeps(s: MmState, t: MmState)
    requires PartlyFlushed(s, t)
    ensures Inv(s) ==> Inv(t)
  {
  }

  lemma OnlyCleaned(s: MmState, t: MmState)
    requires PartlyFlushed(s, t)
    ensures t.pages.Keys == s.pages.Keys && forall id :: id in s.pages && !s.pages[id].dirty ==> !t.pages[id].dirty
    ensures t.history == s.history && t.clearedAt == s.clearedAt && forall id :: Present(t, id) <==> Present(s, id)
  {
  }

  lemma PartlyFlushedTrans(s: MmState, t: MmState, u: MmState)
    requires PartlyFlushed(s, t) && PartlyFlushed(t, u)
    ensures PartlyFlushed(s, u)
  {
    hide Transparent;
    TransparentTrans(s, t, u);
  }

  /** One dirty page written back; `clean` tells whether the answer arrived and the page was marked. */
  lemma FlushOne(s: MmState, id: BlockId, clean: bool)
    requires Inv(s) && Present(s, id) && s.pages[id].dirty
    ensures s.pages[id].frame < |s.frames|
    ensures PartlyFlushed(s, s.(pages := s.pages[id := s.pages[id].(dirty := !clean)], blocks := s.blocks[id := s.frames[s.pages[id].frame]]))
  {
    hide Inv, Transparent;
    FrameOfPresent(s, id);
    var w := s.(blocks := s.blocks[id := s.frames[s.pages[id].frame]]);
    BlockWrittenKeeps(s, id);
    TransparentKeeps(s, w);
    BlockIsFrame(s, w, id);
    var t := w.(pages := w.pages[id := w.pages[id].(dirty := !clean)]);
    CleanKeeps(w, id, clean);
    TransparentTrans(s, w, t);
  }

  lemma BlockIsFrame(s: MmState, w: MmState, id: BlockId)
    requires Inv(s) && Present(s, id) && s.pages[id].frame < |s.frames|
    requires w == s.(blocks := s.blocks[id := s.frames[s.pages[id].frame]])
    ensures StoragePage(w, id) == s.frames[s.pages[id].frame]
  {
  }

  /** A page whose frame equals its Storage block may be marked clean. */
  lemma CleanKeeps(s: MmState, id: BlockId, clean: bool)
    requires Inv(s) && Present(s, id) && s.pages[id].dirty
    requires s.pages[id].frame < |s.frames| && s.frames[s.pages[id].frame] == StoragePage(s, id)
    ensures Transparent(s, s.(pages := s.pages[id := s.pages[id].(dirty := !clean)]))
  {
    var t := s.(pages := s.pages[id := s.pages[id].(dirty := !clean)]);
    forall x | x in t.pages
      ensures PageOk(t, x)
    {
      assert PageOk(s, x);
    }
    forall x
      ensures Present(t, x) == Present(s, x)
    {
    }
    forall x {:trigger View(t, x)}
      ensures View(t, x) == View(s, x)
    {
    }
    forall g | Owned(s, g)
      ensures Owned(t, g)
    {
      var x :| Owns(s, x, g);
      assert Owns(t, x, g);
    }
  }

  ghost predicate NoDirtyPage(s: MmState) {
    forall id :: id in s.pages ==> !s.pages[id].dirty
  }

  /** Flush synchronises: every view a Query had is now the content of its Storage block. */
  lemma FlushSynchronises(s: MmState, t: MmState)
    requires Inv(s) && PartlyFlushed(s, t) && NoDirtyPage(t)
    ensures forall id {:trigger View(s, id)} {:trigger StoragePage(t, id)} :: StoragePage(t, id) == View(s, id) == View(t, id)
    ensures forall id :: Present(t, id) ==> t.pages[id].frame < |t.frames| && t.frames[t.pages[id].frame] == StoragePage(t, id)
  {
    forall id
      ensures StoragePage(t, id) == View(s, id) == View(t, id)
      ensures Present(t, id) ==> t.pages[id].frame < |t.frames| && t.frames[t.pages[id].frame] == StoragePage(t, id)
    {
      assert View(t, id) == View(s, id);
      if Present(t, id) {
        assert PageOk(t, id);
      }
    }
  }

  // ---------------------------------------------------------------- dropped pages

  /** `t` has lost the entries of some pages: their table was removed or made shorter. */
  ghost predicate Dropped(s: MmState, t: MmState) {
    && t == s.(pages := t.pages)
    && t.pages.Keys <= s.pages.Keys
    && forall id :: id in t.pages ==> t.pages[id] == s.pages[id]
  }

  /** The other pages are untouched; a dropped page reads as its Storage block, its unflushed writes are gone. */
  lemma DropKeeps(s: MmState, t: MmState)
    requires Inv(s) && Dropped(s, t)
    ensures Inv(t) && (TimesOk(s) ==> TimesOk(t))
    ensures forall id {:trigger View(t, id)} :: View(t, id) == if id in t.pages || id !in s.pages then View(s, id) else StoragePage(s, id)
  {
    forall x | x in t.pages
      ensures PageOk(t, x)
    {
      assert PageOk(s, x);
    }
    forall a, b | Present(t, a) && Present(t, b) && t.pages[a].frame == t.pages[b].frame
      ensures a == b
    {
      assert Present(s, a) && Present(s, b);
    }
    forall id {:trigger View(t, id)}
      ensures View(t, id) == if id in t.pages || id !in s.pages then View(s, id) else StoragePage(s, id)
    {
      assert StoragePage(t, id) == StoragePage(s, id);
    }
  }

  /** Dropping keeps used frames and present pages in bijection exactly when no dropped page was present:
      the source does not free the frames of the pages it drops. */
  lemma DropLeaksIffPresent(s: MmState, t: MmState)
    requires Inv(s) && NoLeakedFrame(s) && Dropped(s, t)
    ensures NoLeakedFrame(t) <==> forall id :: Present(s, id) ==> id in t.pages
  {
    if NoLeakedFrame(t) {
      forall id | Present(s, id)
        ensures id in t.pages
      {
        assert PageOk(s, id);
        var f := s.pages[id].frame;
        assert Owned(t, f);
        var x :| Owns(t, x, f);
        assert Present(s, x);
      }
    }
    if forall id :: Present(s, id) ==> id in t.pages {
      forall f | 0 <= f < |t.used| && t.used[f]
        ensures Owned(t, f)
      {
        assert Owned(s, f);
        var x :| Owns(s, x, f);
        assert Present(s, x);
        assert Owns(t, x, f);
      }
    }
  }
}
