/** Paging is transparent: what a reservation, a page fault and an access leave observable. */
module PagingTheorems {
  import opened Common
  import opened PagingModel
  import opened ReplacementModel

  // ---------------------------------------------------------------- obtaining a frame

  /** The page the replacement policy evicts. */
  ghost predicate PolicyVictim(s: MmState, id: BlockId)
    requires Inv(s)
  {
    match s.policy
    case Lru => SmallestTime(s, id)
    case ClockM => s.hand < |s.frames| && ClockVictim(s, id)
  }

  predicate AllUsed(s: MmState) {
    forall k :: 0 <= k < |s.used| ==> s.used[k]
  }

  /** What its eviction leaves. */
  ghost function PolicyEvict(s: MmState, id: BlockId): MmState
    requires Inv(s) && PolicyVictim(s, id)
  {
    assert PageOk(s, id);
    match s.policy
    case Lru => Evict(s, id)
    case ClockM => ClockEvict(s, id)
  }

  /** How `frame` was set aside: the first free one, or that of the policy's victim when none was free. */
  ghost predicate Placed(s: MmState, t: MmState, frame: nat, victim: Option<BlockId>) {
    && Inv(s)
    && match victim
       case None => frame < |s.used| && !s.used[frame] && (forall k :: 0 <= k < frame ==> s.used[k])
                    && t == s.(used := s.used[frame := true])
       case Some(id) => AllUsed(s) && PolicyVictim(s, id) && frame == s.pages[id].frame
                        && t == PolicyEvict(s, id).(used := s.used)
  }

  /** A frame can be had: one is free, or some page can be evicted. */
  ghost predicate HasFrame(s: MmState) {
    0 < |s.used| && CanReplace(s)
  }

  /** The pages present after a frame was set aside: all but the victim. */
  lemma PlacedPresent(s: MmState, t: MmState, frame: nat, victim: Option<BlockId>)
    requires Placed(s, t, frame, victim)
    ensures forall x :: Present(t, x) <==> Present(s, x) && victim != Some(x)
    ensures victim == None ==> t.clearedAt == s.clearedAt && t.hand == s.hand
    ensures t.history == s.history && HasFrame(s)
    ensures victim.Some? ==> AllUsed(s) && PolicyVictim(s, victim.value)
  {
    if victim.Some? {
      var id := victim.value;
      assert PageOk(s, id);
      if s.policy.ClockM? {
        ClearedClasses(s);
      }
      forall x
        ensures Present(t, x) <==> Present(s, x) && x != id
      {
        if s.policy.ClockM? {
          assert x in Cleared(s).pages <==> x in s.pages;
        }
      }
      assert Present(s, id);
    }
  }

  ghost predicate NoLeakedFrameBut(s: MmState, f: nat) {
    forall g :: 0 <= g < |s.used| && s.used[g] && g != f ==> Owned(s, g)
  }

  /** Frame `f` has been set aside for a new page, nothing observable has changed. */
  ghost predicate Reserved(s: MmState, t: MmState, f: nat) {
    && t.pageSize == s.pageSize && t.policy == s.policy && |t.frames| == |s.frames| && t.pages.Keys == s.pages.Keys
    && t.history == s.history
    && Inv(t) && SameViews(s, t)
    && f < |t.used| && t.used[f] && NobodyIn(t.pages, f)
    && (TimesOk(s) ==> TimesOk(t))
    && (NoLeakedFrame(s) ==> NoLeakedFrameBut(t, f))
    && (forall id :: Present(t, id) ==> Present(s, id))
  }

  lemma ReserveFree(s: MmState, f: nat)
    requires Inv(s) && f < |s.used| && !s.used[f]
    ensures Reserved(s, s.(used := s.used[f := true]), f)
  {
    var t := s.(used := s.used[f := true]);
    forall x | x in s.pages
      ensures PageOk(t, x) && (s.pages[x].present ==> s.pages[x].frame != f)
    {
      assert PageOk(s, x);
    }
    assert forall x :: Present(t, x) == Present(s, x);
    SameFramesViews(s, t);
    forall g | Owned(s, g)
      ensures Owned(t, g)
    {
      var x :| Owns(s, x, g);
      assert Owns(t, x, g);
    }
  }

  lemma SameFramesViews(s: MmState, t: MmState)
    requires t.pages == s.pages && t.frames == s.frames && t.blocks == s.blocks && t.pageSize == s.pageSize
    ensures SameViews(s, t)
  {
  }

  /** A victim's frame, whichever policy chose it: `c` differs from `s` in bookkeeping only. */
  lemma ReserveEvicted(s: MmState, c: MmState, id: BlockId, hand: nat)
    requires Inv(s) && SamePlacement(s, c) && Present(s, id) && (hand == 0 || hand < |s.frames|)
    requires c.history == s.history && (TimesOk(s) ==> TimesOk(c))
    ensures s.pages[id].frame < |s.used| == |s.frames| && c.pages[id].frame == s.pages[id].frame
    ensures var e := Evict(c, id);
            var f := s.pages[id].frame;
            Reserved(s, e.(hand := hand, used := e.used[f := true]), f)
  {
    assert PageOk(s, id);
    SamePlacementKeeps(s, c);
    SamePlacementViews(s, c);
    var f := s.pages[id].frame;
    var e := Evict(c, id);
    EvictKeepsInv(c, id);
    EvictKeepsViews(c, id);
    EvictKeepsRest(c, id);
    var h := e.(hand := hand);
    MoveHand(e, hand);
    ReserveFree(h, f);
    ReservedAfter(s, c, e, h, f);
  }

  lemma MoveHand(s: MmState, hand: nat)
    requires Inv(s) && (hand == 0 || hand < |s.frames|)
    ensures var t := s.(hand := hand); Inv(t) && SameViews(s, t) && (TimesOk(s) ==> TimesOk(t)) && (NoLeakedFrame(s) ==> NoLeakedFrame(t))
  {
    var t := s.(hand := hand);
    SamePlacementKeeps(s, t);
    SamePlacementViews(s, t);
    SameRecords(s, t);
  }

  lemma ReservedAfter(s: MmState, c: MmState, e: MmState, h: MmState, f: nat)
    requires SameViews(s, c) && SameViews(c, e) && SameViews(e, h) && f < |h.used|
    requires (TimesOk(s) ==> TimesOk(h)) && (NoLeakedFrame(s) ==> NoLeakedFrame(h))
    requires h.pageSize == s.pageSize && h.policy == s.policy && h.history == s.history && |h.frames| == |s.frames| && h.pages.Keys == s.pages.Keys
    requires Reserved(h, h.(used := h.used[f := true]), f)
    requires forall id :: Present(h, id) ==> Present(s, id)
    ensures Reserved(s, h.(used := h.used[f := true]), f)
  {
    var t := h.(used := h.used[f := true]);
    forall id {:trigger View(t, id)}
      ensures View(t, id) == View(s, id)
    {
      assert View(h, id) == View(e, id) == View(c, id);
    }
  }

  /** A write-back that failed, whether or not it reached Storage. */
  lemma FailedWriteBack(s: MmState, c: MmState, id: BlockId)
    requires Inv(s) && SamePlacement(s, c) && Present(s, id) && s.pages[id].dirty && (TimesOk(s) ==> TimesOk(c))
    ensures s.pages[id].frame < |s.frames|
    ensures Transparent(s, c) && Transparent(s, c.(blocks := s.blocks[id := s.frames[s.pages[id].frame]]))
  {
    assert PageOk(s, id);
    SamePlacementKeeps(s, c);
    SamePlacementViews(s, c);
    BlockWrittenKeeps(c, id);
  }

  /** A dirty page's frame reaches Storage while the page stays dirty. */
  lemma BlockWrittenKeeps(s: MmState, id: BlockId)
    requires Inv(s) && Present(s, id) && s.pages[id].dirty
    ensures s.pages[id].frame < |s.frames|
    ensures Transparent(s, s.(blocks := s.blocks[id := s.frames[s.pages[id].frame]]))
  {
    assert PageOk(s, id);
    var t := s.(blocks := s.blocks[id := s.frames[s.pages[id].frame]]);
    forall x | x in s.pages
      ensures PageOk(t, x)
    {
      assert PageOk(s, x);
    }
    assert forall x :: Present(t, x) == Present(s, x);
    forall x {:trigger View(t, x)}
      ensures View(t, x) == View(s, x)
    {
    }
    forall g | Owned(s, g)
      ensures Owned(t, g)
    {
      var x :| Owns(s, x, g);
      assert Owns(t, x, g);
    }
  }

  lemma TransparentRefl(s: MmState)
    ensures Transparent(s, s)
  {
  }

  /** What the eviction of `id` leaves: its frame, or -1 after a failed write-back, which may have
      reached Storage all the same. */
  ghost predicate SearchOutcome(s: MmState, t: MmState, id: BlockId, frame: int)
    requires id in s.pages && s.pages[id].frame < |s.frames| == |s.used|
  {
    if frame == -1 then
      s.pages[id].dirty && (t == s || t == s.(blocks := s.blocks[id := s.frames[s.pages[id].frame]]))
    else
      frame == s.pages[id].frame && t == Evict(s, id)
  }

  lemma LruReservation(s: MmState, t: MmState, id: BlockId, frame: int)
    requires Inv(s) && Present(s, id) && s.pages[id].frame < |s.frames| == |s.used| && SearchOutcome(s, t, id, frame)
    ensures |t.used| == |s.used| && t.history == s.history && HasFrame(s)
    ensures frame == -1 ==> Transparent(s, t) && forall x :: Present(t, x) <==> Present(s, x)
    ensures frame != -1 ==> 0 <= frame < |t.used| && Reserved(s, t.(used := t.used[frame := true]), frame)
  {
    FrameOfPresent(s, id);
    if frame == -1 {
      FailedWriteBack(s, s, id);
      TransparentRefl(s);
    } else {
      ReserveEvicted(s, s, id, s.hand);
    }
  }

  lemma LruPlaced(s: MmState, t: MmState, id: BlockId, frame: int)
    requires s.policy.Lru? && Inv(s) && AllUsed(s) && SmallestTime(s, id) && s.pages[id].frame < |s.frames| == |s.used|
    requires SearchOutcome(s, t, id, frame) && 0 <= frame < |t.used|
    ensures Placed(s, t.(used := t.used[frame := true]), frame, Some(id))
  {
    FrameOfPresent(s, id);
  }

  lemma ClockPlaced(s: MmState, t: MmState, id: BlockId, frame: int)
    requires s.policy.ClockM? && Inv(s) && AllUsed(s)
    requires ClockOutcome(s, t, id, frame) && 0 <= frame < |t.used|
    ensures Placed(s, t.(used := t.used[frame := true]), frame, Some(id))
  {
    FrameOfPresent(s, id);
  }

  /** With every frame used, only a present page can give one up. */
  lemma FullFrames(s: MmState)
    requires Inv(s) && AllUsed(s)
    ensures HasFrame(s) <==> exists id :: Present(s, id)
    ensures CanReplace(s) <==> |s.used| == 0 || exists id :: Present(s, id)
  {
    if id :| Present(s, id) {
      FrameOfPresent(s, id);
    }
  }

  lemma ClockReservation(s: MmState, t: MmState, id: BlockId, frame: int)
    requires ClockOutcome(s, t, id, frame)
    ensures |t.used| == |s.used| && t.history == s.history && Present(s, id)
    ensures frame == -1 ==> Transparent(s, t) && forall x :: Present(t, x) <==> Present(s, x)
    ensures frame != -1 ==> 0 <= frame < |t.used| && Reserved(s, t.(used := t.used[frame := true]), frame)
  {
    hide Transparent, Reserved, Cleared, Inv;
    ClearedIsBookkeeping(s);
    FrameOfPresent(s, id);
    ClearedClasses(s);
    if frame == -1 {
      FailedWriteBack(s, Cleared(s), id);
    } else {
      var c := if Class(s.pages[id]) == 0 then s else Cleared(s);
      SamePlacementRefl(s);
      ReserveEvicted(s, c, id, (frame + 1) % |s.frames|);
    }
  }

  lemma FrameOfPresent(s: MmState, id: BlockId)
    requires Inv(s) && Present(s, id)
    ensures s.pages[id].frame < |s.frames| == |s.used| && s.used[s.pages[id].frame]
  {
    assert PageOk(s, id);
  }

  lemma SamePlacementRefl(s: MmState)
    requires Inv(s)
    ensures SamePlacement(s, s)
  {
  }

  lemma ClearedIsBookkeeping(s: MmState)
    requires Inv(s) && s.hand < |s.frames|
    ensures SamePlacement(s, Cleared(s)) && Cleared(s).history == s.history
    ensures TimesOk(s) ==> TimesOk(Cleared(s))
  {
    ClearedClasses(s);
    UseBitsClearedKeeps(s, |s.frames|);
    var t := Cleared(s);
    if TimesOk(s) {
      forall x | Present(t, x)
        ensures RecordOk(t, x)
      {
        assert Present(s, x) && RecordOk(s, x);
      }
    }
  }

  lemma SoundTrans(s: MmState, t: MmState, u: MmState)
    requires Sound(s, t) && Sound(t, u)
    ensures Sound(s, u)
  {
    hide Inv, TimesOk, NoLeakedFrame, CanReplace;
  }

  lemma TransparentTrans(s: MmState, t: MmState, u: MmState)
    requires Transparent(s, t) && Transparent(t, u)
    ensures Transparent(s, u)
  {
    hide Sound;
    SoundTrans(s, t, u);
    forall id {:trigger View(u, id)}
      ensures View(u, id) == View(s, id)
    {
      assert View(t, id) == View(s, id);
    }
  }

  lemma TransparentKeeps(s: MmState, t: MmState)
    requires Transparent(s, t)
    ensures Inv(s) ==> Inv(t)
    ensures CanReplace(s) ==> CanReplace(t)
    ensures s.pages.Keys <= t.pages.Keys && t.pageSize == s.pageSize && |t.frames| == |s.frames| && SameViews(s, t)
  {
  }

  lemma PresentCanReplace(s: MmState, id: BlockId)
    requires Present(s, id)
    ensures CanReplace(s)
  {
  }

  lemma ReservedKeeps(s: MmState, t: MmState, f: nat)
    requires Reserved(s, t, f)
    ensures t.pages.Keys == s.pages.Keys && f < |t.used|
  {
  }

  // ---------------------------------------------------------------- page faults

  /** `t` has gained some blank pages. */
  ghost predicate Grown(s: MmState, t: MmState) {
    && t == s.(pages := t.pages) && s.pages.Keys <= t.pages.Keys
    && (forall id :: id in s.pages ==> t.pages[id] == s.pages[id])
    && (forall id :: id in t.pages && id !in s.pages ==> t.pages[id] == BlankEntry(id.block))
  }

  lemma GrownRefl(s: MmState)
    ensures Grown(s, s)
  {
  }

  /** Blank pages are not candidates for replacement, and give nothing to replace. */
  lemma GrownPresent(s: MmState, t: MmState)
    requires Grown(s, t)
    ensures forall x :: Present(t, x) <==> Present(s, x)
    ensures CanReplace(t) <==> CanReplace(s)
    ensures HasFrame(t) <==> HasFrame(s)
    ensures t.history == s.history && t.clearedAt == s.clearedAt && t.hand == s.hand && t.used == s.used
  {
    forall x
      ensures Present(t, x) <==> Present(s, x)
    {
    }
  }

  lemma GrownVictim(s: MmState, t: MmState, id: BlockId)
    requires Inv(s) && Inv(t) && Grown(s, t) && PolicyVictim(t, id)
    ensures PolicyVictim(s, id)
  {
    GrownPresent(s, t);
    forall x | Present(s, x)
      ensures t.pages[x] == s.pages[x] && s.pages[x].frame < |s.frames|
    {
      assert PageOk(s, x);
    }
    assert Present(t, id);
    forall x | Present(s, x)
      ensures Present(t, x)
    {
    }
  }

  /** A page table that grows gains blank entries only. */
  lemma GrowKeeps(s: MmState, t: MmState)
    requires Inv(s) && Grown(s, t)
    ensures Transparent(s, t)
  {
    forall x | x in t.pages
      ensures PageOk(t, x)
    {
      if x in s.pages {
        assert PageOk(s, x);
      }
    }
    forall x
      ensures Present(t, x) == Present(s, x)
    {
    }
    forall x {:trigger View(t, x)}
      ensures View(t, x) == View(s, x)
    {
    }
    forall g | Owned(s, g)
      ensures Owned(t, g)
    {
      var x :| Owns(s, x, g);
      assert Owns(t, x, g);
    }
  }

  /** The block is loaded into the reserved frame, the page mapped and its access recorded. */
  lemma FaultServed(s: MmState, t: MmState, id: BlockId, f: nat)
    requires Inv(s) && Reserved(s, t, f) && id in s.pages && !Present(s, id)
    ensures id in t.pages && f < |t.frames|
    ensures var u := Touch(LoadPage(t, id, f, StoragePage(t, id)), id); Transparent(s, u) && Present(u, id)
  {
    var l := LoadPage(t, id, f, StoragePage(t, id));
    var u := Touch(l, id);
    assert !Present(t, id);
    LoadPageKeepsInv(t, id, f);
    LoadPageKeepsViews(t, id, f);
    LoadPageKeepsRest(t, id, f, StoragePage(t, id));
    TouchIsBookkeeping(l, id);
    SamePlacementKeeps(l, u);
    SamePlacementViews(l, u);
    if TimesOk(s) {
      TouchSetsTime(l, id);
    }
    forall x {:trigger View(u, x)}
      ensures View(u, x) == View(s, x)
    {
      assert View(l, x) == View(t, x);
    }
    assert Present(u, id);
  }

  /** What a page fault for `id` does to the set of present pages and to the records: a fault that is served adds
      `id` and its access; a page leaves only to make room, when no frame is free, and it is the policy's
      victim; use bits are cleared only by a search for one. */
  ghost predicate FaultEffect(s: MmState, t: MmState, id: BlockId, result: int, victim: Option<BlockId>)
    requires Inv(s)
  {
    && t.history == s.history + (if result == 0 then [id] else [])
    && (forall x :: Present(t, x) <==> (result == 0 && x == id) || (Present(s, x) && victim != Some(x)))
    && (victim.Some? ==> AllUsed(s) && PolicyVictim(s, victim.value))
    && (result == 0 && victim == None ==> t.clearedAt == s.clearedAt && t.hand == s.hand)
  }

  /** A fault that obtained no frame. */
  lemma FaultRefused(s0: MmState, s: MmState, t: MmState, id: BlockId)
    requires Inv(s0) && Grown(s0, s) && t.history == s.history && forall x :: Present(t, x) <==> Present(s, x)
    ensures FaultEffect(s0, t, id, -1, None)
  {
    GrownPresent(s0, s);
  }

  /** A fault that obtained one, and the block or not. */
  lemma FaultDecided(s0: MmState, s: MmState, t: MmState, u: MmState, id: BlockId, frame: nat, victim: Option<BlockId>, result: int)
    requires Inv(s0) && Grown(s0, s) && Placed(s, t, frame, victim)
    requires id in t.pages && frame < |t.frames|
    requires result == 0 ==> u == Touch(LoadPage(t, id, frame, StoragePage(t, id)), id)
    requires result != 0 ==> u == t.(used := t.used[frame := false])
    ensures FaultEffect(s0, u, id, result, victim)
  {
    hide Grown, Placed, Inv, Touch, LoadPage, StoragePage, FaultEffect;
    PlacedInv(s, t, frame, victim);
    LoadDecided(s, t, u, id, frame, victim, result);
    FaultAfterGrowth(s0, s, u, id, result, victim);
  }

  lemma LoadDecided(s: MmState, t: MmState, u: MmState, id: BlockId, frame: nat, victim: Option<BlockId>, result: int)
    requires Inv(s) && Placed(s, t, frame, victim)
    requires id in t.pages && frame < |t.frames| && frame < |t.used|
    requires result == 0 ==> u == Touch(LoadPage(t, id, frame, StoragePage(t, id)), id)
    requires result != 0 ==> u == t.(used := t.used[frame := false])
    ensures FaultEffect(s, u, id, result, victim)
  {
    PlacedPresent(s, t, frame, victim);
    LoadedPresent(t, id, frame, StoragePage(t, id));
    hide Placed, Inv, PolicyVictim, Touch, LoadPage, StoragePage, HasFrame, AllUsed;
    if result != 0 {
      assert u.pages == t.pages && u.history == t.history + [];
      SamePresent(t, u);
    }
  }

  lemma SamePresent(s: MmState, t: MmState)
    requires t.pages == s.pages
    ensures forall x :: Present(t, x) <==> Present(s, x)
  {
  }

  lemma FaultAfterGrowth(s0: MmState, s: MmState, u: MmState, id: BlockId, result: int, victim: Option<BlockId>)
    requires Inv(s0) && Inv(s) && Grown(s0, s) && FaultEffect(s, u, id, result, victim)
    ensures FaultEffect(s0, u, id, result, victim)
  {
    GrownPresent(s0, s);
    hide Grown, Inv, PolicyVictim;
    if victim.Some? {
      GrownVictim(s0, s, victim.value);
    }
  }

  lemma PlacedInv(s: MmState, t: MmState, frame: nat, victim: Option<BlockId>)
    requires Placed(s, t, frame, victim)
    ensures Inv(s) && |t.used| == |s.used| && frame < |t.used|
  {
    if victim.Some? {
      FrameOfPresent(s, victim.value);
    }
  }

  lemma LoadedPresent(s: MmState, id: BlockId, f: nat, page: Page)
    requires id in s.pages && f < |s.frames|
    ensures var t := Touch(LoadPage(s, id, f, page), id);
            && t.history == s.history + [id] && t.clearedAt == s.clearedAt && t.hand == s.hand
            && forall x :: Present(t, x) <==> x == id || Present(s, x)
  {
  }

  /** What an access to page `id` does to the records and to the pages present. */
  ghost predicate PageEffect(s: MmState, t: MmState, id: BlockId, result: int, connected: bool) {
    && (if result == 0 then PageNoted(s.history, t.history, id, !Present(s, id)) else t.history == s.history)
    && (Present(s, id) || !connected ==> t.clearedAt == s.clearedAt && forall x :: Present(t, x) <==> Present(s, x))
  }

  /** The page was there: nothing else is looked at. */
  lemma HitEffect(s0: MmState, s: MmState, t: MmState, id: BlockId, connected: bool)
    requires Grown(s0, s) && Present(s, id)
    requires t.history == s.history + [id] && t.clearedAt == s.clearedAt && forall x :: Present(t, x) <==> Present(s, x)
    ensures PageEffect(s0, t, id, 0, connected)
  {
    GrownPresent(s0, s);
  }

  /** The page had to be loaded. */
  lemma MissEffect(s0: MmState, s: MmState, t: MmState, u: MmState, id: BlockId, result: int, victim: Option<BlockId>, connected: bool)
    requires Inv(s) && Grown(s0, s) && !Present(s, id) && FaultEffect(s, t, id, result, victim)
    requires u.history == t.history + (if result == 0 then [id] else [])
    requires !connected ==> result == -1 && victim == None && u == t && t.clearedAt == s.clearedAt
    ensures PageEffect(s0, u, id, result, connected)
  {
    GrownPresent(s0, s);
    assert result == 0 ==> s.history + [id] + [id] == s.history + [id, id];
  }

  lemma TouchIsBookkeeping(s: MmState, id: BlockId)
    requires Inv(s) && id in s.pages
    ensures SamePlacement(s, Touch(s, id))
  {
  }

  /** A page already there: only its access is recorded. */
  lemma TouchKeeps(s: MmState, id: BlockId)
    requires Inv(s) && Present(s, id)
    ensures Transparent(s, Touch(s, id)) && Present(Touch(s, id), id)
  {
    var u := Touch(s, id);
    TouchIsBookkeeping(s, id);
    SamePlacementKeeps(s, u);
    SamePlacementViews(s, u);
    if TimesOk(s) {
      TouchSetsTime(s, id);
    }
    assert Present(u, id);
  }

  /** Storage refused the read: the frame is free again. */
  lemma FaultAborted(s: MmState, t: MmState, f: nat)
    requires Inv(s) && Reserved(s, t, f)
    ensures Transparent(s, t.(used := t.used[f := false]))
  {
    var u := t.(used := t.used[f := false]);
    forall x | x in u.pages
      ensures PageOk(u, x)
    {
      assert PageOk(t, x);
    }
    assert forall x :: Present(u, x) == Present(t, x);
    SameFramesViews(t, u);
    forall x {:trigger View(u, x)}
      ensures View(u, x) == View(s, x)
    {
      assert View(t, x) == View(s, x);
    }
    forall g | Owned(t, g)
      ensures Owned(u, g)
    {
      var x :| Owns(t, x, g);
      assert Owns(u, x, g);
    }
    assert !u.used[f];
  }

  /** Bytes stored in a present page. */
  lemma StoreKeeps(s: MmState, id: BlockId, at: nat, data: seq<Byte>)
    requires Inv(s) && Present(s, id) && at + |data| <= s.pageSize
    ensures s.pages[id].frame < |s.frames| && |View(s, id)| == |s.frames[s.pages[id].frame]| == s.pageSize
    ensures var t := StoreBytes(s, id, at, data);
            && Sound(s, t)
            && View(t, id) == Patch(View(s, id), at, data)
            && forall x {:trigger View(t, x)} :: x != id ==> View(t, x) == View(s, x)
  {
    StoreBytesKeepsInv(s, id, at, data);
    StoreBytesViews(s, id, at, data);
    StoreBytesKeepsRest(s, id, at, data);
    assert Present(StoreBytes(s, id, at, data), id);
  }

  /** `buffer` received `n` bytes of the page's view, the rest of it is `was`. */
  ghost predicate PageRead(s: MmState, id: BlockId, offset: nat, n: nat, was: seq<Byte>, at: nat, buffer: seq<Byte>) {
    && offset + n <= |View(s, id)| && at + n <= |was|
    && buffer == Patch(was, at, View(s, id)[offset..offset + n])
  }

  /** The view of one page took the bytes of `data`, no other view changed. */
  ghost predicate PageWritten(s: MmState, t: MmState, id: BlockId, offset: nat, data: seq<Byte>) {
    && Sound(s, t)
    && offset + |data| <= |View(s, id)|
    && View(t, id) == Patch(View(s, id), offset, data)
    && forall x {:trigger View(t, x)} :: x != id ==> View(t, x) == View(s, x)
  }

  lemma WriteIsStore(s: MmState, t: MmState, id: BlockId, at: nat, data: seq<Byte>)
    requires Transparent(s, t) && Inv(t) && Present(t, id) && at + |data| <= t.pageSize
    ensures t.pages[id].frame < |t.frames| && |t.frames[t.pages[id].frame]| == t.pageSize
    ensures PageWritten(s, StoreBytes(t, id, at, data), id, at, data)
  {
    hide Inv, Sound;
    StoreKeeps(t, id, at, data);
    var u := StoreBytes(t, id, at, data);
    SoundTrans(s, t, u);
    assert View(t, id) == View(s, id);
    forall x {:trigger View(u, x)} | x != id
      ensures View(u, x) == View(s, x)
    {
      assert View(t, x) == View(s, x);
    }
  }

  lemma ReadIsView(s: MmState, t: MmState, id: BlockId, offset: nat, n: nat, was: seq<Byte>, at: nat, buffer: seq<Byte>)
    requires Transparent(s, t) && Inv(t) && Present(t, id) && offset + n <= t.pageSize && at + n <= |was|
    requires t.pages[id].frame < |t.frames| && |t.frames[t.pages[id].frame]| == t.pageSize
    requires buffer == Patch(was, at, t.frames[t.pages[id].frame][offset..offset + n])
    ensures PageRead(s, id, offset, n, was, at, buffer)
  {
    assert View(t, id) == View(s, id);
  }

  // ---------------------------------------------------------------- bytes

  /** The byte a Query sees at address `a` of `ft`. */
  function ByteAt(s: MmState, ft: FileTag, a: nat): Byte
    requires Shape(s)
  {
    View(s, BlockId(ft, a / s.pageSize))[a % s.pageSize]
  }

  /** Exactly the bytes [base, base + |data|) of `ft` have changed, to `data`. */
  ghost predicate Wrote(s: MmState, t: MmState, ft: FileTag, base: nat, data: seq<Byte>)
    requires Shape(s) && Shape(t)
  {
    forall g, a: nat {:trigger ByteAt(t, g, a)} ::
      ByteAt(t, g, a) == if g == ft && base <= a < base + |data| then data[a - base] else ByteAt(s, g, a)
  }

  lemma PageOfAddress(a: nat, size: nat, page: nat)
    requires 0 < size
    ensures a / size == page <==> page * size <= a < page * size + size
    ensures a / size == page ==> a % size == a - page * size
  {
    assert a == (a / size) * size + a % size;
    if a / size < page {
      assert (a / size + 1) * size <= page * size;
    } else if page < a / size {
      assert (page + 1) * size <= (a / size) * size;
    }
  }

  lemma SameViewsSameBytes(s: MmState, t: MmState)
    requires Shape(s) && Shape(t) && s.pageSize == t.pageSize && SameViews(s, t)
    ensures forall g, a: nat {:trigger ByteAt(t, g, a)} :: ByteAt(t, g, a) == ByteAt(s, g, a)
  {
    forall g, a: nat {:trigger ByteAt(t, g, a)}
      ensures ByteAt(t, g, a) == ByteAt(s, g, a)
    {
      assert View(t, BlockId(g, a / s.pageSize)) == View(s, BlockId(g, a / s.pageSize));
    }
  }

  /** The bytes of a page that took `piece` at offset `at`. */
  lemma ByteAfterStore(t: MmState, u: MmState, ft: FileTag, page: nat, at: nat, piece: seq<Byte>, g: FileTag, a: nat)
    requires Shape(t) && Shape(u) && u.pageSize == t.pageSize && at + |piece| <= t.pageSize
    requires View(u, BlockId(ft, page)) == Patch(View(t, BlockId(ft, page)), at, piece)
    requires forall x {:trigger View(u, x)} :: x != BlockId(ft, page) ==> View(u, x) == View(t, x)
    ensures var from := page * t.pageSize + at;
            ByteAt(u, g, a) == if g == ft && from <= a < from + |piece| then piece[a - from] else ByteAt(t, g, a)
  {
    PageOfAddress(a, t.pageSize, page);
    var x := BlockId(g, a / t.pageSize);
    if x != BlockId(ft, page) {
      assert View(u, x) == View(t, x);
    }
  }

  /** One page's share of a write extends the bytes written so far. */
  lemma WroteMore(s: MmState, t: MmState, u: MmState, ft: FileTag, base: nat, page: nat, at: nat, done: seq<Byte>, piece: seq<Byte>)
    requires Shape(s) && Shape(t) && Shape(u) && s.pageSize == t.pageSize == u.pageSize
    requires Wrote(s, t, ft, base, done)
    requires at + |piece| <= s.pageSize && page * s.pageSize + at == base + |done|
    requires View(u, BlockId(ft, page)) == Patch(View(t, BlockId(ft, page)), at, piece)
    requires forall x {:trigger View(u, x)} :: x != BlockId(ft, page) ==> View(u, x) == View(t, x)
    ensures Wrote(s, u, ft, base, done + piece)
  {
    hide View, ByteAt;
    forall g, a: nat {:trigger ByteAt(u, g, a)}
      ensures ByteAt(u, g, a) == if g == ft && base <= a < base + |done + piece| then (done + piece)[a - base] else ByteAt(s, g, a)
    {
      ByteAfterStore(t, u, ft, page, at, piece, g, a);
      assert ByteAt(t, g, a) == if g == ft && base <= a < base + |done| then done[a - base] else ByteAt(s, g, a);
    }
  }

  // ---------------------------------------------------------------- the pages of an access

  /** `id` holds some of the bytes [base, base + n) of `ft`. */
  predicate InRange(pageSize: nat, ft: FileTag, base: nat, n: nat, id: BlockId)
    requires 0 < pageSize
  {
    0 < n && id.ft == ft && base / pageSize <= id.block <= (base + n - 1) / pageSize
  }

  /** Every page that holds some of these bytes is present. */
  ghost predicate Resident(s: MmState, ft: FileTag, base: nat, n: nat)
    requires 0 < s.pageSize
  {
    forall id :: InRange(s.pageSize, ft, base, n, id) ==> Present(s, id)
  }

  /** The accesses recorded since `h` are to the pages of these bytes, to each of them at least one. */
  ghost predicate Noted(h: seq<BlockId>, h': seq<BlockId>, pageSize: nat, ft: FileTag, base: nat, n: nat)
    requires 0 < pageSize
  {
    h <= h' && forall id :: id in h'[|h|..] <==> InRange(pageSize, ft, base, n, id)
  }

  /** A page is noted once when it is accessed, and once more when it had to be loaded. */
  predicate PageNoted(h: seq<BlockId>, h': seq<BlockId>, id: BlockId, loaded: bool) {
    h' == h + if loaded then [id, id] else [id]
  }

  /** One more page's share of a range. */
  lemma RangeMore(pageSize: nat, ft: FileTag, base: nat, done: nat, page: nat, offset: nat, n: nat)
    requires 0 < n && offset + n <= pageSize && page * pageSize + offset == base + done
    ensures forall id :: InRange(pageSize, ft, base, done + n, id) <==> InRange(pageSize, ft, base, done, id) || id == BlockId(ft, page)
    ensures InRange(pageSize, ft, base, done + n, BlockId(ft, page))
  {
    RangeEnds(pageSize, base, done, page, offset, n);
    forall id
      ensures InRange(pageSize, ft, base, done + n, id) <==> InRange(pageSize, ft, base, done, id) || id == BlockId(ft, page)
    {
    }
  }

  /** The last page of a range before and after it grows by a part of `page`. */
  lemma RangeEnds(pageSize: nat, base: nat, done: nat, page: nat, offset: nat, n: nat)
    requires 0 < n && offset + n <= pageSize && page * pageSize + offset == base + done
    ensures (base + done + n - 1) / pageSize == page && base / pageSize <= page
    ensures done == 0 ==> base / pageSize == page
    ensures 0 < done ==> base / pageSize <= (base + done - 1) / pageSize <= page <= (base + done - 1) / pageSize + 1
  {
    PageOfAddress(base + done, pageSize, page);
    PageOfAddress(base + done + n - 1, pageSize, page);
    DivisionGrows(base, base + done, pageSize);
    if 0 < done {
      DivisionGrows(base, base + done - 1, pageSize);
      DivisionGrows(base + done - 1, base + done, pageSize);
      PageOfAddress(base + done - 1 + pageSize, pageSize, (base + done - 1) / pageSize + 1);
      DivisionGrows(base + done, base + done - 1 + pageSize, pageSize);
    }
  }

  lemma DivisionGrows(a: nat, b: nat, size: nat)
    requires 0 < size && a <= b
    ensures a / size <= b / size
  {
    if b / size < a / size {
      SmallerPageFirst(b / size, b % size, a / size, a % size, size);
    }
  }

  lemma SmallerPageFirst(p: nat, x: nat, q: nat, y: nat, size: nat)
    requires x < size && p < q
    ensures p * size + x < q * size + y
  {
    assert (p + 1) * size <= q * size;
  }

  lemma NothingNoted(h: seq<BlockId>, pageSize: nat, ft: FileTag, base: nat)
    requires 0 < pageSize
    ensures Noted(h, h, pageSize, ft, base, 0)
  {
  }

  lemma NotedMore(h: seq<BlockId>, h': seq<BlockId>, h'': seq<BlockId>, pageSize: nat, ft: FileTag, base: nat, done: nat,
                  page: nat, offset: nat, n: nat, loaded: bool)
    requires 0 < n && offset + n <= pageSize && page * pageSize + offset == base + done
    requires Noted(h, h', pageSize, ft, base, done) && PageNoted(h', h'', BlockId(ft, page), loaded)
    ensures Noted(h, h'', pageSize, ft, base, done + n)
  {
    RangeMore(pageSize, ft, base, done, page, offset, n);
    hide InRange;
    var more := if loaded then [BlockId(ft, page), BlockId(ft, page)] else [BlockId(ft, page)];
    assert h''[|h|..] == h'[|h|..] + more;
    assert more[0] == BlockId(ft, page);
    forall id
      ensures id in h''[|h|..] <==> InRange(pageSize, ft, base, done + n, id)
    {
      assert id in h'[|h|..] <==> InRange(pageSize, ft, base, done, id);
      assert id in more <==> id == BlockId(ft, page);
    }
  }

  /** After an access during which no use bit was cleared, CLOCK-M's use bits are set for the pages accessed
      and as they were for the other pages. */
  lemma AccessSetsUseBits(s: MmState, t: MmState, ft: FileTag, base: nat, done: nat, was: seq<Byte>, now: seq<Byte>, write: bool, id: BlockId)
    requires s.policy.ClockM? && TimesOk(s) && Accessed(s, t, ft, base, done, was, now, write) && t.clearedAt == s.clearedAt
    requires Present(t, id)
    ensures InRange(s.pageSize, ft, base, done, id) ==> t.pages[id].useBit
    ensures Present(s, id) && !InRange(s.pageSize, ft, base, done, id) ==> t.pages[id].useBit == s.pages[id].useBit
  {
    assert RecordOk(t, id);
    assert t.history[t.clearedAt..] == s.history[s.clearedAt..] + t.history[|s.history|..];
    if Present(s, id) {
      assert RecordOk(s, id);
    }
  }

  // ---------------------------------------------------------------- when an access succeeds

  /** When an access of `n` bytes succeeds, given how many requests to Storage failed during it; and that one to
      present pages, or without a connection, neither loads, evicts nor clears anything. */
  ghost predicate AccessDecided(s: MmState, t: MmState, ft: FileTag, base: nat, n: nat, result: int, connected: bool, failed: int)
    requires 0 < s.pageSize
  {
    && 0 <= failed
    && (result == 0 <==> 0 < n && (Resident(s, ft, base, n) || (connected && HasFrame(s) && failed == 0)))
    && (Resident(s, ft, base, n) || !connected ==>
          failed == 0 && t.clearedAt == s.clearedAt && forall x :: Present(t, x) <==> Present(s, x))
  }

  /** The same for the first `done` bytes, all of which were transferred. */
  ghost predicate DecidedSoFar(s: MmState, t: MmState, ft: FileTag, base: nat, done: nat, connected: bool)
    requires 0 < s.pageSize
  {
    && (Resident(s, ft, base, done) || connected)
    && (0 < done ==> HasFrame(s))
    && (Resident(s, ft, base, done) || !connected ==> t.clearedAt == s.clearedAt && forall x :: Present(t, x) <==> Present(s, x))
  }

  lemma NothingDecided(s: MmState, ft: FileTag, base: nat, connected: bool)
    requires 0 < s.pageSize
    ensures DecidedSoFar(s, s, ft, base, 0, connected)
    ensures AccessDecided(s, s, ft, base, 0, -1, connected, 0)
  {
  }

  lemma AllDecided(s: MmState, t: MmState, ft: FileTag, base: nat, n: nat, connected: bool)
    requires 0 < s.pageSize && 0 < n && DecidedSoFar(s, t, ft, base, n, connected)
    ensures AccessDecided(s, t, ft, base, n, 0, connected, 0)
  {
  }

  /** When the access to one page succeeds. */
  ghost predicate PageResult(s: MmState, id: BlockId, result: int, connected: bool, failed: int) {
    && 0 <= failed
    && (Present(s, id) || !connected ==> failed == 0)
    && (result == 0 <==> Present(s, id) || (connected && HasFrame(s) && failed == 0))
  }

  /** One more page: either it goes on, or that decides the whole access. */
  lemma PageDecided(s: MmState, t: MmState, u: MmState, ft: FileTag, base: nat, done: nat, size: nat, page: nat, offset: nat, n: nat,
                    result: int, connected: bool, failed: int)
    requires Inv(t) && 0 < s.pageSize == t.pageSize && DecidedSoFar(s, t, ft, base, done, connected)
    requires 0 < n && done + n <= size && offset + n <= s.pageSize && page * s.pageSize + offset == base + done
    requires (done == 0 ==> t == s) && (HasFrame(s) ==> HasFrame(t))
    requires PageResult(t, BlockId(ft, page), result, connected, failed) && PageEffect(t, u, BlockId(ft, page), result, connected)
    ensures result == 0 ==> DecidedSoFar(s, u, ft, base, done + n, connected) && failed == 0
    ensures result != 0 ==> AccessDecided(s, u, ft, base, size, result, connected, failed)
    ensures if result == 0 then PageNoted(t.history, u.history, BlockId(ft, page), !Present(t, BlockId(ft, page))) else u.history == t.history
  {
    hide InRange, Inv, HasFrame, PageNoted;
    var id := BlockId(ft, page);
    RangeMore(s.pageSize, ft, base, done, page, offset, n);
    RangeGrows(s.pageSize, ft, base, done + n, size);
    if Present(t, id) {
      PresentHasFrame(t, id);
    }
    assert Resident(s, ft, base, done + n) <==> Resident(s, ft, base, done) && Present(s, id) by {
      forall x | InRange(s.pageSize, ft, base, done + n, x)
        ensures InRange(s.pageSize, ft, base, done, x) || x == id
      {
      }
    }
    assert Resident(s, ft, base, size) ==> Resident(s, ft, base, done + n);
  }

  /** Blank pages decide nothing. */
  lemma DecidedAfter(s: MmState, t: MmState, u: MmState, ft: FileTag, base: nat, n: nat, result: int, connected: bool, failed: int)
    requires 0 < s.pageSize && Grown(s, t) && AccessDecided(t, u, ft, base, n, result, connected, failed)
    ensures AccessDecided(s, u, ft, base, n, result, connected, failed)
  {
    hide InRange;
    GrownPresent(s, t);
  }

  lemma RangeGrows(pageSize: nat, ft: FileTag, base: nat, done: nat, n: nat)
    requires 0 < pageSize && done <= n
    ensures forall id :: InRange(pageSize, ft, base, done, id) ==> InRange(pageSize, ft, base, n, id)
  {
    if 0 < done {
      DivisionGrows(base + done - 1, base + n - 1, pageSize);
    }
  }

  lemma PresentHasFrame(s: MmState, id: BlockId)
    requires Inv(s) && Present(s, id)
    ensures HasFrame(s)
  {
    assert PageOk(s, id);
  }

  // ---------------------------------------------------------------- steps of an access

  lemma InvShape(s: MmState)
    requires Inv(s)
    ensures Shape(s) && 0 < s.pageSize
  {
  }

  /** What an access of `done` bytes has done. A write changed exactly the bytes [base, base + done) of
      the File:Tag, to those of the buffer; a read changed no view and fetched exactly those bytes. The
      accesses recorded are those to the pages of these bytes. */
  ghost predicate Accessed(s: MmState, t: MmState, ft: FileTag, base: nat, done: nat, was: seq<Byte>, now: seq<Byte>, write: bool) {
    && Sound(s, t) && Inv(s) && Inv(t)
    && Noted(s.history, t.history, s.pageSize, ft, base, done)
    && done <= |was| == |now|
    && now[done..] == was[done..]
    && if write then
         now == was && Wrote(s, t, ft, base, was[..done])
       else
         SameViews(s, t) && forall k: nat :: k < done ==> now[k] == ByteAt(s, ft, base + k)
  }

  lemma AccessedNothing(s: MmState, ft: FileTag, base: nat, buffer: seq<Byte>, write: bool)
    requires Inv(s)
    ensures Accessed(s, s, ft, base, 0, buffer, buffer, write)
  {
    WroteNothing(s, ft, base);
    NothingNoted(s.history, s.pageSize, ft, base);
    assert buffer[..0] == [];
  }

  lemma WroteNothing(s: MmState, ft: FileTag, base: nat)
    requires Shape(s)
    ensures Wrote(s, s, ft, base, [])
  {
  }

  lemma AccessedKeeps(s: MmState, t: MmState, ft: FileTag, base: nat, done: nat, was: seq<Byte>, now: seq<Byte>, write: bool)
    requires Accessed(s, t, ft, base, done, was, now, write)
    ensures Inv(t) && t.pageSize == s.pageSize && (CanReplace(s) ==> CanReplace(t)) && (HasFrame(s) ==> HasFrame(t))
  {
  }

  /** A page that could not be accessed leaves what the pages before it did. */
  lemma FailedAccess(s: MmState, t: MmState, u: MmState, ft: FileTag, base: nat, done: nat, was: seq<Byte>, now: seq<Byte>, write: bool)
    requires Accessed(s, t, ft, base, done, was, now, write) && Transparent(t, u) && u.history == t.history
    ensures Accessed(s, u, ft, base, done, was, now, write)
  {
    SoundTrans(s, t, u);
    SameViewsSameBytes(t, u);
    hide Sound, View, ByteAt;
    if write {
      forall g, a: nat {:trigger ByteAt(u, g, a)}
        ensures ByteAt(u, g, a) == if g == ft && base <= a < base + done then was[..done][a - base] else ByteAt(s, g, a)
      {
        assert ByteAt(u, g, a) == ByteAt(t, g, a);
      }
    } else {
      SameViewsTrans(s, t, u);
    }
  }

  lemma SameViewsTrans(s: MmState, t: MmState, u: MmState)
    requires SameViews(s, t) && SameViews(t, u)
    ensures SameViews(s, u)
  {
    forall x {:trigger View(u, x)}
      ensures View(u, x) == View(s, x)
    {
      assert View(u, x) == View(t, x);
    }
  }

  /** An access after a step that nobody can observe. */
  lemma AccessedAfter(s: MmState, t: MmState, u: MmState, ft: FileTag, base: nat, done: nat, was: seq<Byte>, now: seq<Byte>, write: bool)
    requires Inv(s) && Transparent(s, t) && t.history == s.history && Accessed(t, u, ft, base, done, was, now, write)
    ensures Accessed(s, u, ft, base, done, was, now, write)
  {
    SoundTrans(s, t, u);
    SameViewsSameBytes(s, t);
    hide Sound, View, ByteAt;
    if write {
      forall g, a: nat {:trigger ByteAt(u, g, a)}
        ensures ByteAt(u, g, a) == if g == ft && base <= a < base + done then was[..done][a - base] else ByteAt(s, g, a)
      {
        assert ByteAt(t, g, a) == ByteAt(s, g, a);
      }
    } else {
      SameViewsTrans(s, t, u);
      forall k: nat | k < done
        ensures now[k] == ByteAt(s, ft, base + k)
      {
        assert ByteAt(t, ft, base + k) == ByteAt(s, ft, base + k);
      }
    }
  }

  /** One more page's share. */
  lemma AccessedMore(s: MmState, t: MmState, u: MmState, ft: FileTag, base: nat, done: nat, was: seq<Byte>, before: seq<Byte>,
                     now: seq<Byte>, write: bool, page: nat, offset: nat, n: nat, loaded: bool)
    requires Accessed(s, t, ft, base, done, was, before, write)
    requires 0 < n && PageNoted(t.history, u.history, BlockId(ft, page), loaded)
    requires offset + n <= s.pageSize && done + n <= |now| && page * s.pageSize + offset == base + done
    requires write ==> now == before && PageWritten(t, u, BlockId(ft, page), offset, now[done..done + n])
    requires !write ==> Transparent(t, u) && PageRead(t, BlockId(ft, page), offset, n, before, done, now)
    ensures Accessed(s, u, ft, base, done + n, was, now, write)
  {
    hide View, ByteAt, Wrote, Noted, PageNoted;
    SoundTrans(s, t, u);
    InvKept(t, u);
    NotedMore(s.history, t.history, u.history, s.pageSize, ft, base, done, page, offset, n, loaded);
    if write {
      assert was[..done + n] == was[..done] + now[done..done + n];
      WrotePiece(s, t, u, ft, base, page, offset, was[..done], now[done..done + n]);
    } else {
      ReadPiece(s, t, u, ft, base, page, offset, n, before, done, now);
      assert now[done + n..] == before[done..][n..] == was[done..][n..];
    }
  }

  lemma InvKept(t: MmState, u: MmState)
    requires Sound(t, u) && Inv(t)
    ensures Inv(u) && Shape(u)
  {
  }

  lemma WrotePiece(s: MmState, t: MmState, u: MmState, ft: FileTag, base: nat, page: nat, at: nat, done: seq<Byte>, piece: seq<Byte>)
    requires Shape(s) && Shape(t) && Shape(u) && s.pageSize == t.pageSize == u.pageSize
    requires Wrote(s, t, ft, base, done) && PageWritten(t, u, BlockId(ft, page), at, piece)
    requires at + |piece| <= s.pageSize && page * s.pageSize + at == base + |done|
    ensures Wrote(s, u, ft, base, done + piece)
  {
    hide Sound, View;
    WroteMore(s, t, u, ft, base, page, at, done, piece);
  }

  lemma ReadPiece(s: MmState, t: MmState, u: MmState, ft: FileTag, base: nat, page: nat, offset: nat, n: nat, was: seq<Byte>, at: nat, buffer: seq<Byte>)
    requires Shape(s) && Shape(t) && s.pageSize == t.pageSize && SameViews(s, t) && Transparent(t, u)
    requires PageRead(t, BlockId(ft, page), offset, n, was, at, buffer) && offset + n <= s.pageSize
    requires page * s.pageSize + offset == base + at
    requires forall k :: 0 <= k < at ==> was[k] == ByteAt(s, ft, base + k)
    ensures SameViews(s, u)
    ensures at + n <= |was| == |buffer| && buffer[at + n..] == was[at + n..]
    ensures forall k :: 0 <= k < at + n ==> buffer[k] == ByteAt(s, ft, base + k)
  {
    hide Sound;
    var id := BlockId(ft, page);
    assert View(t, id) == View(s, id);
    forall k | 0 <= k < at + n
      ensures buffer[k] == ByteAt(s, ft, base + k)
    {
      if at <= k {
        PageOfAddress(base + k, s.pageSize, page);
        assert buffer[k] == View(s, id)[offset..offset + n][k - at];
      }
    }
    forall x {:trigger View(u, x)}
      ensures View(u, x) == View(s, x)
    {
      assert View(u, x) == View(t, x);
    }
  }

  lemma NextPage(page: nat, size: nat, offset: nat, n: nat)
    requires 0 < size && offset + n <= size
    ensures n == size - offset ==> (page + 1) * size == page * size + offset + n
  {
  }
}
