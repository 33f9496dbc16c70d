/** What LRU and CLOCK-M promise about the page they evict. */
module ReplacementModel {
  import opened Common
  import opened PagingModel

  // ---------------------------------------------------------------- LRU

  /** The 1-based time of the latest access to `id`, 0 when there was none. */
  function LatestAccess(history: seq<BlockId>, id: BlockId): (t: nat)
    ensures t <= |history|
    ensures t > 0 ==> history[t - 1] == id
    ensures forall k :: t <= k < |history| ==> history[k] != id
  {
    if history == [] then 0
    else if history[|history| - 1] == id then |history|
    else LatestAccess(history[..|history| - 1], id)
  }

  /** The page the LRU scan settles on: the smallest recorded access time. */
  ghost predicate SmallestTime(s: MmState, id: BlockId) {
    && Present(s, id)
    && forall x :: Present(s, x) ==> s.pages[id].lastAccess <= s.pages[x].lastAccess
  }

  /** LRU is exact: every other present page was accessed after the victim's latest access. */
  lemma LruVictimIsLeastRecent(s: MmState, id: BlockId)
    requires s.policy.Lru? && TimesOk(s) && SmallestTime(s, id)
    ensures forall x :: Present(s, x) && x != id ==> LatestAccess(s.history, id) < LatestAccess(s.history, x)
  {
    RecordedTimeIsLatest(s, id);
    forall x | Present(s, x) && x != id
      ensures LatestAccess(s.history, id) < LatestAccess(s.history, x)
    {
      RecordedTimeIsLatest(s, x);
    }
  }

  lemma RecordedTimeIsLatest(s: MmState, x: BlockId)
    requires s.policy.Lru? && TimesOk(s) && Present(s, x)
    ensures LatestAccess(s.history, x) == s.pages[x].lastAccess
  {
    var t := LatestAccess(s.history, x);
    assert LastAccessOk(s.history, x, s.pages[x].lastAccess);
    assert s.history[s.pages[x].lastAccess - 1] == x;
  }

  // ---------------------------------------------------------------- CLOCK-M

  /** 0: neither used nor modified, 1: modified, 2: used, 3: both. */
  function Class(e: PtEntry): nat {
    (if e.useBit then 2 else 0) + if e.dirty then 1 else 0
  }

  /** How many frames the hand passes before it reaches `f`. */
  function Distance(hand: nat, f: nat, n: nat): nat
    requires hand < n && f < n
  {
    if hand <= f then f - hand else f + n - hand
  }

  /** The frame `k` places after the hand. */
  function FrameAt(hand: nat, k: nat, n: nat): (f: nat)
    requires hand < n && k < n
    ensures f < n && Distance(hand, f, n) == k
  {
    if hand + k < n then hand + k else hand + k - n
  }

  predicate Before(s: MmState, a: PtEntry, b: PtEntry)
    requires s.hand < |s.frames| && a.frame < |s.frames| && b.frame < |s.frames|
  {
    || Class(a) < Class(b)
    || (Class(a) == Class(b) && Distance(s.hand, a.frame, |s.frames|) < Distance(s.hand, b.frame, |s.frames|))
  }

  /** `id` is the present page minimising (2 * use + dirty, cyclic distance from the hand). */
  ghost predicate ClockVictim(s: MmState, id: BlockId)
    requires Inv(s) && s.hand < |s.frames|
  {
    && Present(s, id)
    && s.pages[id].frame < |s.frames|
    && forall x :: Present(s, x) && x != id ==>
                     s.pages[x].frame < |s.frames| && Before(s, s.pages[id], s.pages[x])
  }

  /** The use bits of the present pages in the first `k` frames after the hand are cleared. */
  ghost function UseBitsCleared(s: MmState, k: nat): (t: MmState)
    requires s.hand < |s.frames|
    ensures t.pages.Keys == s.pages.Keys && t == s.(pages := t.pages)
  {
    s.(pages := map id | id in s.pages ::
      if s.pages[id].present && s.pages[id].frame < |s.frames| && Distance(s.hand, s.pages[id].frame, |s.frames|) < k
      then s.pages[id].(useBit := false) else s.pages[id])
  }

  /** Every use bit of a present page is cleared: the second pass has run. */
  ghost function Cleared(s: MmState): (t: MmState)
    requires s.hand < |s.frames|
    ensures t.pages.Keys == s.pages.Keys && t == s.(pages := t.pages, clearedAt := t.clearedAt)
  {
    UseBitsCleared(s, |s.frames|).(clearedAt := if exists id :: Present(s, id) then |s.history| else s.clearedAt)
  }

  /** The whole effect of a successful CLOCK-M search that evicts `id`. */
  ghost function ClockEvict(s: MmState, id: BlockId): MmState
    requires Inv(s) && s.hand < |s.frames| && Present(s, id)
  {
    assert PageOk(s, id);
    var c := if Class(s.pages[id]) == 0 then s else Cleared(s);
    Evict(c, id).(hand := (s.pages[id].frame + 1) % |s.frames|)
  }

  /** The CLOCK-M victim in terms of the accesses alone. A page accessed since the use bits were last cleared goes
      only when every other one was too, among those a modified page only when every other one is modified,
      and among equals the one the hand meets first. */
  lemma ClockVictimByHistory(s: MmState, id: BlockId)
    requires Inv(s) && s.hand < |s.frames| && s.policy.ClockM? && TimesOk(s) && Present(s, id)
    ensures s.pages[id].frame < |s.frames| && forall x :: Present(s, x) ==> s.pages[x].frame < |s.frames|
    ensures ClockVictim(s, id) <==>
            forall x :: Present(s, x) && x != id ==>
                          if Recent(s, id) != Recent(s, x) then !Recent(s, id)
                          else if s.pages[id].dirty != s.pages[x].dirty then !s.pages[id].dirty
                          else Distance(s.hand, s.pages[id].frame, |s.frames|) < Distance(s.hand, s.pages[x].frame, |s.frames|)
  {
    forall x | Present(s, x)
      ensures s.pages[x].frame < |s.frames| && (s.pages[x].useBit <==> Recent(s, x))
    {
      assert PageOk(s, x) && RecordOk(s, x);
    }
  }

  lemma ClockVictimUnique(s: MmState, a: BlockId, b: BlockId)
    requires Inv(s) && s.hand < |s.frames| && ClockVictim(s, a) && ClockVictim(s, b)
    ensures a == b
  {
  }

  /** Clearing use bits and moving the hand is bookkeeping: nothing observable changes. */
  lemma UseBitsClearedKeeps(s: MmState, k: nat)
    requires Inv(s) && s.hand < |s.frames|
    ensures SamePlacement(s, UseBitsCleared(s, k))
  {
  }

  /** Advancing the hand by one frame, modulo the frame count. */
  lemma NextFrame(s: MmState, k: nat)
    requires s.hand < |s.frames| && k < |s.frames|
    ensures var n := |s.frames|;
            (FrameAt(s.hand, k, n) + 1) % n == if k + 1 < n then FrameAt(s.hand, k + 1, n) else s.hand
  {
  }

  ghost predicate NoneOfClass(s: MmState, c: nat, k: nat)
    requires s.hand < |s.frames|
  {
    forall x :: Present(s, x) && s.pages[x].frame < |s.frames| && Distance(s.hand, s.pages[x].frame, |s.frames|) < k ==>
                  Class(s.pages[x]) != c
  }

  /** `id` is the page of class `c` that the hand meets first. */
  ghost predicate FirstOfClass(s: MmState, id: BlockId, c: nat)
    requires s.hand < |s.frames|
  {
    && Present(s, id) && s.pages[id].frame < |s.frames| && Class(s.pages[id]) == c
    && NoneOfClass(s, c, Distance(s.hand, s.pages[id].frame, |s.frames|))
  }

  lemma NothingPassed(s: MmState, c: nat)
    requires s.hand < |s.frames|
    ensures UseBitsCleared(s, 0) == s && NoneOfClass(s, c, 0)
  {
    assert UseBitsCleared(s, 0).pages == s.pages;
  }

  lemma FirstFound(s: MmState, c: nat, k: nat, id: BlockId)
    requires s.hand < |s.frames| && k < |s.frames| && NoneOfClass(s, c, k)
    requires OwnerIs(s, FrameAt(s.hand, k, |s.frames|), Some(id)) && Class(s.pages[id]) == c
    ensures FirstOfClass(s, id, c)
  {
  }

  /** What the scan found out about frame `f`: it is free, or no page is in it, or `owner` is. */
  ghost predicate OwnerIs(s: MmState, f: nat, owner: Option<BlockId>) {
    match owner
    case None => (f < |s.used| && !s.used[f]) || NobodyIn(s.pages, f)
    case Some(id) => Owns(s, id, f)
  }

  lemma NoneOfClassStep(s: MmState, c: nat, k: nat, owner: Option<BlockId>)
    requires Inv(s) && s.hand < |s.frames| && k < |s.frames| && NoneOfClass(s, c, k)
    requires OwnerIs(s, FrameAt(s.hand, k, |s.frames|), owner)
    requires owner.Some? ==> Class(s.pages[owner.value]) != c
    ensures NoneOfClass(s, c, k + 1)
  {
    var f := FrameAt(s.hand, k, |s.frames|);
    forall x | Present(s, x) && s.pages[x].frame < |s.frames| && Distance(s.hand, s.pages[x].frame, |s.frames|) < k + 1
      ensures Class(s.pages[x]) != c
    {
      assert PageOk(s, x);
      if s.pages[x].frame == f {
        assert Owns(s, x, f);
      }
    }
  }

  lemma NoneOfClassAll(s: MmState, c: nat)
    requires Inv(s) && s.hand < |s.frames| && NoneOfClass(s, c, |s.frames|)
    ensures forall x :: Present(s, x) ==> Class(s.pages[x]) != c
  {
    forall x | Present(s, x)
      ensures Class(s.pages[x]) != c
    {
      assert PageOk(s, x);
    }
  }

  /** The use bit of the page just passed, if any, is cleared. */
  function ClearUse(pages: map<BlockId, PtEntry>, owner: Option<BlockId>): map<BlockId, PtEntry>
    requires owner.Some? ==> owner.value in pages
  {
    match owner
    case None => pages
    case Some(id) => pages[id := pages[id].(useBit := false)]
  }

  /** One step of the clearing pass touches the page in the frame it passes, if there is one. */
  lemma UseBitsClearedStep(s: MmState, k: nat, owner: Option<BlockId>)
    requires Inv(s) && s.hand < |s.frames| && k < |s.frames|
    requires OwnerIs(s, FrameAt(s.hand, k, |s.frames|), owner)
    ensures owner.Some? ==> owner.value in s.pages && UseBitsCleared(s, k).pages[owner.value] == s.pages[owner.value]
    ensures UseBitsCleared(s, k + 1).pages == ClearUse(UseBitsCleared(s, k).pages, owner)
  {
    forall x | Present(s, x) && Some(x) != owner
      ensures s.pages[x].frame < |s.frames| && Distance(s.hand, s.pages[x].frame, |s.frames|) != k
    {
      OnlyOwnerAt(s, k, owner, x);
    }
  }

  lemma OnlyOwnerAt(s: MmState, k: nat, owner: Option<BlockId>, x: BlockId)
    requires Inv(s) && s.hand < |s.frames| && k < |s.frames|
    requires OwnerIs(s, FrameAt(s.hand, k, |s.frames|), owner)
    requires Present(s, x) && Some(x) != owner
    ensures s.pages[x].frame < |s.frames| && Distance(s.hand, s.pages[x].frame, |s.frames|) != k
  {
    assert PageOk(s, x);
  }

  /** Who occupies a frame does not depend on use bits. */
  lemma OwnerIsUncleared(s: MmState, k: nat, f: nat, owner: Option<BlockId>, t: MmState)
    requires s.hand < |s.frames| && OwnerIs(t, f, owner)
    requires t.pages == UseBitsCleared(s, k).pages && t.used == s.used
    ensures OwnerIs(s, f, owner)
  {
    if owner == None && NobodyIn(t.pages, f) {
      forall id | id in s.pages && s.pages[id].present
        ensures s.pages[id].frame != f
      {
        assert id in t.pages && t.pages[id].present;
      }
    }
  }

  // ---------------------------------------------------------------- the two rounds of CLOCK-M

  ghost predicate AllClassesAtLeast(s: MmState, c: nat) {
    forall x :: Present(s, x) ==> c <= Class(s.pages[x])
  }

  /** The first page of the lowest class there is, is the victim. */
  lemma FirstIsVictim(s: MmState, id: BlockId, c: nat)
    requires Inv(s) && s.hand < |s.frames| && FirstOfClass(s, id, c) && AllClassesAtLeast(s, c)
    ensures ClockVictim(s, id)
  {
    forall x | Present(s, x) && x != id
      ensures s.pages[x].frame < |s.frames| && Before(s, s.pages[id], s.pages[x])
    {
      assert PageOk(s, x);
      assert s.pages[x].frame != s.pages[id].frame;
    }
  }

  lemma ClearedClasses(s: MmState)
    requires Inv(s) && s.hand < |s.frames|
    ensures forall x :: Present(Cleared(s), x) <==> Present(s, x)
    ensures forall x :: Present(s, x) ==>
                          var e := Cleared(s).pages[x];
                          e == s.pages[x].(useBit := false) && Class(e) == if s.pages[x].dirty then 1 else 0
  {
    forall x | Present(s, x)
      ensures s.pages[x].frame < |s.frames|
    {
      assert PageOk(s, x);
    }
  }

  lemma ClearedTwice(s: MmState)
    requires Inv(s) && s.hand < |s.frames|
    ensures Cleared(Cleared(s)) == Cleared(s)
  {
    ClearedKeeps(s);
    hide Inv, UseBitsCleared, Class;
    ClearedClasses(s);
    ClearedClasses(Cleared(s));
    ClearedPages(Cleared(s));
    assert Cleared(Cleared(s)).pages == Cleared(s).pages;
  }

  lemma ClearedKeeps(s: MmState)
    requires Inv(s) && s.hand < |s.frames|
    ensures Inv(Cleared(s)) && SamePlacement(s, Cleared(s))
  {
    UseBitsClearedKeeps(s, |s.frames|);
    SamePlacementKeeps(s, Cleared(s));
  }

  /** Entries of pages that are not present stay. */
  lemma ClearedPages(s: MmState)
    requires s.hand < |s.frames|
    ensures forall x :: x in s.pages && !s.pages[x].present ==> Cleared(s).pages[x] == s.pages[x]
  {
  }

  /** When every page was used, the first page of the lowest class after clearing is the victim. */
  lemma SecondRoundVictim(s: MmState, id: BlockId, c: nat)
    requires Inv(s) && s.hand < |s.frames| && AllClassesAtLeast(s, 2)
    requires FirstOfClass(Cleared(s), id, c) && AllClassesAtLeast(Cleared(s), c)
    ensures ClockVictim(s, id) && Class(s.pages[id]) == c + 2
  {
    ClearedClasses(s);
    var t := Cleared(s);
    assert Present(s, id) && Class(s.pages[id]) == c + 2;
    forall x | Present(s, x) && s.pages[x].frame < |s.frames| &&
               Distance(s.hand, s.pages[x].frame, |s.frames|) < Distance(s.hand, s.pages[id].frame, |s.frames|)
      ensures Class(s.pages[x]) != c + 2
    {
      assert Present(t, x) && Class(t.pages[x]) != c;
    }
    forall x | Present(s, x)
      ensures c + 2 <= Class(s.pages[x])
    {
      assert Present(t, x) && c <= Class(t.pages[x]);
    }
    FirstIsVictim(s, id, c + 2);
  }

  /** After both passes of a round failed, every page was used: its use bit is what saved it. */
  lemma RoundFailed(s: MmState)
    requires Inv(s) && s.hand < |s.frames|
    requires (forall x :: Present(s, x) ==> Class(s.pages[x]) != 0) && NoneOfClass(s, 1, |s.frames|)
    ensures AllClassesAtLeast(s, 2)
  {
    NoneOfClassAll(s, 1);
  }

  /** The second round cannot fail when some page is present. */
  lemma SecondRoundFinds(s: MmState)
    requires Inv(s) && s.hand < |s.frames| && exists id :: Present(s, id)
    ensures !AllClassesAtLeast(Cleared(s), 2)
  {
    ClearedClasses(s);
    var id :| Present(s, id);
    assert Present(Cleared(s), id) && Class(Cleared(s).pages[id]) < 2;
  }

  /** A failed write-back: the use bits are cleared, and the block may have reached Storage. */
  ghost predicate ClockFailure(s: MmState, t: MmState, id: BlockId)
    requires Inv(s) && s.hand < |s.frames| && Present(s, id)
  {
    assert PageOk(s, id);
    && s.pages[id].dirty
    && (t == Cleared(s) || t == Cleared(s).(blocks := s.blocks[id := s.frames[s.pages[id].frame]]))
  }

  /** What a CLOCK-M search that settled on `id` leaves: the frame of `id`, or -1 when its write-back failed. */
  ghost predicate ClockOutcome(s: MmState, t: MmState, id: BlockId, frame: int) {
    && Inv(s) && s.hand < |s.frames| && ClockVictim(s, id)
    && if frame == -1 then ClockFailure(s, t, id) else frame == s.pages[id].frame && t == ClockEvict(s, id)
  }

  lemma VictimIsPresent(s: MmState, t: MmState, id: BlockId, frame: int)
    requires ClockOutcome(s, t, id, frame)
    ensures Present(s, id)
  {
  }

  /** The state at the start of a round: unchanged in the first, all use bits cleared in the second. */
  ghost predicate RoundStart(s: MmState, cur: MmState)
    requires s.hand < |s.frames|
  {
    cur == s || (cur == Cleared(s) && AllClassesAtLeast(s, 2))
  }

  lemma RoundStartKeeps(s: MmState, cur: MmState)
    requires Inv(s) && s.hand < |s.frames| && RoundStart(s, cur)
    ensures Inv(cur) && cur == s.(pages := cur.pages, clearedAt := cur.clearedAt) && Cleared(cur) == Cleared(s)
    ensures forall x :: Present(cur, x) <==> Present(s, x)
    ensures forall x :: Present(s, x) ==> cur.pages[x] == s.pages[x].(useBit := cur.pages[x].useBit)
  {
    ClearedTwice(s);
    ClearedClasses(s);
    UseBitsClearedKeeps(s, |s.frames|);
    SamePlacementKeeps(s, Cleared(s));
  }

  /** A page found by the first pass of either round is the victim. */
  lemma CleanExit(s: MmState, cur: MmState, id: BlockId)
    requires Inv(s) && s.hand < |s.frames| && RoundStart(s, cur) && FirstOfClass(cur, id, 0)
    ensures ClockVictim(s, id) && Present(cur, id)
    ensures !s.pages[id].dirty && cur == if Class(s.pages[id]) == 0 then s else Cleared(s)
  {
    hide Inv, Cleared, AllClassesAtLeast, ClockVictim;
    RoundStartKeeps(s, cur);
    if cur == s {
      LowestClassIs0(s);
      FirstIsVictim(s, id, 0);
    } else {
      LowestClassIs0(cur);
      SecondRoundVictim(s, id, 0);
    }
  }

  lemma LowestClassIs0(s: MmState)
    ensures AllClassesAtLeast(s, 0)
  {
  }

  /** A page found by the second pass of either round is the victim. */
  lemma DirtyExit(s: MmState, cur: MmState, id: BlockId)
    requires Inv(s) && s.hand < |s.frames| && RoundStart(s, cur) && FirstOfClass(cur, id, 1)
    requires forall x :: Present(cur, x) ==> Class(cur.pages[x]) != 0
    ensures ClockVictim(s, id) && Present(s, id) && s.pages[id].dirty
  {
    hide Inv, Cleared, ClockVictim;
    RoundStartKeeps(s, cur);
    if cur == s {
      FirstIsVictim(s, id, 1);
    } else {
      SecondRoundVictim(s, id, 1);
    }
  }

  /** The steps the search takes after either pass amount to ClockEvict. */
  lemma ExitEffect(s: MmState, cur: MmState, id: BlockId)
    requires Inv(s) && s.hand < |s.frames| && Present(s, id)
    requires cur == if Class(s.pages[id]) == 0 then s else Cleared(s)
    ensures s.pages[id].frame < |s.frames| == |s.used|
    ensures id in cur.pages && cur.pages[id] == s.pages[id].(useBit := cur.pages[id].useBit)
    ensures Evict(cur, id).(hand := (s.pages[id].frame + 1) % |s.frames|) == ClockEvict(s, id)
  {
    assert PageOk(s, id);
    ClearedClasses(s);
  }

  /** A round that finds nothing leaves every use bit cleared; with some page present it is the first one. */
  lemma RoundFails(s: MmState, cur: MmState)
    requires Inv(s) && s.hand < |s.frames| && RoundStart(s, cur)
    requires (forall x :: Present(cur, x) ==> Class(cur.pages[x]) != 0) && NoneOfClass(cur, 1, |s.frames|)
    ensures AllClassesAtLeast(s, 2) && RoundStart(s, Cleared(s)) && Cleared(cur) == Cleared(s)
    ensures (exists id :: Present(s, id)) ==> cur == s && cur != Cleared(s)
  {
    RoundStartKeeps(s, cur);
    if cur == s {
      RoundFailed(cur);
    }
    if exists id :: Present(s, id) {
      RoundFailed(cur);
      SecondRoundFinds(s);
    }
  }

  // ---------------------------------------------------------------- does the search end?

  /** One of the two passes of a round that starts in `s` finds a page. */
  ghost predicate RoundFinds(s: MmState)
    requires s.hand < |s.frames|
  {
    exists id :: FirstOfClass(s, id, 0) || FirstOfClass(s, id, 1)
  }

  /** The search finds a page within so many rounds; each round that finds none clears the use bits. */
  ghost predicate EndsWithin(s: MmState, rounds: nat)
    requires s.hand < |s.frames|
    decreases rounds
  {
    rounds > 0 && (RoundFinds(s) || EndsWithin(Cleared(s), rounds - 1))
  }

  /** Where there is a page of a class, there is a first one. */
  lemma {:induction false} FirstExists(s: MmState, c: nat, x: BlockId)
    requires s.hand < |s.frames| && Present(s, x) && s.pages[x].frame < |s.frames| && Class(s.pages[x]) == c
    ensures exists id :: FirstOfClass(s, id, c)
    decreases Distance(s.hand, s.pages[x].frame, |s.frames|)
  {
    var k := Distance(s.hand, s.pages[x].frame, |s.frames|);
    if NoneOfClass(s, c, k) {
      assert FirstOfClass(s, x, c);
    } else {
      var y :| Present(s, y) && s.pages[y].frame < |s.frames| && Distance(s.hand, s.pages[y].frame, |s.frames|) < k && Class(s.pages[y]) == c;
      FirstExists(s, c, y);
    }
  }

  /** With no page present a round finds nothing and changes nothing. */
  lemma EmptyRound(s: MmState)
    requires Inv(s) && s.hand < |s.frames| && forall id :: !Present(s, id)
    ensures Cleared(s) == s && !RoundFinds(s)
  {
    assert Cleared(s).pages == s.pages;
  }

  lemma {:induction false} EmptySearchNeverEnds(s: MmState, rounds: nat)
    requires Inv(s) && s.hand < |s.frames| && forall id :: !Present(s, id)
    ensures !EndsWithin(s, rounds)
  {
    EmptyRound(s);
    if rounds > 0 {
      EmptySearchNeverEnds(s, rounds - 1);
    }
  }

  /** The CLOCK-M search ends if and only if some page is present, and then within two rounds. */
  lemma ClockSearchEndsIff(s: MmState, rounds: nat)
    requires Inv(s) && s.hand < |s.frames| && 2 <= rounds
    ensures EndsWithin(s, rounds) <==> exists id :: Present(s, id)
    ensures EndsWithin(s, rounds) <==> EndsWithin(s, 2)
  {
    if exists id :: Present(s, id) {
      PresentEnds(s, rounds);
      PresentEnds(s, 2);
    } else {
      EmptySearchNeverEnds(s, rounds);
      EmptySearchNeverEnds(s, 2);
    }
  }

  lemma PresentEnds(s: MmState, rounds: nat)
    requires Inv(s) && s.hand < |s.frames| && 2 <= rounds && exists id :: Present(s, id)
    ensures EndsWithin(s, rounds)
  {
    var id :| Present(s, id);
    assert PageOk(s, id);
    ClearedClasses(s);
    if Class(s.pages[id]) < 2 {
      FirstExists(s, Class(s.pages[id]), id);
    } else {
      var t := Cleared(s);
      FirstExists(t, Class(t.pages[id]), id);
      assert EndsWithin(t, rounds - 1);
    }
  }

  /** Forgetting every page while all frames are used leaves nothing to replace. */
  lemma FullTableOfNobody(s: MmState)
    requires Inv(s) && 0 < |s.used| && (forall f :: 0 <= f < |s.used| ==> s.used[f]) && forall id :: !Present(s, id)
    ensures !CanReplace(s) && s.hand < |s.frames| && forall rounds :: !EndsWithin(s, rounds)
  {
    forall rounds
      ensures !EndsWithin(s, rounds)
    {
      EmptySearchNeverEnds(s, rounds);
    }
  }
}
