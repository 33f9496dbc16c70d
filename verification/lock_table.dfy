/** The table of reader-writer locks per File:Tag, under any interleaving of its critical sections. */
module LockTable {
  import opened Common

  /** t_file_mutex: its reference count and who holds its lock. */
  datatype FileMutex = FileMutex(refCount: int, readers: set<int>, writer: Option<int>)

  /** What a thread does between lock_file and unlock_file: it waits for the lock of `e`, holds it, has looked
      the entry up again to unlock it, or has unlocked it and must still give its reference back. */
  datatype Stage = Awaiting | Holding | Unlocking | Unlocked

  datatype Thread = Thread(key: string, e: int, write: bool, stage: Stage)

  /** g_open_files_dict maps keys to allocated entries; threads that use no lock are absent. */
  datatype Table = Table(dict: map<string, int>, heap: map<int, FileMutex>, threads: map<int, Thread>)

  const EMPTY := Table(map[], map[], map[])

  // ---------------------------------------------------------------- critical sections

  /** lock_file up to the release of the dictionary mutex; `address` is the address malloc returns. */
  function Enter(s: Table, t: int, key: string, write: bool, address: int): Table
    requires key in s.dict ==> s.dict[key] in s.heap
  {
    var e := if key in s.dict then s.dict[key] else address;
    var fm := if key in s.dict then s.heap[e] else FileMutex(0, {}, None);
    Table(s.dict[key := e], s.heap[e := fm.(refCount := fm.refCount + 1)], s.threads[t := Thread(key, e, write, Awaiting)])
  }

  /** The reader-writer lock lets the thread in. */
  predicate Grants(fm: FileMutex, write: bool) {
    fm.writer.None? && (write ==> fm.readers == {})
  }

  function Acquire(s: Table, t: int): Table
    requires t in s.threads && s.threads[t].e in s.heap
  {
    var th := s.threads[t];
    var fm := s.heap[th.e];
    s.(heap := s.heap[th.e := if th.write then fm.(writer := Some(t)) else fm.(readers := fm.readers + {t})],
    threads := s.threads[t := th.(stage := Holding)])
  }

  /** unlock_file looks the entry up by its key. */
  function LookUp(s: Table, t: int): Table
    requires t in s.threads && s.threads[t].key in s.dict
  {
    s.(threads := s.threads[t := s.threads[t].(e := s.dict[s.threads[t].key], stage := Unlocking)])
  }

  function Release(s: Table, t: int): Table
    requires t in s.threads && s.threads[t].e in s.heap
  {
    var th := s.threads[t];
    var fm := s.heap[th.e];
    s.(heap := s.heap[th.e := fm.(writer := if fm.writer == Some(t) then None else fm.writer, readers := fm.readers - {t})],
    threads := s.threads[t := th.(stage := Unlocked)])
  }

  /** The last critical section of unlock_file: at zero, whatever the dictionary has under the key is destroyed. */
  function Leave(s: Table, t: int): Table
    requires t in s.threads && s.threads[t].e in s.heap && s.threads[t].key in s.dict
  {
    var th := s.threads[t];
    var fm := s.heap[th.e];
    var threads := s.threads - {t};
    var heap := s.heap[th.e := fm.(refCount := fm.refCount - 1)];
    if fm.refCount - 1 == 0 then Table(s.dict - {th.key}, heap - {s.dict[th.key]}, threads)
    else Table(s.dict, heap, threads)
  }

  // ---------------------------------------------------------------- invariant

  /** The threads between the increment and the decrement of the reference count of `e`. */
  ghost function Users(threads: map<int, Thread>, e: int): set<int> {
    set t | t in threads && threads[t].e == e
  }

  predicate Holds(th: Thread) {
    th.stage.Holding? || th.stage.Unlocking?
  }

  /** Entries and keys match one to one. */
  ghost predicate DictOk(s: Table) {
    && (forall k :: k in s.dict ==> s.dict[k] in s.heap)
    && (forall k, l :: k in s.dict && l in s.dict && s.dict[k] == s.dict[l] ==> k == l)
  }

  /** Every thread uses the entry that the dictionary has for its key now. */
  ghost predicate ThreadsOk(s: Table) {
    forall t :: t in s.threads ==> s.threads[t].key in s.dict && s.dict[s.threads[t].key] == s.threads[t].e
  }

  ghost predicate CountsOk(s: Table) {
    forall e :: e in s.heap ==> s.heap[e].refCount == |Users(s.threads, e)| && s.heap[e].refCount > 0
  }

  /** The state of each lock is what its holders say, and the lock kept writers alone. */
  ghost predicate LocksOk(s: Table) {
    && (forall e, t :: e in s.heap ==>
                         (t in s.heap[e].readers <==> t in s.threads && s.threads[t].e == e && Holds(s.threads[t]) && !s.threads[t].write))
    && (forall e, t :: e in s.heap ==>
                         (s.heap[e].writer == Some(t) <==> t in s.threads && s.threads[t].e == e && Holds(s.threads[t]) && s.threads[t].write))
    && (forall e :: e in s.heap && s.heap[e].writer.Some? ==> s.heap[e].readers == {})
  }

  ghost predicate Inv(s: Table) {
    DictOk(s) && ThreadsOk(s) && CountsOk(s) && LocksOk(s)
  }

  // ---------------------------------------------------------------- steps

  datatype Step =
    | EnterStep(t: int, key: string, write: bool, address: int)
    | AcquireStep(t: int)
    | LookUpStep(t: int)
    | ReleaseStep(t: int)
    | LeaveStep(t: int)

  predicate At(s: Table, t: int, stage: Stage) {
    t in s.threads && s.threads[t].stage == stage
  }

  /** A thread takes one lock at a time, a new entry gets an unused address, and the lock decides who acquires. */
  predicate Enabled(s: Table, step: Step) {
    match step
    case EnterStep(t, key, _, address) => t !in s.threads && address !in s.heap
    case AcquireStep(t) => At(s, t, Awaiting) && s.threads[t].e in s.heap && Grants(s.heap[s.threads[t].e], s.threads[t].write)
    case LookUpStep(t) => At(s, t, Holding)
    case ReleaseStep(t) => At(s, t, Unlocking)
    case LeaveStep(t) => At(s, t, Unlocked)
  }

  ghost function Next(s: Table, step: Step): Table
    requires Inv(s) && Enabled(s, step)
  {
    match step
    case EnterStep(t, key, write, address) => Enter(s, t, key, write, address)
    case AcquireStep(t) => Acquire(s, t)
    case LookUpStep(t) => LookUp(s, t)
    case ReleaseStep(t) => Release(s, t)
    case LeaveStep(t) => Leave(s, t)
  }

  lemma SameUsers(s: Table, u: Table)
    requires CountsOk(s) && u.heap.Keys == s.heap.Keys && u.threads.Keys == s.threads.Keys
    requires forall e :: e in s.heap ==> u.heap[e].refCount == s.heap[e].refCount
    requires forall t :: t in s.threads ==> u.threads[t].e == s.threads[t].e
    ensures CountsOk(u)
  {
    forall e | e in u.heap
      ensures Users(u.threads, e) == Users(s.threads, e)
    {
      assert forall t :: t in u.threads ==> t in s.threads && u.threads[t].e == s.threads[t].e;
    }
  }

  lemma AcquireKeeps(s: Table, t: int)
    requires Inv(s) && Enabled(s, AcquireStep(t))
    ensures Inv(Acquire(s, t))
  {
    var u := Acquire(s, t);
    SameUsers(s, u);
    hide CountsOk;
  }

  lemma LookUpKeeps(s: Table, t: int)
    requires Inv(s) && Enabled(s, LookUpStep(t))
    ensures Inv(LookUp(s, t)) && LookUp(s, t).threads[t].e == s.threads[t].e
  {
    var u := LookUp(s, t);
    SameUsers(s, u);
    hide CountsOk;
  }

  lemma ReleaseKeeps(s: Table, t: int)
    requires Inv(s) && Enabled(s, ReleaseStep(t))
    ensures Inv(Release(s, t))
  {
    var u := Release(s, t);
    SameUsers(s, u);
    hide CountsOk;
  }

  lemma UsersAfterEnter(threads: map<int, Thread>, t: int, th: Thread, e: int)
    requires t !in threads
    ensures |Users(threads[t := th], e)| == |Users(threads, e)| + if e == th.e then 1 else 0
  {
    assert Users(threads[t := th], e) == if e == th.e then Users(threads, e) + {t} else Users(threads, e);
  }

  /** A new address has no users yet. */
  lemma NoUsers(s: Table, address: int)
    requires DictOk(s) && ThreadsOk(s) && address !in s.heap
    ensures |Users(s.threads, address)| == 0
  {
    assert forall x :: x in s.threads ==> s.threads[x].key in s.dict && s.threads[x].e in s.heap;
    assert Users(s.threads, address) == {};
  }

  lemma EnterCounts(s: Table, t: int, key: string, write: bool, address: int)
    requires Inv(s) && Enabled(s, EnterStep(t, key, write, address))
    ensures CountsOk(Enter(s, t, key, write, address))
  {
    NoUsers(s, address);
    hide LocksOk, ThreadsOk, Users;
    var u := Enter(s, t, key, write, address);
    forall x | x in u.heap
      ensures u.heap[x].refCount == |Users(u.threads, x)| && u.heap[x].refCount > 0
    {
      UsersAfterEnter(s.threads, t, u.threads[t], x);
    }
  }

  lemma EnterKeeps(s: Table, t: int, key: string, write: bool, address: int)
    requires Inv(s) && Enabled(s, EnterStep(t, key, write, address))
    ensures Inv(Enter(s, t, key, write, address))
  {
    EnterCounts(s, t, key, write, address);
    hide CountsOk;
  }

  lemma LeaveCounts(s: Table, t: int)
    requires Inv(s) && Enabled(s, LeaveStep(t))
    ensures CountsOk(Leave(s, t))
    ensures Users(s.threads - {t}, s.threads[t].e) == {} <==> s.heap[s.threads[t].e].refCount == 1
  {
    hide LocksOk;
    var u := Leave(s, t);
    var e := s.threads[t].e;
    assert Users(s.threads - {t}, e) == Users(s.threads, e) - {t};
    assert t in Users(s.threads, e);
    forall x | x in s.heap && x != e
      ensures Users(u.threads, x) == Users(s.threads, x)
    {
    }
  }

  /** An entry is destroyed exactly when no thread is left that uses it. */
  lemma LeaveKeeps(s: Table, t: int)
    requires Inv(s) && Enabled(s, LeaveStep(t))
    ensures Inv(Leave(s, t))
    ensures s.threads[t].e !in Leave(s, t).heap <==> Users(Leave(s, t).threads, s.threads[t].e) == {}
  {
    var u := Leave(s, t);
    var e := s.threads[t].e;
    LeaveCounts(s, t);
    assert s.dict[s.threads[t].key] == e;
    hide CountsOk, Users;
  }

  lemma NextKeeps(s: Table, step: Step)
    requires Inv(s) && Enabled(s, step)
    ensures Inv(Next(s, step))
  {
    hide DictOk, CountsOk, LocksOk;
    match step
    case EnterStep(t, key, write, address) => EnterKeeps(s, t, key, write, address);
    case AcquireStep(t) => AcquireKeeps(s, t);
    case LookUpStep(t) => LookUpKeeps(s, t);
    case ReleaseStep(t) => ReleaseKeeps(s, t);
    case LeaveStep(t) => LeaveKeeps(s, t);
  }

  ghost predicate Interleaving(s: Table, steps: seq<Step>, u: Table)
    requires Inv(s)
    decreases |steps|
  {
    if steps == [] then u == s
    else Enabled(s, steps[0]) && (NextKeeps(s, steps[0]); Interleaving(Next(s, steps[0]), steps[1..], u))
  }

  lemma {:induction false} InterleavingKeeps(s: Table, steps: seq<Step>, u: Table)
    requires Inv(s) && Interleaving(s, steps, u)
    ensures Inv(u)
    decreases |steps|
  {
    hide Inv, Enabled, Next;
    if steps != [] {
      NextKeeps(s, steps[0]);
      InterleavingKeeps(Next(s, steps[0]), steps[1..], u);
    }
  }

  lemma EmptyInv()
    ensures Inv(EMPTY)
  {
  }

  /** The steps lead from the empty table to `u`. */
  ghost predicate Reaches(steps: seq<Step>, u: Table) {
    EmptyInv();
    Interleaving(EMPTY, steps, u)
  }

  /** Under any interleaving, threads on the same File:Tag use the same lock, the lock they use exists, its
      count is the number of its users, and a writer never overlaps another holder. */
  lemma LockTableIsSafe(steps: seq<Step>, u: Table, t: int, x: int)
    requires Reaches(steps, u) && t in u.threads && x in u.threads
    ensures u.threads[t].e in u.heap && u.heap[u.threads[t].e].refCount == |Users(u.threads, u.threads[t].e)|
    ensures u.threads[t].key == u.threads[x].key <==> u.threads[t].e == u.threads[x].e
    ensures u.threads[t].key == u.threads[x].key && Holds(u.threads[t]) && Holds(u.threads[x]) && u.threads[t].write ==> t == x
  {
    EmptyInv();
    InterleavingKeeps(EMPTY, steps, u);
    var e := u.threads[t].e;
    assert Holds(u.threads[t]) && u.threads[t].write ==> u.heap[e].writer == Some(t);
    assert Holds(u.threads[x]) && u.threads[x].write && u.threads[x].e == e ==> u.heap[e].writer == Some(x);
    assert Holds(u.threads[x]) && !u.threads[x].write && u.threads[x].e == e ==> x in u.heap[e].readers;
  }

  // ---------------------------------------------------------------- the code

  /** The three critical sections on the dictionary, as lock_file and unlock_file run them. */
  class OpenFiles {
    var dict: map<string, int>
    var heap: map<int, FileMutex>

    ghost predicate Valid()
      reads this
    {
      forall k :: k in dict ==> dict[k] in heap
    }

    constructor ()
      ensures Valid() && dict == EMPTY.dict && heap == EMPTY.heap
    {
      dict, heap := map[], map[];
    }

    method EnterEntry(key: string, address: int, ghost threads: map<int, Thread>, t: int, write: bool) returns (e: int)
      requires Valid()
      modifies this
      ensures Valid()
      ensures Table(dict, heap, threads[t := Thread(key, e, write, Awaiting)]) ==
              Enter(Table(old(dict), old(heap), threads), t, key, write, address)
    {
      if key !in dict {
        heap := heap[address := FileMutex(0, {}, None)];
        dict := dict[key := address];
      }
      e := dict[key];
      assert dict == dict[key := e];
      heap := heap[e := heap[e].(refCount := heap[e].refCount + 1)];
    }

    method LookUpEntry(key: string) returns (e: int)
      requires key in dict
      ensures e == dict[key]
    {
      e := dict[key];
    }

    method LeaveEntry(key: string, e: int, ghost threads: map<int, Thread>, t: int)
      requires t in threads && threads[t].key == key && threads[t].e == e && e in heap && key in dict
      modifies this
      ensures Table(dict, heap, threads - {t}) == Leave(Table(old(dict), old(heap), threads), t)
    {
      var count := heap[e].refCount - 1;
      heap := heap[e := heap[e].(refCount := count)];
      if count == 0 {
        var removed := dict[key];
        dict := dict - {key};
        heap := heap - {removed};
      }
    }
  }
}
