/** At each moment at most one place carries the resume point of a query. */
module Carriers {
  import opened Common
  import opened MasterModel
  import opened MasterTheorems
  import opened WorkerModel
  import opened Protocol
  import opened SystemModel

  /** Where the resume point of a query can be: the READY queue, the `i`-th message to a worker, a worker, or
      the `i`-th message from one. */
  datatype Place = ReadyQueue | StartMessage(w: int, i: nat) | AtWorker(w: int) | EvictMessage(w: int, i: nat)

  /** The worker will execute from `c`, or give it back. */
  predicate Holds(s: WorkerState, c: Context) {
    || ActiveContext(s) == Some(c)
    || s.ejecting == Some(c)
    || (s.phase.Waiting? && s.flags.hasQuery && s.flags.current == c)
    || (EndedQuery(s).Some? && EndedQuery(s).value != c.q && s.flags.hasQuery && s.flags.current == c)
  }

  /** The worker was assigned the query after it began to leave an ejected one: it is in the shared context, and
      nothing about it is on its way. */
  ghost predicate Assigned(s: System, w: int, c: Context)
    requires Wired(s) && w in s.m.workers
  {
    && Doomed(s.ws[w]) && s.ws[w].flags.current == c && s.m.workers[w].query == c.q
    && Quiet(LivePart(s.up[w], s.m.queries.Keys, s.m.nextId), s.down[w])
  }

  /** `place` carries the query `q` with resume point `pc`. An EVICT sent after the END of its query does not count. */
  ghost predicate Carries(s: System, place: Place, q: int, pc: nat)
    requires Wired(s)
  {
    match place
    case ReadyQueue => q in s.m.ready && q in s.m.queries && s.m.queries[q].pc == pc
    case StartMessage(w, i) => w in s.m.workers && i < |s.down[w]| && s.down[w][i] == Start(q, pc)
    case AtWorker(w) => w in s.m.workers && (Holds(s.ws[w], Context(q, pc)) || Assigned(s, w, Context(q, pc)))
    case EvictMessage(w, i) => w in s.m.workers && i < |s.up[w]| && s.up[w][i] == Evict(q, pc) && forall j :: 0 <= j < i ==> s.up[w][j] != End(q)
  }

  /** The messages that do not count come first, and are all about finished queries. */
  lemma {:induction false} LivePartIsSuffix(up: seq<FromWorker>, live: set<int>, nextId: nat)
    ensures var t := LivePart(up, live, nextId);
            && |t| <= |up| && up[|up| - |t|..] == t
            && forall i :: 0 <= i < |up| - |t| ==> up[i].Evict? && Dead(up[i].q, live, nextId)
  {
    if up != [] && up[0].Evict? && Dead(up[0].q, live, nextId) {
      LivePartIsSuffix(up[1..], live, nextId);
      var t := LivePart(up, live, nextId);
      assert up[|up| - |t|..] == up[1..][|up| - 1 - |t|..];
      assert forall i :: 0 < i < |up| - |t| ==> up[i] == up[1..][i - 1];
    }
  }

  /** A live query's EVICT is the last message of its worker. */
  lemma EvictIsLast(s: System, w: int, i: nat, q: int, pc: nat)
    requires Inv(s) && q in s.m.queries && Carries(s, EvictMessage(w, i), q, pc)
    ensures s.m.workers[w].query == q && pc == DoneOf(s, q) && i == |s.up[w]| - 1
    ensures LivePart(s.up[w], s.m.queries.Keys, s.m.nextId) == [Evict(q, pc)]
  {
    var up := s.up[w];
    var t := LivePart(up, s.m.queries.Keys, s.m.nextId);
    LivePartIsSuffix(up, s.m.queries.Keys, s.m.nextId);
    assert WorkerAgrees(s, w);
    assert UpOk(t, s.m.workers[w].query, DoneOf(s, s.m.workers[w].query));
    hide Consistent, Agrees, LogsOk, ReadyResumes, LivePart, Carries;
    assert i >= |up| - |t|;
    assert forall k :: |up| - |t| <= k < |up| ==> up[k] == t[k - (|up| - |t|)];
  }

  lemma WorkerCarries(s: System, w: int, q: int, pc: nat)
    requires Inv(s) && q in s.m.queries && Carries(s, AtWorker(w), q, pc)
    ensures s.m.workers[w].query == q && pc == DoneOf(s, q)
    ensures Quiet(LivePart(s.up[w], s.m.queries.Keys, s.m.nextId), s.down[w])
  {
    assert WorkerAgrees(s, w);
    hide Consistent, LogsOk, ReadyResumes, LivePart, DownOk, HasStart, UpOk;
  }

  lemma StartCarries(s: System, w: int, i: nat, q: int, pc: nat)
    requires Inv(s) && q in s.m.queries && Carries(s, StartMessage(w, i), q, pc)
    ensures s.m.workers[w].query == q && pc == DoneOf(s, q)
    ensures HasStart(s.down[w]) && LivePart(s.up[w], s.m.queries.Keys, s.m.nextId) == []
    ensures forall j :: 0 <= j < |s.down[w]| && s.down[w][j].Start? ==> j == i
  {
    assert WorkerAgrees(s, w);
    hide Consistent, LogsOk, ReadyResumes, LivePart, UpOk, ActiveOk, WaitingOk, EndedOk;
    assert s.down[w][i].Start?;
  }

  /** Whatever carries a live query carries the number of its completed instructions. */
  lemma CarriedPoint(s: System, place: Place, q: int, pc: nat)
    requires Inv(s) && q in s.m.queries && Carries(s, place, q, pc)
    ensures pc == DoneOf(s, q)
    ensures place.ReadyQueue? || (place.w in s.m.workers && s.m.workers[place.w].query == q)
  {
    match place
    case ReadyQueue =>
    case StartMessage(w, i) => StartCarries(s, w, i, q, pc);
    case AtWorker(w) => WorkerCarries(s, w, q, pc);
    case EvictMessage(w, i) => EvictIsLast(s, w, i, q, pc);
  }

  /** What else each place implies about the two channels of its worker. */
  lemma PlaceFacts(s: System, place: Place, q: int, pc: nat)
    requires Inv(s) && q in s.m.queries && Carries(s, place, q, pc) && !place.ReadyQueue?
    ensures place.w in s.m.workers
    ensures var t := LivePart(s.up[place.w], s.m.queries.Keys, s.m.nextId);
            match place
            case StartMessage(w, i) => t == [] && HasStart(s.down[w]) && i < |s.down[w]|
                                       && forall j :: 0 <= j < |s.down[w]| && s.down[w][j].Start? ==> j == i
            case AtWorker(w) => t == [] && !HasStart(s.down[w])
            case EvictMessage(w, i) => t != [] && i == |s.up[w]| - 1
            case ReadyQueue => true
  {
    hide Consistent, LogsOk, ReadyResumes, LivePart, WorkerAgrees, Holds;
    match place
    case StartMessage(w, i) => StartCarries(s, w, i, q, pc);
    case AtWorker(w) => WorkerCarries(s, w, q, pc);
    case EvictMessage(w, i) => EvictIsLast(s, w, i, q, pc);
  }

  lemma SameWorkerSamePlace(s: System, a: Place, b: Place, q: int, pc: nat)
    requires Inv(s) && q in s.m.queries && Carries(s, a, q, pc) && Carries(s, b, q, pc)
    requires !a.ReadyQueue? && !b.ReadyQueue? && a.w == b.w
    ensures a == b
  {
    hide Consistent, LogsOk, ReadyResumes, LivePart, WorkerAgrees, Holds;
    PlaceFacts(s, a, q, pc);
    PlaceFacts(s, b, q, pc);
  }

  /** At most one place carries a live query, and it carries the point at which it must resume. */
  lemma AtMostOneCarrier(s: System, a: Place, b: Place, q: int, x: nat, y: nat)
    requires Inv(s) && q in s.m.queries && Carries(s, a, q, x) && Carries(s, b, q, y)
    ensures a == b && x == y == DoneOf(s, q)
  {
    CarriedPoint(s, a, q, x);
    CarriedPoint(s, b, q, y);
    ReadyIsNotAtWorker(s.m, q);
    if !a.ReadyQueue? && !b.ReadyQueue? {
      assert q > 0;
      QueriesApart(s.m, a.w, b.w);
      SameWorkerSamePlace(s, a, b, q, x);
    }
  }

  lemma ReadyIsNotAtWorker(m: Master, q: int)
    requires Consistent(m) && q in m.queries
    ensures q in m.ready <==> forall w :: w in m.workers ==> m.workers[w].query != q
  {
    forall w | w in m.workers
      ensures m.workers[w].query == q ==> q !in m.ready
    {
      WorkerQuery(m, w);
    }
    if q !in m.ready {
      assert q in m.running && m.workers[m.queries[q].worker].query == q;
    }
  }
}
