/** Lists without repeated elements, as the Master keeps its control blocks in. */
module Lists {

  ghost predicate NoDup(s: seq<int>) {
    forall i, j :: 0 <= i < j < |s| ==> s[i] != s[j]
  }

  /** list_remove_element: the first occurrence goes. */
  function Remove(s: seq<int>, x: int): seq<int> {
    if s == [] then [] else if s[0] == x then s[1..] else [s[0]] + Remove(s[1..], x)
  }

  /** Where the element that Remove drops stands; the length of the list when it drops none. */
  function RemovedAt(s: seq<int>, x: int): (k: nat)
    ensures k <= |s| && |Remove(s, x)| == if k < |s| then |s| - 1 else |s|
    ensures k < |s| ==> s[k] == x
    ensures forall i :: 0 <= i < k ==> s[i] != x
    ensures forall i :: 0 <= i < |Remove(s, x)| ==> Remove(s, x)[i] == s[if i < k then i else i + 1]
  {
    if s == [] || s[0] == x then 0 else 1 + RemovedAt(s[1..], x)
  }

  lemma RemoveAbsent(s: seq<int>, x: int)
    requires x !in s
    ensures Remove(s, x) == s
  {
    var k := RemovedAt(s, x);
  }

  lemma RemoveMembers(s: seq<int>, x: int)
    requires NoDup(s)
    ensures NoDup(Remove(s, x)) && forall y :: y in Remove(s, x) <==> y in s && y != x
  {
    var t := Remove(s, x);
    var k := RemovedAt(s, x);
    hide Remove;
    assert NoDup(t);
    hide NoDup;
    assert forall j :: 0 <= j < |s| && j != k ==> s[j] == t[if j < k then j else j - 1];
    OnlyOnce(s, t, x, k);
  }

  lemma OnlyOnce(s: seq<int>, t: seq<int>, x: int, k: nat)
    requires NoDup(s) && k <= |s| && (k < |s| ==> s[k] == x) && forall i :: 0 <= i < k ==> s[i] != x
    requires |t| == if k < |s| then |s| - 1 else |s|
    requires forall i :: 0 <= i < |t| ==> t[i] == s[if i < k then i else i + 1]
    requires forall j :: 0 <= j < |s| && j != k ==> s[j] == t[if j < k then j else j - 1]
    ensures forall y :: y in t <==> y in s && y != x
  {
    forall y
      ensures y in t ==> y in s && y != x
      ensures y in s && y != x ==> y in t
    {
      if y in t {
        var i :| 0 <= i < |t| && t[i] == y;
        assert s[if i < k then i else i + 1] == y;
      }
      if y in s && y != x {
        var j :| 0 <= j < |s| && s[j] == y;
        assert t[if j < k then j else j - 1] == y;
      }
    }
  }

  lemma AppendMembers(s: seq<int>, x: int)
    requires NoDup(s) && x !in s
    ensures NoDup(s + [x]) && forall y :: y in s + [x] <==> y in s || y == x
  {
  }

  lemma InsertMembers(s: seq<int>, k: nat, x: int)
    requires NoDup(s) && x !in s && k <= |s|
    ensures NoDup(s[..k] + [x] + s[k..])
    ensures forall y :: y in s[..k] + [x] + s[k..] <==> y in s || y == x
  {
    var t := s[..k] + [x] + s[k..];
    assert forall j :: 0 <= j < |s| ==> s[j] == t[if j < k then j else j + 1];
    assert t[k] == x;
  }

  /** A reordering has the same elements, each once. */
  lemma SameElements(s: seq<int>, t: seq<int>)
    requires NoDup(s) && multiset(s) == multiset(t)
    ensures NoDup(t) && forall y :: y in t <==> y in s
  {
    forall y
      ensures y in t <==> y in s
    {
      assert y in t <==> multiset(t)[y] > 0;
      assert y in s <==> multiset(s)[y] > 0;
    }
    forall i, j | 0 <= i < j < |t|
      ensures t[i] != t[j]
    {
      if t[i] == t[j] {
        assert t == t[..i] + [t[i]] + t[i + 1..j] + [t[j]] + t[j + 1..];
        assert multiset(t)[t[i]] >= 2;
        CountAtMostOne(s, t[i]);
      }
    }
  }

  lemma {:induction false} CountAtMostOne(s: seq<int>, x: int)
    requires NoDup(s)
    ensures multiset(s)[x] <= 1
  {
    if s != [] {
      CountAtMostOne(s[1..], x);
      assert s == [s[0]] + s[1..];
    }
  }

  lemma TailMembers(s: seq<int>)
    requires NoDup(s) && s != []
    ensures NoDup(s[1..]) && forall y :: y in s[1..] <==> y in s && y != s[0]
  {
    assert s == [s[0]] + s[1..];
  }

  /** Appending and removing again changes nothing. */
  lemma {:induction false} RemoveAppended(s: seq<int>, x: int)
    requires x !in s
    ensures Remove(s + [x], x) == s
  {
    if s != [] {
      RemoveAppended(s[1..], x);
      assert (s + [x])[1..] == s[1..] + [x];
    }
  }

  function FirstAt(s: seq<int>, x: int): (k: nat)
    requires x in s
    ensures k < |s| && s[k] == x && forall i :: 0 <= i < k ==> s[i] != x
  {
    if s[0] == x then 0 else 1 + FirstAt(s[1..], x)
  }

  /** `x` stands before `y`. */
  ghost predicate Before(s: seq<int>, x: int, y: int) {
    exists i, j :: 0 <= i < j < |s| && s[i] == x && s[j] == y
  }

  lemma BeforeIsOneWay(s: seq<int>, x: int, y: int)
    requires NoDup(s) && Before(s, x, y)
    ensures !Before(s, y, x)
  {
  }

  /** The elements that stand before `q`. */
  ghost function Ahead(s: seq<int>, q: int): set<int>
    requires q in s
  {
    set x | x in s[..FirstAt(s, q)]
  }

  lemma AheadIsBefore(s: seq<int>, x: int, q: int)
    requires NoDup(s) && q in s
    ensures x in Ahead(s, q) <==> Before(s, x, q)
  {
    var k := FirstAt(s, q);
    if x in Ahead(s, q) {
      var i :| 0 <= i < k && s[..k][i] == x;
      assert s[i] == x && s[k] == q;
    }
    if Before(s, x, q) {
      var i, j :| 0 <= i < j < |s| && s[i] == x && s[j] == q;
      assert j == k;
      assert s[..k][i] == x;
    }
  }

  lemma AheadCount(s: seq<int>, q: int)
    requires NoDup(s) && q in s
    ensures |Ahead(s, q)| == FirstAt(s, q)
  {
    SetSize(s[..FirstAt(s, q)]);
  }

  lemma {:induction false} SetSize(s: seq<int>)
    requires NoDup(s)
    ensures |set x | x in s| == |s|
  {
    if s != [] {
      SetSize(s[1..]);
      assert (set x | x in s) == (set x | x in s[1..]) + {s[0]};
    }
  }

  lemma SubsetSize(a: set<int>, b: set<int>)
    requires a <= b
    ensures |a| <= |b|
  {
    assert b == a + (b - a);
  }
}
