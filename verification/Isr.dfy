/** The interrupt handler lists: linking by priority, and dispatching. */
module Isr {

  const NISR := 8
  const ISRLOC := 0x18
  const IPL_VM := 5

  // ----- where isrlink() puts a new entry, on the priorities of a list

  /**
   * The scan stops before the first entry of lower priority, but looks at every entry
   * except the last one; failing that the new entry goes to the end.
   */
  function Place(ps: seq<int>, p: int): (k: nat)
    ensures k <= |ps|
  {
    if |ps| <= 1 then |ps| else if p > ps[0] then 0 else 1 + Place(ps[1..], p)
  }

  function InsertAt<T>(s: seq<T>, k: nat, x: T): seq<T>
    requires k <= |s|
  {
    s[..k] + [x] + s[k..]
  }

  function Linked(ps: seq<int>, p: int): seq<int> {
    InsertAt(ps, Place(ps, p), p)
  }

  predicate NonIncreasing(ps: seq<int>) {
    forall i, j :: 0 <= i < j < |ps| ==> ps[i] >= ps[j]
  }

  /** The new priority beats the last entry and no other: the case the scan overlooks. */
  predicate BeatsOnlyLast(ps: seq<int>, p: int) {
    ps != [] && p > ps[|ps| - 1] && forall i :: 0 <= i < |ps| - 1 ==> p <= ps[i]
  }

  /** Place() is the first entry but the last that p beats, or the end if there is none. */
  lemma {:induction false} PlaceIsFirstBeaten(ps: seq<int>, p: int)
    ensures forall i :: 0 <= i < Place(ps, p) && i < |ps| - 1 ==> p <= ps[i]
    ensures Place(ps, p) < |ps| ==> Place(ps, p) < |ps| - 1 && p > ps[Place(ps, p)]
  {
    if |ps| > 1 && p <= ps[0] {
      PlaceIsFirstBeaten(ps[1..], p);
      var k := Place(ps[1..], p);
      assert k < |ps[1..]| ==> ps[1..][k] == ps[1 + k];
      forall i | 0 <= i < 1 + k && i < |ps| - 1 ensures p <= ps[i] {
        if i > 0 { assert ps[1..][i - 1] == ps[i]; }
      }
    }
  }

  lemma LinkedKeepsAll<T>(s: seq<T>, k: nat, x: T)
    requires k <= |s|
    ensures multiset(InsertAt(s, k, x)) == multiset(s) + multiset{x}
  {
    assert s == s[..k] + s[k..];
  }

  lemma InsertAtIndex<T>(s: seq<T>, k: nat, x: T)
    requires k <= |s|
    ensures var r := InsertAt(s, k, x);
      && |r| == |s| + 1 && r[k] == x
      && (forall i :: 0 <= i < k ==> r[i] == s[i]) && (forall i :: k < i < |r| ==> r[i] == s[i - 1])
  {
  }

  lemma LinkedWhen(ps: seq<int>, p: int)
    requires NonIncreasing(ps) && !BeatsOnlyLast(ps, p)
    ensures NonIncreasing(Linked(ps, p))
  {
    hide InsertAt, Place;
    PlaceIsFirstBeaten(ps, p);
    var k, r := Place(ps, p), Linked(ps, p);
    InsertAtIndex(ps, k, p);
    forall i | 0 <= i < k ensures ps[i] >= p {
      if i == |ps| - 1 { assert ps[i] >= p || BeatsOnlyLast(ps, p); }
    }
    forall i, j | 0 <= i < j < |r| ensures r[i] >= r[j] {
      if k < i { assert r[i] == ps[i - 1] && r[j] == ps[j - 1]; }
      else if k < j { assert r[j] == ps[j - 1]; }
    }
  }

  lemma LinkedOnlyWhen(ps: seq<int>, p: int)
    requires NonIncreasing(Linked(ps, p))
    ensures NonIncreasing(ps) && !BeatsOnlyLast(ps, p)
  {
    PlaceIsFirstBeaten(ps, p);
    hide InsertAt, Place;
    var k, r := Place(ps, p), Linked(ps, p);
    InsertAtIndex(ps, k, p);
    forall i, j | 0 <= i < j < |ps| ensures ps[i] >= ps[j] {
      assert r[if i < k then i else i + 1] == ps[i];
      assert r[if j < k then j else j + 1] == ps[j];
    }
    assert r[k] == p;
    if k == |ps| && k > 0 { assert r[k - 1] == ps[k - 1]; }
  }

  /** Linking leaves a list ordered exactly when it was, and only the last was not beaten. */
  lemma LinkedIff(ps: seq<int>, p: int)
    ensures NonIncreasing(Linked(ps, p)) <==> NonIncreasing(ps) && !BeatsOnlyLast(ps, p)
  {
    if NonIncreasing(ps) && !BeatsOnlyLast(ps, p) { LinkedWhen(ps, p); }
    if NonIncreasing(Linked(ps, p)) { LinkedOnlyWhen(ps, p); }
  }

  /** In an ordered list the new entry never overtakes one of its own priority. */
  lemma LinkedIsStable(ps: seq<int>, p: int, i: nat)
    requires NonIncreasing(ps) && Place(ps, p) <= i < |ps|
    ensures ps[i] < p
  {
    PlaceIsFirstBeaten(ps, p);
  }

  /** The list after linking entries of the given priorities, one after the other. */
  function Built(ps: seq<int>): seq<int> {
    if ps == [] then [] else Linked(Built(ps[..|ps| - 1]), ps[|ps| - 1])
  }

  /** How many of the priorities p is higher than. */
  function Beaten(ps: seq<int>, p: int): (n: nat)
    ensures n <= |ps|
  {
    if ps == [] then 0 else (if ps[0] < p then 1 else 0) + Beaten(ps[1..], p)
  }

  lemma {:induction false} BeatenConcat(a: seq<int>, b: seq<int>, p: int)
    ensures Beaten(a + b, p) == Beaten(a, p) + Beaten(b, p)
  {
    if a == [] {
      assert a + b == b;
    } else {
      assert (a + b)[1..] == a[1..] + b;
      BeatenConcat(a[1..], b, p);
    }
  }

  lemma {:induction false} BeatenNone(ps: seq<int>, p: int)
    ensures Beaten(ps, p) == 0 <==> forall i :: 0 <= i < |ps| ==> p <= ps[i]
  {
    if ps != [] {
      BeatenNone(ps[1..], p);
      assert forall i :: 1 <= i < |ps| ==> ps[i] == ps[1..][i - 1];
    }
  }

  /** In an ordered list, beating one entry is beating the last and no other. */
  lemma BeatsOnlyLastIff(ps: seq<int>, p: int)
    requires NonIncreasing(ps)
    ensures BeatsOnlyLast(ps, p) <==> Beaten(ps, p) == 1
  {
    if ps == [] { return; }
    var n := |ps| - 1;
    var front := ps[..n];
    assert ps == front + [ps[n]];
    BeatenConcat(front, [ps[n]], p);
    BeatenNone(front, p);
    assert Beaten([ps[n]], p) == if ps[n] < p then 1 else 0;
    if Beaten(front, p) > 0 {
      var i :| 0 <= i < n && p > front[i];
      assert ps[i] >= ps[n] && p > ps[i];
    } else {
      assert forall i :: 0 <= i < n ==> ps[i] == front[i];
    }
  }

  /** Linking reorders, it changes no count. */
  lemma {:induction false} BeatenBuilt(ps: seq<int>, p: int)
    ensures Beaten(Built(ps), p) == Beaten(ps, p)
  {
    if ps != [] {
      var n := |ps| - 1;
      var front, built := ps[..n], Built(ps[..n]);
      var k := Place(built, ps[n]);
      BeatenBuilt(front, p);
      assert ps == front + [ps[n]] && built == built[..k] + built[k..];
      BeatenConcat(front, [ps[n]], p);
      BeatenConcat(built[..k], built[k..], p);
      BeatenConcat(built[..k] + [ps[n]], built[k..], p);
      BeatenConcat(built[..k], [ps[n]], p);
    }
  }

  /** The k-th handler linked has a higher priority than exactly one linked before it. */
  predicate BeatsOne(ps: seq<int>, k: nat)
    requires k < |ps|
  {
    Beaten(ps[..k], ps[k]) == 1
  }

  /**
   * A whole boot: the list is ordered if and only if no handler was linked with a higher
   * priority than exactly one of those before it.
   */
  lemma {:induction false} BuiltIff(ps: seq<int>)
    ensures NonIncreasing(Built(ps)) <==> forall k :: 0 <= k < |ps| ==> !BeatsOne(ps, k)
  {
    hide NonIncreasing, Linked, BeatsOnlyLast, Beaten;
    if ps == [] {
      assert NonIncreasing([]) by { EmptyOrdered(); }
    } else {
      var n := |ps| - 1;
      var front := ps[..n];
      BuiltIff(front);
      LinkedIff(Built(front), ps[n]);
      BeatenBuilt(front, ps[n]);
      if NonIncreasing(Built(front)) { BeatsOnlyLastIff(Built(front), ps[n]); }
      forall k | 0 <= k < n ensures BeatsOne(ps, k) == BeatsOne(front, k) {
        assert front[..k] == ps[..k] && front[k] == ps[k];
      }
      assert BeatsOne(ps, n) == (Beaten(front, ps[n]) == 1);
    }
  }

  lemma EmptyOrdered()
    ensures NonIncreasing([])
  {
  }

  /** Two handlers suffice: one of higher priority linked second stays behind the first. */
  lemma SecondHandlerMisplaced(low: int, high: int)
    requires low < high
    ensures Built([low, high]) == [low, high] && !NonIncreasing(Built([low, high]))
  {
    hide InsertAt;
    var one, two: seq<int> := [low], [low, high];
    assert one[..0] == [] && two[..1] == one;
    InsertAtIndex([], 0, low);
    assert Linked([], low) == one;
    assert Built(one) == Linked(Built([]), low);
    InsertAtIndex(one, 1, high);
    assert Linked(one, high) == two;
    assert Built(two) == Linked(Built(one), high);
  }

  // ----- the list in the heap

  class Handler {
    const id: int
    const ipl: int
    const priority: int
    var next: Handler?
    var prev: Handler?

    constructor (id: int, ipl: int, priority: int)
      ensures this.id == id && this.ipl == ipl && this.priority == priority
      ensures next == null && prev == null
    {
      this.id, this.ipl, this.priority, next, prev := id, ipl, priority, null, null;
    }
  }

  function Priorities(nodes: seq<Handler>): (ps: seq<int>)
    ensures |ps| == |nodes| && forall i :: 0 <= i < |ps| ==> ps[i] == nodes[i].priority
  {
    seq(|nodes|, i requires 0 <= i < |nodes| => nodes[i].priority)
  }

  class IsrList {
    var first: Handler?
    ghost var nodes: seq<Handler>

    ghost predicate Valid()
      reads this, nodes
    {
      && (nodes == [] ==> first == null)
      && (nodes != [] ==> first == nodes[0] && nodes[0].prev == null && nodes[|nodes| - 1].next == null)
      && (forall i :: 0 <= i < |nodes| - 1 ==> nodes[i].next == nodes[i + 1])
      && (forall i :: 0 < i < |nodes| ==> nodes[i].prev == nodes[i - 1])
      && (forall i, j :: 0 <= i < j < |nodes| ==> nodes[i] != nodes[j])
    }

    /** isrinit() for one list. */
    constructor ()
      ensures Valid() && nodes == []
    {
      first, nodes := null, [];
    }

    /** LIST_INSERT_HEAD on an empty list. */
    method InsertHead(h: Handler)
      requires Valid() && nodes == []
      modifies this, h
      ensures Valid() && nodes == [h]
    {
      h.next, h.prev := null, null;
      first, nodes := h, [h];
    }

    /** LIST_INSERT_BEFORE. */
    method InsertBefore(cur: Handler, h: Handler, ghost k: nat)
      requires Valid() && k < |nodes| && nodes[k] == cur && h !in nodes
      modifies this, h, nodes
      ensures Valid() && nodes == InsertAt(old(nodes), k, h)
    {
      hide InsertAt;
      ghost var ns := nodes;
      var p := cur.prev;
      assert p == if k == 0 then null else ns[k - 1];
      h.prev := p;
      h.next := cur;
      if p != null {
        p.next := h;
      } else {
        first := h;
      }
      cur.prev := h;
      nodes := InsertAt(nodes, k, h);
      InsertAtIndex(ns, k, h);
    }

    /** LIST_INSERT_AFTER the last entry. */
    method InsertAfterLast(cur: Handler, h: Handler)
      requires Valid() && nodes != [] && nodes[|nodes| - 1] == cur && h !in nodes
      modifies this, h, cur
      ensures Valid() && nodes == old(nodes) + [h]
    {
      h.next, h.prev := null, cur;
      cur.next := h;
      nodes := nodes + [h];
    }

    /** isrlink() after the list is chosen: the scan and the splice. */
    method Link(h: Handler)
      requires Valid() && h !in nodes
      modifies this, h, nodes
      ensures Valid()
      ensures nodes == InsertAt(old(nodes), Place(Priorities(old(nodes)), h.priority), h)
      ensures Priorities(nodes) == Linked(Priorities(old(nodes)), h.priority)
    {
      ghost var ns, ps := nodes, Priorities(nodes);
      PlaceIsFirstBeaten(ps, h.priority);
      if first == null {
        InsertHead(h);
      } else {
        var cur: Handler := first;
        ghost var k := 0;
        while cur.next != null && !(h.priority > cur.priority)
          invariant 0 <= k < |ns| && cur == ns[k]
          invariant forall i :: 0 <= i < k ==> h.priority <= ps[i]
          decreases |ns| - k
        {
          assert k < |ns| - 1;
          cur, k := cur.next, k + 1;
        }
        assert k < |ns| - 1 ==> cur.next == ns[k + 1];
        if cur.next != null {
          InsertBefore(cur, h, k);
        } else {
          InsertAfterLast(cur, h);
        }
      }
      PrioritiesInsert(ns, Place(ps, h.priority), h);
    }
  }

  lemma PrioritiesInsert(ns: seq<Handler>, k: nat, h: Handler)
    requires k <= |ns|
    ensures Priorities(InsertAt(ns, k, h)) == InsertAt(Priorities(ns), k, h.priority)
  {
    hide Priorities;
    var ls, rs := Priorities(InsertAt(ns, k, h)), InsertAt(Priorities(ns), k, h.priority);
    var all := InsertAt(ns, k, h);
    forall i | 0 <= i < |ls| ensures ls[i] == rs[i] {
      assert ls[i] == all[i].priority;
      if i > k { assert all[i] == ns[i - 1]; }
    }
  }
}
