/** What every event keeps of the two queues, the slots and the active set. */
module AtaQueueInv {
  import opened Seqs
  import opened AtaChannel

  /** The transfers of a queue that did not ask to skip it, in order. */
  function NonSkip(s: seq<Xfer>): seq<Xfer> {
    if s == [] then [] else (if s[0].skip then [] else [s[0]]) + NonSkip(s[1..])
  }

  /** Both queues are duplicate free and share nothing; every member was submitted. */
  ghost predicate Listed(c: Config, q: Queue) {
    && Distinct(q.pending) && Distinct(q.active)
    && (forall x :: x in q.pending ==> x !in q.active)
    && (forall x :: x in q.pending || x in q.active ==> x in q.seen)
    && (forall x :: x in q.seen ==> x.drive < c.NDrives() && !(x.skip && x.ncq))
  }

  ghost predicate HasHolder(q: Queue, k: nat) {
    exists x :: x in q.active && x in q.slot && q.slot[x] == k
  }

  /** The counter, the mask and the slots of the active list agree. */
  ghost predicate Slotted(c: Config, q: Queue) {
    && q.queueActive == |q.active| == |q.used| <= c.openings
    && q.used + q.avail == Bits(c.openings) && q.used !! q.avail
    && (forall x :: x in q.active ==> x in q.slot && q.slot[x] in q.used)
    && (forall k {:trigger HasHolder(q, k)} :: k in q.used ==> HasHolder(q, k))
    && (forall x, y :: x in q.active && y in q.active && q.slot[x] == q.slot[y] ==> x == y)
    && (forall x :: x in q.active ==> q.slot[x] < DrvOpenings(c, x))
  }

  ghost predicate SkipFirst(s: seq<Xfer>) {
    forall i, j :: 0 <= i < j < |s| && s[j].skip ==> s[i].skip
  }

  /** Skip-queue transfers first; the others are alone or all NCQ on one drive. */
  ghost predicate Ordered(c: Config, q: Queue) {
    && SkipFirst(q.active)
    && (forall x, y :: x in q.active && y in q.active && !x.skip && !y.skip && x != y ==> CanJoin(x, y))
    && (c.openings > 1 ==> |NonSkip(q.active)| <= c.openings - 1)
  }

  ghost predicate QueueInv(c: Config, q: Queue) {
    c.Valid() && Listed(c, q) && Slotted(c, q) && Ordered(c, q)
  }

  // ----- non-skip transfers of a sequence

  lemma {:induction false} NonSkipConcat(a: seq<Xfer>, b: seq<Xfer>)
    ensures NonSkip(a + b) == NonSkip(a) + NonSkip(b)
  {
    if a == [] {
      assert a + b == b;
    } else {
      assert (a + b)[1..] == a[1..] + b;
      NonSkipConcat(a[1..], b);
    }
  }

  lemma {:induction false} NonSkipShort(s: seq<Xfer>)
    ensures |NonSkip(s)| <= |s|
  {
    if s != [] { NonSkipShort(s[1..]); }
  }

  lemma {:induction false} NonSkipRemove(s: seq<Xfer>, x: Xfer)
    ensures |NonSkip(Remove(s, x))| <= |NonSkip(s)|
  {
    if s != [] && s[0] != x {
      NonSkipRemove(s[1..], x);
      NonSkipConcat([s[0]], Remove(s[1..], x));
      assert NonSkip([s[0]]) == if s[0].skip then [] else [s[0]];
    }
  }

  /** Without skip-queue entries the filter is the identity. */
  lemma {:induction false} NonSkipAll(s: seq<Xfer>)
    requires forall x :: x in s ==> !x.skip
    ensures NonSkip(s) == s
  {
    if s != [] { NonSkipAll(s[1..]); }
  }

  lemma {:induction false} RemoveKeepsPrefix(s: seq<Xfer>, x: Xfer)
    requires SkipFirst(s)
    ensures SkipFirst(Remove(s, x))
    ensures forall y :: y in Remove(s, x) ==> y in s
  {
    if s != [] && s[0] != x {
      var t := s[1..];
      RemoveKeepsPrefix(t, x);
      var r := Remove(t, x);
      forall i, j | 0 <= i < j < |Remove(s, x)| && Remove(s, x)[j].skip ensures Remove(s, x)[i].skip {
        if i == 0 {
          assert r[j - 1] in r;
          var k :| 0 <= k < |t| && t[k] == r[j - 1];
          assert s[k + 1].skip;
        } else {
          assert r[j - 1].skip;
        }
      }
    }
  }

  // ----- one lemma an event

  lemma ActivateLists(c: Config, q: Queue, slot: nat)
    requires Listed(c, q) && q.pending != []
    ensures Listed(c, Activated(q, slot))
  {
    var x, r := q.pending[0], Activated(q, slot);
    assert x in q.pending;
    DistinctSnoc(q.active, x);
    assert forall y :: y in r.active <==> y in q.active || y == x;
    assert forall y :: y in r.pending ==> y in q.pending && y != x;
  }

  lemma MaskMove(used: set<nat>, avail: set<nat>, all: set<nat>, k: nat)
    requires used + avail == all && used !! avail && k in avail
    ensures (used + {k}) + (avail - {k}) == all && (used + {k}) !! (avail - {k})
    ensures |used + {k}| == |used| + 1
  {
  }

  lemma ActivateHolders(q: Queue, slot: nat)
    requires q.pending != [] && q.pending[0] !in q.active && slot !in q.used
    requires forall x :: x in q.active ==> x in q.slot && q.slot[x] in q.used
    requires forall k {:trigger HasHolder(q, k)} :: k in q.used ==> HasHolder(q, k)
    ensures forall k {:trigger HasHolder(Activated(q, slot), k)} ::
      k in q.used + {slot} ==> HasHolder(Activated(q, slot), k)
  {
    var x, r := q.pending[0], Activated(q, slot);
    assert x in r.active && r.slot[x] == slot;
    forall k | k in q.used + {slot} ensures HasHolder(r, k) {
      if k != slot {
        assert HasHolder(q, k);
        var y :| y in q.active && y in q.slot && q.slot[y] == k;
        assert y in r.active && r.slot[y] == k;
      }
    }
  }

  lemma ActivateSlotOf(c: Config, q: Queue, slot: nat)
    requires q.pending != [] && q.pending[0] !in q.active && slot !in q.used && slot < DrvOpenings(c, q.pending[0])
    requires forall x :: x in q.active ==> x in q.slot && q.slot[x] in q.used && q.slot[x] < DrvOpenings(c, x)
    requires forall x, y :: x in q.active && y in q.active && q.slot[x] == q.slot[y] ==> x == y
    ensures var r := Activated(q, slot);
      && (forall x :: x in r.active ==> x in r.slot && r.slot[x] in r.used && r.slot[x] < DrvOpenings(c, x))
      && (forall x, y :: x in r.active && y in r.active && r.slot[x] == r.slot[y] ==> x == y)
  {
    hide DrvOpenings;
    var x, r := q.pending[0], Activated(q, slot);
    assert forall y :: y in r.active <==> y in q.active || y == x;
    assert forall y :: y in q.active ==> r.slot[y] == q.slot[y] && r.slot[y] != slot;
  }

  lemma ActivateSlots(c: Config, q: Queue, slot: nat)
    requires Slotted(c, q) && q.pending != [] && q.pending[0] !in q.active
    requires q.queueActive < c.openings && slot in Candidates(c, q, q.pending[0])
    ensures Slotted(c, Activated(q, slot))
  {
    hide HasHolder, DrvOpenings;
    MaskMove(q.used, q.avail, Bits(c.openings), slot);
    ActivateHolders(q, slot);
    ActivateSlotOf(c, q, slot);
  }

  lemma ActivateOrder(c: Config, q: Queue, slot: nat)
    requires Listed(c, q) && Ordered(c, q) && q.queueActive == |q.active| && q.pending != []
    requires !q.pending[0].skip ==> q.queueActive < Limit(c, q.pending[0])
    requires !q.pending[0].skip && q.active != [] ==> CanJoin(q.pending[0], q.active[0])
    ensures Ordered(c, Activated(q, slot))
  {
    var x, r := q.pending[0], Activated(q, slot);
    if x.skip {
      NonSkipConcat([x], q.active);
    } else {
      NonSkipConcat(q.active, [x]);
      NonSkipShort(q.active);
      forall y | y in q.active ensures !y.skip && CanJoin(x, y) && CanJoin(y, x) {
        HeadDecides(c, q, y);
      }
      assert forall j :: 0 <= j < |q.active| ==> !r.active[j].skip;
    }
  }

  lemma ActiveCount(c: Config, q: Queue)
    requires Slotted(c, q)
    ensures q.queueActive == |q.active|
  {
  }

  lemma ActivateKeeps(c: Config, s: State, slot: nat)
    requires QueueInv(c, s.q) && Judge(c, s, true) == Activates
    requires slot in Candidates(c, s.q, s.q.pending[0])
    ensures QueueInv(c, Activated(s.q, slot))
  {
    hide Activated, Slotted, Ordered, DrvOpenings, Candidates;
    ActiveCount(c, s.q);
    assert s.q.pending[0] in s.q.pending;
    ActivateLists(c, s.q, slot);
    ActivateSlots(c, s.q, slot);
    ActivateOrder(c, s.q, slot);
  }

  lemma StartKeepsQueue(c: Config, s: State, slot: nat, claim: bool, rv: StartRv)
    requires QueueInv(c, s.q) && Enabled(c, s, Start(slot, claim, rv))
    ensures QueueInv(c, ApplyStart(c, s, slot, claim, rv).q)
  {
    hide QueueInv, Activated, Candidates, Limit;
    if Judge(c, s, claim) == Activates { ActivateKeeps(c, s, slot); }
  }

  /** All members follow the head: the reason why comparing with it is enough. */
  lemma HeadDecides(c: Config, q: Queue, y: Xfer)
    requires Listed(c, q) && Ordered(c, q) && y in q.active && q.active[0].ncq
    ensures !y.skip && y.ncq && y.drive == q.active[0].drive
  {
    var head := q.active[0];
    assert head in q.active;
    var j :| 0 <= j < |q.active| && q.active[j] == y;
    assert j > 0 && q.active[j].skip ==> head.skip;
    assert y != head && !y.skip ==> CanJoin(head, y);
  }

  lemma DeactivateSlots(c: Config, q: Queue, r: Queue, x: Xfer)
    requires Slotted(c, q) && Distinct(q.active) && x in q.active
    requires r.active == Remove(q.active, x) && r.queueActive == q.queueActive - 1 && r.slot == q.slot
    requires r.used == q.used - {q.slot[x]} && r.avail == q.avail + {q.slot[x]}
    ensures Slotted(c, r)
  {
    RemoveKeepsOthers(q.active, x);
    assert |r.used| == |q.used| - 1;
    forall k | k in r.used ensures HasHolder(r, k) {
      assert HasHolder(q, k);
      var y :| y in q.active && y in q.slot && q.slot[y] == k;
      assert y in r.active;
    }
  }

  lemma DeactivateKeeps(c: Config, s: State, x: Xfer)
    requires QueueInv(c, s.q) && x in s.q.active
    ensures QueueInv(c, ApplyDeactivate(s, x).q)
  {
    var q, r := s.q, ApplyDeactivate(s, x).q;
    DeactivateSlots(c, q, r, x);
    RemoveKeepsOthers(q.active, x);
    RemoveKeepsPrefix(q.active, x);
    NonSkipRemove(q.active, x);
  }

  /** Slots and order depend only on the active set. */
  lemma SameActive(c: Config, q: Queue, r: Queue)
    requires Slotted(c, q) && Ordered(c, q)
    requires r == q.(pending := r.pending, drain := r.drain, seen := r.seen)
    ensures Slotted(c, r) && Ordered(c, r)
  {
    assert forall k :: HasHolder(q, k) ==> HasHolder(r, k);
  }

  lemma ExecKeeps(c: Config, s: State, x: Xfer)
    requires QueueInv(c, s.q) && Enabled(c, s, Exec(x))
    ensures QueueInv(c, ApplyExec(s, x).q)
  {
    hide Slotted, Ordered;
    var q, r := s.q, ApplyExec(s, x).q;
    DistinctSnoc(q.pending, x);
    assert forall y :: y in r.pending <==> y in q.pending || y == x;
    SameActive(c, q, r);
  }

  /** The queue invariant looks only at these fields. */
  lemma SameQueue(c: Config, q: Queue, r: Queue)
    requires QueueInv(c, q) && r == q.(pending := r.pending, drain := r.drain)
    requires r.pending == q.pending || (q.pending != [] && r.pending == q.pending[1..])
    ensures QueueInv(c, r)
  {
    hide Slotted, Ordered;
    assert forall y :: y in r.pending ==> y in q.pending;
    SameActive(c, q, r);
  }

  lemma WorkerMovesFreezeOnly(c: Config, s: State, rv: StartRv)
    ensures ApplyWorker(c, s, rv).q == s.q && ApplyWorker(c, s, rv).l == s.l
  {
  }

  lemma QueueStep(c: Config, s: State, e: Event)
    requires QueueInv(c, s.q) && Enabled(c, s, e)
    ensures QueueInv(c, Apply(c, s, e).q)
  {
    hide QueueInv, ApplyExec, ApplyDeactivate, ApplyWorker, ApplySchedule, Begin, Judge, Activated;
    match e
    case Exec(x) => ExecKeeps(c, s, x);
    case Start(slot, claim, rv) => StartKeepsQueue(c, s, slot, claim, rv);
    case Deactivate(x) => DeactivateKeeps(c, s, x);
    case KillPending(_) => SameQueue(c, s.q, Apply(c, s, e).q);
    case DrainTurn(_) => SameQueue(c, s.q, Apply(c, s, e).q);
    case DrainCheck(_) => SameQueue(c, s.q, Apply(c, s, e).q);
    case DrainSignal(_, _) => SameQueue(c, s.q, Apply(c, s, e).q);
    case WorkerStep(rv) => WorkerMovesFreezeOnly(c, s, rv);
    case _ => assert Apply(c, s, e).q == s.q;
  }

  /** Every reachable state of every interleaving satisfies the queue invariant. */
  lemma {:induction false} QueueRun(c: Config, s: State, es: seq<Event>)
    requires QueueInv(c, s.q) && ValidRun(c, s, es)
    ensures QueueInv(c, Run(c, s, es).q)
    decreases |es|
  {
    if es != [] {
      QueueStep(c, s, es[0]);
      QueueRun(c, Apply(c, s, es[0]), es[1..]);
    }
  }
}
