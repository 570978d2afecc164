/** Each transfer returns to the pool exactly once, whatever the timeout callback does. */
module AtaLife {
  import opened Seqs
  import opened AtaChannel
  import opened AtaQueueInv
  import opened AtaQueueResults

  function Count(b: bool): nat { if b then 1 else 0 }

  /** How often x has been, or is still certain to be, handed back. */
  function Returns(l: Life, x: Xfer): nat {
    l.puts[x] + Count(x in l.freeReq) + Count(x in l.timoFreeing)
  }

  /** Transfers that were submitted and left both queues. */
  predicate Left(q: Queue, x: Xfer) {
    x in q.seen && x !in q.active && x !in q.pending
  }

  ghost predicate Accounted(l: Life) {
    && (forall x :: x in l.freeCalled && !x.priv ==> Returns(l, x) == 1)
    && (forall x: Xfer :: x in l.freeReq || x in l.timoFreeing || l.puts[x] > 0 ==> x in l.freeCalled)
    && (forall x: Xfer :: x.priv ==> l.puts[x] == 0 && Returns(l, x) <= 1)
  }

  ghost predicate LifeInv(q: Queue, l: Life) {
    && Accounted(l)
    && (forall x :: x in l.freeCalled ==> Left(q, x))
    && (forall x :: x in l.waitTimo ==> Left(q, x) && x !in l.waitAct && x !in l.timoFreeing)
    && (forall x :: x in l.waitAct ==> x in q.seen && x !in q.active)
    && (forall x :: x in l.freeReq ==> x in l.waitTimo || x in l.waitAct)
    && (forall x :: x in l.timoFreeing ==> x !in l.waitAct)
    && (l.waitTimo != {} ==> l.invoking)
    && (forall x: Xfer :: l.puts[x] > 0 ==> x !in l.waitTimo && x !in l.waitAct)
  }

  /** Queues may change as long as transfers that left stay out and waiters are not activated. */
  lemma ListsMove(q: Queue, r: Queue, l: Life)
    requires LifeInv(q, l)
    requires forall x :: Left(q, x) ==> Left(r, x)
    requires forall x :: x in l.waitAct ==> x in r.seen && x !in r.active
    ensures LifeInv(r, l)
  {
    hide Left, Accounted;
  }

  lemma AddWaiter(q: Queue, l: Life, x: Xfer)
    requires LifeInv(q, l) && x in q.pending && x in q.seen && x !in q.active
    ensures LifeInv(q, l.(waitAct := l.waitAct + {x}))
  {
    var m := l.(waitAct := l.waitAct + {x});
    assert forall y :: Returns(m, y) == Returns(l, y);
    assert !Left(q, x);
  }

  lemma ExecLife(c: Config, s: State, x: Xfer)
    requires LifeInv(s.q, s.l) && Listed(c, s.q) && x !in s.q.seen
    ensures LifeInv(ApplyExec(s, x).q, ApplyExec(s, x).l)
  {
    var t := ApplyExec(s, x);
    assert forall y :: y in t.q.pending <==> y in s.q.pending || y == x;
    ListsMove(s.q, t.q, s.l);
    if t.l != s.l { AddWaiter(t.q, s.l, x); }
  }

  lemma StartLife(c: Config, s: State, slot: nat, claim: bool, rv: StartRv)
    requires LifeInv(s.q, s.l) && Listed(c, s.q)
    ensures LifeInv(ApplyStart(c, s, slot, claim, rv).q, ApplyStart(c, s, slot, claim, rv).l)
  {
    hide LifeInv, Candidates, Limit, AfterStart;
    var t := ApplyStart(c, s, slot, claim, rv);
    if Judge(c, s, claim) == Activates {
      var x := s.q.pending[0];
      assert x in s.q.pending;
      assert forall y :: y in t.q.active <==> y in s.q.active || y == x;
      assert forall y :: y in t.q.pending ==> y in s.q.pending;
      WaitersInactive(s.q, s.l);
      ListsMove(s.q, t.q, s.l);
    }
  }

  lemma WaitersInactive(q: Queue, l: Life)
    requires LifeInv(q, l)
    ensures forall x :: x in l.waitAct ==> x in q.seen && x !in q.active
  {
  }

  /** A waiter that gets through its loop is still queued, so nobody has tried to free it. */
  lemma ExecWakeLife(s: State, x: Xfer)
    requires LifeInv(s.q, s.l) && x in s.l.waitAct
    ensures LifeInv(s.q, ApplyExecWake(s, x).l)
    ensures !MustWait(s.q, x) ==> x !in s.l.freeReq
  {
    if !MustWait(s.q, x) { assert x in s.q.pending; }
  }

  lemma LeaveActive(c: Config, q: Queue, r: Queue, l: Life, x: Xfer)
    requires LifeInv(q, l) && Listed(c, q) && x in q.active
    requires r.active == Remove(q.active, x) && r.pending == q.pending && r.seen == q.seen
    ensures LifeInv(r, l) && Left(r, x) && x !in l.waitAct && x !in l.timoFreeing && l.puts[x] == 0
  {
    RemoveKeepsOthers(q.active, x);
    assert forall y :: Left(q, y) ==> Left(r, y);
  }

  lemma DeactivateLife(c: Config, s: State, x: Xfer)
    requires LifeInv(s.q, s.l) && QueueInv(c, s.q) && x in s.q.active
    ensures var t := ApplyDeactivate(s, x); LifeInv(t.q, t.l)
  {
    var t := ApplyDeactivate(s, x);
    LeaveActive(c, s.q, t.q, s.l, x);
    assert forall y :: Returns(t.l, y) == Returns(s.l, y);
  }

  /** One call of the body of ata_free_xfer() adds one return, now or later. */
  lemma FreeBodyReturns(l: Life, x: Xfer)
    requires l.puts[x] == 0 && x !in l.freeReq && x !in l.timoFreeing
    ensures Returns(FreeBody(l, x), x) == if x.priv && x !in l.waitAct && x !in l.waitTimo then 0 else 1
    ensures forall y :: y != x ==> Returns(FreeBody(l, x), y) == Returns(l, y)
  {
  }

  lemma FreeBodyAccounted(l: Life, k: Life, x: Xfer)
    requires Accounted(l)
    requires k == l.(freeCalled := l.freeCalled + {x}, timoFreeing := l.timoFreeing - {x})
    requires k.puts[x] == 0 && x !in k.freeReq
    ensures Accounted(FreeBody(k, x))
  {
    var m := FreeBody(k, x);
    FreeBodyReturns(k, x);
    forall y: Xfer | y != x
      ensures Returns(m, y) == Returns(l, y) && m.puts[y] == l.puts[y]
      ensures y in m.freeCalled <==> y in l.freeCalled
      ensures y in m.freeReq || y in m.timoFreeing ==> y in l.freeReq || y in l.timoFreeing
    {
    }
    assert x.priv ==> m.puts[x] == 0;
    hide Returns, FreeBody;
  }

  lemma FreeBodyKeeps(q: Queue, l: Life, k: Life, x: Xfer)
    requires LifeInv(q, l) && Left(q, x)
    requires k == l.(freeCalled := l.freeCalled + {x}, timoFreeing := l.timoFreeing - {x})
    requires k.puts[x] == 0 && x !in k.freeReq
    ensures LifeInv(q, FreeBody(k, x))
  {
    hide Accounted;
    FreeBodyAccounted(l, k, x);
  }

  lemma FreeLife(q: Queue, l: Life, x: Xfer)
    requires LifeInv(q, l) && Left(q, x) && x !in l.freeCalled
    ensures LifeInv(q, FreeBody(l.(freeCalled := l.freeCalled + {x}), x))
  {
    assert l.timoFreeing - {x} == l.timoFreeing;
    FreeBodyKeeps(q, l, l.(freeCalled := l.freeCalled + {x}), x);
  }

  /** The callback takes over a free that waited for it: still one return. */
  lemma TimoCheckAccounted(l: Life, m: Life, x: Xfer)
    requires Accounted(l) && x in l.freeReq && x !in l.timoFreeing
    requires m == l.(waitTimo := l.waitTimo - {x}, freeReq := l.freeReq - {x}, timoFreeing := l.timoFreeing + {x})
    ensures Accounted(m)
  {
    assert forall y :: Returns(m, y) == Returns(l, y);
    hide Returns;
  }

  lemma TimoCheckLife(s: State, x: Xfer)
    requires LifeInv(s.q, s.l)
    ensures LifeInv(s.q, ApplyTimoCheck(s, x).l) && ApplyTimoCheck(s, x).q == s.q
  {
    hide Left, Accounted;
    var m := ApplyTimoCheck(s, x).l;
    if x in s.l.waitTimo && x in s.l.freeReq {
      TimoCheckAccounted(s.l, m, x);
    } else {
      SameAccounts(s.l, m);
    }
  }

  lemma SameAccounts(l: Life, m: Life)
    requires Accounted(l)
    requires m.puts == l.puts && m.freeReq == l.freeReq && m.timoFreeing == l.timoFreeing && m.freeCalled == l.freeCalled
    ensures Accounted(m)
  {
    assert forall x :: Returns(m, x) == Returns(l, x);
  }

  lemma TimoFreeLife(s: State, x: Xfer)
    requires LifeInv(s.q, s.l) && x in s.l.timoFreeing
    ensures LifeInv(s.q, ApplyTimoFree(s, x).l)
  {
    assert s.l.freeCalled + {x} == s.l.freeCalled;
    assert s.l.puts[x] == 0 && x !in s.l.freeReq by {
      if !x.priv { assert Returns(s.l, x) == 1; }
    }
    FreeBodyKeeps(s.q, s.l, s.l.(timoFreeing := s.l.timoFreeing - {x}), x);
  }

  /** The invariant depends on the queue only through its lists, and not on the callout arming. */
  lemma SameLists(q: Queue, r: Queue, l: Life, m: Life)
    requires LifeInv(q, l)
    requires r.active == q.active && r.seen == q.seen && forall x :: x in r.pending ==> x in q.pending
    requires m == l.(armed := m.armed, invoking := m.invoking) && (m.invoking || m.invoking == l.invoking || l.waitTimo == {})
    ensures LifeInv(r, m)
  {
    ListsMove(q, r, l);
    assert forall x :: Returns(m, x) == Returns(l, x);
  }

  lemma LifeStep(c: Config, s: State, e: Event)
    requires LifeInv(s.q, s.l) && QueueInv(c, s.q) && Enabled(c, s, e)
    ensures LifeInv(Apply(c, s, e).q, Apply(c, s, e).l)
  {
    hide LifeInv;
    match e
    case Exec(x) => ExecLife(c, s, x);
    case ExecWake(x) => ExecWakeLife(s, x);
    case Start(slot, claim, rv) => StartLife(c, s, slot, claim, rv);
    case Deactivate(x) => DeactivateLife(c, s, x);
    case Free(x) => FreeLife(s.q, s.l, x);
    case TimoCheck(x) => TimoCheckLife(s, x);
    case TimoFree(x) => TimoFreeLife(s, x);
    case _ => OtherLife(c, s, e);
  }

  lemma OtherLife(c: Config, s: State, e: Event)
    requires LifeInv(s.q, s.l) && Enabled(c, s, e)
    requires !e.Exec? && !e.ExecWake? && !e.Start? && !e.Deactivate? && !e.Free? && !e.TimoCheck? && !e.TimoFree?
    ensures LifeInv(Apply(c, s, e).q, Apply(c, s, e).l)
  {
    hide LifeInv, ApplySchedule, ApplySyncEnd, ApplyWorker, Begin;
    if e.WorkerStep? { WorkerMovesFreezeOnly(c, s, e.rv); }
    var t := Apply(c, s, e);
    assert t.q == s.q.(pending := t.q.pending, drain := t.q.drain);
    assert t.q.pending == s.q.pending || (e.KillPending? && t.q.pending == KillTurn(s.q.pending, e.drive));
    SameLists(s.q, t.q, s.l, t.l);
  }

  lemma {:induction false} LifeRun(c: Config, s: State, es: seq<Event>)
    requires LifeInv(s.q, s.l) && QueueInv(c, s.q) && ValidRun(c, s, es)
    ensures var t := Run(c, s, es); LifeInv(t.q, t.l) && QueueInv(c, t.q)
    decreases |es|
  {
    if es != [] {
      LifeStep(c, s, es[0]);
      QueueStep(c, s, es[0]);
      LifeRun(c, Apply(c, s, es[0]), es[1..]);
    }
  }

  // ----- the results

  lemma InitLife(c: Config)
    ensures LifeInv(Init(c).q, Init(c).l)
  {
  }

  lemma ReachableLife(c: Config, es: seq<Event>)
    requires c.Valid() && ValidRun(c, Init(c), es)
    ensures LifeInv(Run(c, Init(c), es).q, Run(c, Init(c), es).l)
  {
    var s0 := Init(c);
    InitLife(c);
    InitQueue(c);
    LifeRun(c, s0, es);
  }

  /**
   * Exactly-once free: in every reachable state a transfer is in the pool at most once,
   * only after its driver freed it, and never while somebody waits for it; once freed, it
   * is in the pool exactly when no waiter and no callback on its way still keeps it out.
   */
  lemma FreedExactlyOnce(c: Config, es: seq<Event>, x: Xfer)
    requires c.Valid() && ValidRun(c, Init(c), es)
    ensures var l := Run(c, Init(c), es).l;
      && l.puts[x] <= 1
      && (l.puts[x] == 1 ==> x in l.freeCalled && x !in l.waitTimo && x !in l.waitAct)
      && (x in l.freeCalled && !x.priv ==>
           (l.puts[x] == 1 <==> x !in l.freeReq && x !in l.timoFreeing))
      && (x in l.freeReq ==> x in l.waitTimo || x in l.waitAct)
  {
    ReachableLife(c, es);
    PutOnce(Run(c, Init(c), es).q, Run(c, Init(c), es).l, x);
  }

  lemma PutOnce(q: Queue, l: Life, x: Xfer)
    requires LifeInv(q, l)
    ensures l.puts[x] <= 1
    ensures x in l.freeCalled && !x.priv ==> (l.puts[x] == 1 <==> x !in l.freeReq && x !in l.timoFreeing)
  {
    if x in l.freeCalled && !x.priv { assert Returns(l, x) == 1; }
  }

  /**
   * When the callback is over and a freed transfer has no waiter, it is in the pool. This
   * rests on the assumption that the callback checks every transfer that raced with it
   * before it ends (the condition of TimerDone).
   */
  lemma QuietMeansReturned(c: Config, es: seq<Event>, x: Xfer)
    requires c.Valid() && ValidRun(c, Init(c), es)
    requires var l := Run(c, Init(c), es).l;
      x in l.freeCalled && !x.priv && !l.invoking && x !in l.waitAct && l.timoFreeing == {}
    ensures Run(c, Init(c), es).l.puts[x] == 1
  {
    ReachableLife(c, es);
    var t := Run(c, Init(c), es);
    PutOnce(t.q, t.l, x);
  }

  /**
   * A polling waiter that leaves its loop never finds its transfer already freed. This rests
   * on the assumption that a driver frees no queued transfer (the condition of Free).
   */
  lemma WaiterNeverFreesEarly(c: Config, es: seq<Event>, x: Xfer)
    requires c.Valid() && ValidRun(c, Init(c), es)
    requires var s := Run(c, Init(c), es); x in s.l.waitAct && !MustWait(s.q, x)
    ensures x !in Run(c, Init(c), es).l.freeReq
  {
    ReachableLife(c, es);
    ExecWakeLife(Run(c, Init(c), es), x);
  }

  /** The callout after a deactivation: armed exactly if it was and something is still active. */
  lemma CalloutIff(c: Config, es: seq<Event>, x: Xfer)
    requires c.Valid() && ValidRun(c, Init(c), es) && Enabled(c, Run(c, Init(c), es), Deactivate(x))
    ensures var s := Run(c, Init(c), es);
      var t := Apply(c, s, Deactivate(x));
      t.l.armed <==> s.l.armed && t.q.active != []
  {
    hide QueueInv, Run, ValidRun;
    Reachable(c, es);
    ActiveDrops(c, Run(c, Init(c), es), x);
  }

  lemma ActiveDrops(c: Config, s: State, x: Xfer)
    requires QueueInv(c, s.q) && x in s.q.active
    ensures s.q.queueActive == |Remove(s.q.active, x)| + 1
  {
    RemoveKeepsOthers(s.q.active, x);
  }

  /** The callback has yet to look at the transfer, so it is not in the pool. */
  ghost predicate Raced(s: State, x: Xfer) {
    x in s.l.waitTimo && s.l.invoking && s.l.puts[x] == 0
  }

  lemma RacedStep(c: Config, s: State, e: Event, x: Xfer)
    requires LifeInv(s.q, s.l) && QueueInv(c, s.q) && Enabled(c, s, e) && e != TimoCheck(x) && Raced(s, x)
    ensures Raced(Apply(c, s, e), x)
  {
    hide QueueInv;
    if e.WorkerStep? { WorkerMovesFreezeOnly(c, s, e.rv); }
  }

  lemma {:induction false} RacedRun(c: Config, s: State, es: seq<Event>, x: Xfer)
    requires LifeInv(s.q, s.l) && QueueInv(c, s.q) && ValidRun(c, s, es) && TimoCheck(x) !in es && Raced(s, x)
    ensures Raced(Run(c, s, es), x)
    decreases |es|
  {
    if es != [] {
      hide LifeInv, QueueInv, Raced, Enabled, Apply;
      assert es[0] in es;
      LifeStep(c, s, es[0]);
      QueueStep(c, s, es[0]);
      RacedStep(c, s, es[0], x);
      RacedRun(c, Apply(c, s, es[0]), es[1..], x);
    }
  }

  /**
   * A transfer deactivated while the callback is under way stays out of the pool, and the
   * callback goes on, in every continuation in which the callback has not checked it.
   */
  lemma DeferredUntilChecked(c: Config, es: seq<Event>, x: Xfer, more: seq<Event>)
    requires c.Valid() && ValidRun(c, Init(c), es)
    requires Enabled(c, Run(c, Init(c), es), Deactivate(x)) && Run(c, Init(c), es).l.invoking
    requires ValidRun(c, Apply(c, Run(c, Init(c), es), Deactivate(x)), more) && TimoCheck(x) !in more
    ensures var l := Run(c, Apply(c, Run(c, Init(c), es), Deactivate(x)), more).l;
      x in l.waitTimo && l.invoking && l.puts[x] == 0
  {
    hide LifeInv, QueueInv, Run, ValidRun, Enabled, Apply;
    var s := Run(c, Init(c), es);
    Reachable(c, es);
    ReachableLife(c, es);
    RacedByDeactivation(c, s, x);
    LifeStep(c, s, Deactivate(x));
    QueueStep(c, s, Deactivate(x));
    RacedRun(c, Apply(c, s, Deactivate(x)), more, x);
  }

  lemma RacedByDeactivation(c: Config, s: State, x: Xfer)
    requires LifeInv(s.q, s.l) && Enabled(c, s, Deactivate(x)) && s.l.invoking
    ensures Raced(Apply(c, s, Deactivate(x)), x)
  {
    assert !Left(s.q, x);
  }

  /** Stopping the callout with the last transfer leaves no timeout armed on an idle channel. */
  lemma {:induction false} IdleMeansUnarmed(c: Config, s: State, es: seq<Event>)
    requires QueueInv(c, s.q) && ValidRun(c, s, es) && (s.l.armed ==> s.q.queueActive > 0)
    ensures Run(c, s, es).l.armed ==> Run(c, s, es).q.active != []
    decreases |es|
  {
    hide Listed, Slotted, Ordered;
    if es == [] {
      ActiveCount(c, s.q);
    } else {
      QueueStep(c, s, es[0]);
      ActiveCount(c, s.q);
      ArmedStep(c, s, es[0]);
      IdleMeansUnarmed(c, Apply(c, s, es[0]), es[1..]);
    }
  }

  lemma ArmedStep(c: Config, s: State, e: Event)
    requires Enabled(c, s, e) && s.q.queueActive == |s.q.active| && (s.l.armed ==> s.q.queueActive > 0)
    ensures Apply(c, s, e).l.armed ==> Apply(c, s, e).q.queueActive > 0
  {
    if e.WorkerStep? { WorkerMovesFreezeOnly(c, s, e.rv); }
  }

  lemma PutsGrow(c: Config, s: State, e: Event, x: Xfer)
    requires Enabled(c, s, e)
    ensures Apply(c, s, e).l.puts[x] >= s.l.puts[x]
  {
  }

  /** Once in the pool, no later event puts the transfer there again or takes it out. */
  lemma {:induction false} PutIsFinal(c: Config, s: State, es: seq<Event>, x: Xfer)
    requires LifeInv(s.q, s.l) && QueueInv(c, s.q) && ValidRun(c, s, es) && s.l.puts[x] == 1
    ensures Run(c, s, es).l.puts[x] == 1
    decreases |es|
  {
    if es != [] {
      LifeStep(c, s, es[0]);
      QueueStep(c, s, es[0]);
      PutsGrow(c, s, es[0], x);
      PutOnce(Apply(c, s, es[0]).q, Apply(c, s, es[0]).l, x);
      PutIsFinal(c, Apply(c, s, es[0]), es[1..], x);
    }
  }

  /** A sleeping waiter whose transfer was killed while queued. */
  ghost predicate KilledWaiter(s: State, x: Xfer) {
    LifeInv(s.q, s.l) && x in s.l.waitAct && Left(s.q, x)
  }

  lemma LeftStays(c: Config, s: State, e: Event, x: Xfer)
    requires Listed(c, s.q) && Left(s.q, x) && Enabled(c, s, e)
    ensures Left(Apply(c, s, e).q, x)
  {
    match e
    case Deactivate(y) => RemoveKeepsOthers(s.q.active, y);
    case Start(slot, claim, rv) =>
      if Judge(c, s, claim) == Activates { assert s.q.pending[0] in s.q.pending; }
    case _ =>
  }

  lemma WaitActStays(c: Config, s: State, e: Event, x: Xfer)
    requires x in s.l.waitAct && x !in s.q.pending && Enabled(c, s, e)
    ensures x in Apply(c, s, e).l.waitAct
  {
    if e.ExecWake? && !MustWait(s.q, e.x) { assert e.x in s.q.pending; }
  }

  lemma KilledWaiterStep(c: Config, s: State, e: Event, x: Xfer)
    requires KilledWaiter(s, x) && QueueInv(c, s.q) && Enabled(c, s, e)
    ensures KilledWaiter(Apply(c, s, e), x)
  {
    LifeStep(c, s, e);
    LeftStays(c, s, e, x);
    WaitActStays(c, s, e, x);
  }

  /**
   * ata_kill_pending() on a transfer whose submitter polls and sleeps: the sleeper waits
   * for its transfer to head a queue it is no longer in, and the transfer never returns.
   */
  lemma {:induction false} KilledWaiterNeverReturns(c: Config, s: State, es: seq<Event>, x: Xfer)
    requires KilledWaiter(s, x) && QueueInv(c, s.q) && ValidRun(c, s, es)
    ensures x in Run(c, s, es).l.waitAct && Run(c, s, es).l.puts[x] == 0
    decreases |es|
  {
    if es == [] {
      assert s.l.puts[x] == 0;
    } else {
      KilledWaiterStep(c, s, es[0], x);
      QueueStep(c, s, es[0]);
      KilledWaiterNeverReturns(c, Apply(c, s, es[0]), es[1..], x);
    }
  }

  /** The first turn of ata_kill_pending() leaves a sleeping waiter killed. */
  lemma KillMakesKilledWaiter(c: Config, s: State, x: Xfer)
    requires QueueInv(c, s.q) && LifeInv(s.q, s.l) && s.panic == None
    requires s.q.pending != [] && x == s.q.pending[0] && x in s.l.waitAct
    ensures KilledWaiter(Apply(c, s, KillPending(x.drive)), x)
  {
    hide LifeInv;
    var t := Apply(c, s, KillPending(x.drive));
    HeadLeaves(c, s, x);
    LifeStep(c, s, KillPending(x.drive));
  }

  lemma HeadLeaves(c: Config, s: State, x: Xfer)
    requires QueueInv(c, s.q) && s.panic == None && s.q.pending != [] && x == s.q.pending[0]
    ensures Left(Apply(c, s, KillPending(x.drive)).q, x)
  {
    assert x in s.q.pending;
  }

  /** Without a sleeper the driver's free of the killed transfer returns it at once. */
  lemma KilledReturns(c: Config, s: State, x: Xfer)
    requires QueueInv(c, s.q) && LifeInv(s.q, s.l) && s.panic == None && !x.priv
    requires s.q.pending != [] && x == s.q.pending[0] && x !in s.l.waitAct
    ensures var t := Apply(c, s, KillPending(x.drive));
      ValidRun(c, t, [Free(x)]) && Run(c, t, [Free(x)]).l.puts[x] == 1
  {
    var t := Apply(c, s, KillPending(x.drive));
    HeadLeaves(c, s, x);
    PendingUntouched(c, s.q, s.l, x);
    assert t.l == s.l;
    RunOne(c, t, Free(x));
  }

  lemma PendingUntouched(c: Config, q: Queue, l: Life, x: Xfer)
    requires LifeInv(q, l) && x in q.pending
    ensures x !in l.freeCalled && x !in l.waitTimo && l.puts[x] == 0
  {
  }

  /**
   * The transfer at the head of the pending queue, killed: some way of going on returns it to
   * the pool if and only if its submitter is not asleep waiting for it to head the queue.
   */
  lemma KilledReturnsIff(c: Config, s: State, x: Xfer)
    requires QueueInv(c, s.q) && LifeInv(s.q, s.l) && s.panic == None && !x.priv
    requires s.q.pending != [] && x == s.q.pending[0]
    ensures var t := Apply(c, s, KillPending(x.drive));
      (exists es :: ValidRun(c, t, es) && Run(c, t, es).l.puts[x] == 1) <==> x !in s.l.waitAct
  {
    hide LifeInv, QueueInv;
    var t := Apply(c, s, KillPending(x.drive));
    if x in s.l.waitAct {
      KillMakesKilledWaiter(c, s, x);
      QueueStep(c, s, KillPending(x.drive));
      forall es | ValidRun(c, t, es) ensures Run(c, t, es).l.puts[x] != 1 {
        KilledWaiterNeverReturns(c, t, es, x);
      }
    } else {
      KilledReturns(c, s, x);
    }
  }

  const WAITER := Xfer(2, 0, false, false, true, true, false)
  const KILLED_WAITER_RUN := [Exec(DATA), Start(0, true, Started), Exec(WAITER), KillPending(0)]

  lemma WaiterSleeps(c: Config, s: State) returns (t: State)
    requires s.panic == None && s.q.pending == [] && s.q.queueActive == 1 && s.q.seen == {DATA} && c.NDrives() > 0
    ensures Enabled(c, s, Exec(WAITER)) && t == Apply(c, s, Exec(WAITER))
    ensures t.q.pending == [WAITER] && WAITER in t.l.waitAct && t.panic == None
  {
    t := ApplyExec(s, WAITER);
  }

  lemma KillEnabled(c: Config, s: State)
    requires s.panic == None
    ensures Enabled(c, s, KillPending(0))
  {
  }

  /** Such a waiter is reachable: it is submitted while another transfer is active, then killed. */
  lemma KilledWaiterReachable(c: Config)
    requires c.Valid() && c.NDrives() > 0
    ensures ValidRun(c, Init(c), KILLED_WAITER_RUN)
    ensures KilledWaiter(Run(c, Init(c), KILLED_WAITER_RUN), WAITER)
  {
    hide LifeInv, QueueInv, Left, KilledWaiter, Apply, Enabled, Run, ValidRun;
    var three := [Exec(DATA), Start(0, true, Started), Exec(WAITER)];
    var s1, s2 := DataStarts(c, Started);
    var s3 := WaiterSleeps(c, s2);
    RunThree(c, Init(c), Exec(DATA), Start(0, true, Started), Exec(WAITER));
    Reachable(c, three);
    ReachableLife(c, three);
    KillMakesKilledWaiter(c, s3, WAITER);
    KillEnabled(c, s3);
    RunSnoc(c, Init(c), three, KillPending(0));
    assert three + [KillPending(0)] == KILLED_WAITER_RUN;
  }
}
