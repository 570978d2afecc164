/** The worker thread under the discipline its comments state: what every run keeps. */
module AtaWorker {
  import opened Seqs
  import opened AtaChannel
  import opened AtaQueueInv
  import opened AtaQueueResults
  import opened AtaFreeze

  predicate InDriveLoop(w: Worker) { w.InDrives? || w.InDriveRun? }

  /**
   * Freezes come only from scheduled runs and postponed transfers, synchronous runs
   * happen only in the worker, and only transfers that are neither NCQ nor skip-queue are
   * postponed, never by the thread itself.
   */
  predicate WorkerOnly(c: Config, s: State, e: Event) {
    match e
    case Start(_, _, rv) => rv == Th && s.q.pending != [] ==> !s.q.pending[0].ncq && !s.q.pending[0].skip
    case PollDone(x, again, rv) => again && rv == Th ==> !x.ncq && !x.skip
    case SyncBegin(_) => false
    case SyncEnd(_) => false
    case FreezeCall => false
    case ThawCall => false
    case WorkerStep(rv) => TakesHandoff(s) ==> rv != Th
    case WorkerPoll(again, rv) => again ==> rv != Th
    case _ => true
  }

  /** A scheduled drive exists, keeps its flag until its turn, and is not added mid-loop. */
  predicate DrivesKept(c: Config, s: State, e: Event) {
    match e
    case Schedule(kind, d) => kind == DriveReset ==> d < c.NDrives() && !InDriveLoop(s.f.worker)
    case ClearDriveTh(d) => s.f.worker.InDriveRun? && s.f.worker.drive == d
    case _ => true
  }

  predicate Disciplined(c: Config, s: State, es: seq<Event>)
    requires ValidRun(c, s, es)
    decreases |es|
  {
    es == [] ||
    (WorkerOnly(c, s, es[0]) && DrivesKept(c, s, es[0]) && Disciplined(c, Apply(c, s, es[0]), es[1..]))
  }

  // ----- the drive loop forgets nothing

  ghost predicate DriveWaits(c: Config, f: Freeze, from: nat) {
    exists d :: from <= d < c.NDrives() && d in f.driveTh
  }

  /** While the channel flag is up, some drive the loop has yet to reach has its own flag. */
  ghost predicate DriveInv(c: Config, f: Freeze) {
    DriveReset in f.flags ==>
      match f.worker
      case InDrives(i) => DriveWaits(c, f, i)
      case InDriveRun(_, _) => false
      case _ => DriveWaits(c, f, 0)
  }

  lemma DriveStep(c: Config, s: State, e: Event)
    requires Enabled(c, s, e) && DrivesKept(c, s, e) && DriveInv(c, s.f)
    ensures DriveInv(c, Apply(c, s, e).f)
    ensures !Forgets(c, s, e)
  {
    var f, g := s.f, Apply(c, s, e).f;
    match e
    case Schedule(kind, d) =>
      if DriveWaits(c, f, 0) {
        var k :| 0 <= k < c.NDrives() && k in f.driveTh;
        assert k in g.driveTh;
      }
      if kind == DriveReset { assert d in g.driveTh; }
      if f.worker.InDrives? && DriveWaits(c, f, f.worker.next) {
        var k :| f.worker.next <= k < c.NDrives() && k in f.driveTh;
        assert k in g.driveTh;
      }
    case WorkerStep(rv) =>
      assert g.driveTh == f.driveTh;
      if f.worker.InDrives? && DriveReset in f.flags {
        var k :| f.worker.next <= k < c.NDrives() && k in f.driveTh;
        if f.worker.next !in f.driveTh { assert f.worker.next + 1 <= k; }
      }
    case _ =>
      if DriveWaits(c, f, 0) {
        var k :| 0 <= k < c.NDrives() && k in f.driveTh;
      }
  }

  // ----- the invariant of the handoff

  ghost predicate HandoffInv(c: Config, s: State) {
    && s.f.explicit == 0 && s.f.runs == [] && s.f.leaked == 0 && s.f.stolen == 0
    && s.panic in {None, XferNotPossible} && |s.f.handoff| <= 1
    && (forall x :: x in s.f.handoff || x in s.f.polling ==> x in s.q.seen && x !in s.q.pending)
    && (forall x :: x in s.f.handoff ==> x !in s.f.polling && !x.ncq && !x.skip)
    && (forall x, y :: x in s.f.handoff && y in s.q.active ==> y.skip || y == x)
    && (s.f.handoff != [] ==> !s.q.ncqMode)
    && (forall x :: x in s.q.active && !x.skip && !x.ncq ==> !s.q.ncqMode)
    && SkipFirst(s.q.pending)
  }

  ghost predicate WorkerInv(c: Config, s: State) {
    QueueInv(c, s.q) && FreezeInv(s.f) && DriveInv(c, s.f) && HandoffInv(c, s)
  }

  lemma OnlyMember(s: seq<Xfer>, x: Xfer)
    requires Distinct(s) && x in s && forall y :: y in s ==> y == x
    ensures s == [x]
  {
    var last := |s| - 1;
    assert s[0] in s && s[last] in s;
    assert s[0] == s[last] && last == 0;
  }

  lemma TailKeeps(s: State, x: Xfer)
    requires s.q.pending != [] && SkipFirst(s.q.pending)
    ensures SkipFirst(s.q.pending[1..]) && forall y :: y in s.q.pending[1..] ==> y in s.q.pending
  {
  }

  /** A skip-queue transfer becomes active: nothing about a postponed one changes. */
  lemma StartedSkip(c: Config, s: State, slot: nat, x: Xfer, rv: StartRv)
    requires HandoffInv(c, s) && s.q.pending != [] && x == s.q.pending[0] && x.skip && !x.ncq
    requires x in s.q.seen && x !in s.q.pending[1..] && rv != Th
    ensures HandoffInv(c, s.(q := Activated(s.q, slot), f := AfterStart(s.f, x, rv)))
  {
    var q := Activated(s.q, slot);
    TailKeeps(s, x);
    assert forall y :: y in q.active <==> y in s.q.active || y == x;
  }

  lemma StartedHandoff(c: Config, s: State, slot: nat, x: Xfer, rv: StartRv)
    requires HandoffInv(c, s) && s.f.handoff == [] && s.q.pending != [] && x == s.q.pending[0] && !x.skip
    requires x in s.q.seen && x !in s.q.pending[1..] && (rv == Th ==> !x.ncq)
    requires forall y :: y in s.q.active ==> y.ncq && x.ncq
    ensures HandoffInv(c, s.(q := Activated(s.q, slot), f := AfterStart(s.f, x, rv)))
  {
    var q := Activated(s.q, slot);
    TailKeeps(s, x);
    assert s.q.active != [] ==> s.q.active[0] in s.q.active;
    assert x in s.q.pending && x !in s.f.polling;
    assert forall y :: y in q.active <==> y in s.q.active || y == x;
  }

  /** A channel that starts a transfer that does not skip the queue has nothing postponed. */
  lemma NothingPostponed(s: State)
    requires FreezeInv(s.f) && s.f.leaked == 0 && s.f.stolen == 0 && s.f.count <= 0
    ensures s.f.handoff == []
  {
  }

  lemma HeadIsNew(c: Config, s: State)
    requires QueueInv(c, s.q) && s.q.pending != []
    ensures var x := s.q.pending[0]; x in s.q.seen && x !in s.q.pending[1..] && !(x.skip && x.ncq)
  {
    hide Slotted, Ordered;
    assert s.q.pending[0] in s.q.pending;
  }

  lemma HeadFacts(c: Config, s: State)
    requires QueueInv(c, s.q) && s.q.pending != []
    requires s.q.active != [] ==> CanJoin(s.q.pending[0], s.q.active[0])
    ensures forall y :: y in s.q.active ==> y.ncq && s.q.pending[0].ncq
  {
    hide Slotted;
    forall y | y in s.q.active ensures y.ncq && s.q.pending[0].ncq { HeadDecides(c, s.q, y); }
  }

  lemma HandoffCounters(c: Config, s: State)
    requires HandoffInv(c, s)
    ensures s.f.leaked == 0 && s.f.stolen == 0
  {
  }

  lemma StartHandoff(c: Config, s: State, slot: nat, claim: bool, rv: StartRv)
    requires WorkerInv(c, s) && WorkerOnly(c, s, Start(slot, claim, rv))
    requires Judge(c, s, claim) == Activates
    ensures HandoffInv(c, ApplyStart(c, s, slot, claim, rv))
  {
    hide QueueInv, HandoffInv, DriveInv, FreezeInv, Activated, AfterStart, Candidates, Limit;
    var x := s.q.pending[0];
    HeadIsNew(c, s);
    if x.skip {
      StartedSkip(c, s, slot, x, rv);
    } else {
      HeadFacts(c, s);
      HandoffCounters(c, s);
      NothingPostponed(s);
      StartedHandoff(c, s, slot, x, rv);
    }
  }

  lemma HeadIn(s: seq<Xfer>)
    ensures s != [] ==> s[0] in s
  {
  }

  lemma PollHandoff(c: Config, s: State, x: Xfer, again: bool, rv: StartRv)
    requires WorkerInv(c, s) && Enabled(c, s, PollDone(x, again, rv)) && WorkerOnly(c, s, PollDone(x, again, rv))
    ensures HandoffInv(c, ApplyPollDone(s, x, again, rv))
  {
    hide Listed, Slotted, FreezeInv, DriveInv;
    if again && rv == Th {
      assert x in s.q.active && !x.skip;
      forall y | y in s.q.active && !y.skip ensures y == x {
        assert y != x ==> CanJoin(x, y);
      }
      HeadIn(s.f.handoff);
    }
  }

  /**
   * With nothing scheduled and nobody else owing, a count of one is one postponed transfer.
   * It is the head of the active list, which the worker starts, unless a skip-queue
   * transfer is.
   */
  lemma HandoffBranch(c: Config, s: State)
    requires HandoffInv(c, s) && FreezeInv(s.f) && s.q.queueActive == |s.q.active| && TakesHandoff(s)
    ensures |s.f.handoff| == 1 && !s.q.ncqMode && s.q.active != []
    ensures s.q.active[0] == s.f.handoff[0] <==> !s.q.active[0].skip
  {
    assert |s.f.flags| == 0;
    assert s.q.active[0] in s.q.active && s.f.handoff[0] in s.f.handoff;
  }

  lemma TopHandoff(c: Config, s: State, rv: StartRv)
    requires HandoffInv(c, s) && FreezeInv(s.f) && s.q.queueActive == |s.q.active|
    requires s.f.worker == Top && WorkerOnly(c, s, WorkerStep(rv))
    requires forall x :: x in s.q.active ==> x in s.q.seen && x !in s.q.pending
    ensures HandoffInv(c, WorkerTop(s, rv))
  {
    FlagsCases(s.f.flags);
    if TakesHandoff(s) {
      HandoffBranch(c, s);
      assert s.q.active[0] in s.q.active;
    } else if s.f.flags == {} {
      assert |s.f.flags| == 0;
    }
  }

  /** Events that start, stop or postpone nothing. */
  lemma OtherHandoff(c: Config, s: State, t: State)
    requires HandoffInv(c, s)
    requires t.q == s.q.(pending := t.q.pending, drain := t.q.drain)
    requires forall x :: x in t.q.pending ==> x in s.q.pending
    requires t.f == s.f.(count := t.f.count, flags := t.f.flags, driveTh := t.f.driveTh, worker := t.f.worker)
    requires t.panic == s.panic && SkipFirst(t.q.pending)
    ensures HandoffInv(c, t)
  {
  }

  lemma PendingPrefix(c: Config, s: State)
    requires HandoffInv(c, s)
    ensures SkipFirst(s.q.pending)
    ensures s.q.pending != [] ==> SkipFirst(s.q.pending[1..])
  {
  }

  lemma ActiveSubmitted(c: Config, s: State)
    requires QueueInv(c, s.q)
    ensures s.q.queueActive == |s.q.active| && Distinct(s.q.active)
    ensures forall x :: x in s.q.active ==> x in s.q.seen && x !in s.q.pending
  {
  }

  lemma WorkerHandoff(c: Config, s: State, rv: StartRv)
    requires WorkerInv(c, s) && WorkerOnly(c, s, WorkerStep(rv)) && s.panic == None
    requires !Forgets(c, s, WorkerStep(rv))
    ensures HandoffInv(c, ApplyWorker(c, s, rv))
  {
    hide QueueInv, HandoffInv, WorkerTop;
    PendingPrefix(c, s);
    ActiveSubmitted(c, s);
    match s.f.worker
    case Top => TopHandoff(c, s, rv);
    case InRun(_) => OtherHandoff(c, s, ApplyWorker(c, s, rv));
    case InDrives(_) => OtherHandoff(c, s, ApplyWorker(c, s, rv));
    case InDriveRun(_, _) => OtherHandoff(c, s, ApplyWorker(c, s, rv));
    case InPoll(_) =>
  }

  lemma DeactivateHandoff(c: Config, s: State, x: Xfer)
    requires HandoffInv(c, s) && Distinct(s.q.active) && x in s.q.active
    ensures HandoffInv(c, ApplyDeactivate(s, x))
  {
    RemoveKeepsOthers(s.q.active, x);
  }

  lemma ExecHandoff(c: Config, s: State, x: Xfer)
    requires HandoffInv(c, s) && x !in s.q.seen
    ensures HandoffInv(c, ApplyExec(s, x))
  {
    var t := ApplyExec(s, x);
    assert forall y :: y in t.q.pending ==> y in s.q.pending || y == x;
  }

  lemma HandoffStep(c: Config, s: State, e: Event)
    requires WorkerInv(c, s) && Enabled(c, s, e) && WorkerOnly(c, s, e) && !Forgets(c, s, e)
    ensures HandoffInv(c, Apply(c, s, e))
  {
    hide QueueInv, HandoffInv, FreezeInv, DriveInv, ApplyWorker, ApplyStart, ApplyDeactivate, ApplyExec, SkipFirst;
    PendingPrefix(c, s);
    ActiveSubmitted(c, s);
    match e
    case Exec(x) => ExecHandoff(c, s, x);
    case Start(slot, claim, rv) => StartCases(c, s, slot, claim, rv);
    case PollDone(x, again, rv) => PollHandoff(c, s, x, again, rv);
    case Deactivate(x) => DeactivateHandoff(c, s, x);
    case WorkerStep(rv) => WorkerHandoff(c, s, rv);
    case WorkerPoll(_, _) => OtherHandoff(c, s, Apply(c, s, e));
    case KillPending(d) =>
      assert forall y :: y in KillTurn(s.q.pending, d) ==> y in s.q.pending;
      OtherHandoff(c, s, Apply(c, s, e));
    case SyncBegin(_) => assert false;
    case SyncEnd(_) => assert false;
    case FreezeCall => assert false;
    case ThawCall => assert false;
    case _ => OtherHandoff(c, s, Apply(c, s, e));
  }

  lemma StartCases(c: Config, s: State, slot: nat, claim: bool, rv: StartRv)
    requires WorkerInv(c, s) && WorkerOnly(c, s, Start(slot, claim, rv)) && s.panic == None
    ensures HandoffInv(c, ApplyStart(c, s, slot, claim, rv))
  {
    hide QueueInv, DriveInv, FreezeInv, Candidates, HandoffInv, Activated;
    if Judge(c, s, claim) == Activates {
      StartHandoff(c, s, slot, claim, rv);
    } else {
      StartPanics(c, s);
    }
  }

  /** The one panic that is not the worker's. */
  lemma StartPanics(c: Config, s: State)
    requires HandoffInv(c, s)
    ensures HandoffInv(c, s.(panic := XferNotPossible))
  {
  }

  lemma WorkerInvStep(c: Config, s: State, e: Event)
    requires WorkerInv(c, s) && Enabled(c, s, e) && WorkerOnly(c, s, e) && DrivesKept(c, s, e)
    ensures WorkerInv(c, Apply(c, s, e))
  {
    QueueStep(c, s, e);
    FreezeStep(c, s, e);
    DriveStep(c, s, e);
    HandoffStep(c, s, e);
  }

  lemma {:induction false} WorkerInvRun(c: Config, s: State, es: seq<Event>)
    requires ValidRun(c, s, es) && WorkerInv(c, s) && Disciplined(c, s, es)
    ensures WorkerInv(c, Run(c, s, es))
    decreases |es|
  {
    if es != [] {
      WorkerInvStep(c, s, es[0]);
      WorkerInvRun(c, Apply(c, s, es[0]), es[1..]);
    }
  }

  lemma InitWorker(c: Config)
    requires c.Valid()
    ensures WorkerInv(c, Init(c))
  {
    InitQueue(c);
  }

  /**
   * Neither panic of the worker is reached and the count is exactly what is owed. When the
   * handoff branch is about to be taken the channel is not in NCQ mode and one transfer is
   * postponed; the worker starts that one if and only if no skip-queue transfer is active.
   */
  ghost predicate WorkerSafe(c: Config, s: State) {
    && s.panic != QueueFreeze && s.panic != UnexpectedRv && s.f.count == Owed(s.f)
    && (TakesHandoff(s) ==>
         && !s.q.ncqMode && |s.f.handoff| == 1 && s.q.active != []
         && (s.q.active[0] == s.f.handoff[0] <==> forall x :: x in s.q.active ==> !x.skip))
  }

  lemma InvIsSafe(c: Config, s: State)
    requires WorkerInv(c, s)
    ensures WorkerSafe(c, s)
  {
    if TakesHandoff(s) {
      HandoffBranch(c, s);
      assert s.q.active[0] in s.q.active;
      if !s.q.active[0].skip { SkipsFirst(c, s.q); }
    }
  }

  lemma SkipsFirst(c: Config, q: Queue)
    requires Ordered(c, q) && q.active != [] && !q.active[0].skip
    ensures forall x :: x in q.active ==> !x.skip
  {
    var head := q.active[0];
    forall x | x in q.active ensures !x.skip {
      var j :| 0 <= j < |q.active| && q.active[j] == x;
      assert j > 0 && x.skip ==> head.skip;
    }
  }

  /** Worker safety: every state a disciplined run reaches is safe, skip-queue transfers included. */
  lemma WorkerSafety(c: Config, es: seq<Event>)
    requires c.Valid() && ValidRun(c, Init(c), es) && Disciplined(c, Init(c), es)
    ensures WorkerSafe(c, Run(c, Init(c), es))
  {
    hide WorkerInv, WorkerSafe;
    InitWorker(c);
    WorkerInvRun(c, Init(c), es);
    InvIsSafe(c, Run(c, Init(c), es));
  }

  // ----- runs without skip-queue transfers

  predicate NoSkips(es: seq<Event>) {
    forall i :: 0 <= i < |es| && es[i].Exec? ==> !es[i].x.skip
  }

  ghost predicate AllPlain(s: State) {
    s.panic == None && forall x :: x in s.q.seen ==> !x.skip
  }

  lemma PlainStep(c: Config, s: State, e: Event)
    requires WorkerInv(c, s) && AllPlain(s) && Enabled(c, s, e) && WorkerOnly(c, s, e) && DrivesKept(c, s, e)
    requires e.Exec? ==> !e.x.skip
    ensures AllPlain(Apply(c, s, e))
  {
    hide WorkerInv;
    WorkerInvStep(c, s, e);
    InvPanics(c, Apply(c, s, e));
    if e.Start? && s.q.pending != [] { HeadIsPlain(c, s); }
    if e.WorkerStep? { WorkerMovesFreezeOnly(c, s, e.rv); }
    PanicsOnSkip(c, s, e);
  }

  lemma InvPanics(c: Config, s: State)
    requires WorkerInv(c, s)
    ensures s.panic == None || s.panic == XferNotPossible
  {
  }

  lemma HeadIsPlain(c: Config, s: State)
    requires WorkerInv(c, s) && AllPlain(s) && s.q.pending != []
    ensures !s.q.pending[0].skip
  {
    assert s.q.pending[0] in s.q.pending;
  }

  /** "xfer not possible" is about skip-queue transfers only. */
  lemma PanicsOnSkip(c: Config, s: State, e: Event)
    requires Enabled(c, s, e)
    ensures Apply(c, s, e).panic == XferNotPossible ==> e.Start? && s.q.pending != [] && s.q.pending[0].skip
  {
  }

  lemma {:induction false} PlainRun(c: Config, s: State, es: seq<Event>)
    requires WorkerInv(c, s) && AllPlain(s) && ValidRun(c, s, es) && Disciplined(c, s, es) && NoSkips(es)
    ensures AllPlain(Run(c, s, es))
    decreases |es|
  {
    if es != [] {
      hide WorkerInv, AllPlain;
      WorkerInvStep(c, s, es[0]);
      PlainStep(c, s, es[0]);
      PlainRun(c, Apply(c, s, es[0]), es[1..]);
    }
  }

  /** No panic at all, and the worker finds exactly the postponed transfer active. */
  lemma PlainSafety(c: Config, es: seq<Event>)
    requires c.Valid() && ValidRun(c, Init(c), es) && Disciplined(c, Init(c), es) && NoSkips(es)
    ensures var s := Run(c, Init(c), es);
      s.panic == None && (TakesHandoff(s) ==> !s.q.ncqMode && s.q.queueActive == 1 && s.q.active == s.f.handoff)
  {
    hide WorkerInv;
    InitWorker(c);
    WorkerInvRun(c, Init(c), es);
    PlainRun(c, Init(c), es);
    if TakesHandoff(Run(c, Init(c), es)) { PlainHandoff(c, Run(c, Init(c), es)); }
  }

  lemma PlainHandoff(c: Config, s: State)
    requires WorkerInv(c, s) && AllPlain(s) && TakesHandoff(s)
    ensures !s.q.ncqMode && s.q.queueActive == 1 && s.q.active == s.f.handoff
  {
    HandoffBranch(c, s);
    var x := s.f.handoff[0];
    assert s.q.active[0] in s.q.active;
    assert forall y :: y in s.q.active ==> y == x;
    OnlyMember(s.q.active, x);
  }

  // ----- polled transfers

  /** No polled transfer is answered with a postponement. */
  predicate UnpolledTh(s: State, e: Event) {
    match e
    case Start(_, _, rv) => rv == Th && s.q.pending != [] ==> !s.q.pending[0].poll
    case PollDone(x, again, rv) => again && rv == Th ==> !x.poll
    case WorkerStep(rv) => rv == Th && s.q.active != [] ==> !s.q.active[0].poll
    case WorkerPoll(again, rv) => again && rv == Th && s.f.worker.InPoll? ==> !s.f.worker.x.poll
    case _ => true
  }

  predicate NeverPolledTh(c: Config, s: State, es: seq<Event>)
    requires ValidRun(c, s, es)
    decreases |es|
  {
    es == [] || (UnpolledTh(s, es[0]) && NeverPolledTh(c, Apply(c, s, es[0]), es[1..]))
  }

  /** Then no interleaving has one waiting for the worker, as the worker asserts of it. */
  lemma {:induction false} PostponedUnpolled(c: Config, s: State, es: seq<Event>)
    requires ValidRun(c, s, es) && NeverPolledTh(c, s, es) && forall x :: x in s.f.handoff ==> !x.poll
    ensures forall x :: x in Run(c, s, es).f.handoff ==> !x.poll
    decreases |es|
  {
    if es != [] {
      UnpolledStep(c, s, es[0]);
      PostponedUnpolled(c, Apply(c, s, es[0]), es[1..]);
    }
  }

  lemma UnpolledStep(c: Config, s: State, e: Event)
    requires Enabled(c, s, e) && UnpolledTh(s, e) && forall x :: x in s.f.handoff ==> !x.poll
    ensures forall x :: x in Apply(c, s, e).f.handoff ==> !x.poll
  {
  }
}
