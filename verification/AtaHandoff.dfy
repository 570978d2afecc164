/** What becomes of a transfer postponed to the worker: which one is restarted, and when. */
module AtaHandoff {
  import opened Seqs
  import opened AtaChannel
  import opened AtaQueueInv
  import opened AtaQueueResults
  import opened AtaFreeze
  import opened AtaWorker

  // ----- which transfers the hooks are asked to start

  /** The transfer for which c_start is called, if it is. */
  function StartsOf(c: Config, s: State, e: Event): seq<Xfer> {
    match e
    case Start(_, claim, _) => if Judge(c, s, claim) == Activates then [s.q.pending[0]] else []
    case PollDone(x, again, _) => if again then [x] else []
    case WorkerStep(_) => if TakesHandoff(s) && s.q.active != [] then [s.q.active[0]] else []
    case WorkerPoll(again, _) => if again && s.f.worker.InPoll? then [s.f.worker.x] else []
    case _ => []
  }

  function Starts(c: Config, s: State, es: seq<Event>): seq<Xfer>
    requires ValidRun(c, s, es)
    decreases |es|
  {
    if es == [] then [] else StartsOf(c, s, es[0]) + Starts(c, Apply(c, s, es[0]), es[1..])
  }

  lemma ActiveStep(c: Config, s: State, e: Event, x: Xfer)
    requires Enabled(c, s, e) && x in Apply(c, s, e).q.active && Distinct(s.q.active)
    ensures x in s.q.active || x in StartsOf(c, s, e)
  {
    match e
    case Deactivate(y) => RemoveKeepsOthers(s.q.active, y);
    case _ =>
  }

  /** Whatever is active has been started. */
  lemma {:induction false} ActiveWereStarted(c: Config, s: State, es: seq<Event>, x: Xfer)
    requires QueueInv(c, s.q) && ValidRun(c, s, es) && x in Run(c, s, es).q.active
    ensures x in s.q.active || x in Starts(c, s, es)
    decreases |es|
  {
    if es != [] {
      hide QueueInv, Enabled, Apply, StartsOf;
      QueueStep(c, s, es[0]);
      ActiveWereStarted(c, Apply(c, s, es[0]), es[1..], x);
      ActiveSubmitted(c, s);
      if x in Apply(c, s, es[0]).q.active { ActiveStep(c, s, es[0], x); }
    }
  }

  lemma {:induction false} StartsSnoc(c: Config, s: State, es: seq<Event>, e: Event)
    requires ValidRun(c, s, es) && Enabled(c, Run(c, s, es), e)
    ensures ValidRun(c, s, es + [e])
    ensures Starts(c, s, es + [e]) == Starts(c, s, es) + StartsOf(c, Run(c, s, es), e)
    decreases |es|
  {
    hide Enabled, Apply, StartsOf;
    RunSnoc(c, s, es, e);
    if es == [] {
      assert [e][1..] == [] && [] + [e] == [e];
      assert Starts(c, Apply(c, s, e), []) == [];
    } else {
      assert (es + [e])[0] == es[0] && (es + [e])[1..] == es[1..] + [e];
      StartsSnoc(c, Apply(c, s, es[0]), es[1..], e);
    }
  }

  /**
   * The worker restarts the transfer that was postponed if and only if no skip-queue transfer
   * is active. If one is, that one, which was started before, is started again, and nothing
   * is postponed any more.
   */
  lemma HandoffRestartsIff(c: Config, es: seq<Event>, rv: StartRv)
    requires c.Valid() && ValidRun(c, Init(c), es) && Disciplined(c, Init(c), es) && rv != Th
    requires TakesHandoff(Run(c, Init(c), es)) && Run(c, Init(c), es).panic == None
    ensures var s, step := Run(c, Init(c), es), WorkerStep(rv);
      && ValidRun(c, Init(c), es + [step])
      && Starts(c, Init(c), es + [step]) == Starts(c, Init(c), es) + StartsOf(c, s, step)
      && (StartsOf(c, s, step) == s.f.handoff <==> forall x :: x in s.q.active ==> !x.skip)
      && (StartsOf(c, s, step) != s.f.handoff ==>
           && StartsOf(c, s, step) == [s.q.active[0]] && s.q.active[0].skip
           && s.q.active[0] in Starts(c, Init(c), es))
      && Run(c, Init(c), es + [step]).f.handoff == [] && Run(c, Init(c), es + [step]).f.count == 0
  {
    hide WorkerInv, QueueInv, Run, ValidRun, Starts, StartsOf, Disciplined, Apply, Enabled, TakesHandoff, Init;
    var s, step := Run(c, Init(c), es), WorkerStep(rv);
    InitWorker(c);
    InitEmpty(c);
    WorkerInvRun(c, Init(c), es);
    HandoffTaken(c, s, rv);
    StartsSnoc(c, Init(c), es, step);
    RunSnoc(c, Init(c), es, step);
    if s.q.active[0].skip { ActiveWereStarted(c, Init(c), es, s.q.active[0]); }
  }

  lemma InitEmpty(c: Config)
    requires c.Valid()
    ensures QueueInv(c, Init(c).q) && Init(c).q.active == []
  {
    InitQueue(c);
  }

  lemma HandoffTaken(c: Config, s: State, rv: StartRv)
    requires WorkerInv(c, s) && TakesHandoff(s) && s.panic == None && rv != Th
    ensures s.q.active != [] && StartsOf(c, s, WorkerStep(rv)) == [s.q.active[0]] && Enabled(c, s, WorkerStep(rv))
    ensures s.q.active[0] in s.q.active
    ensures [s.q.active[0]] == s.f.handoff <==> !s.q.active[0].skip
    ensures !s.q.active[0].skip <==> forall x :: x in s.q.active ==> !x.skip
    ensures var t := Apply(c, s, WorkerStep(rv)); t.f.handoff == [] && t.f.count == 0
  {
    HandoffBranch(c, s);
    if !s.q.active[0].skip { SkipsFirst(c, s.q); }
  }

  // ----- a handoff whose transfer is gone

  /** The postponed transfer was deactivated before the thread got to it, and nothing can stand in. */
  predicate Orphaned(s: State) {
    s.f.handoff != [] && s.q.active == [] && forall i :: 0 <= i < |s.q.pending| ==> !s.q.pending[i].skip
  }

  lemma OrphanedStep(c: Config, s: State, e: Event)
    requires WorkerInv(c, s) && Orphaned(s)
    requires Enabled(c, s, e) && WorkerOnly(c, s, e) && DrivesKept(c, s, e) && (e.Exec? ==> !e.x.skip)
    ensures Orphaned(Apply(c, s, e))
  {
    hide Listed, Slotted, Ordered, DriveInv, Candidates, Limit, Activated, SkipFirst;
    ActiveCount(c, s.q);
  }

  /** From then on no disciplined run without new skip-queue transfers activates anything: no thaw comes. */
  lemma {:induction false} OrphanWedgesChannel(c: Config, s: State, es: seq<Event>)
    requires WorkerInv(c, s) && Orphaned(s) && ValidRun(c, s, es) && Disciplined(c, s, es) && NoSkips(es)
    ensures Orphaned(Run(c, s, es)) && Run(c, s, es).f.count > 0
    decreases |es|
  {
    if es == [] {
      OrphanOwes(c, s);
    } else {
      hide WorkerInv, Orphaned;
      WorkerInvStep(c, s, es[0]);
      OrphanedStep(c, s, es[0]);
      OrphanWedgesChannel(c, Apply(c, s, es[0]), es[1..]);
    }
  }

  lemma OrphanOwes(c: Config, s: State)
    requires WorkerInv(c, s) && Orphaned(s)
    ensures s.f.count > 0
  {
  }

  // ----- in every other state the thaw comes

  /** How far the worker is from the top of its loop with nothing scheduled. */
  function Phase(c: Config, f: Freeze): nat {
    match f.worker
    case Top => if DriveReset in f.flags then 2 * c.NDrives() + 3 else 0
    case InDrives(i) => if i < c.NDrives() then 2 * (c.NDrives() - i) + 1 else 1
    case InDriveRun(i, _) => if i + 1 < c.NDrives() then 2 * (c.NDrives() - i) else 2
    case _ => 2 * c.NDrives() + 5
  }

  /** Some flag is gone, or none and the worker is nearer to rest. */
  predicate Nearer(c: Config, g: Freeze, f: Freeze) {
    |g.flags| < |f.flags| || (|g.flags| == |f.flags| && Phase(c, g) < Phase(c, f))
  }

  /** The worker's next section when every hook answers at once. */
  function NextSection(f: Freeze): Event {
    if f.worker.InPoll? then WorkerPoll(false, Started) else WorkerStep(Started)
  }

  predicate AtRest(f: Freeze) { f.worker == Top && f.flags == {} }

  lemma TopAdvances(c: Config, s: State)
    requires s.f.worker == Top && s.f.flags != {}
    ensures var t := WorkerTop(s, Started);
      t.q == s.q && t.l == s.l && t.panic == s.panic && t.f.handoff == s.f.handoff && Nearer(c, t.f, s.f)
  {
    FlagsCases(s.f.flags);
    DropFlag(s.f.flags, Reset);
    DropFlag(s.f.flags, Recovery);
  }

  lemma SectionAdvances(c: Config, s: State)
    requires WorkerInv(c, s) && s.panic == None && !AtRest(s.f)
    ensures Enabled(c, s, NextSection(s.f))
    ensures var e, t := NextSection(s.f), Apply(c, s, NextSection(s.f));
      && WorkerOnly(c, s, e) && DrivesKept(c, s, e) && !e.Exec? && t.q == s.q && t.panic == None
      && t.f.handoff == s.f.handoff && Nearer(c, t.f, s.f)
  {
    hide QueueInv, FreezeInv, WorkerTop;
    match s.f.worker
    case Top =>
      hide Nearer;
      TopAdvances(c, s);
    case InDrives(i) =>
      DropFlag(s.f.flags, DriveReset);
      DriveStep(c, s, NextSection(s.f));
    case _ =>
  }

  /** A continuation of the kind in question that gets the count back to zero. */
  ghost predicate Pays(c: Config, s: State, es: seq<Event>) {
    ValidRun(c, s, es) && Disciplined(c, s, es) && NoSkips(es) && Run(c, s, es).f.count == 0
  }

  lemma OneMore(c: Config, s: State, e: Event, rest: seq<Event>)
    requires Enabled(c, s, e) && WorkerOnly(c, s, e) && DrivesKept(c, s, e) && !e.Exec?
    requires Pays(c, Apply(c, s, e), rest)
    ensures Pays(c, s, [e] + rest)
  {
    hide Enabled, Apply, WorkerOnly, DrivesKept;
    var es := [e] + rest;
    assert es[0] == e && es[1..] == rest;
  }

  /** At rest the count is the postponed transfer, if there is one, and the worker takes it. */
  lemma RestThaws(c: Config, s: State) returns (es: seq<Event>)
    requires WorkerInv(c, s) && s.panic == None && AtRest(s.f) && (s.f.handoff == [] || s.q.active != [])
    ensures Pays(c, s, es)
  {
    assert |s.f.flags| == 0;
    es := [];
    if s.f.handoff != [] {
      HandoffTaken(c, s, Started);
      OneMore(c, s, WorkerStep(Started), []);
      es := [WorkerStep(Started)] + [];
    }
  }

  lemma {:induction false} WorkerThaws(c: Config, s: State) returns (es: seq<Event>)
    requires WorkerInv(c, s) && s.panic == None && (s.f.handoff == [] || s.q.active != [])
    ensures Pays(c, s, es)
    decreases |s.f.flags|, Phase(c, s.f)
  {
    if AtRest(s.f) {
      es := RestThaws(c, s);
    } else {
      hide WorkerInv, WorkerOnly, DrivesKept, Enabled, Apply, Phase, NextSection, Pays;
      SectionAdvances(c, s);
      var e := NextSection(s.f);
      WorkerInvStep(c, s, e);
      var rest := WorkerThaws(c, Apply(c, s, e));
      OneMore(c, s, e, rest);
      es := [e] + rest;
    }
  }

  /** A skip-queue transfer heads the pending queue, and it can start. */
  lemma HeadCanStart(c: Config, s: State) returns (slot: nat)
    requires WorkerInv(c, s) && s.panic == None && s.q.active == []
    requires s.q.pending != [] && s.q.pending[0].skip && s.q.pending[0] !in s.l.waitAct
    ensures var e := Start(slot, true, Started);
      Enabled(c, s, e) && WorkerOnly(c, s, e) && DrivesKept(c, s, e)
      && Apply(c, s, e).q.active != [] && Apply(c, s, e).panic == None
  {
    var x := s.q.pending[0];
    HeadIsNew(c, s);
    OtherHeadHasSlot(c, s.q, x);
    slot :| slot in Candidates(c, s.q, x);
    assert Judge(c, s, true) == Activates;
  }

  lemma HeadWakes(c: Config, s: State)
    requires WorkerInv(c, s) && s.panic == None && s.q.active == []
    requires s.q.pending != [] && s.q.pending[0] in s.l.waitAct
    ensures var e := ExecWake(s.q.pending[0]);
      Enabled(c, s, e) && WorkerOnly(c, s, e) && DrivesKept(c, s, e)
      && Apply(c, s, e) == s.(l := s.l.(waitAct := s.l.waitAct - {s.q.pending[0]}))
  {
    hide DriveInv, FreezeInv, HandoffInv, Listed, Ordered;
    ActiveCount(c, s.q);
  }

  lemma SkipStarts(c: Config, s: State) returns (es: seq<Event>)
    requires WorkerInv(c, s) && s.panic == None && s.q.active == []
    requires s.q.pending != [] && s.q.pending[0].skip && s.q.pending[0] !in s.l.waitAct
    ensures Pays(c, s, es)
  {
    hide WorkerInv, Pays, Enabled, Apply, WorkerOnly, DrivesKept;
    var slot := HeadCanStart(c, s);
    var e := Start(slot, true, Started);
    WorkerInvStep(c, s, e);
    var rest := WorkerThaws(c, Apply(c, s, e));
    OneMore(c, s, e, rest);
    es := [e] + rest;
  }

  lemma SkipRescues(c: Config, s: State) returns (es: seq<Event>)
    requires WorkerInv(c, s) && s.panic == None && s.q.active == [] && s.q.pending != [] && s.q.pending[0].skip
    ensures Pays(c, s, es)
  {
    hide WorkerInv, Pays, Enabled, Apply, WorkerOnly, DrivesKept;
    if s.q.pending[0] in s.l.waitAct {
      HeadWakes(c, s);
      var e := ExecWake(s.q.pending[0]);
      WorkerInvStep(c, s, e);
      var rest := SkipStarts(c, Apply(c, s, e));
      OneMore(c, s, e, rest);
      es := [e] + rest;
    } else {
      es := SkipStarts(c, s);
    }
  }

  lemma PendingSkipHeads(c: Config, s: State)
    requires HandoffInv(c, s) && s.f.handoff != [] && s.q.active == [] && !Orphaned(s)
    ensures s.q.pending != [] && s.q.pending[0].skip
  {
    var i :| 0 <= i < |s.q.pending| && s.q.pending[i].skip;
    assert i > 0 ==> s.q.pending[0].skip;
  }

  lemma NotOrphanedPays(c: Config, s: State) returns (es: seq<Event>)
    requires WorkerInv(c, s) && s.panic == None && !Orphaned(s)
    ensures Pays(c, s, es)
  {
    if s.f.handoff == [] || s.q.active != [] {
      es := WorkerThaws(c, s);
    } else {
      PendingSkipHeads(c, s);
      es := SkipRescues(c, s);
    }
  }

  /** The count can get back to zero without new skip-queue transfers exactly if no handoff is orphaned. */
  lemma ThawedIffNotOrphaned(c: Config, s: State)
    requires WorkerInv(c, s) && s.panic == None
    ensures (exists es :: Pays(c, s, es)) <==> !Orphaned(s)
  {
    hide WorkerInv, Orphaned;
    if !Orphaned(s) {
      var es := NotOrphanedPays(c, s);
    } else {
      forall es | ValidRun(c, s, es) && Disciplined(c, s, es) && NoSkips(es) ensures Run(c, s, es).f.count != 0 {
        OrphanWedgesChannel(c, s, es);
      }
    }
  }

  /**
   * After every disciplined run, skip-queue transfers included: the freeze count can get back
   * to zero in a disciplined way without submitting another skip-queue transfer if and only
   * if no postponed transfer is gone with no active or pending transfer to stand in for it.
   */
  lemma PaybackIff(c: Config, es: seq<Event>)
    requires c.Valid() && ValidRun(c, Init(c), es) && Disciplined(c, Init(c), es)
    requires Run(c, Init(c), es).panic == None
    ensures (exists more :: Pays(c, Run(c, Init(c), es), more)) <==> !Orphaned(Run(c, Init(c), es))
  {
    hide WorkerInv;
    InitWorker(c);
    WorkerInvRun(c, Init(c), es);
    ThawedIffNotOrphaned(c, Run(c, Init(c), es));
  }

  lemma {:induction false} FreshId(xs: set<Xfer>) returns (n: nat)
    ensures forall x :: x in xs ==> x.id < n
  {
    n := 0;
    if xs != {} {
      var x :| x in xs;
      n := FreshId(xs - {x});
      n := if x.id < n then n else x.id + 1;
    }
  }

  /** A recovery command submitted to any such state gets the channel thawed, orphaned or not. */
  lemma SkipQueueUnfreezes(c: Config, es: seq<Event>) returns (x: Xfer, more: seq<Event>)
    requires c.Valid() && c.NDrives() > 0 && ValidRun(c, Init(c), es) && Disciplined(c, Init(c), es)
    requires Run(c, Init(c), es).panic == None
    ensures var s := Run(c, Init(c), es);
      && x.skip && Enabled(c, s, Exec(x)) && WorkerOnly(c, s, Exec(x)) && DrivesKept(c, s, Exec(x))
      && Pays(c, Apply(c, s, Exec(x)), more)
  {
    hide WorkerInv, ValidRun, Run, Disciplined, Orphaned, Pays, Enabled, Apply, WorkerOnly, DrivesKept, Init;
    var s := Run(c, Init(c), es);
    InitWorker(c);
    WorkerInvRun(c, Init(c), es);
    var n := FreshId(s.q.seen);
    x := Xfer(n, 0, false, true, false, false, false);
    SkipNotOrphaned(c, s, x);
    WorkerInvStep(c, s, Exec(x));
    more := NotOrphanedPays(c, Apply(c, s, Exec(x)));
  }

  lemma SkipNotOrphaned(c: Config, s: State, x: Xfer)
    requires s.panic == None && x !in s.q.seen && x.drive < c.NDrives() && x.skip && !x.ncq
    ensures Enabled(c, s, Exec(x)) && WorkerOnly(c, s, Exec(x)) && DrivesKept(c, s, Exec(x))
    ensures !Orphaned(Apply(c, s, Exec(x))) && Apply(c, s, Exec(x)).panic == None
  {
    assert Apply(c, s, Exec(x)).q.pending[0] == x;
  }

  const ORPHAN_RUN := [Exec(DATA), Start(0, true, Th), Deactivate(DATA)]

  /** Such a state is reachable: start, postpone, deactivate. */
  lemma OrphanReachable(c: Config)
    requires c.Valid() && c.NDrives() > 0
    ensures ValidRun(c, Init(c), ORPHAN_RUN) && Disciplined(c, Init(c), ORPHAN_RUN) && NoSkips(ORPHAN_RUN)
    ensures Orphaned(Run(c, Init(c), ORPHAN_RUN)) && Run(c, Init(c), ORPHAN_RUN).panic == None
  {
    var s0, start, gone := Init(c), Start(0, true, Th), Deactivate(DATA);
    var s1, s2 := DataStarts(c, Th);
    var s3 := Apply(c, s2, gone);
    assert Enabled(c, s2, gone) && Orphaned(s3) && s3.panic == None;
    assert WorkerOnly(c, s0, Exec(DATA)) && WorkerOnly(c, s1, start) && WorkerOnly(c, s2, gone);
    assert DrivesKept(c, s0, Exec(DATA)) && DrivesKept(c, s1, start) && DrivesKept(c, s2, gone);
    hide Apply, Enabled, WorkerOnly, DrivesKept, Orphaned;
    RunThree(c, s0, Exec(DATA), start, gone);
    assert ORPHAN_RUN[1..] == [start, gone] && [start, gone][1..] == [gone] && [gone][1..] == [];
    assert Disciplined(c, s3, []) && Disciplined(c, s2, [gone]) && Disciplined(c, s1, [start, gone]);
  }

  const RESCUE_RUN := [Exec(RECOVERY), Start(0, true, Started), WorkerStep(Started)]

  /** From there a recovery command is started, taken for the postponed transfer, and started again. */
  lemma WrongRestartReachable(c: Config)
    requires c.Valid() && c.NDrives() > 0
    ensures ValidRun(c, Init(c), ORPHAN_RUN) && ValidRun(c, Run(c, Init(c), ORPHAN_RUN), RESCUE_RUN)
    ensures Starts(c, Run(c, Init(c), ORPHAN_RUN), RESCUE_RUN) == [RECOVERY, RECOVERY]
    ensures var t := Run(c, Run(c, Init(c), ORPHAN_RUN), RESCUE_RUN);
      t.f.count == 0 && t.q.active == [RECOVERY] && t.panic == None
  {
    var s1, s2 := DataStarts(c, Th);
    var s3 := Apply(c, s2, Deactivate(DATA));
    hide NextSection, Phase, Disciplined;
    RunThree(c, Init(c), Exec(DATA), Start(0, true, Th), Deactivate(DATA));
    RecoveryRescues(c, s2, s3);
  }

  lemma RecoveryRescues(c: Config, s2: State, s: State)
    requires c.Valid() && c.NDrives() > 0 && s2.panic == None && s2.q.active == [DATA] && s2.q.queueActive == 1
    requires s2.q.pending == [] && s2.q.seen == {DATA} && s2.l == Init(c).l && s2.f == AfterStart(Init(c).f, DATA, Th)
    requires DATA in s2.q.slot && s2.q.slot[DATA] == 0 && s == ApplyDeactivate(s2, DATA)
    ensures ValidRun(c, s, RESCUE_RUN) && Starts(c, s, RESCUE_RUN) == [RECOVERY, RECOVERY]
    ensures Run(c, s, RESCUE_RUN).f.count == 0 && Run(c, s, RESCUE_RUN).q.active == [RECOVERY]
    ensures Run(c, s, RESCUE_RUN).panic == None
  {
    var start, step := Start(0, true, Started), WorkerStep(Started);
    assert s.q.active == [] && s.q.queueActive == 0 && 0 in s.q.avail;
    var t := Apply(c, s, Exec(RECOVERY));
    assert t.q.pending == [RECOVERY] && 0 in Candidates(c, t.q, RECOVERY);
    assert Judge(c, t, true) == Activates;
    var u := Apply(c, t, start);
    assert u.q.active == [RECOVERY] && u.f.count == 1;
    var v := Apply(c, u, step);
    assert v.f.count == 0 && v.q == u.q;
    assert Enabled(c, s, Exec(RECOVERY)) && Enabled(c, t, start) && Enabled(c, u, step);
    assert StartsOf(c, t, start) == [RECOVERY] && StartsOf(c, u, step) == [RECOVERY];
    hide Apply, Enabled, Run, ValidRun;
    RunThree(c, s, Exec(RECOVERY), start, step);
    ThreeStarts(c, s, Exec(RECOVERY), start, step);
  }

  lemma ThreeStarts(c: Config, s: State, e1: Event, e2: Event, e3: Event)
    requires Enabled(c, s, e1) && Enabled(c, Apply(c, s, e1), e2)
    requires Enabled(c, Apply(c, Apply(c, s, e1), e2), e3)
    ensures ValidRun(c, s, [e1, e2, e3])
    ensures Starts(c, s, [e1, e2, e3]) == StartsOf(c, s, e1) + StartsOf(c, Apply(c, s, e1), e2)
         + StartsOf(c, Apply(c, Apply(c, s, e1), e2), e3)
  {
    hide Apply, Enabled, StartsOf;
    var t, u := Apply(c, s, e1), Apply(c, Apply(c, s, e1), e2);
    RunOne(c, s, e1);
    StartsSnoc(c, s, [], e1);
    assert [] + [e1] == [e1] && [e1] + [e2] == [e1, e2] && [e1, e2] + [e3] == [e1, e2, e3];
    StartsSnoc(c, s, [e1], e2);
    RunSnoc(c, s, [e1], e2);
    StartsSnoc(c, s, [e1, e2], e3);
  }
}
