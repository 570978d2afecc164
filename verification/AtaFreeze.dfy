/** Who holds the freeze count of a channel, over all interleavings. */
module AtaFreeze {
  import opened AtaChannel
  import opened AtaQueueResults

  function RunsOwed(runs: seq<SyncRun>): nat {
    if runs == [] then 0 else runs[0].Owed() + RunsOwed(runs[1..])
  }

  /**
   * The freezes somebody will still pay back: one a scheduled run, one or two a
   * synchronous run in progress, one an explicit freeze, one a postponed transfer.
   */
  function Owed(f: Freeze): nat {
    |f.flags| + RunsOwed(f.runs) + f.worker.Owed() + f.explicit + |f.handoff|
  }

  ghost predicate FreezeInv(f: Freeze) {
    f.count == Owed(f) + f.leaked - f.stolen
  }

  lemma {:induction false} RunsOwedConcat(a: seq<SyncRun>, b: seq<SyncRun>)
    ensures RunsOwed(a + b) == RunsOwed(a) + RunsOwed(b)
  {
    if a == [] {
      assert a + b == b;
    } else {
      assert (a + b)[1..] == a[1..] + b;
      RunsOwedConcat(a[1..], b);
    }
  }

  lemma RunsOwedRemove(runs: seq<SyncRun>, i: nat)
    requires i < |runs|
    ensures RunsOwed(runs) == runs[i].Owed() + RunsOwed(runs[..i] + runs[i + 1..])
  {
    var left, right := runs[..i], runs[i + 1..];
    var tail := [runs[i]] + right;
    assert tail[0] == runs[i] && tail[1..] == right && runs == left + tail;
    RunsOwedConcat(left, tail);
    RunsOwedConcat(left, right);
  }

  lemma StartKeeps(f: Freeze, x: Xfer, rv: StartRv)
    ensures FreezeInv(f) ==> FreezeInv(AfterStart(f, x, rv))
  {
  }

  lemma BeginKeeps(f: Freeze, kind: RunType)
    ensures var (g, run) := Begin(f, kind); g.count - Owed(g) == f.count - Owed(f) + run.Owed()
    ensures var (g, run) := Begin(f, kind); g == f.(count := g.count, flags := g.flags)
  {
    if kind in f.flags { assert |f.flags - {kind}| == |f.flags| - 1; }
    else { assert f.flags - {kind} == f.flags; }
  }

  lemma DropFlag(flags: set<RunType>, kind: RunType)
    ensures |flags| == |flags - {kind}| + (if kind in flags then 1 else 0)
  {
    if kind !in flags { assert flags - {kind} == flags; }
  }

  lemma WorkerStartsKeeps(s: State, x: Xfer, rv: StartRv)
    requires FreezeInv(s.f) && s.f.worker == Top
    ensures FreezeInv(WorkerStarts(s, x, rv).f)
  {
  }

  lemma TakeHandoffKeeps(f: Freeze)
    requires FreezeInv(f)
    ensures FreezeInv(TakeHandoff(f)) && TakeHandoff(f).worker == f.worker
  {
  }

  lemma WorkerTopKeeps(s: State, rv: StartRv)
    requires FreezeInv(s.f) && s.f.worker == Top
    ensures FreezeInv(WorkerTop(s, rv).f)
  {
    hide WorkerStarts, TakeHandoff;
    if Reset in s.f.flags {
      BeginKeeps(s.f, Reset);
    } else if DriveReset in s.f.flags {
    } else if Recovery in s.f.flags {
      BeginKeeps(s.f, Recovery);
    } else if s.q.queueActive > 0 && s.f.count == 1 && s.q.active != [] {
      TakeHandoffKeeps(s.f);
      WorkerStartsKeeps(s.(f := TakeHandoff(s.f)), s.q.active[0], rv);
    }
  }

  lemma WorkerKeeps(c: Config, s: State, rv: StartRv)
    requires FreezeInv(s.f)
    ensures FreezeInv(ApplyWorker(c, s, rv).f)
  {
    hide WorkerTop, Begin, RunsOwed;
    match s.f.worker
    case Top => WorkerTopKeeps(s, rv);
    case InDrives(i) =>
      if i < c.NDrives() { BeginKeeps(s.f, DriveReset); } else { DropFlag(s.f.flags, DriveReset); }
    case _ =>
  }

  lemma StartFreeze(c: Config, s: State, slot: nat, claim: bool, rv: StartRv)
    requires FreezeInv(s.f)
    ensures FreezeInv(ApplyStart(c, s, slot, claim, rv).f)
  {
    if Judge(c, s, claim) == Activates { StartKeeps(s.f, s.q.pending[0], rv); }
  }

  lemma SyncBeginFreeze(f: Freeze, kind: RunType)
    requires FreezeInv(f)
    ensures var (g, run) := Begin(f, kind); FreezeInv(g.(runs := g.runs + [run]))
  {
    var (g, run) := Begin(f, kind);
    BeginKeeps(f, kind);
    RunsOwedConcat(g.runs, [run]);
  }

  lemma ScheduleFreeze(f: Freeze, kind: RunType, drive: nat)
    requires FreezeInv(f)
    ensures FreezeInv(ApplySchedule(f, kind, drive))
  {
  }

  lemma FreezeStep(c: Config, s: State, e: Event)
    requires Enabled(c, s, e) && FreezeInv(s.f)
    ensures FreezeInv(Apply(c, s, e).f)
  {
    hide ApplyStart, ApplySchedule, ApplyWorker, WorkerStarts, Begin;
    match e
    case Start(slot, claim, rv) => StartFreeze(c, s, slot, claim, rv);
    case PollDone(x, again, rv) => StartKeeps(s.f.(polling := s.f.polling - {x}), x, rv);
    case Schedule(kind, d) => ScheduleFreeze(s.f, kind, d);
    case SyncBegin(kind) => SyncBeginFreeze(s.f, kind);
    case SyncEnd(i) => RunsOwedRemove(s.f.runs, i);
    case WorkerStep(rv) => WorkerKeeps(c, s, rv);
    case WorkerPoll(again, rv) => WorkerStartsKeeps(s.(f := s.f.(worker := Top)), s.f.worker.x, rv);
    case _ =>
  }

  /**
   * Freeze conservation: along every run the freeze count is what is owed, plus the
   * freezes the drive loop forgot, minus the thaws nobody had frozen for.
   */
  lemma {:induction false} FreezeRun(c: Config, s: State, es: seq<Event>)
    requires ValidRun(c, s, es) && FreezeInv(s.f)
    ensures FreezeInv(Run(c, s, es).f)
    decreases |es|
  {
    if es != [] {
      FreezeStep(c, s, es[0]);
      FreezeRun(c, Apply(c, s, es[0]), es[1..]);
    }
  }

  // ----- exactly when nothing is forgotten or stolen

  /** The drive loop clears the channel's flag without a thaw. */
  predicate Forgets(c: Config, s: State, e: Event) {
    e.WorkerStep? && s.f.worker.InDrives? && s.f.worker.next >= c.NDrives() && DriveReset in s.f.flags
  }

  /** A thaw for which neither an explicit freeze nor a postponed transfer is outstanding. */
  predicate Steals(s: State, e: Event) {
    || (e.ThawCall? && s.f.explicit == 0)
    || (e.WorkerStep? && TakesHandoff(s) && s.q.active != [] && s.f.handoff == [])
  }

  predicate NeverForgets(c: Config, s: State, es: seq<Event>)
    requires ValidRun(c, s, es)
    decreases |es|
  {
    es == [] || (!Forgets(c, s, es[0]) && NeverForgets(c, Apply(c, s, es[0]), es[1..]))
  }

  predicate NeverSteals(c: Config, s: State, es: seq<Event>)
    requires ValidRun(c, s, es)
    decreases |es|
  {
    es == [] || (!Steals(s, es[0]) && NeverSteals(c, Apply(c, s, es[0]), es[1..]))
  }

  /** The worker's tests of the three flags leave the empty set. */
  lemma FlagsCases(flags: set<RunType>)
    ensures Reset !in flags && DriveReset !in flags && Recovery !in flags ==> flags == {}
  {
    if Reset !in flags && DriveReset !in flags && Recovery !in flags {
      forall k: RunType ensures k !in flags { match k case Reset => case DriveReset => case Recovery => }
    }
  }

  lemma CountersStep(c: Config, s: State, e: Event)
    requires Enabled(c, s, e)
    ensures Apply(c, s, e).f.leaked == s.f.leaked + if Forgets(c, s, e) then 1 else 0
    ensures Apply(c, s, e).f.stolen == s.f.stolen + if Steals(s, e) then 1 else 0
  {
    FlagsCases(s.f.flags);
  }

  lemma {:induction false} CountersRun(c: Config, s: State, es: seq<Event>)
    requires ValidRun(c, s, es)
    ensures var t := Run(c, s, es).f;
      && t.leaked >= s.f.leaked && t.stolen >= s.f.stolen
      && (t.leaked == s.f.leaked <==> NeverForgets(c, s, es))
      && (t.stolen == s.f.stolen <==> NeverSteals(c, s, es))
    decreases |es|
  {
    if es != [] {
      CountersStep(c, s, es[0]);
      CountersRun(c, Apply(c, s, es[0]), es[1..]);
    }
  }

  /** With matched thaws, the count is exactly what is owed if and only if no flag was forgotten. */
  lemma ConservedIffNothingForgotten(c: Config, es: seq<Event>)
    requires ValidRun(c, Init(c), es) && NeverSteals(c, Init(c), es)
    ensures var t := Run(c, Init(c), es).f; t.count == Owed(t) <==> NeverForgets(c, Init(c), es)
  {
    FreezeRun(c, Init(c), es);
    CountersRun(c, Init(c), es);
  }

  /** How often an event calls ata_channel_thaw_locked(). */
  function Thaws(s: State, e: Event): nat
    requires e.SyncEnd? ==> e.i < |s.f.runs|
  {
    match e
    case SyncEnd(i) => s.f.runs[i].Owed()
    case ThawCall => 1
    case WorkerStep(_) =>
      if s.f.worker.Top? then (if TakesHandoff(s) then 1 else 0) else s.f.worker.Owed()
    case _ => 0
  }

  /** The assertion of ata_channel_thaw_locked() holds at every matched thaw. */
  lemma ThawAssertionHolds(c: Config, es: seq<Event>, e: Event)
    requires ValidRun(c, Init(c), es) && NeverSteals(c, Init(c), es)
    requires var s := Run(c, Init(c), es); Enabled(c, s, e) && !Steals(s, e)
    ensures var s := Run(c, Init(c), es); s.f.count >= Thaws(s, e)
  {
    FreezeRun(c, Init(c), es);
    CountersRun(c, Init(c), es);
    var s := Run(c, Init(c), es);
    hide Run, ValidRun, NeverSteals, Apply, RunsOwed;
    if e.SyncEnd? { RunsOwedRemove(s.f.runs, e.i); }
  }

  /** Nobody holds a freeze any more. */
  predicate AllDone(f: Freeze) {
    f.flags == {} && f.runs == [] && f.worker.Owed() == 0 && f.explicit == 0 && f.handoff == []
  }

  lemma CountReturnsToZero(c: Config, es: seq<Event>)
    requires ValidRun(c, Init(c), es) && NeverSteals(c, Init(c), es) && NeverForgets(c, Init(c), es)
    requires AllDone(Run(c, Init(c), es).f)
    ensures Run(c, Init(c), es).f.count == 0
  {
    ConservedIffNothingForgotten(c, es);
  }

  const WIPED_DRIVE_RUN := [Schedule(DriveReset, 0), ClearDriveTh(0),
                            WorkerStep(Started), WorkerStep(Started), WorkerStep(Started)]

  /** A drive reset is scheduled and the drive's flags are wiped. */
  lemma DriveWiped(c: Config, s: State)
    requires s.panic == None && s.f.flags == {} && s.f.driveTh == {}
    ensures Enabled(c, s, Schedule(DriveReset, 0)) && Enabled(c, Apply(c, s, Schedule(DriveReset, 0)), ClearDriveTh(0))
    ensures Apply(c, Apply(c, s, Schedule(DriveReset, 0)), ClearDriveTh(0))
         == s.(f := s.f.(count := s.f.count + 1, flags := {DriveReset}))
  {
    assert Apply(c, s, Schedule(DriveReset, 0))
        == s.(f := s.f.(count := s.f.count + 1, flags := {DriveReset}, driveTh := {0}));
  }

  /** The drive loop over one drive that has no flag, while the channel's flag is set. */
  lemma LoopForgets(c: Config, s: State)
    requires c.NDrives() == 1 && s.panic == None && s.f.worker == Top && s.f.flags == {DriveReset} && s.f.driveTh == {}
    ensures var step := WorkerStep(Started);
      var t := Apply(c, Apply(c, s, step), step);
      && Enabled(c, s, step) && Enabled(c, Apply(c, s, step), step) && Enabled(c, t, step)
      && Apply(c, t, step).f == s.f.(flags := {}, leaked := s.f.leaked + 1)
  {
    var step := WorkerStep(Started);
    assert Apply(c, s, step) == s.(f := s.f.(worker := InDrives(0)));
    assert Apply(c, Apply(c, s, step), step) == s.(f := s.f.(worker := InDrives(1)));
  }

  /**
   * A drive whose flags are wiped (its device went away) between the scheduling of its
   * reset and the drive loop: the channel stays frozen with nobody left to thaw it.
   */
  lemma ForgottenFreeze(c: Config)
    requires c.NDrives() == 1
    ensures ValidRun(c, Init(c), WIPED_DRIVE_RUN) && NeverSteals(c, Init(c), WIPED_DRIVE_RUN)
    ensures var t := Run(c, Init(c), WIPED_DRIVE_RUN).f; AllDone(t) && t.worker == Top && t.count == 1
  {
    var step, s0 := WorkerStep(Started), Init(c);
    hide Apply, Enabled, Run, ValidRun, NeverForgets, NeverSteals;
    DriveWiped(c, s0);
    LoopForgets(c, Apply(c, Apply(c, s0, Schedule(DriveReset, 0)), ClearDriveTh(0)));
    RunFive(c, s0, Schedule(DriveReset, 0), ClearDriveTh(0), step, step, step);
    CountersRun(c, s0, WIPED_DRIVE_RUN);
  }

  lemma RunsOwedZero(runs: seq<SyncRun>)
    ensures RunsOwed(runs) == 0 <==> runs == []
  {
  }

  /**
   * The worker reads `count == 1' as a postponed transfer. There is one exactly when no
   * explicit freeze, no synchronous run of another thread and no freeze forgotten by the
   * drive loop holds the count.
   */
  lemma HandoffOutstandingIff(c: Config, es: seq<Event>)
    requires ValidRun(c, Init(c), es) && NeverSteals(c, Init(c), es)
    requires TakesHandoff(Run(c, Init(c), es))
    ensures var f := Run(c, Init(c), es).f;
      f.handoff != [] <==> f.explicit == 0 && f.runs == [] && f.leaked == 0
  {
    FreezeRun(c, Init(c), es);
    CountersRun(c, Init(c), es);
    RunsOwedZero(Run(c, Init(c), es).f.runs);
  }

  const STOLEN_THAW_RUN := [Exec(DATA), Start(0, true, Started), FreezeCall, WorkerStep(Started), ThawCall]

  /** Freeze, the worker's turn, thaw, with one transfer active that nobody postponed. */
  lemma FrozenWhileActive(c: Config, s: State)
    requires s.panic == None && s.q.queueActive == 1 && s.q.active == [DATA] && s.f == Init(c).f
    ensures Enabled(c, s, FreezeCall) && Enabled(c, Apply(c, s, FreezeCall), WorkerStep(Started))
    ensures var t := Apply(c, Apply(c, s, FreezeCall), WorkerStep(Started));
      Enabled(c, t, ThawCall) && Apply(c, t, ThawCall).f.count == -1 && Apply(c, t, ThawCall).f.leaked == 0
  {
    var t := Apply(c, s, FreezeCall);
    assert t == s.(f := s.f.(count := 1, explicit := 1));
    var u := Apply(c, t, WorkerStep(Started));
    assert u == t.(f := t.f.(count := 0, stolen := 1));
  }

  /**
   * A channel frozen while a transfer is active: the worker thaws it on its own, starts
   * the transfer again, and the caller's matching thaw takes the count below zero.
   */
  lemma StolenThaw(c: Config)
    requires c.Valid() && c.NDrives() > 0
    ensures ValidRun(c, Init(c), STOLEN_THAW_RUN) && NeverForgets(c, Init(c), STOLEN_THAW_RUN)
    ensures Run(c, Init(c), STOLEN_THAW_RUN).f.count == -1
  {
    var s1, s2 := DataStarts(c, Started);
    FrozenWhileActive(c, s2);
    hide Apply, Enabled, Run, ValidRun, NeverForgets, NeverSteals;
    RunFive(c, Init(c), Exec(DATA), Start(0, true, Started), FreezeCall, WorkerStep(Started), ThawCall);
    CountersRun(c, Init(c), STOLEN_THAW_RUN);
  }
}
