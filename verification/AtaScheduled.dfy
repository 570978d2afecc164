/** Which scheduled resets and recoveries the worker still carries out. */
module AtaScheduled {
  import opened AtaChannel
  import opened AtaFreeze
  import opened AtaHandoff

  /** The worker is resetting the drive. */
  predicate Resets(f: Freeze, drive: nat) { f.worker.InDriveRun? && f.worker.drive == drive }

  /** The drive loop has yet to reach the drive, or the channel's flag will start the loop. */
  predicate Ahead(f: Freeze, drive: nat) {
    match f.worker
    case InDrives(i) => i <= drive
    case InDriveRun(i, _) => i < drive
    case _ => DriveReset in f.flags
  }

  /** The event neither schedules a reset of another drive nor takes this drive's flag. */
  predicate LeavesAlone(e: Event, drive: nat) {
    (e.Schedule? && e.kind == DriveReset ==> e.drive == drive) && (e.ClearDriveTh? ==> e.drive != drive)
  }

  /** Going on like that the worker comes to reset the drive. */
  ghost predicate Leads(c: Config, s: State, es: seq<Event>, drive: nat) {
    && ValidRun(c, s, es) && (forall i :: 0 <= i < |es| ==> LeavesAlone(es[i], drive))
    && Resets(Run(c, s, es).f, drive)
  }

  /** The flag is set and the worker will not look at it. */
  predicate Missed(f: Freeze, drive: nat) { drive in f.driveTh && !Resets(f, drive) && !Ahead(f, drive) }

  lemma MissedStep(c: Config, s: State, e: Event, drive: nat)
    requires Enabled(c, s, e) && LeavesAlone(e, drive) && Missed(s.f, drive)
    ensures Missed(Apply(c, s, e).f, drive)
  {
  }

  /** New requests for the drive are dropped too, so it stays that way. */
  lemma {:induction false} MissedRun(c: Config, s: State, es: seq<Event>, drive: nat)
    requires ValidRun(c, s, es) && Missed(s.f, drive)
    requires forall i :: 0 <= i < |es| ==> LeavesAlone(es[i], drive)
    ensures Missed(Run(c, s, es).f, drive)
    decreases |es|
  {
    if es != [] {
      hide Missed, Enabled, Apply, LeavesAlone;
      MissedStep(c, s, es[0], drive);
      MissedRun(c, Apply(c, s, es[0]), es[1..], drive);
    }
  }

  lemma AheadStep(c: Config, s: State, drive: nat)
    requires s.panic == None && drive < c.NDrives() && drive in s.f.driveTh && Ahead(s.f, drive)
    ensures var e, t := NextSection(s.f), Apply(c, s, NextSection(s.f));
      && Enabled(c, s, e) && LeavesAlone(e, drive) && t.panic == None && drive in t.f.driveTh
      && (Resets(t.f, drive) || (Ahead(t.f, drive) && Nearer(c, t.f, s.f)))
  {
    hide Nearer;
    match s.f.worker
    case Top => TopToDrives(c, s);
    case _ => WorkerNearer(c, s, drive);
  }

  lemma TopToDrives(c: Config, s: State)
    requires s.f.worker == Top && DriveReset in s.f.flags
    ensures var t := WorkerTop(s, Started);
      && t.f.driveTh == s.f.driveTh && t.panic == s.panic && Nearer(c, t.f, s.f)
      && (t.f.worker == InDrives(0) || (t.f.worker.InRun? && DriveReset in t.f.flags))
  {
    TopAdvances(c, s);
  }

  lemma WorkerNearer(c: Config, s: State, drive: nat)
    requires s.f.worker != Top && drive < c.NDrives() && Ahead(s.f, drive) && s.panic == None
    ensures Nearer(c, Apply(c, s, NextSection(s.f)).f, s.f)
  {
    DropFlag(s.f.flags, DriveReset);
  }

  lemma {:induction false} AheadResets(c: Config, s: State, drive: nat) returns (es: seq<Event>)
    requires s.panic == None && drive < c.NDrives() && drive in s.f.driveTh && Ahead(s.f, drive)
    ensures Leads(c, s, es, drive)
    decreases |s.f.flags|, Phase(c, s.f)
  {
    hide Enabled, Apply, LeavesAlone, Resets, Ahead, Phase, NextSection, Leads;
    AheadStep(c, s, drive);
    var e := NextSection(s.f);
    var rest: seq<Event> := [];
    if !Resets(Apply(c, s, e).f, drive) {
      rest := AheadResets(c, Apply(c, s, e), drive);
    }
    es := [e] + rest;
    Prepend(c, s, e, rest, drive);
  }

  lemma Prepend(c: Config, s: State, e: Event, rest: seq<Event>, drive: nat)
    requires Enabled(c, s, e) && LeavesAlone(e, drive)
    requires Leads(c, Apply(c, s, e), rest, drive) || (rest == [] && Resets(Apply(c, s, e).f, drive))
    ensures Leads(c, s, [e] + rest, drive)
  {
    hide Enabled, Apply, LeavesAlone, Resets;
    var es := [e] + rest;
    assert es[0] == e && es[1..] == rest && ValidRun(c, Apply(c, s, e), rest);
    forall i | 0 <= i < |es| ensures LeavesAlone(es[i], drive) {
      if i > 0 { assert es[i] == rest[i - 1]; }
    }
  }

  /**
   * A drive has its flag. As long as no other drive's reset is scheduled, it can come to be
   * reset if and only if the worker is in the drive loop and has not passed it, or is not in
   * the loop and the channel's flag is up. Otherwise every further request for it is dropped.
   */
  lemma DriveResetIff(c: Config, s: State, drive: nat)
    requires s.panic == None && drive < c.NDrives() && drive in s.f.driveTh && !Resets(s.f, drive)
    ensures (exists es :: Leads(c, s, es, drive)) <==> Ahead(s.f, drive)
  {
    if Ahead(s.f, drive) {
      var es := AheadResets(c, s, drive);
    } else {
      forall es | ValidRun(c, s, es) && (forall i :: 0 <= i < |es| ==> LeavesAlone(es[i], drive))
        ensures !Resets(Run(c, s, es).f, drive)
      {
        MissedRun(c, s, es, drive);
      }
    }
  }

  const MISSED_RUN := [Schedule(DriveReset, 1), WorkerStep(Started), WorkerStep(Started), Schedule(DriveReset, 0)]

  /** A reset scheduled for drive 0 while the loop is already at drive 1 is missed. */
  lemma MissedReachable(c: Config)
    requires c.NDrives() > 1
    ensures ValidRun(c, Init(c), MISSED_RUN) && Missed(Run(c, Init(c), MISSED_RUN).f, 0)
    ensures Run(c, Init(c), MISSED_RUN).panic == None
  {
    hide Apply, Enabled, Run, ValidRun, Missed;
    var first, step, second := Schedule(DriveReset, 1), WorkerStep(Started), Schedule(DriveReset, 0);
    var s1, s2, s3 := LoopPasses(c);
    SecondMissed(c, s3);
    RunThree(c, Init(c), first, step, step);
    RunSnoc(c, Init(c), [first, step, step], second);
    assert [first, step, step] + [second] == MISSED_RUN;
  }

  /** The loop is entered for drive 1 and goes past drive 0. */
  lemma LoopPasses(c: Config) returns (s1: State, s2: State, s3: State)
    requires c.NDrives() > 1
    ensures Enabled(c, Init(c), Schedule(DriveReset, 1)) && s1 == Apply(c, Init(c), Schedule(DriveReset, 1))
    ensures Enabled(c, s1, WorkerStep(Started)) && s2 == Apply(c, s1, WorkerStep(Started))
    ensures Enabled(c, s2, WorkerStep(Started)) && s3 == Apply(c, s2, WorkerStep(Started))
    ensures s3.panic == None && s3.f.worker == InDrives(1) && s3.f.flags == {DriveReset} && s3.f.driveTh == {1}
  {
    s1 := Apply(c, Init(c), Schedule(DriveReset, 1));
    assert s1.f == Init(c).f.(count := 1, flags := {DriveReset}, driveTh := {1}) && s1.panic == None;
    s2 := Apply(c, s1, WorkerStep(Started));
    assert s2.f == s1.f.(worker := InDrives(0)) && s2.panic == None;
    s3 := Apply(c, s2, WorkerStep(Started));
  }

  lemma SecondMissed(c: Config, s: State)
    requires s.panic == None && s.f.worker == InDrives(1) && s.f.driveTh == {1}
    ensures Enabled(c, s, Schedule(DriveReset, 0))
    ensures Missed(Apply(c, s, Schedule(DriveReset, 0)).f, 0) && Apply(c, s, Schedule(DriveReset, 0)).panic == None
  {
  }

  // ----- channel resets and recoveries

  /** The worker is in a run of the kind, outside the drive loop. */
  predicate Runs(f: Freeze, kind: RunType) { f.worker.InRun? && f.worker.run.kind == kind }

  /** Going on without scheduling the kind again the worker comes to run it. */
  ghost predicate LeadsTo(c: Config, s: State, es: seq<Event>, kind: RunType) {
    && ValidRun(c, s, es) && (forall i :: 0 <= i < |es| && es[i].Schedule? ==> es[i].kind != kind)
    && Runs(Run(c, s, es).f, kind)
  }

  lemma UnscheduledStep(c: Config, s: State, e: Event, kind: RunType)
    requires kind != DriveReset && Enabled(c, s, e) && (e.Schedule? ==> e.kind != kind)
    requires kind !in s.f.flags && !Runs(s.f, kind)
    ensures kind !in Apply(c, s, e).f.flags && !Runs(Apply(c, s, e).f, kind)
  {
  }

  lemma {:induction false} UnscheduledRun(c: Config, s: State, es: seq<Event>, kind: RunType)
    requires kind != DriveReset && ValidRun(c, s, es)
    requires forall i :: 0 <= i < |es| && es[i].Schedule? ==> es[i].kind != kind
    requires kind !in s.f.flags && !Runs(s.f, kind)
    ensures !Runs(Run(c, s, es).f, kind)
    decreases |es|
  {
    if es != [] {
      hide Enabled, Apply, Runs;
      UnscheduledStep(c, s, es[0], kind);
      UnscheduledRun(c, Apply(c, s, es[0]), es[1..], kind);
    }
  }

  lemma ScheduledStep(c: Config, s: State, kind: RunType)
    requires s.panic == None && kind != DriveReset && kind in s.f.flags
    ensures var e, t := NextSection(s.f), Apply(c, s, NextSection(s.f));
      && Enabled(c, s, e) && !e.Schedule? && t.panic == None
      && (Runs(t.f, kind) || (kind in t.f.flags && Nearer(c, t.f, s.f)))
  {
    hide Nearer;
    match s.f.worker
    case Top => TopTakes(c, s, kind);
    case _ => SectionNearer(c, s, kind);
  }

  lemma TopTakes(c: Config, s: State, kind: RunType)
    requires s.f.worker == Top && kind != DriveReset && kind in s.f.flags
    ensures var t := WorkerTop(s, Started);
      t.panic == s.panic && (Runs(t.f, kind) || (kind in t.f.flags && Nearer(c, t.f, s.f)))
  {
    TopAdvances(c, s);
  }

  lemma SectionNearer(c: Config, s: State, kind: RunType)
    requires s.panic == None && s.f.worker != Top && kind != DriveReset && kind in s.f.flags
    ensures var t := Apply(c, s, NextSection(s.f));
      t.panic == None && kind in t.f.flags && Nearer(c, t.f, s.f)
  {
    DropFlag(s.f.flags, DriveReset);
  }

  lemma {:induction false} ScheduledRuns(c: Config, s: State, kind: RunType) returns (es: seq<Event>)
    requires s.panic == None && kind != DriveReset && kind in s.f.flags
    ensures LeadsTo(c, s, es, kind)
    decreases |s.f.flags|, Phase(c, s.f)
  {
    hide Enabled, Apply, Runs, Phase, NextSection, LeadsTo;
    ScheduledStep(c, s, kind);
    var e := NextSection(s.f);
    var rest: seq<Event> := [];
    if !Runs(Apply(c, s, e).f, kind) {
      rest := ScheduledRuns(c, Apply(c, s, e), kind);
    }
    es := [e] + rest;
    PrependTo(c, s, e, rest, kind);
  }

  lemma PrependTo(c: Config, s: State, e: Event, rest: seq<Event>, kind: RunType)
    requires Enabled(c, s, e) && !e.Schedule?
    requires LeadsTo(c, Apply(c, s, e), rest, kind) || (rest == [] && Runs(Apply(c, s, e).f, kind))
    ensures LeadsTo(c, s, [e] + rest, kind)
  {
    hide Enabled, Apply, Runs;
    var es := [e] + rest;
    assert es[0] == e && es[1..] == rest && ValidRun(c, Apply(c, s, e), rest);
    forall i | 0 <= i < |es| && es[i].Schedule? ensures es[i].kind != kind {
      assert es[i] == rest[i - 1];
    }
  }

  /**
   * A channel reset or a recovery comes to be run by the worker, nobody scheduling it again,
   * if and only if its flag is up.
   */
  lemma ScheduledRunIff(c: Config, s: State, kind: RunType)
    requires s.panic == None && kind != DriveReset && !Runs(s.f, kind)
    ensures (exists es :: LeadsTo(c, s, es, kind)) <==> kind in s.f.flags
  {
    hide Runs;
    if kind in s.f.flags {
      var es := ScheduledRuns(c, s, kind);
    } else {
      forall es: seq<Event> | ValidRun(c, s, es) && (forall i :: 0 <= i < |es| && es[i].Schedule? ==> es[i].kind != kind)
        ensures !Runs(Run(c, s, es).f, kind)
      {
        UnscheduledRun(c, s, es, kind);
      }
    }
  }

  /** So whatever the state, a request for one can be followed by a run of it. */
  lemma RequestIsRun(c: Config, s: State, kind: RunType, drive: nat) returns (es: seq<Event>)
    requires s.panic == None && kind != DriveReset
    ensures Enabled(c, s, Schedule(kind, drive)) && LeadsTo(c, Apply(c, s, Schedule(kind, drive)), es, kind)
  {
    hide LeadsTo;
    es := ScheduledRuns(c, Apply(c, s, Schedule(kind, drive)), kind);
  }
}
