/** What single sections do to the fields, said without the functions that model them. */
module AtaSections {
  import opened AtaChannel
  import opened AtaQueueInv
  import opened AtaQueueResults
  import opened AtaFreeze

  /** A turn that starts the head, with a slot below both opening counts. */
  ghost predicate HeadTaken(c: Config, s: State, t: State, slot: nat) {
    s.q.pending != [] &&
    var x := s.q.pending[0];
    && t.q.pending == s.q.pending[1..] && t.q.queueActive == s.q.queueActive + 1
    && t.q.active == (if x.skip then [x] + s.q.active else s.q.active + [x])
    && slot in s.q.avail && slot < c.openings && (x.ncq && x.drive < c.NDrives() ==> slot < c.drvOpenings[x.drive])
    && t.q.used == s.q.used + {slot} && t.q.avail == s.q.avail - {slot} && t.q.slot == s.q.slot[x := slot]
    && t.q.ncqMode == x.ncq && t.l == s.l && t.panic == None
  }

  /** The head is a recovery command that finds every opening taken. */
  ghost predicate NotPossible(c: Config, s: State) {
    && s.q.pending != [] && s.q.pending[0].skip && s.q.pending[0] !in s.l.waitAct
    && s.q.queueActive >= c.openings
  }

  lemma SlotsBelow(c: Config, s: State, slot: nat)
    requires QueueInv(c, s.q) && s.q.pending != [] && slot in Candidates(c, s.q, s.q.pending[0])
    ensures var x := s.q.pending[0];
      slot in s.q.avail && slot < c.openings && (x.ncq && x.drive < c.NDrives() ==> slot < c.drvOpenings[x.drive])
  {
  }

  lemma SkipLimit(c: Config, s: State)
    requires QueueInv(c, s.q)
    ensures Judge(c, s, true) == Panics <==> NotPossible(c, s)
  {
    if s.q.pending != [] {
      HeadSubmitted(c, s);
      LimitIs(c, s);
      assert s.q.pending[0] in s.q.pending;
    }
  }

  lemma ClaimMatters(c: Config, s: State, claim: bool)
    ensures Judge(c, s, claim) == (if Judge(c, s, true) == Activates && !claim then ClaimFailed else Judge(c, s, true))
    ensures Judge(c, s, true) == Activates ==> s.q.pending != [] && Candidates(c, s.q, s.q.pending[0]) != {}
  {
  }

  /** One turn of atastart() up to the answer of c_start: it starts the head, panics, or does nothing. */
  lemma StartEffect(c: Config, s: State, slot: nat, claim: bool, rv: StartRv)
    requires QueueInv(c, s.q) && Enabled(c, s, Start(slot, claim, rv))
    ensures var t := Apply(c, s, Start(slot, claim, rv));
      if Startable(c, s) && claim then
        HeadTaken(c, s, t, slot) && t.f.count == s.f.count + (if rv == Th then 1 else 0) && t.f.flags == s.f.flags
      else t == if NotPossible(c, s) then s.(panic := XferNotPossible) else s
  {
    JudgeStarts(c, s);
    SkipLimit(c, s);
    ClaimMatters(c, s, claim);
    hide Judge, Startable, NotPossible, Limit;
    hide HeadTaken;
    if Judge(c, s, claim) == Activates {
      HeadGetsSlot(c, s, slot, claim, rv);
    }
  }

  lemma HeadGetsSlot(c: Config, s: State, slot: nat, claim: bool, rv: StartRv)
    requires QueueInv(c, s.q) && Enabled(c, s, Start(slot, claim, rv))
    requires s.q.pending != [] && Candidates(c, s.q, s.q.pending[0]) != {}
    ensures HeadTaken(c, s, s.(q := Activated(s.q, slot), f := AfterStart(s.f, s.q.pending[0], rv)), slot)
  {
    hide Candidates, AfterStart, QueueInv;
    SlotsBelow(c, s, slot);
  }

  /** ata_thread_run() by a caller that can neither poll nor wait. */
  lemma ScheduleEffect(c: Config, s: State, kind: RunType, drive: nat)
    requires s.panic == None
    ensures Enabled(c, s, Schedule(kind, drive))
    ensures var f, g := s.f, Apply(c, s, Schedule(kind, drive)).f;
      && (kind == DriveReset && drive in f.driveTh ==> g == f)
      && (!(kind == DriveReset && drive in f.driveTh) ==>
           && g.flags == f.flags + {kind} && g.count == f.count + (if kind in f.flags then 0 else 1)
           && g.driveTh == if kind == DriveReset then f.driveTh + {drive} else f.driveTh)
  {
    var f, g := s.f, Apply(c, s, Schedule(kind, drive)).f;
    if kind in f.flags { assert f.flags + {kind} == f.flags; }
  }

  /** A synchronous run of another thread freezes once and takes over a scheduled one of its kind. */
  lemma RunBegins(c: Config, s: State, kind: RunType)
    requires s.panic == None
    ensures Enabled(c, s, SyncBegin(kind))
    ensures var f, g := s.f, Apply(c, s, SyncBegin(kind)).f;
      && g.count == f.count + 1 && g.flags == f.flags - {kind}
      && g.runs == f.runs + [SyncRun(kind, kind in f.flags)] && g.worker == f.worker
  {
  }

  /** What the worker takes at the top of its loop: reset before drive resets before recovery. */
  lemma WorkerChoice(c: Config, s: State, rv: StartRv)
    requires s.panic == None && s.f.worker == Top
    ensures Enabled(c, s, WorkerStep(rv))
    ensures var f, t := s.f, Apply(c, s, WorkerStep(rv));
      && t.q == s.q && t.l == s.l
      && (Reset in f.flags ==>
           && t.f.worker == InRun(SyncRun(Reset, true)) && t.f.flags == f.flags - {Reset}
           && t.f.count == f.count + 1 && t.panic == None)
      && (Reset !in f.flags && DriveReset in f.flags ==>
           t.f.worker == InDrives(0) && t.f.flags == f.flags && t.f.count == f.count && t.panic == None)
      && (Reset !in f.flags && DriveReset !in f.flags && Recovery in f.flags ==>
           && t.f.worker == InRun(SyncRun(Recovery, true)) && t.f.flags == f.flags - {Recovery}
           && t.f.count == f.count + 1 && t.panic == None)
      && (f.flags == {} && f.count == 1 && s.q.queueActive > 0 && s.q.active != [] ==>
           && t.f.count == (if rv == Th then 1 else 0)
           && t.f.worker == (if rv == Poll then InPoll(s.q.active[0]) else Top)
           && (t.panic == UnexpectedRv <==> rv == Th))
      && (f.flags == {} && f.count > 1 ==> t == s.(panic := QueueFreeze))
      && (f.flags == {} && (f.count < 1 || (f.count == 1 && (s.q.queueActive <= 0 || s.q.active == []))) ==> t == s)
  {
  }

  /** All panics of the engine, and exactly when each comes. */
  lemma PanicsWhen(c: Config, s: State, e: Event)
    requires QueueInv(c, s.q) && Enabled(c, s, e)
    ensures Apply(c, s, e).panic == XferNotPossible <==> e.Start? && NotPossible(c, s)
    ensures Apply(c, s, e).panic == QueueFreeze <==>
      e.WorkerStep? && s.f.worker == Top && s.f.flags == {} && s.f.count > 1
    ensures Apply(c, s, e).panic == UnexpectedRv <==>
      || (e.WorkerStep? && s.f.worker == Top && s.f.flags == {} && s.f.count == 1 && s.q.active != [] && e.rv == Th)
      || (e.WorkerPoll? && e.again && e.rv == Th)
  {
    hide Judge, NotPossible, QueueInv;
    match e
    case Start(slot, claim, rv) => StartPanic(c, s, slot, claim, rv);
    case WorkerStep(rv) =>
      Counted(c, s);
      if s.f.worker == Top { WorkerChoice(c, s, rv); FlagsCases(s.f.flags); }
    case _ =>
  }

  lemma Counted(c: Config, s: State)
    requires QueueInv(c, s.q)
    ensures s.q.queueActive == |s.q.active|
  {
  }

  lemma StartPanic(c: Config, s: State, slot: nat, claim: bool, rv: StartRv)
    requires QueueInv(c, s.q) && Enabled(c, s, Start(slot, claim, rv))
    ensures Apply(c, s, Start(slot, claim, rv)).panic == if NotPossible(c, s) then XferNotPossible else None
  {
    hide QueueInv, Judge;
    SkipLimit(c, s);
    ClaimMatters(c, s, claim);
  }
}
