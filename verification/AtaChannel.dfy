/**
 * The transfer engine of one ATA channel as a transition system: every event is one
 * section of code executed under the channel lock, and its parameters carry what the
 * environment decides there (the slot picked, the answer of a controller hook).
 */
module AtaChannel {
  import opened Seqs

  const ATA_MAX_OPENINGS: nat := 32

  /** A transfer; the flag bits kept here never change after it is submitted. */
  datatype Xfer = Xfer(id: nat, drive: nat, ncq: bool, skip: bool, poll: bool, wait: bool, priv: bool)

  datatype RunType = Reset | DriveReset | Recovery

  /** Answers of the c_start hook. */
  datatype StartRv = Started | Th | Poll | Abort

  datatype Panic = None | XferNotPossible | QueueFreeze | UnexpectedRv

  datatype Config = Config(openings: nat, drvOpenings: seq<nat>) {
    function NDrives(): nat { |drvOpenings| }
    predicate Valid() { 1 <= openings <= ATA_MAX_OPENINGS }
  }

  /**
   * The drain of ata_kill_pending(): drives with ATA_DRIVE_WAITDRAIN, drives whose drain
   * sleeps on queue_drain, transfers being killed by ata_waitdrain_xfer_check().
   */
  datatype Drain = Drain(waiting: set<nat>, asleep: set<nat>, killing: set<Xfer>)

  /** queue_xfer, active_xfers and the slot bitmasks, each mask as the set of its bits. */
  datatype Queue = Queue(
    pending: seq<Xfer>,
    active: seq<Xfer>,
    queueActive: int,
    used: set<nat>,
    avail: set<nat>,
    slot: map<Xfer, nat>,
    ncqMode: bool,
    drain: Drain,
    seen: set<Xfer>)

  /** A synchronous ata_thread_run() that has frozen the channel and not yet thawed it. */
  datatype SyncRun = SyncRun(kind: RunType, threset: bool) {
    function Owed(): nat { if threset then 2 else 1 }
  }

  /**
   * Where the worker thread stands between two sections of its loop: at the top, inside a
   * run, at a drive of the drive loop, inside the run of a drive, polling a transfer it started.
   */
  datatype Worker =
    | Top
    | InRun(run: SyncRun)
    | InDrives(next: nat)
    | InDriveRun(drive: nat, run: SyncRun)
    | InPoll(x: Xfer)
  {
    function Owed(): nat {
      match this
      case InRun(r) => r.Owed()
      case InDriveRun(_, r) => r.Owed()
      case _ => 0
    }
  }

  /**
   * queue_freeze and everything that may hold a share of it. The last four fields are
   * bookkeeping: outstanding ata_channel_freeze() calls, transfers postponed to the
   * thread, freezes forgotten by the drive loop, thaws by a caller that froze nothing.
   */
  datatype Freeze = Freeze(
    count: int,
    flags: set<RunType>,
    driveTh: set<nat>,
    runs: seq<SyncRun>,
    worker: Worker,
    polling: set<Xfer>,
    explicit: nat,
    handoff: seq<Xfer>,
    leaked: nat,
    stolen: nat)

  /** The flags of the free/timeout race, the callout, and the pool's history. */
  datatype Life = Life(
    waitAct: set<Xfer>,
    waitTimo: set<Xfer>,
    freeReq: set<Xfer>,
    timoFreeing: set<Xfer>,
    freeCalled: set<Xfer>,
    puts: multiset<Xfer>,
    armed: bool,
    invoking: bool)

  datatype State = State(q: Queue, f: Freeze, l: Life, panic: Panic)

  datatype Event =
    | Exec(x: Xfer)
    | ExecWake(x: Xfer)
    | Start(slot: nat, claim: bool, rv: StartRv)
    | PollDone(x: Xfer, again: bool, rv: StartRv)
    | Deactivate(x: Xfer)
    | Free(x: Xfer)
    | TimerArm
    | TimerFire
    | TimerDone
    | TimoCheck(x: Xfer)
    | TimoFree(x: Xfer)
    | KillPending(drive: nat)
    | DrainTurn(drive: nat)
    | DrainCheck(x: Xfer)
    | DrainSignal(x: Xfer, woken: nat)
    | Schedule(kind: RunType, drive: nat)
    | SyncBegin(kind: RunType)
    | SyncEnd(i: nat)
    | FreezeCall
    | ThawCall
    | ClearDriveTh(drive: nat)
    | WorkerStep(rv: StartRv)
    | WorkerPoll(again: bool, rv: StartRv)

  /** The full slot mask: bits 0 to n - 1. */
  function Bits(n: nat): (r: set<nat>)
    ensures forall k: nat :: k in r <==> k < n
    ensures |r| == n
  {
    if n == 0 then {} else Bits(n - 1) + {n - 1}
  }

  function Init(c: Config): State {
    State(
      Queue([], [], 0, {}, Bits(c.openings), map[], false, Drain({}, {}, {}), {}),
      Freeze(0, {}, {}, [], Top, {}, 0, [], 0, 0),
      Life({}, {}, {}, {}, {}, multiset{}, false, false),
      None)
  }

  // ----- ata_exec_xfer

  /** The loop test of a polling caller that may sleep: it waits until idle and at the head. */
  predicate MustWait(q: Queue, x: Xfer) {
    q.queueActive > 0 || q.pending == [] || q.pending[0] != x
  }

  function ApplyExec(s: State, x: Xfer): State {
    var q := s.q.(pending := if x.skip then [x] + s.q.pending else s.q.pending + [x], seen := s.q.seen + {x});
    s.(q := q,
       l := if x.poll && x.wait && MustWait(q, x) then s.l.(waitAct := s.l.waitAct + {x}) else s.l)
  }

  function ApplyExecWake(s: State, x: Xfer): State {
    if MustWait(s.q, x) then s else s.(l := s.l.(waitAct := s.l.waitAct - {x}))
  }

  // ----- atastart and ata_xfer_start

  function DrvOpenings(c: Config, x: Xfer): nat {
    if !x.ncq then ATA_MAX_OPENINGS
    else if x.drive < c.NDrives() then c.drvOpenings[x.drive]
    else 0
  }

  function Min(a: nat, b: nat): nat { if a <= b then a else b }

  /** How many transfers may be active before x is refused. */
  function Limit(c: Config, x: Xfer): nat {
    Min(if !x.skip && c.openings > 1 then c.openings - 1 else c.openings, DrvOpenings(c, x))
  }

  /** The slots the allocator may hand to x: the free ones below both opening counts. */
  function Candidates(c: Config, q: Queue, x: Xfer): set<nat> {
    set k | k in q.avail && k < Min(c.openings, DrvOpenings(c, x))
  }

  datatype Verdict =
    | QueueEmpty | HeadWaiting | Frozen | Incompatible | Panics | Busy | NoSlot | ClaimFailed | Activates

  /** Where one turn of the atastart loop leaves: the tests in the order the code makes them. */
  function Judge(c: Config, s: State, claim: bool): Verdict {
    if s.q.pending == [] then QueueEmpty
    else
      var x := s.q.pending[0];
      if x in s.l.waitAct then HeadWaiting
      else if !x.skip && s.f.count > 0 then Frozen
      else if !x.skip && s.q.active != [] && !CanJoin(x, s.q.active[0]) then Incompatible
      else if s.q.queueActive >= Limit(c, x) then (if x.skip then Panics else Busy)
      else if Candidates(c, s.q, x) == {} then NoSlot
      else if !claim then ClaimFailed
      else Activates
  }

  predicate CanJoin(x: Xfer, head: Xfer) {
    x.ncq && head.ncq && x.drive == head.drive
  }

  function Activated(q: Queue, slot: nat): Queue
    requires q.pending != []
  {
    var x := q.pending[0];
    q.(pending := q.pending[1..],
       active := if x.skip then [x] + q.active else q.active + [x],
       queueActive := q.queueActive + 1,
       used := q.used + {slot},
       avail := q.avail - {slot},
       slot := q.slot[x := slot],
       ncqMode := x.ncq)
  }

  /** What the answer of c_start does to the freeze count. */
  function AfterStart(f: Freeze, x: Xfer, rv: StartRv): Freeze {
    match rv
    case Th => f.(count := f.count + 1, handoff := f.handoff + [x])
    case Poll => f.(polling := f.polling + {x})
    case _ => f
  }

  function ApplyStart(c: Config, s: State, slot: nat, claim: bool, rv: StartRv): State {
    match Judge(c, s, claim)
    case Panics => s.(panic := XferNotPossible)
    case Activates => s.(q := Activated(s.q, slot), f := AfterStart(s.f, s.q.pending[0], rv))
    case _ => s
  }

  function ApplyPollDone(s: State, x: Xfer, again: bool, rv: StartRv): State {
    var f := s.f.(polling := s.f.polling - {x});
    s.(f := if again then AfterStart(f, x, rv) else f)
  }

  // ----- ata_deactivate_xfer, ata_free_xfer, ata_timo_xfer_check

  function Deactivated(q: Queue, x: Xfer): Queue {
    var k := if x in q.slot then q.slot[x] else 0;
    q.(active := Remove(q.active, x),
       queueActive := q.queueActive - 1,
       used := q.used - {k},
       avail := q.avail + {k})
  }

  /** The callout is stopped for the last transfer; a callback under way is remembered. */
  function TimerRaced(l: Life, x: Xfer, last: bool): Life {
    l.(armed := l.armed && !last,
       waitTimo := if l.invoking then l.waitTimo + {x} else l.waitTimo)
  }

  function ApplyDeactivate(s: State, x: Xfer): State {
    s.(q := Deactivated(s.q, x), l := TimerRaced(s.l, x, s.q.queueActive == 1))
  }

  /** The body of ata_free_xfer(): defer while somebody waits, else return to the pool. */
  function FreeBody(l: Life, x: Xfer): Life {
    if x in l.waitAct || x in l.waitTimo then l.(freeReq := l.freeReq + {x})
    else if x.priv then l
    else l.(puts := l.puts + multiset{x})
  }

  function ApplyFree(s: State, x: Xfer): State {
    s.(l := FreeBody(s.l.(freeCalled := s.l.freeCalled + {x}), x))
  }

  function ApplyTimoCheck(s: State, x: Xfer): State {
    if x !in s.l.waitTimo then s
    else if x in s.l.freeReq then
      s.(l := s.l.(
           waitTimo := s.l.waitTimo - {x},
           freeReq := s.l.freeReq - {x},
           timoFreeing := s.l.timoFreeing + {x}))
    else s.(l := s.l.(waitTimo := s.l.waitTimo - {x}))
  }

  function ApplyTimoFree(s: State, x: Xfer): State {
    s.(l := FreeBody(s.l.(timoFreeing := s.l.timoFreeing - {x}), x))
  }

  // ----- ata_kill_pending, ata_waitdrain_xfer_check

  /** One turn of the loop over queue_xfer; a head of another drive is looked at again. */
  function KillTurn(pending: seq<Xfer>, drive: nat): seq<Xfer> {
    if pending != [] && pending[0].drive == drive then pending[1..] else pending
  }

  predicate DriveActive(q: Queue, drive: nat) {
    exists i :: 0 <= i < |q.active| && q.active[i].drive == drive
  }

  /** The drain loop is left when nothing is active or nothing active is on the drive. */
  predicate Drained(q: Queue, drive: nat) {
    q.queueActive <= 0 || !DriveActive(q, drive)
  }

  /** The drive asks to be told, and its drain goes to sleep. */
  function Sleeps(r: Drain, drive: nat): Drain {
    r.(waiting := r.waiting + {drive}, asleep := r.asleep + {drive})
  }

  /** After the kill: the flag of the transfer's drive goes, and one sleeper, of any drive, wakes. */
  function Signalled(r: Drain, x: Xfer, woken: nat): Drain {
    Drain(r.waiting - {x.drive}, r.asleep - {woken}, r.killing - {x})
  }

  // ----- freeze, thaw, ata_thread_run and the worker

  function ApplySchedule(f: Freeze, kind: RunType, drive: nat): Freeze {
    if kind == Reset && Reset in f.flags then f
    else if kind == DriveReset && drive in f.driveTh then f
    else
      var f := if kind == DriveReset then f.(driveTh := f.driveTh + {drive}) else f;
      if kind in f.flags then f else f.(count := f.count + 1, flags := f.flags + {kind})
  }

  /** The freezing half of a synchronous run: it absorbs a scheduled run of its kind. */
  function Begin(f: Freeze, kind: RunType): (Freeze, SyncRun) {
    (f.(count := f.count + 1, flags := f.flags - {kind}), SyncRun(kind, kind in f.flags))
  }

  function ApplySyncEnd(f: Freeze, i: nat): Freeze
    requires i < |f.runs|
  {
    f.(count := f.count - f.runs[i].Owed(), runs := f.runs[..i] + f.runs[i + 1..])
  }

  /** A thaw pays back an ata_channel_freeze() when one is outstanding. */
  function ApplyThaw(f: Freeze): Freeze {
    if f.explicit > 0 then f.(count := f.count - 1, explicit := f.explicit - 1)
    else f.(count := f.count - 1, stolen := f.stolen + 1)
  }

  /** The branch the worker reserves for a transfer postponed by ATASTART_TH. */
  predicate TakesHandoff(s: State) {
    s.f.worker == Top && s.f.flags == {} && s.q.queueActive > 0 && s.f.count == 1
  }

  function TakeHandoff(f: Freeze): Freeze {
    if f.handoff != [] then f.(count := f.count - 1, handoff := f.handoff[1..])
    else f.(count := f.count - 1, stolen := f.stolen + 1)
  }

  /** ata_xfer_start() in the worker; being told to postpone to the thread is a panic there. */
  function WorkerStarts(s: State, x: Xfer, rv: StartRv): State {
    match rv
    case Th => s.(f := s.f.(count := s.f.count + 1, handoff := s.f.handoff + [x]), panic := UnexpectedRv)
    case Poll => s.(f := s.f.(worker := InPoll(x)))
    case _ => s
  }

  function WorkerTop(s: State, rv: StartRv): State {
    if Reset in s.f.flags then
      var (f, run) := Begin(s.f, Reset); s.(f := f.(worker := InRun(run)))
    else if DriveReset in s.f.flags then s.(f := s.f.(worker := InDrives(0)))
    else if Recovery in s.f.flags then
      var (f, run) := Begin(s.f, Recovery); s.(f := f.(worker := InRun(run)))
    else if s.q.queueActive > 0 && s.f.count == 1 then
      if s.q.active == [] then s
      else WorkerStarts(s.(f := TakeHandoff(s.f)), s.q.active[0], rv)
    else if s.f.count > 1 then s.(panic := QueueFreeze)
    else s
  }

  function ApplyWorker(c: Config, s: State, rv: StartRv): State {
    match s.f.worker
    case Top => WorkerTop(s, rv)
    case InRun(run) => s.(f := s.f.(count := s.f.count - run.Owed(), worker := Top))
    case InDrives(i) =>
      if i >= c.NDrives() then
        s.(f := s.f.(
             flags := s.f.flags - {DriveReset},
             leaked := if DriveReset in s.f.flags then s.f.leaked + 1 else s.f.leaked,
             worker := Top))
      else if i in s.f.driveTh then
        var (f, run) := Begin(s.f, DriveReset); s.(f := f.(worker := InDriveRun(i, run)))
      else s.(f := s.f.(worker := InDrives(i + 1)))
    case InDriveRun(i, run) => s.(f := s.f.(count := s.f.count - run.Owed(), worker := InDrives(i + 1)))
    case InPoll(_) => s
  }

  /** c_poll returns to the worker, which starts the transfer again when it is told to. */
  function ApplyWorkerPoll(s: State, again: bool, rv: StartRv): State
    requires s.f.worker.InPoll?
  {
    var t := s.(f := s.f.(worker := Top));
    if again then WorkerStarts(t, s.f.worker.x, rv) else t
  }

  // ----- the transition system

  function Apply(c: Config, s: State, e: Event): State
    requires Enabled(c, s, e)
  {
    match e
    case Exec(x) => ApplyExec(s, x)
    case ExecWake(x) => ApplyExecWake(s, x)
    case Start(slot, claim, rv) => ApplyStart(c, s, slot, claim, rv)
    case PollDone(x, again, rv) => ApplyPollDone(s, x, again, rv)
    case Deactivate(x) => ApplyDeactivate(s, x)
    case Free(x) => ApplyFree(s, x)
    case TimerArm => s.(l := s.l.(armed := true))
    case TimerFire => s.(l := s.l.(armed := false, invoking := true))
    case TimerDone => s.(l := s.l.(invoking := false))
    case TimoCheck(x) => ApplyTimoCheck(s, x)
    case TimoFree(x) => ApplyTimoFree(s, x)
    case KillPending(d) => s.(q := s.q.(pending := KillTurn(s.q.pending, d)))
    case DrainTurn(d) => if Drained(s.q, d) then s else s.(q := s.q.(drain := Sleeps(s.q.drain, d)))
    case DrainCheck(x) => s.(q := s.q.(drain := s.q.drain.(killing := s.q.drain.killing + {x})))
    case DrainSignal(x, woken) => s.(q := s.q.(drain := Signalled(s.q.drain, x, woken)))
    case Schedule(kind, d) => s.(f := ApplySchedule(s.f, kind, d))
    case SyncBegin(kind) =>
      var (f, run) := Begin(s.f, kind); s.(f := f.(runs := f.runs + [run]))
    case SyncEnd(i) => s.(f := ApplySyncEnd(s.f, i))
    case FreezeCall => s.(f := s.f.(count := s.f.count + 1, explicit := s.f.explicit + 1))
    case ThawCall => s.(f := ApplyThaw(s.f))
    case ClearDriveTh(d) => s.(f := s.f.(driveTh := s.f.driveTh - {d}))
    case WorkerStep(rv) => ApplyWorker(c, s, rv)
    case WorkerPoll(again, rv) => ApplyWorkerPoll(s, again, rv)
  }

  /**
   * When a section can run. The conditions on hooks and callers are the only ones the
   * model makes: a transfer is submitted once, for a drive of the channel, and recovery
   * transfers are not NCQ; only active transfers are deactivated, timed or polled again; a
   * transfer is freed by its driver once, after it left the queues; the timeout callback
   * ends only after checking every transfer that raced with it.
   */
  predicate Enabled(c: Config, s: State, e: Event) {
    s.panic == None &&
    match e
    case Exec(x) => x !in s.q.seen && x.drive < c.NDrives() && !(x.skip && x.ncq)
    case ExecWake(x) => x in s.l.waitAct
    case Start(slot, claim, rv) =>
      s.q.pending != [] && Candidates(c, s.q, s.q.pending[0]) != {} ==> slot in Candidates(c, s.q, s.q.pending[0])
    case PollDone(x, again, rv) => x in s.f.polling && (again ==> x in s.q.active)
    case Deactivate(x) => x in s.q.active
    case Free(x) => x in s.q.seen && x !in s.q.active && x !in s.q.pending && x !in s.l.freeCalled
    case TimerArm => s.q.queueActive > 0
    case TimerFire => s.l.armed && !s.l.invoking
    case TimerDone => s.l.invoking && s.l.waitTimo == {}
    case TimoCheck(x) => s.l.invoking && x in s.q.seen
    case TimoFree(x) => x in s.l.timoFreeing
    case DrainTurn(d) => d !in s.q.drain.asleep
    case DrainCheck(x) => x in s.q.active && x.drive in s.q.drain.waiting
    case DrainSignal(x, woken) =>
      x in s.q.drain.killing && x !in s.q.active && (s.q.drain.asleep != {} ==> woken in s.q.drain.asleep)
    case SyncEnd(i) => i < |s.f.runs|
    case WorkerStep(_) => !s.f.worker.InPoll?
    case WorkerPoll(again, _) => s.f.worker.InPoll? && (again ==> s.f.worker.x in s.q.active)
    case _ => true
  }

  predicate ValidRun(c: Config, s: State, es: seq<Event>)
    decreases |es|
  {
    es == [] || (Enabled(c, s, es[0]) && ValidRun(c, Apply(c, s, es[0]), es[1..]))
  }

  function Run(c: Config, s: State, es: seq<Event>): State
    requires ValidRun(c, s, es)
    decreases |es|
  {
    if es == [] then s else Run(c, Apply(c, s, es[0]), es[1..])
  }

  lemma {:induction false} RunConcat(c: Config, s: State, a: seq<Event>, b: seq<Event>)
    requires ValidRun(c, s, a) && ValidRun(c, Run(c, s, a), b)
    ensures ValidRun(c, s, a + b) && Run(c, s, a + b) == Run(c, Run(c, s, a), b)
    decreases |a|
  {
    hide Enabled, Apply;
    if a == [] {
      assert a + b == b;
    } else {
      assert (a + b)[0] == a[0] && (a + b)[1..] == a[1..] + b;
      RunConcat(c, Apply(c, s, a[0]), a[1..], b);
    }
  }

  lemma RunOne(c: Config, s: State, e: Event)
    requires Enabled(c, s, e)
    ensures ValidRun(c, s, [e]) && Run(c, s, [e]) == Apply(c, s, e)
  {
    assert [e][1..] == [];
    assert ValidRun(c, Apply(c, s, e), []);
  }

  lemma RunSnoc(c: Config, s: State, es: seq<Event>, e: Event)
    requires ValidRun(c, s, es) && Enabled(c, Run(c, s, es), e)
    ensures ValidRun(c, s, es + [e]) && Run(c, s, es + [e]) == Apply(c, Run(c, s, es), e)
  {
    RunOne(c, Run(c, s, es), e);
    RunConcat(c, s, es, [e]);
  }

  lemma RunThree(c: Config, s: State, e1: Event, e2: Event, e3: Event)
    requires Enabled(c, s, e1) && Enabled(c, Apply(c, s, e1), e2)
    requires Enabled(c, Apply(c, Apply(c, s, e1), e2), e3)
    ensures ValidRun(c, s, [e1, e2, e3])
    ensures Run(c, s, [e1, e2, e3]) == Apply(c, Apply(c, Apply(c, s, e1), e2), e3)
  {
    assert [e1, e2, e3][1..] == [e2, e3] && [e2, e3][1..] == [e3] && [e3][1..] == [];
    var t := Apply(c, Apply(c, s, e1), e2);
    assert ValidRun(c, Apply(c, t, e3), []) && ValidRun(c, t, [e3]);
    assert ValidRun(c, Apply(c, s, e1), [e2, e3]);
    assert Run(c, t, [e3]) == Apply(c, t, e3);
    assert Run(c, Apply(c, s, e1), [e2, e3]) == Apply(c, t, e3);
  }

  lemma RunFive(c: Config, s: State, e1: Event, e2: Event, e3: Event, e4: Event, e5: Event)
    requires Enabled(c, s, e1) && Enabled(c, Apply(c, s, e1), e2)
    requires Enabled(c, Apply(c, Apply(c, s, e1), e2), e3)
    requires var t := Apply(c, Apply(c, Apply(c, s, e1), e2), e3);
      Enabled(c, t, e4) && Enabled(c, Apply(c, t, e4), e5)
    ensures ValidRun(c, s, [e1, e2, e3, e4, e5])
    ensures Run(c, s, [e1, e2, e3, e4, e5])
         == Apply(c, Apply(c, Apply(c, Apply(c, Apply(c, s, e1), e2), e3), e4), e5)
  {
    RunThree(c, s, e1, e2, e3);
    RunSnoc(c, s, [e1, e2, e3], e4);
    assert [e1, e2, e3] + [e4] == [e1, e2, e3, e4];
    RunSnoc(c, s, [e1, e2, e3, e4], e5);
    assert [e1, e2, e3, e4] + [e5] == [e1, e2, e3, e4, e5];
  }
}
