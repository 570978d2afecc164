/** The handshake by which ata_kill_pending() learns that a drive's transfers are gone. */
module AtaDrain {
  import opened Seqs
  import opened AtaChannel
  import opened AtaQueueInv
  import opened AtaQueueResults

  /** Some interrupt is, or will be, on its way to signal queue_drain. */
  ghost predicate SignalComes(q: Queue) {
    q.drain.killing != {} || exists x :: x in q.active && x.drive in q.drain.waiting
  }

  /** No transfer is started and no drain turns meanwhile. */
  predicate Settling(es: seq<Event>) {
    forall i :: 0 <= i < |es| ==> !es[i].Start? && !es[i].DrainTurn?
  }

  /** The sleeper of the drive gets to test again. */
  ghost predicate Wakes(c: Config, s: State, es: seq<Event>, drive: nat) {
    ValidRun(c, s, es) && Settling(es) && drive !in Run(c, s, es).q.drain.asleep
  }

  lemma NoSignalStep(c: Config, s: State, e: Event)
    requires Enabled(c, s, e) && !e.Start? && !e.DrainTurn? && Distinct(s.q.active) && !SignalComes(s.q)
    ensures !SignalComes(Apply(c, s, e).q) && Apply(c, s, e).q.drain.asleep == s.q.drain.asleep
  {
    match e
    case Deactivate(x) => RemoveKeepsOthers(s.q.active, x);
    case WorkerStep(rv) => WorkerMovesFreezeOnly(c, s, rv);
    case _ =>
  }

  lemma {:induction false} NoSignalRun(c: Config, s: State, es: seq<Event>)
    requires QueueInv(c, s.q) && ValidRun(c, s, es) && Settling(es) && !SignalComes(s.q)
    ensures Run(c, s, es).q.drain.asleep == s.q.drain.asleep
    decreases |es|
  {
    if es != [] {
      assert Distinct(s.q.active);
      NoSignalStep(c, s, es[0]);
      QueueStep(c, s, es[0]);
      NoSignalRun(c, Apply(c, s, es[0]), es[1..]);
    }
  }

  lemma Prepend(c: Config, s: State, e: Event, rest: seq<Event>, drive: nat)
    requires Enabled(c, s, e) && !e.Start? && !e.DrainTurn? && Wakes(c, Apply(c, s, e), rest, drive)
    ensures Wakes(c, s, [e] + rest, drive)
  {
    hide Enabled, Apply;
    assert ([e] + rest)[0] == e && ([e] + rest)[1..] == rest;
  }

  /** A killed transfer leaves the active list, then the sleeper is signalled. */
  lemma KilledSignals(c: Config, s: State, x: Xfer, drive: nat) returns (es: seq<Event>)
    requires s.panic == None && Distinct(s.q.active) && x in s.q.drain.killing && drive in s.q.drain.asleep
    ensures Wakes(c, s, es, drive)
  {
    var t := if x in s.q.active then ApplyDeactivate(s, x) else s;
    if x in s.q.active { RemoveKeepsOthers(s.q.active, x); }
    var e := DrainSignal(x, drive);
    assert Enabled(c, t, e) && ValidRun(c, Apply(c, t, e), []);
    assert Wakes(c, Apply(c, t, e), [], drive);
    Prepend(c, t, e, [], drive);
    es := [e] + [];
    if x in s.q.active {
      Prepend(c, s, Deactivate(x), es, drive);
      es := [Deactivate(x)] + es;
    }
  }

  /**
   * A sleeping drain can be woken by what is already going on if and only if a transfer is
   * being killed by the interrupt check, or an active transfer is on a drive with the flag.
   */
  lemma SleeperWakesIff(c: Config, s: State, drive: nat)
    requires QueueInv(c, s.q) && s.panic == None && drive in s.q.drain.asleep
    ensures (exists es :: Wakes(c, s, es, drive)) <==> SignalComes(s.q)
  {
    assert Distinct(s.q.active);
    if s.q.drain.killing != {} {
      var x :| x in s.q.drain.killing;
      var es := KilledSignals(c, s, x, drive);
    } else if SignalComes(s.q) {
      var x :| x in s.q.active && x.drive in s.q.drain.waiting;
      var es := KilledSignals(c, Apply(c, s, DrainCheck(x)), x, drive);
      Prepend(c, s, DrainCheck(x), es, drive);
    } else {
      forall es | ValidRun(c, s, es) && Settling(es) ensures drive in Run(c, s, es).q.drain.asleep {
        NoSignalRun(c, s, es);
      }
    }
  }

  /** The same of every reachable state. */
  lemma DrainWakesIff(c: Config, es: seq<Event>, drive: nat)
    requires c.Valid() && ValidRun(c, Init(c), es)
    requires var s := Run(c, Init(c), es); s.panic == None && drive in s.q.drain.asleep
    ensures var s := Run(c, Init(c), es);
      (exists more :: Wakes(c, s, more, drive)) <==> SignalComes(s.q)
  {
    hide QueueInv;
    Reachable(c, es);
    SleeperWakesIff(c, Run(c, Init(c), es), drive);
  }

  /**
   * Going to sleep with a transfer active on the drive is never for good: what is already
   * active is enough to wake the sleeper.
   */
  lemma SleepIsWoken(c: Config, es: seq<Event>, drive: nat)
    requires c.Valid() && ValidRun(c, Init(c), es)
    requires var s := Run(c, Init(c), es);
      Enabled(c, s, DrainTurn(drive)) && exists x :: x in s.q.active && x.drive == drive
    ensures exists more :: Wakes(c, Apply(c, Run(c, Init(c), es), DrainTurn(drive)), more, drive)
  {
    hide QueueInv, Wakes;
    Reachable(c, es);
    var more := SleeperIsTold(c, Run(c, Init(c), es), drive);
  }

  lemma SleeperIsTold(c: Config, s: State, drive: nat) returns (more: seq<Event>)
    requires QueueInv(c, s.q) && Enabled(c, s, DrainTurn(drive)) && exists x :: x in s.q.active && x.drive == drive
    ensures Wakes(c, Apply(c, s, DrainTurn(drive)), more, drive)
  {
    var x :| x in s.q.active && x.drive == drive;
    var i :| 0 <= i < |s.q.active| && s.q.active[i] == x;
    assert DriveActive(s.q, drive);
    var t := Apply(c, s, DrainTurn(drive));
    ActiveCount(c, s.q);
    assert t.q.active == s.q.active && t.panic == None && drive in t.q.drain.asleep;
    assert Distinct(t.q.active);
    var u := Apply(c, t, DrainCheck(x));
    more := KilledSignals(c, u, x, drive);
    Prepend(c, t, DrainCheck(x), more, drive);
    more := [DrainCheck(x)] + more;
  }

  const OVERSLEPT_RUN := [Exec(DATA), Start(0, true, Started), DrainTurn(0), Deactivate(DATA)]

  /**
   * A transfer that is deactivated otherwise than through the interrupt check, as by a timeout
   * or ata_kill_active(), leaves the drain asleep with nothing to wait for and nobody to wake it.
   */
  lemma OversleptReachable(c: Config)
    requires c.Valid() && c.NDrives() > 0
    ensures ValidRun(c, Init(c), OVERSLEPT_RUN)
    ensures var s := Run(c, Init(c), OVERSLEPT_RUN);
      0 in s.q.drain.asleep && Drained(s.q, 0) && !SignalComes(s.q) && s.panic == None
  {
    var start, turn, gone := Start(0, true, Started), DrainTurn(0), Deactivate(DATA);
    var s1, s2 := DataStarts(c, Started);
    assert DriveActive(s2.q, 0) by { assert s2.q.active[0] == DATA; }
    var s3 := Apply(c, s2, turn);
    var s4 := Apply(c, s3, gone);
    assert Enabled(c, s2, turn) && Enabled(c, s3, gone);
    assert s4.q.active == [] && s4.q.drain == Drain({0}, {0}, {});
    assert !SignalComes(s4.q) && Drained(s4.q, 0) && s4.panic == None;
    hide Apply, Enabled, Run, ValidRun, SignalComes, Drained;
    RunThree(c, Init(c), Exec(DATA), start, turn);
    RunSnoc(c, Init(c), [Exec(DATA), start, turn], gone);
    assert [Exec(DATA), start, turn] + [gone] == OVERSLEPT_RUN;
  }
}
