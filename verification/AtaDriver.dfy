/**
 * The channel as the driver keeps it: fields updated in place. The methods for sections of
 * code under the channel lock are proved equal to the events their contracts name and keep
 * Valid(); the others are the parts those are made of.
 */
module AtaDriver {
  import opened Seqs
  import opened AtaChannel
  import opened AtaQueueInv
  import opened AtaQueueResults
  import opened AtaFreeze
  import opened AtaLife
  import opened AtaSections
  import opened AtaStartLoop

  /** What every section keeps: queues, slots and order; freezes owed; frees accounted for. */
  ghost predicate ValidState(c: Config, s: State) {
    QueueInv(c, s.q) && FreezeInv(s.f) && LifeInv(s.q, s.l)
  }

  lemma EventKeeps(c: Config, s: State, e: Event)
    requires ValidState(c, s) && Enabled(c, s, e)
    ensures ValidState(c, Apply(c, s, e))
  {
    hide QueueInv, FreezeInv, LifeInv;
    QueueStep(c, s, e);
    FreezeStep(c, s, e);
    LifeStep(c, s, e);
  }

  lemma TurnKeeps(c: Config, s: State, ch: Choice)
    requires ValidState(c, s) && Enabled(c, s, ch.Event())
    ensures ValidState(c, Turn(c, s, ch))
  {
    hide QueueInv, FreezeInv, LifeInv, Turn;
    var es := TurnIsRun(c, s, ch);
    QueueRun(c, s, es);
    FreezeRun(c, s, es);
    LifeRun(c, s, es);
  }

  lemma OthersStay(c: Config, s: State, x: Xfer)
    requires ValidState(c, s) && x in s.q.active
    ensures forall y :: y in Remove(s.q.active, x) <==> y in s.q.active && y != x
    ensures |Remove(s.q.active, x)| == s.q.queueActive - 1
  {
    hide FreezeInv, LifeInv, Ordered;
    RemoveKeepsOthers(s.q.active, x);
  }

  lemma NotFreedYet(c: Config, s: State, x: Xfer)
    requires ValidState(c, s) && x !in s.l.freeCalled
    ensures x !in s.l.freeReq && s.l.puts[x] == 0
  {
    hide QueueInv, FreezeInv;
  }

  lemma MasksAgree(c: Config, s: State)
    requires ValidState(c, s)
    ensures s.q.used !! s.q.avail && s.q.queueActive == |s.q.active| <= c.openings
    ensures forall x :: x in s.q.active ==> x in s.q.slot && s.q.slot[x] in s.q.used
  {
    hide FreezeInv, LifeInv;
  }

  /** With no unmatched thaw, a run in progress finds its freezes in the count. */
  lemma RunsCovered(c: Config, s: State, i: nat)
    requires ValidState(c, s) && s.f.stolen == 0
    ensures s.f.count >= s.f.worker.Owed() && (i < |s.f.runs| ==> s.f.count >= s.f.runs[i].Owed())
  {
    hide QueueInv, LifeInv;
    if i < |s.f.runs| { RunsOwedRemove(s.f.runs, i); }
  }

  lemma ClearIs(c: Config, s: State, drive: nat)
    requires s.panic == None
    ensures Enabled(c, s, ClearDriveTh(drive))
    ensures Apply(c, s, ClearDriveTh(drive)) == s.(f := s.f.(driveTh := s.f.driveTh - {drive}))
  {
  }

  lemma WorkerStepIs(c: Config, s: State, rv: StartRv)
    requires s.panic == None && !s.f.worker.InPoll?
    ensures Enabled(c, s, WorkerStep(rv)) && Apply(c, s, WorkerStep(rv)) == ApplyWorker(c, s, rv)
  {
  }

  class Channel {
    const config: Config
    // struct ata_queue
    var queueXfer: seq<Xfer>
    var activeXfers: seq<Xfer>
    var queueActive: int
    var activeXfersUsed: set<nat>
    var slotsAvail: set<nat>
    var queueFreeze: int
    // struct ata_channel and struct ata_drive_datas
    var chFlags: set<RunType>
    var ncq: bool
    var driveThReset: set<nat>
    var driveWaitDrain: set<nat>
    var timerArmed: bool
    var timerInvoking: bool
    // struct ata_xfer: c_slot, C_WAITACT, C_WAITTIMO, C_FREE
    var slotOf: map<Xfer, nat>
    var cWaitAct: set<Xfer>
    var cWaitTimo: set<Xfer>
    var cFree: set<Xfer>
    var panicked: Panic
    // what the code does not store: submissions, threads under way, the pool
    ghost var seen: set<Xfer>
    ghost var asleep: set<nat>
    ghost var killing: set<Xfer>
    ghost var books: Freeze
    ghost var timoFreeing: set<Xfer>
    ghost var freeCalled: set<Xfer>
    ghost var pool: multiset<Xfer>

    ghost function QueueState(): Queue
      reads `queueXfer, `activeXfers, `queueActive, `activeXfersUsed, `slotsAvail, `slotOf, `ncq, `driveWaitDrain, `seen,
            `asleep, `killing
    {
      Queue(queueXfer, activeXfers, queueActive, activeXfersUsed, slotsAvail, slotOf, ncq,
            Drain(driveWaitDrain, asleep, killing), seen)
    }

    ghost function FreezeState(): Freeze
      reads `books, `queueFreeze, `chFlags, `driveThReset
    {
      books.(count := queueFreeze, flags := chFlags, driveTh := driveThReset)
    }

    ghost function LifeState(): Life
      reads `cWaitAct, `cWaitTimo, `cFree, `timoFreeing, `freeCalled, `pool, `timerArmed, `timerInvoking
    {
      Life(cWaitAct, cWaitTimo, cFree, timoFreeing, freeCalled, pool, timerArmed, timerInvoking)
    }

    ghost function State(): State
      reads this
    {
      AtaChannel.State(QueueState(), FreezeState(), LifeState(), panicked)
    }

    ghost predicate Valid()
      reads this
    {
      ValidState(config, State())
    }

    constructor (c: Config)
      requires c.Valid()
      ensures config == c && State() == Init(c) && Valid()
    {
      config := c;
      queueXfer, activeXfers, queueActive, activeXfersUsed := [], [], 0, {};
      slotsAvail, queueFreeze := Bits(c.openings), 0;
      chFlags, ncq, driveThReset, driveWaitDrain := {}, false, {}, {};
      timerArmed, timerInvoking := false, false;
      slotOf, cWaitAct, cWaitTimo, cFree, panicked := map[], {}, {}, {}, None;
      asleep, killing := {}, {};
      seen, timoFreeing, freeCalled, pool := {}, {}, {}, multiset{};
      books := Freeze(0, {}, {}, [], Top, {}, 0, [], 0, 0);
      new;
      InitQueue(c);
      InitLife(c);
    }

    /** The insertion and the first wait test of ata_exec_xfer(); true if the caller now sleeps. */
    method ExecXfer(x: Xfer) returns (sleeps: bool)
      requires Valid() && Enabled(config, State(), Exec(x))
      modifies this
      ensures State() == Apply(config, old(State()), Exec(x)) && Valid()
      ensures queueXfer == if x.skip then [x] + old(queueXfer) else old(queueXfer) + [x]
      ensures sleeps <==> x.poll && x.wait && (queueActive > 0 || queueXfer[0] != x)
      ensures cWaitAct == old(cWaitAct) + if sleeps then {x} else {}
    {
      hide FreezeState, ValidState;
      EventKeeps(config, State(), Exec(x));
      if !x.skip {
        queueXfer := queueXfer + [x];
      } else {
        queueXfer := [x] + queueXfer;
      }
      seen := seen + {x};
      sleeps := x.poll && x.wait && (queueActive > 0 || queueXfer[0] != x);
      if sleeps {
        cWaitAct := cWaitAct + {x};
      }
    }

    /** The caller of ata_exec_xfer() is woken and tests again: true if it goes on. */
    method ExecWakes(x: Xfer) returns (goes: bool)
      requires Valid() && Enabled(config, State(), ExecWake(x))
      modifies `cWaitAct
      ensures State() == Apply(config, old(State()), ExecWake(x)) && Valid()
      ensures goes <==> queueActive <= 0 && queueXfer != [] && queueXfer[0] == x
      ensures cWaitAct == old(cWaitAct) - if goes then {x} else {}
    {
      hide FreezeState, ValidState;
      EventKeeps(config, State(), ExecWake(x));
      cWaitAct := cWaitAct - {x};
      goes := queueActive <= 0 && queueXfer != [] && queueXfer[0] == x;
      if !goes {
        cWaitAct := cWaitAct + {x};
        assert cWaitAct == old(cWaitAct);
      }
    }

    /** ata_queue_alloc_slot(): some free slot below both opening counts, or none. */
    method AllocSlot(x: Xfer) returns (ok: bool, slot: nat)
      modifies `slotsAvail
      ensures ok <==> Candidates(config, old(QueueState()), x) != {}
      ensures ok ==> slot in Candidates(config, old(QueueState()), x)
      ensures ok ==> slot in old(slotsAvail) && slotsAvail == old(slotsAvail) - {slot} && slot < config.openings
      ensures ok && x.ncq ==> x.drive < config.NDrives() && slot < config.drvOpenings[x.drive]
      ensures !ok ==> slotsAvail == old(slotsAvail)
    {
      var openings := Min(config.openings, DrvOpenings(config, x));
      var free := set k | k in slotsAvail && k < openings;
      assert free == Candidates(config, QueueState(), x);
      ok, slot := free != {}, 0;
      if ok {
        slot :| slot in free;
        slotsAvail := slotsAvail - {slot};
      }
    }

    method FreeSlot(slot: nat)
      modifies `slotsAvail
      ensures slotsAvail == old(slotsAvail) + {slot}
    {
      slotsAvail := slotsAvail + {slot};
    }

    /**
     * ata_activate_xfer_locked(). A skip-queue transfer becomes the one that
     * ata_queue_get_active_xfer() returns; any other leaves that choice as it was.
     */
    method ActivateXferLocked(x: Xfer, slot: nat)
      requires slot !in activeXfersUsed
      modifies `activeXfers, `activeXfersUsed, `queueActive
      ensures activeXfers == if x.skip then [x] + old(activeXfers) else old(activeXfers) + [x]
      ensures activeXfersUsed == old(activeXfersUsed) + {slot} && queueActive == old(queueActive) + 1
      ensures x.skip || old(activeXfers) == [] ==> activeXfers[0] == x
      ensures !x.skip && old(activeXfers) != [] ==> activeXfers[0] == old(activeXfers)[0]
      ensures SkipFirst(old(activeXfers)) ==> SkipFirst(activeXfers)
      ensures |old(activeXfersUsed)| == old(queueActive) ==> |activeXfersUsed| == queueActive
    {
      if !x.skip {
        activeXfers := activeXfers + [x];
      } else {
        activeXfers := [x] + activeXfers;
      }
      activeXfersUsed := activeXfersUsed + {slot};
      queueActive := queueActive + 1;
    }

    /**
     * ata_xfer_start(): c_start answers first, and, each time c_poll says to try again, the
     * next of more. The lock is free while c_poll runs.
     */
    method XferStart(x: Xfer, first: StartRv, more: seq<StartRv>) returns (rv: StartRv)
      modifies `queueFreeze, `books
      ensures FreezeState() == AfterCalls(old(FreezeState()), x, first, more)
      ensures rv == FinalRv(first, more) && FinalAnswer(first, more, rv)
      ensures queueFreeze == old(queueFreeze) + if rv == Th then 1 else 0
      ensures FreezeState().handoff == old(FreezeState().handoff) + if rv == Th then [x] else []
    {
      FinalRvIs(first, more);
      CallsEffect(FreezeState(), x, first, more);
      hide FinalAnswer;
      rv := first;
      var rest, again := more, true;
      while again
        invariant again ==> AfterCalls(FreezeState(), x, rv, rest) == AfterCalls(old(FreezeState()), x, first, more)
        invariant FinalRv(rv, rest) == FinalRv(first, more) && (!again ==> rv == FinalRv(first, more))
        invariant !again ==> FreezeState() == AfterCalls(old(FreezeState()), x, first, more)
        decreases again, |rest|
      {
        again := false;
        match rv {
          case Th =>
            queueFreeze := queueFreeze + 1;
            books := books.(handoff := books.handoff + [x]);
          case Poll =>
            books := books.(polling := books.polling + {x});
            books := books.(polling := books.polling - {x});
            if rest != [] {
              rv, rest, again := rest[0], rest[1..], true;
            }
          case _ =>
        }
      }
    }

    /** The head goes from the pending queue to the active list; q is before its slot was taken. */
    method TakeHead(slot: nat, ghost q: Queue) returns (x: Xfer)
      requires queueXfer != [] && slot !in activeXfersUsed
      requires QueueState() == q.(avail := q.avail - {slot})
      modifies `slotOf, `ncq, `queueXfer, `activeXfers, `activeXfersUsed, `queueActive
      ensures QueueState() == Activated(q, slot) && queueXfer == old(queueXfer)[1..] && x == old(queueXfer)[0]
      ensures queueActive == old(queueActive) + 1 && ncq == x.ncq && slotOf == old(slotOf)[x := slot]
    {
      hide SkipFirst;
      x := queueXfer[0];
      slotOf := slotOf[x := slot];
      ncq := x.ncq;
      queueXfer := queueXfer[1..];
      ActivateXferLocked(x, slot);
    }

    /** From "now committed to start the xfer" to the answer of ata_xfer_start(). */
    method Commit(slot: nat, hooks: Hooks, ghost q: Queue) returns (rv: StartRv)
      requires queueXfer != [] && slot !in activeXfersUsed
      requires QueueState() == q.(avail := q.avail - {slot})
      modifies `slotOf, `ncq, `queueXfer, `activeXfers, `activeXfersUsed, `queueActive, `queueFreeze, `books
      ensures QueueState() == Activated(q, slot) && queueXfer == old(queueXfer)[1..]
      ensures queueActive == old(queueActive) + 1 && rv == FinalRv(hooks.rv, hooks.more)
      ensures FreezeState() == AfterCalls(old(FreezeState()), old(queueXfer[0]), hooks.rv, hooks.more)
    {
      hide QueueState, FreezeState, Activated, AfterCalls, FinalRv;
      var x := TakeHead(slot, q);
      rv := XferStart(x, hooks.rv, hooks.more);
    }

    /**
     * The head has passed every test: take a slot, claim the hardware, start. A claim that
     * fails gives the slot back, so that nothing at all has changed.
     */
    method StartHead(hooks: Hooks) returns (started: bool, rv: StartRv, ghost slot: nat)
      requires panicked == None && Judge(config, State(), hooks.claim) in {NoSlot, ClaimFailed, Activates}
      requires activeXfersUsed !! slotsAvail
      modifies `slotOf, `ncq, `queueXfer, `activeXfers, `activeXfersUsed, `queueActive, `queueFreeze, `slotsAvail, `books
      ensures started <==> Judge(config, old(State()), hooks.claim) == Activates
      ensures Enabled(config, old(State()), Choice(slot, hooks).Event())
      ensures State() == Turn(config, old(State()), Choice(slot, hooks))
      ensures started ==> queueXfer == old(queueXfer)[1..] && rv == FinalRv(hooks.rv, hooks.more)
      ensures queueActive == old(queueActive) + if started then 1 else 0
    {
      hide Judge, Enabled, Turn, GoesOn, Candidates, Activated, AfterCalls, Limit, LifeState;
      ghost var s := State();
      HeadCases(config, s, Choice(0, hooks));
      var ok, picked := AllocSlot(queueXfer[0]);
      started, slot, rv := ok && hooks.claim, picked, hooks.rv;
      HeadCases(config, s, Choice(slot, hooks));
      if !ok { return; }
      if !hooks.claim {
        FreeSlot(picked);
        assert slotsAvail == s.q.avail;
        return;
      }
      rv := Commit(picked, hooks, s.q);
    }

    /** The tests of the head that send atastart() home: asleep, frozen, or not of the active set. */
    method HeadWaits() returns (waits: bool)
      requires queueXfer != []
      ensures waits <==> Judge(config, State(), true) in {HeadWaiting, Frozen, Incompatible}
      ensures var x := queueXfer[0];
        waits <==>
          || x in cWaitAct || (!x.skip && queueFreeze > 0)
          || (!x.skip && activeXfers != [] && !(x.ncq && activeXfers[0].ncq && x.drive == activeXfers[0].drive))
    {
      var x := queueXfer[0];
      if x in cWaitAct { return true; }
      if x.skip { return false; }
      if queueFreeze > 0 { return true; }
      if activeXfers == [] { return false; }
      var axfer := activeXfers[0];
      waits := !x.ncq || !axfer.ncq || x.drive != axfer.drive;
    }

    /** One turn of the loop of atastart(). The slot picked is reported. */
    method StartTurn(hooks: Hooks) returns (again: bool, ghost slot: nat)
      requires Valid() && panicked == None
      modifies this
      ensures Enabled(config, old(State()), Choice(slot, hooks).Event())
      ensures State() == Turn(config, old(State()), Choice(slot, hooks)) && Valid()
      ensures again <==> GoesOn(config, old(State()), Choice(slot, hooks))
      ensures again ==> old(queueXfer) != [] && queueXfer == old(queueXfer)[1..] && panicked == None
      ensures Startable(config, old(State())) && hooks.claim ==>
        && HeadTaken(config, old(State()), State(), slot)
        && queueFreeze == old(queueFreeze) + if FinalRv(hooks.rv, hooks.more) == Th then 1 else 0
      ensures !(Startable(config, old(State())) && hooks.claim) ==>
        State() == if NotPossible(config, old(State())) then old(State()).(panic := XferNotPossible) else old(State())
      ensures again <==>
        && Startable(config, old(State())) && hooks.claim && FinalRv(hooks.rv, hooks.more) in {Started, Poll}
        && !old(queueXfer)[0].skip && queueActive < config.openings
    {
      hide QueueInv, FreezeInv, LifeInv, Startable, NotPossible, HeadTaken, GoesOn, Turn, Enabled, FinalRv;
      ghost var s := State();
      again, slot := StartTurnBody(hooks);
      TurnKeeps(config, s, Choice(slot, hooks));
      TurnEffect(config, s, Choice(slot, hooks));
    }

    method StartTurnBody(hooks: Hooks) returns (again: bool, ghost slot: nat)
      requires Valid() && panicked == None
      modifies this
      ensures Enabled(config, old(State()), Choice(slot, hooks).Event())
      ensures State() == Turn(config, old(State()), Choice(slot, hooks))
      ensures again <==> GoesOn(config, old(State()), Choice(slot, hooks))
      ensures again ==> old(queueXfer) != [] && queueXfer == old(queueXfer)[1..] && panicked == None
      ensures Judge(config, old(State()), hooks.claim) in {NoSlot, ClaimFailed} ==> State() == old(State())
    {
      hide ValidState, Judge, Enabled, Turn, GoesOn, Candidates, PickAny, Limit;
      ghost var s := State();
      MasksAgree(config, s);
      again, slot := false, PickAny(config, s);
      HeadCases(config, s, Choice(slot, hooks));
      if queueXfer == [] { return; }
      var waits := HeadWaits();
      if waits { return; }
      var x := queueXfer[0];
      assert queueActive <= config.openings;
      if queueActive >= Limit(config, x) {
        if x.skip { panicked := XferNotPossible; }
        return;
      }
      var started, rv;
      started, rv, slot := StartHead(hooks);
      HeadCases(config, s, Choice(slot, hooks));
      again := started && (rv == Started || rv == Poll) && !x.skip && queueActive < config.openings;
    }

    /** atastart() with the answers of the hooks given in advance. */
    method AtaStart(hooks: seq<Hooks>) returns (ghost log: seq<Choice>)
      requires Valid() && panicked == None && |hooks| > |queueXfer|
      modifies this
      ensures |log| == |hooks| && forall i :: 0 <= i < |log| ==> log[i].hooks == hooks[i]
      ensures LegalSlots(config, old(State()), log)
      ensures State() == StartLoop(config, old(State()), log) && Valid()
    {
      hide FreezeState, LifeState, Judge, StartLoop, LegalSlots, Enabled, GoesOn, Reaches, Turn, ValidState;
      ghost var s := State();
      log := [];
      ReachesSelf(config, s);
      var again, n := true, 0;
      while again
        invariant 0 <= n <= |hooks| && Valid()
        invariant again ==> n == |log| && |hooks| - n > |queueXfer| && panicked == None
        invariant |log| <= |hooks| && forall i :: 0 <= i < |log| ==> log[i].hooks == hooks[i]
        invariant again ==> Reaches(config, s, log, State())
        invariant !again ==> |log| == |hooks| && LegalSlots(config, s, log) && State() == StartLoop(config, s, log)
        decreases again, |queueXfer|
      {
        ghost var t := State();
        ghost var slot;
        again, slot := StartTurn(hooks[n]);
        ghost var ch := Choice(slot, hooks[n]);
        if again {
          ReachesSnoc(config, s, log, t, ch);
          log := log + [ch];
        } else {
          ghost var rest := seq(|hooks| - n - 1, i requires 0 <= i < |hooks| - n - 1 => Choice(0, hooks[n + 1 + i]));
          LoopEnds(config, s, log, t, ch, rest);
          log := log + ([ch] + rest);
        }
        n := n + 1;
      }
    }

    /** The callout stops with the last transfer; a callback under way is remembered. */
    method RaceTimer(x: Xfer)
      modifies `timerArmed, `cWaitTimo
      ensures LifeState() == TimerRaced(old(LifeState()), x, queueActive == 1)
      ensures timerArmed <==> old(timerArmed) && queueActive != 1
      ensures cWaitTimo == old(cWaitTimo) + if timerInvoking then {x} else {}
    {
      if queueActive == 1 {
        timerArmed := false;
      }
      if timerInvoking {
        cWaitTimo := cWaitTimo + {x};
      }
    }

    /** Off the active list: its bit, the counter and its slot with it. */
    method LeaveActive(x: Xfer)
      requires queueActive > 0 && x in slotOf && slotOf[x] in activeXfersUsed
      modifies `activeXfers, `activeXfersUsed, `queueActive, `slotsAvail
      ensures QueueState() == Deactivated(old(QueueState()), x)
      ensures queueActive == old(queueActive) - 1 && activeXfersUsed == old(activeXfersUsed) - {slotOf[x]}
      ensures slotsAvail == old(slotsAvail) + {slotOf[x]} && activeXfers == Remove(old(activeXfers), x)
    {
      hide Remove;
      activeXfers := Remove(activeXfers, x);
      activeXfersUsed := activeXfersUsed - {slotOf[x]};
      queueActive := queueActive - 1;
      FreeSlot(slotOf[x]);
    }

    /** ata_deactivate_xfer(); its two assertions hold for every active transfer. */
    method DeactivateXfer(x: Xfer)
      requires Valid() && Enabled(config, State(), Deactivate(x))
      modifies this
      ensures State() == Apply(config, old(State()), Deactivate(x)) && Valid()
      ensures forall y :: y in activeXfers <==> y in old(activeXfers) && y != x
      ensures queueActive == old(queueActive) - 1 && slotsAvail == old(slotsAvail) + {slotOf[x]}
      ensures old(timerInvoking) ==> x in cWaitTimo
      ensures timerArmed <==> old(timerArmed) && activeXfers != []
    {
      hide ValidState, FreezeState, LifeState, Deactivated, TimerRaced;
      MasksAgree(config, State());
      OthersStay(config, State(), x);
      EventKeeps(config, State(), Deactivate(x));
      RaceTimer(x);
      LeaveActive(x);
    }

    /** ata_free_xfer() up to and including its return to the pool. */
    method FreeXferBody(x: Xfer)
      modifies `cFree, `pool
      ensures LifeState() == FreeBody(old(LifeState()), x)
      ensures cFree == old(cFree) + if x in cWaitAct || x in cWaitTimo then {x} else {}
      ensures pool == old(pool) +
        if x in cWaitAct || x in cWaitTimo || x.priv then multiset{} else multiset{x}
    {
      if x in cWaitAct || x in cWaitTimo {
        cFree := cFree + {x};
        return;
      }
      if !x.priv {
        pool := pool + multiset{x};
      }
    }

    /** ata_free_xfer() of a transfer that left the queues, by its driver. */
    method FreeXfer(x: Xfer)
      requires Valid() && Enabled(config, State(), Event.Free(x))
      modifies this
      ensures State() == Apply(config, old(State()), Event.Free(x)) && Valid()
      ensures x in cFree <==> x in cWaitAct || x in cWaitTimo
      ensures pool[x] == if x in cFree || x.priv then 0 else 1
    {
      hide QueueState, FreezeState, FreeBody, ValidState;
      NotFreedYet(config, State(), x);
      EventKeeps(config, State(), Event.Free(x));
      freeCalled := freeCalled + {x};
      FreeXferBody(x);
    }

    /** The locked part of ata_timo_xfer_check(); the free it owes is FreeAfterTimeout(). */
    method TimoXferCheck(x: Xfer) returns (raced: bool, mustFree: bool)
      requires Valid() && Enabled(config, State(), TimoCheck(x))
      modifies this
      ensures State() == Apply(config, old(State()), TimoCheck(x)) && Valid()
      ensures raced <==> x in old(cWaitTimo)
      ensures mustFree <==> x in old(cWaitTimo) && x in old(cFree)
      ensures cWaitTimo == old(cWaitTimo) - {x} && (raced ==> cFree == old(cFree) - {x})
    {
      hide QueueState, FreezeState, ValidState;
      EventKeeps(config, State(), TimoCheck(x));
      raced, mustFree := x in cWaitTimo, false;
      if raced {
        cWaitTimo := cWaitTimo - {x};
        if x in cFree {
          cFree := cFree - {x};
          timoFreeing := timoFreeing + {x};
          mustFree := true;
        }
      }
    }

    method FreeAfterTimeout(x: Xfer)
      requires Valid() && Enabled(config, State(), TimoFree(x))
      modifies this
      ensures State() == Apply(config, old(State()), TimoFree(x)) && Valid()
      ensures pool == old(pool) +
        if x in cWaitAct || x in cWaitTimo || x.priv then multiset{} else multiset{x}
    {
      hide QueueState, FreezeState, FreeBody, ValidState;
      EventKeeps(config, State(), TimoFree(x));
      timoFreeing := timoFreeing - {x};
      FreeXferBody(x);
    }

    /** One turn of the first loop of ata_kill_pending(). */
    method KillHead(drive: nat)
      requires Valid() && panicked == None
      modifies `queueXfer
      ensures State() == Apply(config, old(State()), Event.KillPending(drive)) && Valid()
      ensures queueXfer == KillTurn(old(queueXfer), drive)
      ensures queueXfer == old(queueXfer)[if old(queueXfer) != [] && old(queueXfer)[0].drive == drive then 1 else 0..]
    {
      hide FreezeState, LifeState, ValidState;
      EventKeeps(config, State(), Event.KillPending(drive));
      if queueXfer != [] && queueXfer[0].drive == drive {
        queueXfer := queueXfer[1..];
      }
    }

    /**
     * The first loop of ata_kill_pending() cut off after a number of turns: `done' tells
     * whether the guard became false by then.
     */
    method KillPending(drive: nat, turns: nat) returns (done: bool)
      requires Valid() && panicked == None
      modifies `queueXfer
      ensures queueXfer == KillTurns(old(queueXfer), drive, turns) && Valid()
      ensures done <==> queueXfer == []
    {
      hide ValidState, KillTurn;
      var n := 0;
      while n < turns
        invariant n <= turns && Valid()
        invariant KillTurns(queueXfer, drive, turns - n) == KillTurns(old(queueXfer), drive, turns)
      {
        KillHead(drive);
        n := n + 1;
      }
      done := queueXfer == [];
    }

    /** One turn of the drain loop: true when it is left, else the drive asks to be told and sleeps. */
    method DrainTurn(drive: nat) returns (finished: bool)
      requires Valid() && Enabled(config, State(), Event.DrainTurn(drive))
      modifies `driveWaitDrain, `asleep
      ensures finished <==> forall i :: 0 <= i < |activeXfers| ==> activeXfers[i].drive != drive
      ensures State() == Apply(config, old(State()), Event.DrainTurn(drive)) && Valid()
      ensures driveWaitDrain == old(driveWaitDrain) + if finished then {} else {drive}
    {
      hide FreezeState, LifeState, ValidState;
      MasksAgree(config, State());
      EventKeeps(config, State(), Event.DrainTurn(drive));
      if queueActive <= 0 { return true; }
      var drvActive, i := false, 0;
      while i < |activeXfers| && !drvActive
        invariant 0 <= i <= |activeXfers|
        invariant !drvActive ==> forall j :: 0 <= j < i ==> activeXfers[j].drive != drive
        invariant drvActive ==> DriveActive(QueueState(), drive)
        decreases |activeXfers| - i, !drvActive
      {
        if activeXfers[i].drive == drive {
          drvActive := true;
        } else {
          i := i + 1;
        }
      }
      finished := !drvActive;
      if drvActive {
        driveWaitDrain := driveWaitDrain + {drive};
        asleep := asleep + {drive};
      }
    }

    /** The test of ata_waitdrain_xfer_check(): true if the transfer is to be killed instead of handled. */
    method WaitDrainCheck(x: Xfer) returns (draining: bool)
      requires Valid() && panicked == None && x in activeXfers
      modifies `killing
      ensures draining <==> x.drive in driveWaitDrain
      ensures State() == (if draining then Apply(config, old(State()), DrainCheck(x)) else old(State())) && Valid()
    {
      hide FreezeState, LifeState, ValidState;
      draining := x.drive in driveWaitDrain;
      if draining {
        EventKeeps(config, State(), DrainCheck(x));
        killing := killing + {x};
      }
    }

    /** The rest of it, after the kill: the flag goes and a sleeper, the scheduler's choice, wakes. */
    method SignalDrain(x: Xfer, ghost woken: nat)
      requires Valid() && Enabled(config, State(), DrainSignal(x, woken))
      modifies `driveWaitDrain, `asleep, `killing
      ensures State() == Apply(config, old(State()), DrainSignal(x, woken)) && Valid()
      ensures driveWaitDrain == old(driveWaitDrain) - {x.drive}
    {
      hide FreezeState, LifeState, ValidState;
      EventKeeps(config, State(), DrainSignal(x, woken));
      driveWaitDrain := driveWaitDrain - {x.drive};
      asleep, killing := asleep - {woken}, killing - {x};
    }

    /** ata_channel_freeze(). */
    method ChannelFreeze()
      requires Valid() && panicked == None
      modifies `queueFreeze, `books
      ensures State() == Apply(config, old(State()), FreezeCall) && Valid() && queueFreeze == old(queueFreeze) + 1
    {
      hide QueueState, LifeState, ValidState;
      EventKeeps(config, State(), FreezeCall);
      queueFreeze := queueFreeze + 1;
      books := books.(explicit := books.explicit + 1);
    }

    /** ata_channel_thaw_locked() by a caller of ata_channel_freeze(). */
    method ChannelThawLocked()
      requires Valid() && panicked == None && queueFreeze > 0
      modifies `queueFreeze, `books
      ensures State() == Apply(config, old(State()), ThawCall) && Valid() && queueFreeze == old(queueFreeze) - 1 >= 0
    {
      hide QueueState, LifeState, ValidState;
      EventKeeps(config, State(), ThawCall);
      queueFreeze := queueFreeze - 1;
      if books.explicit > 0 {
        books := books.(explicit := books.explicit - 1);
      } else {
        books := books.(stolen := books.stolen + 1);
      }
    }

    /** ata_thread_run() by a caller that can neither poll nor wait. */
    method ThreadRunSchedule(kind: RunType, drive: nat)
      requires Valid() && panicked == None
      modifies `queueFreeze, `chFlags, `driveThReset
      ensures State() == Apply(config, old(State()), Schedule(kind, drive)) && Valid()
      ensures kind == DriveReset && drive in old(driveThReset) ==>
        chFlags == old(chFlags) && driveThReset == old(driveThReset) && queueFreeze == old(queueFreeze)
      ensures !(kind == DriveReset && drive in old(driveThReset)) ==>
        && chFlags == old(chFlags) + {kind}
        && driveThReset == old(driveThReset) + (if kind == DriveReset then {drive} else {})
        && queueFreeze == old(queueFreeze) + if kind in old(chFlags) then 0 else 1
    {
      hide QueueState, LifeState, ValidState;
      EventKeeps(config, State(), Schedule(kind, drive));
      match kind {
        case Reset =>
          if Reset in chFlags { return; }
        case DriveReset =>
          if drive in driveThReset { return; }
          driveThReset := driveThReset + {drive};
        case Recovery =>
      }
      if kind !in chFlags {
        queueFreeze := queueFreeze + 1;
        chFlags := chFlags + {kind};
      }
    }

    /** The freezing half of a synchronous ata_thread_run(), whoever runs it. */
    method ThreadRunBegin(kind: RunType) returns (threset: bool)
      modifies `queueFreeze, `chFlags
      ensures (FreezeState(), SyncRun(kind, threset)) == Begin(old(FreezeState()), kind)
      ensures queueFreeze == old(queueFreeze) + 1 && chFlags == old(chFlags) - {kind}
      ensures threset <==> kind in old(chFlags)
    {
      queueFreeze := queueFreeze + 1;
      threset := kind in chFlags;
      if threset {
        chFlags := chFlags - {kind};
      } else {
        assert chFlags - {kind} == chFlags;
      }
    }

    /** Its thawing half: once, and once more for the scheduled run that was absorbed. */
    method ThreadRunEnd(threset: bool)
      requires queueFreeze >= if threset then 2 else 1
      modifies `queueFreeze
      ensures queueFreeze == old(queueFreeze) - (if threset then 2 else 1) >= 0
    {
      if threset {
        queueFreeze := queueFreeze - 1;
      }
      assert queueFreeze > 0;
      queueFreeze := queueFreeze - 1;
    }

    /** A thread other than the worker begins a run. */
    method BeginRun(kind: RunType)
      requires Valid() && panicked == None
      modifies `queueFreeze, `chFlags, `books
      ensures State() == Apply(config, old(State()), SyncBegin(kind)) && Valid()
      ensures queueFreeze == old(queueFreeze) + 1 && chFlags == old(chFlags) - {kind}
      ensures books.runs == old(books.runs) + [SyncRun(kind, kind in old(chFlags))]
    {
      hide QueueState, LifeState, ValidState;
      EventKeeps(config, State(), SyncBegin(kind));
      var threset := ThreadRunBegin(kind);
      books := books.(runs := books.runs + [SyncRun(kind, threset)]);
    }

    /** It ends run i of those in progress; no thaw meets the assertion. */
    method EndRun(i: nat, threset: bool)
      requires Valid() && panicked == None && i < |books.runs| && books.runs[i].threset == threset
      requires books.stolen == 0
      modifies `queueFreeze, `books
      ensures State() == Apply(config, old(State()), SyncEnd(i)) && Valid()
      ensures queueFreeze == old(queueFreeze) - (if threset then 2 else 1) >= 0
    {
      hide QueueState, LifeState, ValidState;
      RunsCovered(config, State(), i);
      EventKeeps(config, State(), SyncEnd(i));
      ThreadRunEnd(threset);
      books := books.(runs := books.runs[..i] + books.runs[i + 1..]);
    }

    /** The worker's ata_xfer_start() up to its first unlock or its end. */
    method StartInWorker(x: Xfer, rv: StartRv)
      modifies `queueFreeze, `books, `panicked
      ensures State() == WorkerStarts(old(State()), x, rv)
      ensures queueFreeze == old(queueFreeze) + if rv == Th then 1 else 0
      ensures panicked == if rv == Th then UnexpectedRv else old(panicked)
      ensures books.worker == if rv == Poll then InPoll(x) else old(books.worker)
    {
      hide QueueState, LifeState;
      match rv {
        case Th =>
          queueFreeze := queueFreeze + 1;
          books := books.(handoff := books.handoff + [x]);
          panicked := UnexpectedRv;
        case Poll =>
          books := books.(worker := InPoll(x));
        case _ =>
      }
    }

    /** The worker takes over a postponed transfer: thaw, and start it in the thread. */
    method StartPostponed(rv: StartRv)
      requires activeXfers != [] && queueFreeze > 0
      modifies `queueFreeze, `books, `panicked
      ensures State() == WorkerStarts(old(State()).(f := TakeHandoff(old(FreezeState()))), activeXfers[0], rv)
      ensures queueFreeze == old(queueFreeze) - if rv == Th then 0 else 1
      ensures panicked == if rv == Th then UnexpectedRv else old(panicked)
      ensures books.worker == if rv == Poll then InPoll(activeXfers[0]) else old(books.worker)
    {
      hide QueueState, LifeState, WorkerStarts;
      queueFreeze := queueFreeze - 1;
      books := if books.handoff != [] then books.(handoff := books.handoff[1..])
               else books.(stolen := books.stolen + 1);
      StartInWorker(activeXfers[0], rv);
    }

    /** c_poll returns to the worker: true for ATAPOLL_AGAIN, and rv is then c_start's answer. */
    method WorkerPolled(x: Xfer, again: bool, rv: StartRv)
      requires books.worker == InPoll(x)
      requires Valid() && Enabled(config, State(), WorkerPoll(again, rv))
      modifies `queueFreeze, `books, `panicked
      ensures State() == Apply(config, old(State()), WorkerPoll(again, rv)) && Valid()
      ensures queueFreeze == old(queueFreeze) + if again && rv == Th then 1 else 0
      ensures panicked == if again && rv == Th then UnexpectedRv else None
      ensures books.worker == if again && rv == Poll then InPoll(x) else Top
    {
      hide QueueState, LifeState, ValidState, WorkerStarts;
      EventKeeps(config, State(), WorkerPoll(again, rv));
      books := books.(worker := Top);
      if again {
        StartInWorker(x, rv);
      }
    }

    /** One decision at the top of the loop of atabus_thread(). */
    method WorkerDecides(rv: StartRv)
      requires Valid() && panicked == None && books.worker == Top
      modifies `queueFreeze, `chFlags, `books, `panicked
      ensures State() == Apply(config, old(State()), WorkerStep(rv)) && Valid()
      ensures Reset in old(chFlags) ==>
        && books.worker == InRun(SyncRun(Reset, true)) && chFlags == old(chFlags) - {Reset}
        && queueFreeze == old(queueFreeze) + 1
      ensures Reset !in old(chFlags) && DriveReset in old(chFlags) ==>
        books.worker == InDrives(0) && chFlags == old(chFlags) && queueFreeze == old(queueFreeze)
      ensures Reset !in old(chFlags) && DriveReset !in old(chFlags) && Recovery in old(chFlags) ==>
        && books.worker == InRun(SyncRun(Recovery, true)) && chFlags == old(chFlags) - {Recovery}
        && queueFreeze == old(queueFreeze) + 1
      ensures old(chFlags) == {} && old(queueFreeze) == 1 && activeXfers != [] ==>
        && queueFreeze == (if rv == Th then 1 else 0) && panicked == (if rv == Th then UnexpectedRv else None)
        && books.worker == (if rv == Poll then InPoll(activeXfers[0]) else Top)
      ensures old(chFlags) == {} && !(old(queueFreeze) == 1 && activeXfers != []) ==>
        && queueFreeze == old(queueFreeze) && books.worker == Top
        && panicked == (if queueFreeze > 1 then QueueFreeze else None)
    {
      hide LifeState, WorkerStarts, TakeHandoff, ValidState, Apply, Enabled;
      MasksAgree(config, State());
      WorkerStepIs(config, State(), rv);
      EventKeeps(config, State(), WorkerStep(rv));
      if Reset in chFlags {
        var threset := ThreadRunBegin(Reset);
        books := books.(worker := InRun(SyncRun(Reset, threset)));
      } else if DriveReset in chFlags {
        books := books.(worker := InDrives(0));
      } else if Recovery in chFlags {
        var threset := ThreadRunBegin(Recovery);
        books := books.(worker := InRun(SyncRun(Recovery, threset)));
      } else if queueActive > 0 && queueFreeze == 1 {
        StartPostponed(rv);
      } else if queueFreeze > 1 {
        panicked := QueueFreeze;
      }
    }

    /** The worker's reset or recovery is over; no thaw meets the assertion. */
    method WorkerRunEnds(threset: bool, rv: StartRv)
      requires Valid() && panicked == None && books.worker.InRun? && books.worker.run.threset == threset
      requires books.stolen == 0
      modifies `queueFreeze, `books
      ensures State() == Apply(config, old(State()), WorkerStep(rv)) && Valid()
      ensures books.worker == Top && chFlags == old(chFlags)
      ensures queueFreeze == old(queueFreeze) - (if threset then 2 else 1) >= 0
    {
      hide QueueState, LifeState, ValidState, Apply, Enabled;
      WorkerStepIs(config, State(), rv);
      RunsCovered(config, State(), 0);
      EventKeeps(config, State(), WorkerStep(rv));
      ThreadRunEnd(threset);
      books := books.(worker := Top);
    }

    /** One turn of the drive loop up to the reset of the drive, or past its last turn. */
    method DriveTurn(i: nat, rv: StartRv) returns (threset: bool)
      requires Valid() && panicked == None && books.worker == InDrives(i)
      modifies `queueFreeze, `chFlags, `books
      ensures State() == Apply(config, old(State()), WorkerStep(rv)) && Valid()
      ensures i < config.NDrives() && i in driveThReset ==>
        && books.worker == InDriveRun(i, SyncRun(DriveReset, DriveReset in old(chFlags)))
        && chFlags == old(chFlags) - {DriveReset} && queueFreeze == old(queueFreeze) + 1
      ensures i < config.NDrives() && i !in driveThReset ==>
        books.worker == InDrives(i + 1) && chFlags == old(chFlags) && queueFreeze == old(queueFreeze)
      ensures i >= config.NDrives() ==>
        books.worker == Top && chFlags == old(chFlags) - {DriveReset} && queueFreeze == old(queueFreeze)
      ensures books.worker.InDriveRun? ==> books.worker.run.threset == threset
    {
      hide QueueState, LifeState, ValidState, Apply, Enabled;
      WorkerStepIs(config, State(), rv);
      EventKeeps(config, State(), WorkerStep(rv));
      threset := false;
      if i >= config.NDrives() {
        books := books.(worker := Top, leaked := if DriveReset in chFlags then books.leaked + 1 else books.leaked);
        chFlags := chFlags - {DriveReset};
      } else if i in driveThReset {
        threset := ThreadRunBegin(DriveReset);
        books := books.(worker := InDriveRun(i, SyncRun(DriveReset, threset)));
      } else {
        books := books.(worker := InDrives(i + 1));
      }
    }

    /** The reset hook clears the flag of the drive it resets. */
    method DriveDone(drive: nat)
      requires Valid() && panicked == None
      modifies `driveThReset
      ensures State() == Apply(config, old(State()), ClearDriveTh(drive)) && Valid()
      ensures driveThReset == old(driveThReset) - {drive}
    {
      hide QueueState, LifeState, ValidState;
      EventKeeps(config, State(), ClearDriveTh(drive));
      driveThReset := driveThReset - {drive};
    }

    /** The reset of a drive is over; no thaw meets the assertion. */
    method DriveRunEnds(threset: bool, rv: StartRv)
      requires Valid() && panicked == None && books.worker.InDriveRun? && books.worker.run.threset == threset
      requires books.stolen == 0
      modifies `queueFreeze, `books
      ensures State() == Apply(config, old(State()), WorkerStep(rv)) && Valid()
      ensures books.worker == InDrives(old(books.worker.drive) + 1) && chFlags == old(chFlags)
      ensures queueFreeze == old(queueFreeze) - (if threset then 2 else 1) >= 0
    {
      hide QueueState, LifeState, ValidState, Apply, Enabled;
      WorkerStepIs(config, State(), rv);
      RunsCovered(config, State(), 0);
      EventKeeps(config, State(), WorkerStep(rv));
      ThreadRunEnd(threset);
      books := books.(worker := InDrives(books.worker.drive + 1));
    }

    /** One drive of the drive loop with nothing else going on: reset if it is flagged. */
    method ResetDrive(i: nat)
      requires Valid() && panicked == None && books.worker == InDrives(i) && i < config.NDrives() && books.stolen == 0
      modifies `queueFreeze, `chFlags, `driveThReset, `books
      ensures Valid() && FreezeState() == old(FreezeState()).(count := queueFreeze, flags := chFlags,
                                                              driveTh := driveThReset, worker := InDrives(i + 1))
      ensures driveThReset == old(driveThReset) - {i}
      ensures chFlags == if i in old(driveThReset) then old(chFlags) - {DriveReset} else old(chFlags)
      ensures queueFreeze == old(queueFreeze) -
        if i in old(driveThReset) && DriveReset in old(chFlags) then 1 else 0
    {
      hide QueueState, LifeState, ValidState, Apply, Enabled;
      ClearIs(config, State(), i);
      WorkerStepIs(config, State(), Started);
      var threset := DriveTurn(i, Started);
      if i in driveThReset {
        ClearIs(config, State(), i);
        DriveDone(i);
        WorkerStepIs(config, State(), Started);
        DriveRunEnds(threset, Started);
      }
    }

    /**
     * The whole drive loop with nothing else going on: every flagged drive is reset. The freeze
     * of the scheduling is paid back if some drive is flagged, and forgotten if none is.
     */
    method DriveLoop()
      requires Valid() && panicked == None && books.worker == InDrives(0) && books.stolen == 0
      modifies `queueFreeze, `chFlags, `driveThReset, `books
      ensures Valid() && books.worker == Top && chFlags == old(chFlags) - {DriveReset}
      ensures driveThReset == set d | d in old(driveThReset) && d >= config.NDrives()
      ensures queueFreeze == old(queueFreeze) -
        if DriveReset in old(chFlags) && FlaggedBelow(old(driveThReset), config.NDrives()) then 1 else 0
      ensures books.leaked == old(books.leaked) +
        if DriveReset in old(chFlags) && !FlaggedBelow(old(driveThReset), config.NDrives()) then 1 else 0
    {
      hide ValidState, QueueState, LifeState, Apply, Enabled, FlaggedBelow;
      FlaggedNext(old(driveThReset), 0);
      var i: nat := 0;
      while i < config.NDrives()
        invariant i <= config.NDrives()
        invariant Valid() && FreezeState() == old(FreezeState()).(count := queueFreeze, flags := chFlags,
                                                                  driveTh := driveThReset, worker := InDrives(i))
        invariant driveThReset == set d | d in old(driveThReset) && d >= i
        invariant chFlags == if FlaggedBelow(old(driveThReset), i) then old(chFlags) - {DriveReset} else old(chFlags)
        invariant queueFreeze == old(queueFreeze) -
          if DriveReset in old(chFlags) && FlaggedBelow(old(driveThReset), i) then 1 else 0
      {
        FlaggedNext(old(driveThReset), i);
        ResetDrive(i);
        i := i + 1;
      }
      WorkerStepIs(config, State(), Started);
      var threset := DriveTurn(i, Started);
    }
  }

  /** Some drive below i has its reset flag. */
  ghost predicate FlaggedBelow(flags: set<nat>, i: nat) { exists d :: d in flags && d < i }

  lemma FlaggedNext(flags: set<nat>, i: nat)
    ensures !FlaggedBelow(flags, 0)
    ensures FlaggedBelow(flags, i + 1) <==> FlaggedBelow(flags, i) || i in flags
  {
  }

  /** What a turn does in each case, given a slot the allocator may return. */
  lemma HeadCases(c: Config, s: State, ch: Choice)
    ensures s.q.pending == [] ==> Judge(c, s, ch.hooks.claim) == QueueEmpty
    ensures s.q.pending != [] ==>
      var x, v := s.q.pending[0], Judge(c, s, ch.hooks.claim);
      if Judge(c, s, true) in {HeadWaiting, Frozen, Incompatible} then v == Judge(c, s, true)
      else if s.q.queueActive >= Limit(c, x) then v == (if x.skip then Panics else Busy)
      else if Candidates(c, s.q, x) == {} then v == NoSlot
      else v == (if ch.hooks.claim then Activates else ClaimFailed)
    ensures match Judge(c, s, ch.hooks.claim)
      case Panics => Turn(c, s, ch) == s.(panic := XferNotPossible)
      case Activates => s.q.pending != [] && Turn(c, s, ch) ==
        s.(q := Activated(s.q, ch.slot), f := AfterCalls(s.f, s.q.pending[0], ch.hooks.rv, ch.hooks.more))
      case _ => Turn(c, s, ch) == s
    ensures GoesOn(c, s, ch) <==>
      && Judge(c, s, ch.hooks.claim) == Activates && FinalRv(ch.hooks.rv, ch.hooks.more) in {Started, Poll}
      && !s.q.pending[0].skip && s.q.queueActive + 1 < c.openings
    ensures Enabled(c, s, ch.Event()) <==>
      && s.panic == None
      && (s.q.pending != [] && Candidates(c, s.q, s.q.pending[0]) != {} ==> ch.slot in Candidates(c, s.q, s.q.pending[0]))
  {
    hide Activated, AfterStart, AfterCalls, FinalRv, Candidates;
  }

  /** Some slot the allocator may return, when there is one. */
  ghost function PickAny(c: Config, s: State): (k: nat)
    ensures s.q.pending != [] && Candidates(c, s.q, s.q.pending[0]) != {} ==> k in Candidates(c, s.q, s.q.pending[0])
  {
    if s.q.pending != [] && Candidates(c, s.q, s.q.pending[0]) != {} then
      var k :| k in Candidates(c, s.q, s.q.pending[0]); k
    else 0
  }
}
