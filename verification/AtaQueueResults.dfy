/** What the queue invariant buys: head test, reserved slot, allocation, order, killing. */
module AtaQueueResults {
  import opened Seqs
  import opened AtaChannel
  import opened AtaQueueInv

  lemma InitQueue(c: Config)
    requires c.Valid()
    ensures QueueInv(c, Init(c).q)
  {
  }

  lemma Reachable(c: Config, es: seq<Event>)
    requires c.Valid() && ValidRun(c, Init(c), es)
    ensures QueueInv(c, Run(c, Init(c), es).q)
  {
    InitQueue(c);
    QueueRun(c, Init(c), es);
  }

  /**
   * Active-set agreement: in every reachable state the counter, the list and the mask
   * agree, the mask is exactly the slots of the active transfers, no two share one, and
   * no transfer is both pending and active.
   */
  lemma ActiveSetAgrees(c: Config, es: seq<Event>)
    requires c.Valid() && ValidRun(c, Init(c), es)
    ensures ActiveSetAgreement(c, Run(c, Init(c), es).q)
  {
    hide Ordered;
    Reachable(c, es);
    AgreementOf(c, Run(c, Init(c), es).q);
  }

  ghost predicate ActiveSetAgreement(c: Config, q: Queue) {
    && q.queueActive == |q.active| == |q.used| <= c.openings
    && (forall i, j :: 0 <= i < j < |q.active| ==>
          q.active[i] in q.slot && q.active[j] in q.slot && q.slot[q.active[i]] != q.slot[q.active[j]])
    && (forall k :: k in q.used <==> HasHolder(q, k))
    && (forall k :: k in q.used ==> k < c.openings)
    && (forall x :: x in q.pending ==> x !in q.active)
  }

  lemma AgreementOf(c: Config, q: Queue)
    requires Listed(c, q) && Slotted(c, q)
    ensures ActiveSetAgreement(c, q)
  {
    forall i, j | 0 <= i < j < |q.active|
      ensures q.active[i] in q.slot && q.active[j] in q.slot && q.slot[q.active[i]] != q.slot[q.active[j]]
    {
      assert q.active[i] in q.active && q.active[j] in q.active;
    }
    assert forall k :: k in q.used ==> k in Bits(c.openings);
  }

  // ----- comparing with the head is enough

  /** What atastart should check: the new transfer against every active non-skip one. */
  ghost predicate CompatibleWithAll(q: Queue, x: Xfer) {
    forall y :: y in q.active ==> CanJoin(x, y)
  }

  /** In every reachable state the test against the head decides the test against all. */
  lemma HeadTestIsExact(c: Config, es: seq<Event>, x: Xfer)
    requires c.Valid() && ValidRun(c, Init(c), es)
    ensures var q := Run(c, Init(c), es).q;
      q.active != [] ==> (CanJoin(x, q.active[0]) <==> CompatibleWithAll(q, x))
  {
    Reachable(c, es);
    var q := Run(c, Init(c), es).q;
    if q.active != [] {
      assert q.active[0] in q.active;
      if CanJoin(x, q.active[0]) {
        forall y | y in q.active ensures CanJoin(x, y) { HeadDecides(c, q, y); }
      }
    }
  }

  lemma PairCompatible(c: Config, q: Queue, x: Xfer, y: Xfer)
    requires Ordered(c, q) && x in q.active && y in q.active && x != y && !x.skip && !y.skip
    ensures x.ncq && y.ncq && x.drive == y.drive
  {
  }

  /** Two active non-skip transfers are NCQ transfers of one drive, whatever the interleaving. */
  lemma ActiveAreCompatible(c: Config, es: seq<Event>, x: Xfer, y: Xfer)
    requires c.Valid() && ValidRun(c, Init(c), es)
    requires x in Run(c, Init(c), es).q.active && y in Run(c, Init(c), es).q.active
    requires x != y && !x.skip && !y.skip
    ensures x.ncq && y.ncq && x.drive == y.drive
  {
    hide Ordered, Listed, Slotted;
    Reachable(c, es);
    PairCompatible(c, Run(c, Init(c), es).q, x, y);
  }

  /**
   * ata_queue_get_active_xfer() returns the head of the active list: in every reachable
   * state that is a recovery command whenever one is active.
   */
  lemma RecoveryCommandFirst(c: Config, es: seq<Event>, x: Xfer)
    requires c.Valid() && ValidRun(c, Init(c), es)
    requires x in Run(c, Init(c), es).q.active && x.skip
    ensures Run(c, Init(c), es).q.active[0].skip
  {
    hide Listed, Slotted;
    Reachable(c, es);
    var q := Run(c, Init(c), es).q;
    var i :| 0 <= i < |q.active| && q.active[i] == x;
    assert i > 0 && q.active[i].skip ==> q.active[0].skip;
  }

  // ----- when the head is started

  /**
   * What the head needs: its submitter does not sleep, and unless it skips the queue the
   * channel is not frozen and everything active is, like it, NCQ and on its drive; fewer
   * transfers are active than the openings, one of which is reserved, and for an NCQ
   * transfer fewer than its drive's.
   */
  ghost predicate Startable(c: Config, s: State) {
    s.q.pending != [] &&
    var x, n := s.q.pending[0], s.q.queueActive;
    && x !in s.l.waitAct
    && (x.skip || s.f.count <= 0)
    && (x.skip || forall y :: y in s.q.active ==> x.ncq && y.ncq && y.drive == x.drive)
    && n < c.openings && (!x.skip && c.openings > 1 ==> n < c.openings - 1)
    && (x.ncq ==> x.drive < c.NDrives() && n < c.drvOpenings[x.drive])
  }

  lemma CompatibleIff(c: Config, q: Queue, x: Xfer)
    requires QueueInv(c, q) && q.active != []
    ensures CanJoin(x, q.active[0]) <==> forall y :: y in q.active ==> x.ncq && y.ncq && y.drive == x.drive
  {
    hide Slotted;
    assert q.active[0] in q.active;
    if CanJoin(x, q.active[0]) {
      forall y | y in q.active ensures x.ncq && y.ncq && y.drive == x.drive { HeadDecides(c, q, y); }
    }
  }

  lemma LimitIs(c: Config, s: State)
    requires c.Valid() && s.q.pending != []
    ensures var x, n := s.q.pending[0], s.q.queueActive;
      n < Limit(c, x) <==>
        && n < c.openings && (!x.skip && c.openings > 1 ==> n < c.openings - 1)
        && (x.ncq ==> if x.drive < c.NDrives() then n < c.drvOpenings[x.drive] else n < 0)
  {
  }

  /** The tests of the loop, taken together, are exactly that. */
  lemma JudgeStarts(c: Config, s: State)
    requires QueueInv(c, s.q)
    ensures Judge(c, s, true) == Activates <==> Startable(c, s)
  {
    NoSlotUnreachable(c, s, true);
    if s.q.pending != [] {
      LimitIs(c, s);
      HeadSubmitted(c, s);
      hide QueueInv, Limit, CanJoin, Candidates;
      if s.q.active != [] { CompatibleIff(c, s.q, s.q.pending[0]); }
    }
  }

  lemma HeadSubmitted(c: Config, s: State)
    requires QueueInv(c, s.q) && s.q.pending != []
    ensures s.q.pending[0].drive < c.NDrives() && s.q.pending[0] !in s.q.active && s.q.queueActive >= 0
  {
    assert s.q.pending[0] in s.q.pending;
  }

  /**
   * In every reachable state a turn with the hardware claimed makes the head active if and
   * only if it is startable, in the very words of the code's comments.
   */
  lemma StartsIff(c: Config, es: seq<Event>, slot: nat, rv: StartRv)
    requires c.Valid() && ValidRun(c, Init(c), es)
    requires Enabled(c, Run(c, Init(c), es), Start(slot, true, rv)) && Run(c, Init(c), es).q.pending != []
    ensures var s := Run(c, Init(c), es);
      s.q.pending[0] in Apply(c, s, Start(slot, true, rv)).q.active <==> Startable(c, s)
  {
    hide QueueInv, Startable, ValidRun, Run;
    Reachable(c, es);
    TurnStarts(c, Run(c, Init(c), es), slot, rv);
  }

  lemma TurnStarts(c: Config, s: State, slot: nat, rv: StartRv)
    requires QueueInv(c, s.q) && Enabled(c, s, Start(slot, true, rv)) && s.q.pending != []
    ensures s.q.pending[0] in Apply(c, s, Start(slot, true, rv)).q.active <==> Startable(c, s)
  {
    JudgeStarts(c, s);
    HeadSubmitted(c, s);
    hide QueueInv, Startable, Judge;
  }

  // ----- the reserved slot and slot allocation

  lemma FreeSlotBelow(used: set<nat>, avail: set<nat>, n: nat, bound: nat)
    requires used + avail == Bits(n) && bound <= n && |used| < bound
    requires forall k :: k in used ==> k < bound
    ensures exists k :: k in avail && k < bound
  {
    var free := Bits(bound) - used;
    assert free + used == Bits(bound) && |free| + |used| == bound;
    var k :| k in free;
    assert k in Bits(n);
  }

  lemma FreeSlotAny(used: set<nat>, avail: set<nat>, n: nat)
    requires used + avail == Bits(n) && used !! avail && |used| < n
    ensures exists k :: k in avail
  {
    assert |used| + |avail| == n;
    assert avail != {};
  }

  lemma UsedBelow(c: Config, q: Queue, bound: nat)
    requires Slotted(c, q)
    requires forall x :: x in q.active ==> q.slot[x] < bound
    ensures forall k :: k in q.used ==> k < bound
  {
    forall k | k in q.used ensures k < bound { assert HasHolder(q, k); }
  }

  lemma NcqHeadHasSlot(c: Config, q: Queue, x: Xfer)
    requires QueueInv(c, q) && !x.skip && x.ncq && q.queueActive < Limit(c, x)
    requires q.active != [] ==> CanJoin(x, q.active[0])
    ensures Candidates(c, q, x) != {}
  {
    var bound := Min(c.openings, DrvOpenings(c, x));
    forall y | y in q.active ensures q.slot[y] < bound {
      HeadDecides(c, q, y);
      assert q.slot[y] in Bits(c.openings);
    }
    UsedBelow(c, q, bound);
    FreeSlotBelow(q.used, q.avail, c.openings, bound);
    var k :| k in q.avail && k < bound;
    assert k in Candidates(c, q, x);
  }

  lemma OtherHeadHasSlot(c: Config, q: Queue, x: Xfer)
    requires QueueInv(c, q) && !x.ncq && q.queueActive < Limit(c, x)
    ensures Candidates(c, q, x) != {}
  {
    FreeSlotAny(q.used, q.avail, c.openings);
    var k :| k in q.avail;
    assert k in Bits(c.openings);
    assert k in Candidates(c, q, x);
  }

  /**
   * Once the opening test is passed, slot allocation cannot fail in any reachable state:
   * with constant drive openings the early exit after ata_queue_alloc_slot() is dead.
   */
  lemma AllocationNeverFails(c: Config, es: seq<Event>, claim: bool)
    requires c.Valid() && ValidRun(c, Init(c), es)
    ensures Judge(c, Run(c, Init(c), es), claim) != NoSlot
  {
    Reachable(c, es);
    NoSlotUnreachable(c, Run(c, Init(c), es), claim);
  }

  lemma NoSlotUnreachable(c: Config, s: State, claim: bool)
    requires QueueInv(c, s.q)
    ensures Judge(c, s, claim) != NoSlot
  {
    if s.q.pending != [] && s.q.queueActive < Limit(c, s.q.pending[0]) {
      var x := s.q.pending[0];
      assert x in s.q.pending && x in s.q.seen;
      if !x.ncq {
        OtherHeadHasSlot(c, s.q, x);
      } else if s.q.active == [] || CanJoin(x, s.q.active[0]) {
        NcqHeadHasSlot(c, s.q, x);
      }
    }
  }

  /** A recovery command waits at the head and no other one is active. */
  predicate RecoveryAtHead(s: State) {
    && s.panic == None && s.q.pending != [] && s.q.pending[0].skip
    && s.q.pending[0] !in s.l.waitAct
    && forall i :: 0 <= i < |s.q.active| ==> !s.q.active[i].skip
  }

  lemma ReserveHolds(c: Config, s: State)
    requires QueueInv(c, s.q) && c.openings > 1 && RecoveryAtHead(s)
    ensures Judge(c, s, true) == Activates
  {
    var q, x := s.q, s.q.pending[0];
    assert x in q.pending && x in q.seen;
    NonSkipAll(q.active);
    OtherHeadHasSlot(c, q, x);
  }

  const DATA := Xfer(0, 0, false, false, false, false, false)
  const RECOVERY := Xfer(1, 0, false, true, false, false, false)
  const ONE_SLOT_RUN := [Exec(DATA), Start(0, true, Started), Exec(RECOVERY)]

  /** A first transfer is submitted and started on slot 0. */
  lemma DataStarts(c: Config, rv: StartRv) returns (s1: State, s2: State)
    requires c.Valid() && c.NDrives() > 0
    ensures Enabled(c, Init(c), Exec(DATA)) && s1 == Apply(c, Init(c), Exec(DATA))
    ensures Enabled(c, s1, Start(0, true, rv)) && s2 == Apply(c, s1, Start(0, true, rv))
    ensures s1.q.pending == [DATA] && Judge(c, s1, true) == Activates
    ensures s2.panic == None && s2.q.pending == [] && s2.q.active == [DATA] && s2.q.queueActive == 1
    ensures s2.q.seen == {DATA} && s2.l == s1.l == Init(c).l && s2.f == AfterStart(Init(c).f, DATA, rv)
    ensures DATA in s2.q.slot && s2.q.slot[DATA] == 0 && s2.q.drain == Drain({}, {}, {})
    ensures s1.f == Init(c).f
  {
    hide AfterStart;
    s1 := Apply(c, Init(c), Exec(DATA));
    assert s1.q.pending == [DATA];
    assert 0 in Candidates(c, s1.q, DATA);
    s2 := ApplyStart(c, s1, 0, true, rv);
  }

  lemma OneSlotPanics(c: Config)
    requires c.Valid() && c.openings == 1 && c.NDrives() > 0
    ensures ValidRun(c, Init(c), ONE_SLOT_RUN)
    ensures RecoveryAtHead(Run(c, Init(c), ONE_SLOT_RUN))
    ensures Judge(c, Run(c, Init(c), ONE_SLOT_RUN), true) == Panics
  {
    var s1, s2 := DataStarts(c, Started);
    assert ApplyExec(s2, RECOVERY).q.pending == [RECOVERY];
    RunThree(c, Init(c), Exec(DATA), Start(0, true, Started), Exec(RECOVERY));
  }

  /**
   * The reserved slot exists exactly on channels with more than one opening: there no
   * run lets a lone recovery command meet the "xfer not possible" panic.
   */
  lemma ReserveIffSeveralOpenings(c: Config)
    requires c.Valid() && c.NDrives() > 0
    ensures c.openings > 1 <==>
      forall es :: ValidRun(c, Init(c), es) && RecoveryAtHead(Run(c, Init(c), es)) ==>
        Judge(c, Run(c, Init(c), es), true) == Activates
  {
    if c.openings > 1 {
      forall es | ValidRun(c, Init(c), es) && RecoveryAtHead(Run(c, Init(c), es))
        ensures Judge(c, Run(c, Init(c), es), true) == Activates
      {
        Reachable(c, es);
        ReserveHolds(c, Run(c, Init(c), es));
      }
    } else {
      OneSlotPanics(c);
    }
  }

  // ----- order of the pending queue

  function Single(x: Xfer): seq<Xfer> { if x.skip then [] else [x] }

  /** The non-skip transfers handed to ata_exec_xfer(), in order. */
  function Submitted(es: seq<Event>): seq<Xfer> {
    if es == [] then []
    else (if es[0].Exec? then Single(es[0].x) else []) + Submitted(es[1..])
  }

  /** The non-skip transfer one event takes off the pending queue, if any. */
  function Took(c: Config, s: State, e: Event): seq<Xfer> {
    match e
    case Start(_, claim, _) => if Judge(c, s, claim) == Activates then Single(s.q.pending[0]) else []
    case KillPending(d) => if KillTurn(s.q.pending, d) != s.q.pending then Single(s.q.pending[0]) else []
    case _ => []
  }

  function Taken(c: Config, s: State, es: seq<Event>): seq<Xfer>
    requires ValidRun(c, s, es)
    decreases |es|
  {
    if es == [] then [] else Took(c, s, es[0]) + Taken(c, Apply(c, s, es[0]), es[1..])
  }

  lemma FifoStep(c: Config, s: State, e: Event)
    requires Enabled(c, s, e)
    ensures NonSkip(s.q.pending) + (if e.Exec? then Single(e.x) else [])
         == Took(c, s, e) + NonSkip(Apply(c, s, e).q.pending)
  {
    hide ApplyWorker, ApplySchedule, ApplySyncEnd, Begin, Judge;
    match e
    case Exec(x) =>
      assert NonSkip([x]) == Single(x);
      if x.skip { NonSkipConcat([x], s.q.pending); } else { NonSkipConcat(s.q.pending, [x]); }
    case Start(slot, claim, rv) => FifoStart(c, s, slot, claim, rv);
    case WorkerStep(rv) => WorkerMovesFreezeOnly(c, s, rv);
    case _ =>
  }

  lemma FifoStart(c: Config, s: State, slot: nat, claim: bool, rv: StartRv)
    ensures NonSkip(s.q.pending)
         == Took(c, s, Start(slot, claim, rv)) + NonSkip(ApplyStart(c, s, slot, claim, rv).q.pending)
  {
  }

  lemma Glue<T>(a: seq<T>, one: seq<T>, sub: seq<T>, took: seq<T>, p: seq<T>, taken: seq<T>, left: seq<T>)
    requires a + one == took + p && p + sub == taken + left
    ensures a + (one + sub) == (took + taken) + left
  {
    assert a + (one + sub) == (a + one) + sub == took + (p + sub);
  }

  /** Non-skip transfers leave the pending queue exactly in the order of submission. */
  lemma {:induction false} Fifo(c: Config, s: State, es: seq<Event>)
    requires ValidRun(c, s, es)
    ensures NonSkip(s.q.pending) + Submitted(es)
         == Taken(c, s, es) + NonSkip(Run(c, s, es).q.pending)
    decreases |es|
  {
    if es != [] {
      var e, rest := es[0], es[1..];
      var t := Apply(c, s, e);
      FifoStep(c, s, e);
      Fifo(c, t, rest);
      var one := if e.Exec? then Single(e.x) else [];
      Glue(NonSkip(s.q.pending), one, Submitted(rest), Took(c, s, e), NonSkip(t.q.pending),
           Taken(c, t, rest), NonSkip(Run(c, t, rest).q.pending));
    }
  }

  /** A frozen channel activates nothing but skip-queue transfers. */
  lemma FrozenActivatesOnlySkip(c: Config, s: State, e: Event, x: Xfer)
    requires Enabled(c, s, e) && s.f.count > 0
    requires x !in s.q.active && x in Apply(c, s, e).q.active
    requires Distinct(s.q.active)
    ensures x.skip
  {
    match e
    case Deactivate(y) => RemoveKeepsOthers(s.q.active, y);
    case _ =>
  }

  // ----- the loop of ata_kill_pending

  /** The queue after n turns of the loop; the lock is held, so nothing else moves it. */
  function KillTurns(pending: seq<Xfer>, drive: nat, n: nat): seq<Xfer>
    decreases n
  {
    if n == 0 then pending else KillTurns(KillTurn(pending, drive), drive, n - 1)
  }

  lemma {:induction false} KillsInOrder(pending: seq<Xfer>, drive: nat, n: nat)
    requires n <= |pending| && forall i :: 0 <= i < n ==> pending[i].drive == drive
    ensures KillTurns(pending, drive, n) == pending[n..]
    decreases n
  {
    if n > 0 {
      KillsInOrder(pending[1..], drive, n - 1);
    }
  }

  lemma {:induction false} KillStuck(pending: seq<Xfer>, drive: nat, n: nat)
    requires pending != [] && pending[0].drive != drive
    ensures KillTurns(pending, drive, n) == pending
    decreases n
  {
    if n > 0 { KillStuck(pending, drive, n - 1); }
  }

  lemma {:induction false} KillNeverEmpties(pending: seq<Xfer>, drive: nat, n: nat)
    requires exists x :: x in pending && x.drive != drive
    ensures KillTurns(pending, drive, n) != []
    decreases n
  {
    if n > 0 {
      if pending[0].drive == drive {
        var x :| x in pending && x.drive != drive;
        assert x in pending[1..];
        KillNeverEmpties(pending[1..], drive, n - 1);
      } else {
        KillStuck(pending, drive, n);
      }
    }
  }

  /**
   * The loop over queue_xfer ends exactly when every queued transfer is on the drive; it
   * then killed each once, first to last. Any other transfer makes `continue' spin.
   */
  lemma KillEndsIffOneDrive(pending: seq<Xfer>, drive: nat)
    ensures (exists n: nat :: KillTurns(pending, drive, n) == []) <==> forall x :: x in pending ==> x.drive == drive
    ensures (forall x :: x in pending ==> x.drive == drive) ==>
      forall n: nat :: n <= |pending| ==> KillTurns(pending, drive, n) == pending[n..]
  {
    if forall x :: x in pending ==> x.drive == drive {
      forall n: nat | n <= |pending| ensures KillTurns(pending, drive, n) == pending[n..] {
        KillsInOrder(pending, drive, n);
      }
      assert KillTurns(pending, drive, |pending|) == [];
    } else {
      forall n: nat ensures KillTurns(pending, drive, n) != [] {
        KillNeverEmpties(pending, drive, n);
      }
    }
  }

  /** When the drain loop is left, no active transfer is on the drive. */
  lemma DrainedMeansNone(c: Config, es: seq<Event>, drive: nat)
    requires c.Valid() && ValidRun(c, Init(c), es)
    ensures var q := Run(c, Init(c), es).q;
      Drained(q, drive) <==> forall x :: x in q.active ==> x.drive != drive
  {
    Reachable(c, es);
    var q := Run(c, Init(c), es).q;
    if exists x :: x in q.active && x.drive == drive {
      var x :| x in q.active && x.drive == drive;
      var i :| 0 <= i < |q.active| && q.active[i] == x;
      assert DriveActive(q, drive);
    }
  }
}
