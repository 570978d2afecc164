/** The whole of atastart(): it terminates, and it starts everything that can be started. */
module AtaStartLoop {
  import opened AtaChannel
  import opened AtaQueueInv
  import opened AtaQueueResults
  import opened AtaSections

  /**
   * What the hooks answer in one turn: the claim of the hardware, c_start, and c_start again
   * each time c_poll says to try again (an answer that follows one other than Poll is not asked for).
   */
  datatype Hooks = Hooks(claim: bool, rv: StartRv, more: seq<StartRv>)

  /** What the environment decides in one turn. */
  datatype Choice = Choice(slot: nat, hooks: Hooks) {
    function Event(): Event { Start(slot, hooks.claim, hooks.rv) }
  }

  /** The answer of ata_xfer_start(). */
  function FinalRv(rv: StartRv, more: seq<StartRv>): StartRv
    decreases |more|
  {
    if rv == Poll && more != [] then FinalRv(more[0], more[1..]) else rv
  }

  /** The freeze books after the whole of ata_xfer_start(). */
  function AfterCalls(f: Freeze, x: Xfer, rv: StartRv, more: seq<StartRv>): Freeze
    decreases |more|
  {
    var g := AfterStart(f, x, rv);
    if rv != Poll then g
    else
      var h := g.(polling := g.polling - {x});
      if more == [] then h else AfterCalls(h, x, more[0], more[1..])
  }

  /** rv is the first answer that is not Poll, or Poll if every one is. */
  ghost predicate FinalAnswer(first: StartRv, more: seq<StartRv>, rv: StartRv) {
    exists i :: AnswerAt([first] + more, i, rv)
  }

  predicate AnswerAt(all: seq<StartRv>, i: nat, rv: StartRv) {
    && i < |all| && all[i] == rv && (forall j :: 0 <= j < i ==> all[j] == Poll)
    && (rv == Poll ==> i == |all| - 1)
  }

  lemma {:induction false} FinalRvIs(first: StartRv, more: seq<StartRv>)
    ensures FinalAnswer(first, more, FinalRv(first, more))
    decreases |more|
  {
    var rv, all := FinalRv(first, more), [first] + more;
    if first == Poll && more != [] {
      FinalRvIs(more[0], more[1..]);
      assert [more[0]] + more[1..] == more;
      var i: nat :| AnswerAt(more, i, rv);
      assert forall j :: 1 <= j < |all| ==> all[j] == more[j - 1];
      assert AnswerAt(all, i + 1, rv);
    } else {
      assert AnswerAt(all, 0, rv);
    }
  }

  /** Whatever the polls do, only a final postponement freezes, and no poll is left under way. */
  lemma {:induction false} CallsEffect(f: Freeze, x: Xfer, first: StartRv, more: seq<StartRv>)
    ensures var g, rv := AfterCalls(f, x, first, more), FinalRv(first, more);
      && g.count == f.count + (if rv == Th then 1 else 0)
      && g.handoff == f.handoff + (if rv == Th then [x] else [])
      && (x !in f.polling ==> g.polling == f.polling)
      && g == f.(count := g.count, handoff := g.handoff, polling := g.polling)
    decreases |more|
  {
    if first == Poll && more != [] {
      var h := AfterStart(f, x, Poll);
      CallsEffect(h.(polling := h.polling - {x}), x, more[0], more[1..]);
    }
  }

  /** The turn started a transfer and the code goes back for another one. */
  predicate GoesOn(c: Config, s: State, ch: Choice) {
    && Judge(c, s, ch.hooks.claim) == Activates && FinalRv(ch.hooks.rv, ch.hooks.more) in {Started, Poll}
    && !s.q.pending[0].skip && s.q.queueActive + 1 < c.openings
  }

  function Turn(c: Config, s: State, ch: Choice): State {
    var t := ApplyStart(c, s, ch.slot, ch.hooks.claim, ch.hooks.rv);
    if Judge(c, s, ch.hooks.claim) == Activates
    then t.(f := AfterCalls(s.f, s.q.pending[0], ch.hooks.rv, ch.hooks.more))
    else t
  }

  /** The ends of the polls of x that ata_xfer_start() makes after the answer rv. */
  function PollEvents(x: Xfer, rv: StartRv, more: seq<StartRv>): seq<Event>
    decreases |more|
  {
    if rv != Poll then []
    else if more == [] then [PollDone(x, false, Poll)]
    else [PollDone(x, true, more[0])] + PollEvents(x, more[0], more[1..])
  }

  lemma {:induction false} PollsAreRun(c: Config, s: State, f: Freeze, x: Xfer, rv: StartRv, more: seq<StartRv>)
    requires s.panic == None && x in s.q.active && s.f == AfterStart(f, x, rv)
    ensures ValidRun(c, s, PollEvents(x, rv, more))
    ensures Run(c, s, PollEvents(x, rv, more)) == s.(f := AfterCalls(f, x, rv, more))
    decreases |more|
  {
    if rv == Poll {
      var e := PollDone(x, more != [], if more == [] then Poll else more[0]);
      var t := Apply(c, s, e);
      if more == [] {
        RunOne(c, s, e);
      } else {
        PollsAreRun(c, t, s.f.(polling := s.f.polling - {x}), x, more[0], more[1..]);
        assert PollEvents(x, rv, more)[1..] == PollEvents(x, more[0], more[1..]);
      }
    }
  }

  /** A turn of the loop is a run: the start, then the ends of the polls it makes. */
  lemma TurnIsRun(c: Config, s: State, ch: Choice) returns (es: seq<Event>)
    requires Enabled(c, s, ch.Event())
    ensures ValidRun(c, s, es) && Run(c, s, es) == Turn(c, s, ch)
  {
    var t := Apply(c, s, ch.Event());
    RunOne(c, s, ch.Event());
    es := [ch.Event()];
    if Judge(c, s, ch.hooks.claim) == Activates {
      var x := s.q.pending[0];
      StartedIsActive(c, s, ch);
      PollsAreRun(c, t, s.f, x, ch.hooks.rv, ch.hooks.more);
      hide Apply;
      RunConcat(c, s, es, PollEvents(x, ch.hooks.rv, ch.hooks.more));
      es := es + PollEvents(x, ch.hooks.rv, ch.hooks.more);
    }
  }

  /** A whole turn in the fields. */
  lemma TurnEffect(c: Config, s: State, ch: Choice)
    requires QueueInv(c, s.q) && Enabled(c, s, ch.Event())
    ensures var t, rv := Turn(c, s, ch), FinalRv(ch.hooks.rv, ch.hooks.more);
      if Startable(c, s) && ch.hooks.claim then
        && HeadTaken(c, s, t, ch.slot) && t.f.flags == s.f.flags
        && t.f.count == s.f.count + (if rv == Th then 1 else 0)
        && t.f.handoff == s.f.handoff + (if rv == Th then [s.q.pending[0]] else [])
        && (GoesOn(c, s, ch) <==> rv in {Started, Poll} && !s.q.pending[0].skip && t.q.queueActive < c.openings)
      else
        t == (if NotPossible(c, s) then s.(panic := XferNotPossible) else s) && !GoesOn(c, s, ch)
  {
    JudgeStarts(c, s);
    ClaimMatters(c, s, ch.hooks.claim);
    StartEffect(c, s, ch.slot, ch.hooks.claim, ch.hooks.rv);
    hide QueueInv, Startable, NotPossible, Judge, Candidates, FinalRv, AfterCalls;
    if Judge(c, s, ch.hooks.claim) == Activates {
      CallsEffect(s.f, s.q.pending[0], ch.hooks.rv, ch.hooks.more);
    }
  }

  lemma StartedIsActive(c: Config, s: State, ch: Choice)
    requires Enabled(c, s, ch.Event()) && Judge(c, s, ch.hooks.claim) == Activates
    ensures var t := Apply(c, s, ch.Event());
      s.q.pending[0] in t.q.active && t.panic == None && t.f == AfterStart(s.f, s.q.pending[0], ch.hooks.rv)
  {
  }

  /** The loop, a choice a turn; every turn that goes on shortens the pending queue. */
  function StartLoop(c: Config, s: State, chs: seq<Choice>): State
    requires |chs| > |s.q.pending|
    decreases |s.q.pending|
  {
    if GoesOn(c, s, chs[0]) then StartLoop(c, Turn(c, s, chs[0]), chs[1..]) else Turn(c, s, chs[0])
  }

  /** Every slot handed out in the loop is one the allocator may return. */
  predicate LegalSlots(c: Config, s: State, chs: seq<Choice>)
    requires |chs| > |s.q.pending|
    decreases |s.q.pending|
  {
    && Enabled(c, s, chs[0].Event())
    && (GoesOn(c, s, chs[0]) ==> LegalSlots(c, Turn(c, s, chs[0]), chs[1..]))
  }

  /** The loop is a run of the transition system, so all run results apply to it. */
  lemma {:induction false} StartLoopIsRun(c: Config, s: State, chs: seq<Choice>) returns (es: seq<Event>)
    requires |chs| > |s.q.pending| && LegalSlots(c, s, chs)
    ensures ValidRun(c, s, es) && Run(c, s, es) == StartLoop(c, s, chs)
    decreases |s.q.pending|
  {
    es := TurnIsRun(c, s, chs[0]);
    if GoesOn(c, s, chs[0]) {
      var rest := StartLoopIsRun(c, Turn(c, s, chs[0]), chs[1..]);
      RunConcat(c, s, es, rest);
      es := es + rest;
    }
  }

  /**
   * Nothing more can be started: the queue is empty, its head is waited for, the channel is
   * frozen, the head does not fit what is active, or an opening limit is reached.
   */
  ghost predicate Exhausted(c: Config, s: State) {
    s.q.pending == [] ||
    var x, n := s.q.pending[0], s.q.queueActive;
    || x in s.l.waitAct
    || (!x.skip && s.f.count > 0)
    || (!x.skip && exists y :: y in s.q.active && !(x.ncq && y.ncq && y.drive == x.drive))
    || n >= c.openings || (!x.skip && c.openings > 1 && n >= c.openings - 1)
    || (x.ncq && x.drive < c.NDrives() && n >= c.drvOpenings[x.drive])
  }

  lemma NotStartable(c: Config, s: State)
    requires QueueInv(c, s.q) && !Startable(c, s)
    ensures Exhausted(c, s)
  {
    if s.q.pending != [] { HeadSubmitted(c, s); }
  }

  lemma FullExhausts(c: Config, s: State)
    requires s.q.queueActive >= c.openings
    ensures Exhausted(c, s)
  {
  }

  /** The state and the choice of the last turn. */
  function LastTurn(c: Config, s: State, chs: seq<Choice>): (State, Choice)
    requires |chs| > |s.q.pending|
    decreases |s.q.pending|
  {
    if GoesOn(c, s, chs[0]) then LastTurn(c, Turn(c, s, chs[0]), chs[1..]) else (s, chs[0])
  }

  lemma TurnActive(c: Config, s: State, ch: Choice)
    ensures Judge(c, s, ch.hooks.claim) == Activates ==> s.q.pending != []
    ensures Judge(c, s, ch.hooks.claim) == Activates ==>
      forall x :: x in Turn(c, s, ch).q.active <==> x in s.q.active || x == s.q.pending[0]
    ensures Judge(c, s, ch.hooks.claim) != Activates ==> Turn(c, s, ch).q == s.q
    ensures Turn(c, s, ch).panic == None ==> s.panic == None
  {
  }

  lemma {:induction false} LastTurnIsReached(c: Config, s: State, chs: seq<Choice>) returns (es: seq<Event>)
    requires |chs| > |s.q.pending| && LegalSlots(c, s, chs)
    ensures var (t, ch) := LastTurn(c, s, chs);
      && ValidRun(c, s, es) && Run(c, s, es) == t
      && StartLoop(c, s, chs) == Turn(c, t, ch) && !GoesOn(c, t, ch) && ch in chs
      && forall x :: x in s.q.active ==> x in t.q.active
    decreases |s.q.pending|
  {
    if GoesOn(c, s, chs[0]) {
      var t := Turn(c, s, chs[0]);
      TurnActive(c, s, chs[0]);
      var turn := TurnIsRun(c, s, chs[0]);
      var rest := LastTurnIsReached(c, t, chs[1..]);
      RunConcat(c, s, turn, rest);
      es := turn + rest;
    } else {
      es := [];
    }
  }

  lemma HeadIsInactive(c: Config, q: Queue)
    requires QueueInv(c, q) && q.pending != []
    ensures q.pending[0] !in q.active
  {
    assert q.pending[0] in q.pending;
  }

  /** A turn after which the loop is left with nothing but a non-skip transfer taken. */
  lemma LastTurnExhausts(c: Config, t: State, ch: Choice)
    requires QueueInv(c, t.q) && ch.hooks.claim && ch.hooks.rv == Started && !GoesOn(c, t, ch)
    requires Judge(c, t, true) == Activates ==> !t.q.pending[0].skip
    requires Turn(c, t, ch).panic == None
    ensures Exhausted(c, Turn(c, t, ch))
  {
    JudgeStarts(c, t);
    hide QueueInv, Startable, Exhausted, Judge;
    if Judge(c, t, true) == Activates {
      assert Turn(c, t, ch).q.queueActive == t.q.queueActive + 1 >= c.openings;
      FullExhausts(c, Turn(c, t, ch));
    } else {
      assert Turn(c, t, ch) == t;
      NotStartable(c, t);
    }
  }

  /**
   * If every claim succeeds, every start answers ATASTART_STARTED and no skip-queue
   * transfer is taken, atastart() leaves nothing startable behind.
   */
  lemma StartIsMaximal(c: Config, s: State, chs: seq<Choice>)
    requires QueueInv(c, s.q) && |chs| > |s.q.pending| && LegalSlots(c, s, chs)
    requires forall ch :: ch in chs ==> ch.hooks.claim && ch.hooks.rv == Started
    requires StartLoop(c, s, chs).panic == None
    requires forall x :: x in StartLoop(c, s, chs).q.active && x !in s.q.active ==> !x.skip
    ensures Exhausted(c, StartLoop(c, s, chs))
  {
    hide QueueInv, LegalSlots, ValidRun, Run, StartLoop, LastTurn, Judge, Turn, GoesOn, Exhausted;
    var (t, ch) := LastTurn(c, s, chs);
    var es := LastTurnIsReached(c, s, chs);
    QueueRun(c, s, es);
    if Judge(c, t, true) == Activates {
      TurnActive(c, t, ch);
      HeadIsInactive(c, t.q);
    }
    LastTurnExhausts(c, t, ch);
  }

  // ----- the loop seen from its end, for the imperative version

  /** The choices lead from s to t, the code going back for more after each. */
  predicate Reaches(c: Config, s: State, chs: seq<Choice>, t: State)
    decreases |chs|
  {
    if chs == [] then s == t
    else
      && Enabled(c, s, chs[0].Event()) && GoesOn(c, s, chs[0])
      && Reaches(c, Turn(c, s, chs[0]), chs[1..], t)
  }

  lemma ReachesSelf(c: Config, s: State)
    ensures Reaches(c, s, [], s)
  {
  }

  lemma {:induction false} ReachesSnoc(c: Config, s: State, chs: seq<Choice>, t: State, ch: Choice)
    requires Reaches(c, s, chs, t)
    requires Enabled(c, t, ch.Event()) && GoesOn(c, t, ch)
    ensures Reaches(c, s, chs + [ch], Turn(c, t, ch))
    decreases |chs|
  {
    if chs == [] {
      assert [] + [ch] == [ch] && [ch][1..] == [];
      assert Reaches(c, Turn(c, t, ch), [], Turn(c, t, ch));
    } else {
      assert (chs + [ch])[1..] == chs[1..] + [ch];
      ReachesSnoc(c, Turn(c, s, chs[0]), chs[1..], t, ch);
    }
  }

  lemma {:induction false} LoopEnds(c: Config, s: State, chs: seq<Choice>, t: State, ch: Choice, rest: seq<Choice>)
    requires Reaches(c, s, chs, t)
    requires Enabled(c, t, ch.Event()) && !GoesOn(c, t, ch)
    requires 1 + |rest| > |t.q.pending|
    ensures |chs + ([ch] + rest)| > |s.q.pending|
    ensures LegalSlots(c, s, chs + ([ch] + rest))
    ensures StartLoop(c, s, chs + ([ch] + rest)) == Turn(c, t, ch)
    decreases |chs|
  {
    var all := chs + ([ch] + rest);
    if chs == [] {
      assert all == [ch] + rest;
    } else {
      assert all[1..] == chs[1..] + ([ch] + rest);
      LoopEnds(c, Turn(c, s, chs[0]), chs[1..], t, ch, rest);
    }
  }
}
