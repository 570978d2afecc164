/** The queue that makes ATA buses configure one at a time, in the order they attached. */
module ProbeOrder {
  import opened Seqs

  /** Where the thread configuring a bus stands; Absent before attaching and after leaving. */
  datatype Phase =
    | Absent
    | Probing
    | InWorker
    | HandedOver
    | InThread(entry: nat)
    | Abandoned

  /** atabus_initq_head, the threads' places, and the history of insertions and removals. */
  datatype State = State(queue: seq<nat>, phase: map<nat, Phase>, inserted: seq<nat>, left: seq<nat>) {
    function At(b: nat): Phase { if b in phase then phase[b] else Absent }
  }

  datatype Event =
    | Attach(b: nat)
    | Wake(b: nat)
    | FinishEarly(b: nat)
    | HandOver(b: nat, created: bool)
    | ThreadStart(b: nat)
    | ThreadFinish(b: nat)

  function Init(): State { State([], map[], [], []) }

  /** A bus is in its configuration section from the wait loop until its entry is gone. */
  predicate Configuring(p: Phase) { p.InWorker? || p.HandedOver? || p.InThread? || p.Abandoned? }

  predicate Enabled(s: State, e: Event) {
    match e
    case Attach(b) => b !in s.queue && s.At(b) == Absent
    case Wake(b) => s.At(b) == Probing && s.queue != []
    case FinishEarly(b) => s.At(b) == InWorker
    case HandOver(b, _) => s.At(b) == InWorker
    case ThreadStart(b) => s.At(b) == HandedOver && s.queue != []
    case ThreadFinish(b) => s.At(b).InThread?
  }

  function Removed(s: State, b: nat, entry: nat): State {
    s.(queue := Remove(s.queue, entry), phase := s.phase[b := Absent], left := s.left + [entry])
  }

  function Apply(s: State, e: Event): State
    requires Enabled(s, e)
  {
    match e
    case Attach(b) => s.(queue := s.queue + [b], phase := s.phase[b := Probing], inserted := s.inserted + [b])
    case Wake(b) => if s.queue[0] == b then s.(phase := s.phase[b := InWorker]) else s
    case FinishEarly(b) => Removed(s, b, b)
    case HandOver(b, created) => s.(phase := s.phase[b := if created then HandedOver else Abandoned])
    case ThreadStart(b) => s.(phase := s.phase[b := InThread(s.queue[0])])
    case ThreadFinish(b) => Removed(s, b, s.At(b).entry)
  }

  predicate ValidRun(s: State, es: seq<Event>)
    decreases |es|
  {
    es == [] || (Enabled(s, es[0]) && ValidRun(Apply(s, es[0]), es[1..]))
  }

  function Run(s: State, es: seq<Event>): State
    requires ValidRun(s, es)
    decreases |es|
  {
    if es == [] then s else Run(Apply(s, es[0]), es[1..])
  }

  ghost predicate Inv(s: State) {
    && Distinct(s.queue)
    && (forall b :: b in s.queue <==> s.At(b) != Absent)
    && (forall b :: Configuring(s.At(b)) ==> s.queue != [] && s.queue[0] == b)
    && (forall b :: s.At(b).InThread? ==> s.At(b).entry == b)
    && s.inserted == s.left + s.queue
  }

  lemma RemovedKeeps(s: State, b: nat)
    requires Inv(s) && Configuring(s.At(b))
    ensures Inv(Removed(s, b, b))
  {
    RemoveKeepsOthers(s.queue, b);
    assert Remove(s.queue, b) == s.queue[1..];
    assert s.left + s.queue == (s.left + [b]) + s.queue[1..];
    var t := Removed(s, b, b);
    assert forall a :: a != b ==> t.At(a) == s.At(a);
  }

  lemma Step(s: State, e: Event)
    requires Inv(s) && Enabled(s, e)
    ensures Inv(Apply(s, e))
  {
    var t := Apply(s, e);
    match e
    case Attach(b) =>
      DistinctSnoc(s.queue, b);
      assert s.left + (s.queue + [b]) == (s.left + s.queue) + [b];
      assert forall a :: a in t.queue <==> a in s.queue || a == b;
      assert forall a :: a != b ==> t.At(a) == s.At(a);
    case FinishEarly(b) => RemovedKeeps(s, b);
    case ThreadFinish(b) => RemovedKeeps(s, b);
    case Wake(b) => assert forall a :: a != b ==> t.At(a) == s.At(a);
    case HandOver(b, _) => assert forall a :: a != b ==> t.At(a) == s.At(a);
    case ThreadStart(b) => assert forall a :: a != b ==> t.At(a) == s.At(a);
  }

  lemma {:induction false} RunKeeps(s: State, es: seq<Event>)
    requires Inv(s) && ValidRun(s, es)
    ensures Inv(Run(s, es))
    decreases |es|
  {
    if es != [] {
      Step(s, es[0]);
      RunKeeps(Apply(s, es[0]), es[1..]);
    }
  }

  /** One bus at a time, the head of the queue, whatever order the probes finish in. */
  lemma OneAtATime(es: seq<Event>, a: nat, b: nat)
    requires ValidRun(Init(), es)
    requires var s := Run(Init(), es); Configuring(s.At(a)) && Configuring(s.At(b))
    ensures a == b && Run(Init(), es).queue != [] && Run(Init(), es).queue[0] == a
  {
    RunKeeps(Init(), es);
  }

  /** Buses leave in the order they were inserted. */
  lemma LeaveInOrder(es: seq<Event>)
    requires ValidRun(Init(), es)
    ensures var s := Run(Init(), es); s.left <= s.inserted && s.inserted[|s.left|..] == s.queue
  {
    RunKeeps(Init(), es);
    var s := Run(Init(), es);
    assert s.inserted == s.left + s.queue;
  }

  /** The handed-over thread finds its own entry at the head, as it asserts. */
  lemma ThreadFindsItself(es: seq<Event>, b: nat)
    requires ValidRun(Init(), es) && Run(Init(), es).At(b) == HandedOver
    ensures Run(Init(), es).queue != [] && Run(Init(), es).queue[0] == b
  {
    RunKeeps(Init(), es);
  }

  /** A waiting bus never looks at an empty queue: the unchecked TAILQ_FIRST is not null. */
  lemma WaiterFindsHead(es: seq<Event>, b: nat)
    requires ValidRun(Init(), es) && Run(Init(), es).At(b) == Probing
    ensures Enabled(Run(Init(), es), Wake(b))
  {
    RunKeeps(Init(), es);
    assert b in Run(Init(), es).queue;
  }

  /** The event by which a bus in the given phase moves on. */
  function NextOf(s: State, b: nat): Event {
    match s.At(b)
    case InWorker => FinishEarly(b)
    case HandedOver => ThreadStart(b)
    case InThread(_) => ThreadFinish(b)
    case _ => Wake(b)
  }

  /** No deadlock: unless its config thread could not be created, the head can always move on. */
  lemma HeadMovesOn(es: seq<Event>)
    requires ValidRun(Init(), es) && Run(Init(), es).queue != []
    requires var s := Run(Init(), es); s.At(s.queue[0]) != Abandoned
    ensures var s := Run(Init(), es);
      Enabled(s, NextOf(s, s.queue[0])) && Apply(s, NextOf(s, s.queue[0])) != s
  {
    RunKeeps(Init(), es);
    var s := Run(Init(), es);
    var b := s.queue[0];
    assert b in s.queue;
    var t := Apply(s, NextOf(s, b));
    assert t.At(b) != s.At(b);
  }

  /** If it could not, its entry stays at the head for good and no other bus is configured. */
  lemma {:induction false} AbandonedBlocks(s: State, es: seq<Event>, b: nat, other: nat)
    requires Inv(s) && s.At(b) == Abandoned && ValidRun(s, es) && other != b
    ensures Run(s, es).At(b) == Abandoned && Run(s, es).left == s.left && !Configuring(Run(s, es).At(other))
    decreases |es|
  {
    if es != [] {
      Step(s, es[0]);
      AbandonedStep(s, es[0], b);
      AbandonedBlocks(Apply(s, es[0]), es[1..], b, other);
    }
  }

  lemma AbandonedStep(s: State, e: Event, b: nat)
    requires Inv(s) && s.At(b) == Abandoned && Enabled(s, e)
    ensures Apply(s, e).At(b) == Abandoned && Apply(s, e).left == s.left
  {
  }

  const ABANDONED_RUN := [Attach(0), Wake(0), HandOver(0, false)]

  /** Such a head is reached as soon as the creation of its config thread fails. */
  lemma AbandonedReachable()
    ensures ValidRun(Init(), ABANDONED_RUN)
    ensures var s := Run(Init(), ABANDONED_RUN); s.queue == [0] && s.At(0) == Abandoned
  {
    var s1 := Apply(Init(), Attach(0));
    var s2 := Apply(s1, Wake(0));
    var s3 := Apply(s2, HandOver(0, false));
    assert ABANDONED_RUN[1..] == [Wake(0), HandOver(0, false)];
    assert ABANDONED_RUN[1..][1..] == [HandOver(0, false)] && ABANDONED_RUN[1..][1..][1..] == [];
    assert ValidRun(s3, []) && ValidRun(s2, [HandOver(0, false)]) && ValidRun(s1, ABANDONED_RUN[1..]);
  }

  /** How many events the bus needs to leave the queue once it is the head. */
  function Rest(p: Phase): nat {
    match p case Probing => 2 case HandedOver => 2 case _ => 1
  }

  lemma HeadNext(s: State)
    requires Inv(s) && s.queue != [] && s.At(s.queue[0]) != Abandoned
    ensures var b, e := s.queue[0], NextOf(s, s.queue[0]);
      && Enabled(s, e) && (forall a :: a != b ==> Apply(s, e).At(a) == s.At(a))
      && if Rest(s.At(b)) == 1 then Apply(s, e).queue == s.queue[1..]
         else Apply(s, e).queue == s.queue && Apply(s, e).At(b) != Abandoned && Rest(Apply(s, e).At(b)) == 1
  {
    assert s.queue[0] in s.queue;
  }

  /** The head leaves, the other buses stay as they are. */
  lemma {:induction false} HeadLeaves(s: State) returns (es: seq<Event>)
    requires Inv(s) && s.queue != [] && s.At(s.queue[0]) != Abandoned
    ensures ValidRun(s, es) && Run(s, es).queue == s.queue[1..]
    ensures forall a :: a != s.queue[0] ==> Run(s, es).At(a) == s.At(a)
    decreases Rest(s.At(s.queue[0]))
  {
    var e := NextOf(s, s.queue[0]);
    HeadNext(s);
    Step(s, e);
    var t := Apply(s, e);
    var rest: seq<Event> := [];
    if Rest(s.At(s.queue[0])) > 1 {
      rest := HeadLeaves(t);
    }
    es := [e] + rest;
    assert es[1..] == rest && ValidRun(t, rest);
  }

  lemma {:induction false} RunConcat(s: State, a: seq<Event>, b: seq<Event>)
    requires ValidRun(s, a) && ValidRun(Run(s, a), b)
    ensures ValidRun(s, a + b) && Run(s, a + b) == Run(Run(s, a), b)
    decreases |a|
  {
    if a == [] {
      assert a + b == b;
    } else {
      assert (a + b)[1..] == a[1..] + b;
      RunConcat(Apply(s, a[0]), a[1..], b);
    }
  }

  lemma {:induction false} QueueDrains(s: State) returns (es: seq<Event>)
    requires Inv(s) && (s.queue != [] ==> s.At(s.queue[0]) != Abandoned)
    ensures ValidRun(s, es) && Run(s, es).queue == []
    decreases |s.queue|
  {
    es := [];
    if s.queue != [] {
      var first := HeadLeaves(s);
      RunKeeps(s, first);
      var t := Run(s, first);
      assert t.queue != [] ==> t.queue[0] == s.queue[1];
      var rest := QueueDrains(t);
      RunConcat(s, first, rest);
      es := first + rest;
    }
  }

  /**
   * No deadlock, and when: in every reachable state all queued buses can still be configured
   * and leave if and only if the head's config thread did not fail to be created.
   */
  lemma DrainsIff(es: seq<Event>)
    requires ValidRun(Init(), es)
    ensures var s := Run(Init(), es);
      (exists more :: ValidRun(s, more) && Run(s, more).queue == [])
      <==> s.queue == [] || s.At(s.queue[0]) != Abandoned
  {
    var s := Run(Init(), es);
    RunKeeps(Init(), es);
    if s.queue == [] || s.At(s.queue[0]) != Abandoned {
      var more := QueueDrains(s);
    } else {
      var b := s.queue[0];
      forall more | ValidRun(s, more) ensures Run(s, more).queue != [] {
        AbandonedBlocks(s, more, b, b + 1);
        RunKeeps(s, more);
        assert b in Run(s, more).queue;
      }
    }
  }

  // ----- the queue as the code keeps it

  class InitQueue {
    var head: seq<nat>
    ghost var phase: map<nat, Phase>
    ghost var inserted: seq<nat>
    ghost var left: seq<nat>

    ghost function Current(): State
      reads this
    {
      State(head, phase, inserted, left)
    }

    ghost predicate Valid()
      reads this
    {
      Inv(Current())
    }

    constructor ()
      ensures Current() == Init() && Valid()
    {
      head, phase, inserted, left := [], map[], [], [];
    }

    /** The insertion in atabus_attach(). */
    method Insert(b: nat)
      requires Valid() && b !in head
      modifies this
      ensures Current() == Apply(old(Current()), Attach(b)) && Valid() && head == old(head) + [b]
    {
      Step(Current(), Attach(b));
      head := head + [b];
      phase := phase[b := Probing];
      inserted := inserted + [b];
    }

    /** One turn of the wait loop in atabusconfig(): true when the bus may go on, alone. */
    method Await(b: nat) returns (mine: bool)
      requires Valid() && Current().At(b) == Probing
      modifies `phase
      ensures Current() == Apply(old(Current()), Wake(b)) && Valid()
      ensures mine <==> head[0] == b
      ensures mine ==> forall a :: a != b ==> !Configuring(Current().At(a))
    {
      assert b in head;
      Step(Current(), Wake(b));
      mine := head[0] == b;
      if mine {
        phase := phase[b := InWorker];
      }
    }

    /** The config thread takes its entry from the head, where its assertion finds itself. */
    method FindEntry(b: nat) returns (entry: nat)
      requires Valid() && Current().At(b) == HandedOver
      modifies `phase
      ensures Current() == Apply(old(Current()), ThreadStart(b)) && Valid() && entry == b
    {
      Step(Current(), ThreadStart(b));
      entry := head[0];
      assert entry == b;
      phase := phase[b := InThread(entry)];
    }

    /** The removal at the end of either thread: it is the head that goes. */
    method RemoveEntry(b: nat, entry: nat)
      requires Valid() && (Current().At(b) == InThread(entry) || (Current().At(b) == InWorker && entry == b))
      modifies this
      ensures Current() == Removed(old(Current()), b, entry) && Valid()
      ensures entry == b && head == old(head)[1..]
    {
      Step(Current(), if Current().At(b) == InWorker then FinishEarly(b) else ThreadFinish(b));
      head := Remove(head, entry);
      phase := phase[b := Absent];
      left := left + [entry];
    }
  }
}
