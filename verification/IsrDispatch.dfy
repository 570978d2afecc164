/** The eight lists together: isrlink() by level, isrdispatch() and its counters. */
module IsrDispatch {
  import opened Isr

  /** What one interrupt on a valid level comes to. */
  datatype Irq = NoHandler | Handled | Stray

  /** The two static counters of isrdispatch(), and whether one of them has panicked. */
  datatype Counters = Counters(straycount: nat, unexpected: nat, panicked: bool)

  function Counted(c: Counters, q: Irq): Counters {
    if c.panicked then c
    else
      match q
      case NoHandler => c.(unexpected := c.unexpected + 1, panicked := c.unexpected + 1 > 10)
      case Handled => c.(straycount := 0)
      case Stray => c.(straycount := c.straycount + 1, panicked := c.straycount + 1 > 50)
  }

  function CountAll(qs: seq<Irq>): Counters {
    if qs == [] then Counters(0, 0, false) else Counted(CountAll(qs[..|qs| - 1]), qs[|qs| - 1])
  }

  /** Strays after the last handled interrupt, whatever levels without handlers do between. */
  function StraysSinceHandled(qs: seq<Irq>): nat {
    if qs == [] || qs[|qs| - 1] == Handled then 0
    else StraysSinceHandled(qs[..|qs| - 1]) + if qs[|qs| - 1] == Stray then 1 else 0
  }

  function Unhandled(qs: seq<Irq>): nat {
    if qs == [] then 0 else Unhandled(qs[..|qs| - 1]) + if qs[|qs| - 1] == NoHandler then 1 else 0
  }

  /** After some prefix of the interrupts one of the two limits is exceeded. */
  ghost predicate LimitExceeded(qs: seq<Irq>) {
    exists n: nat :: n <= |qs| && Exceeds(qs, n)
  }

  predicate Exceeds(qs: seq<Irq>, n: nat)
    requires n <= |qs|
  {
    StraysSinceHandled(qs[..n]) > 50 || Unhandled(qs[..n]) > 10
  }

  lemma {:induction false} LimitOfPrefix(qs: seq<Irq>)
    requires qs != []
    ensures LimitExceeded(qs) <==> LimitExceeded(qs[..|qs| - 1]) || Exceeds(qs, |qs|)
  {
    var front := qs[..|qs| - 1];
    forall n: nat | n <= |front| ensures Exceeds(front, n) == Exceeds(qs, n) {
      assert front[..n] == qs[..n];
    }
  }

  /**
   * A machine panics over interrupts exactly when 51 strays came without a handled one in
   * between or 11 came on levels without handlers; until then the counters are those numbers.
   */
  lemma {:induction false} PanicsIff(qs: seq<Irq>)
    ensures CountAll(qs).panicked <==> LimitExceeded(qs)
    ensures !CountAll(qs).panicked ==>
      CountAll(qs).straycount == StraysSinceHandled(qs) && CountAll(qs).unexpected == Unhandled(qs)
  {
    if qs == [] {
      assert forall n: nat :: n <= 0 ==> qs[..n] == [] && !Exceeds(qs, n);
    } else {
      var front := qs[..|qs| - 1];
      PanicsIff(front);
      LimitOfPrefix(qs);
      assert front[..|front|] == front;
      assert Exceeds(front, |front|) ==> LimitExceeded(front);
      assert qs[..|qs|] == qs;
    }
  }

  // ----- nesting

  /** Levels of the dispatches under way, innermost last, and the global idepth. */
  datatype Nest = Nest(levels: seq<nat>, idepth: nat)
  datatype NestEvent = Enter(level: nat) | Leave

  function NestStep(s: Nest, e: NestEvent): Nest {
    match e
    case Enter(l) => Nest(s.levels + [l], if l >= IPL_VM then s.idepth + 1 else s.idepth)
    case Leave =>
      if s.levels == [] then s
      else
        var l := s.levels[|s.levels| - 1];
        Nest(s.levels[..|s.levels| - 1], if l >= IPL_VM && s.idepth > 0 then s.idepth - 1 else s.idepth)
  }

  function NestRun(s: Nest, es: seq<NestEvent>): Nest
    decreases |es|
  {
    if es == [] then s else NestRun(NestStep(s, es[0]), es[1..])
  }

  function High(levels: seq<nat>): nat {
    if levels == [] then 0
    else High(levels[..|levels| - 1]) + if levels[|levels| - 1] >= IPL_VM then 1 else 0
  }

  lemma {:induction false} NestKeeps(s: Nest, es: seq<NestEvent>)
    requires s.idepth == High(s.levels)
    ensures NestRun(s, es).idepth == High(NestRun(s, es).levels)
    decreases |es|
  {
    if es != [] {
      if es[0].Enter? { assert (s.levels + [es[0].level])[..|s.levels|] == s.levels; }
      NestKeeps(NestStep(s, es[0]), es[1..]);
    }
  }

  lemma {:induction false} HighPositive(levels: seq<nat>)
    ensures High(levels) != 0 <==> exists i :: 0 <= i < |levels| && levels[i] >= IPL_VM
  {
    if levels != [] {
      var n := |levels| - 1;
      HighPositive(levels[..n]);
      if exists i :: 0 <= i < n && levels[i] >= IPL_VM {
        var i :| 0 <= i < n && levels[i] >= IPL_VM;
        assert levels[..n][i] >= IPL_VM;
      }
      if exists i :: 0 <= i < n && levels[..n][i] >= IPL_VM {
        var i :| 0 <= i < n && levels[..n][i] >= IPL_VM;
        assert levels[i] >= IPL_VM;
      }
    }
  }

  /** cpu_intr_p() holds exactly inside some dispatch at IPL_VM or above, however nested. */
  lemma CpuIntrIff(es: seq<NestEvent>)
    ensures var s := NestRun(Nest([], 0), es);
      s.idepth != 0 <==> exists i :: 0 <= i < |s.levels| && s.levels[i] >= IPL_VM
  {
    NestKeeps(Nest([], 0), es);
    HighPositive(NestRun(Nest([], 0), es).levels);
  }

  // ----- the code

  datatype Outcome = Returned | BadVector | TooMany

  predicate Level(ipl: int) { 0 <= ipl < NISR }

  function Ids(nodes: seq<Handler>): (ids: seq<int>)
    ensures |ids| == |nodes| && forall i :: 0 <= i < |ids| ==> ids[i] == nodes[i].id
  {
    seq(|nodes|, i requires 0 <= i < |nodes| => nodes[i].id)
  }

  class Interrupts {
    const isrList: seq<IsrList>
    var idepth: nat
    var straycount: nat
    var unexpected: nat
    var intrcnt: seq<nat>

    /** isrinit(). */
    constructor ()
      ensures |isrList| == NISR == |intrcnt| && fresh(isrList)
      ensures forall l :: l in isrList ==> l.Valid() && l.nodes == []
      ensures idepth == straycount == unexpected == 0
    {
      var lists: seq<IsrList> := [];
      var i := 0;
      while i < NISR
        invariant 0 <= i == |lists| <= NISR && fresh(lists)
        invariant forall l :: l in lists ==> l.nodes == [] && l.Valid()
      {
        var l := new IsrList();
        lists := lists + [l];
        i := i + 1;
      }
      isrList := lists;
      idepth, straycount, unexpected := 0, 0, 0;
      intrcnt := seq(NISR, _ => 0);
    }

    /** isrlink(); null stands for the panic over a bad level. */
    method IsrLink(id: int, ipl: int, priority: int) returns (h: Handler?)
      requires |isrList| == NISR && (Level(ipl) ==> isrList[ipl].Valid())
      modifies if Level(ipl) then {isrList[ipl]} else {}, if Level(ipl) then isrList[ipl].nodes else []
      ensures h == null <==> !Level(ipl)
      ensures h != null ==> isrList[ipl].Valid() && h.id == id && h.ipl == ipl && h.priority == priority
      ensures h != null ==>
        isrList[ipl].nodes == InsertAt(old(isrList[ipl].nodes), Place(Priorities(old(isrList[ipl].nodes)), priority), h)
    {
      if ipl < 0 || ipl >= NISR { return null; }
      h := new Handler(id, ipl, priority);
      isrList[ipl].Link(h);
    }

    function Counts(): Counters
      reads this
    {
      Counters(straycount, unexpected, false)
    }

    /**
     * isrdispatch(); answers[i] is what the i-th handler of the list returns. The handlers
     * called are reported in order, all of the list, whoever has answered before, and idepth
     * as each of them finds it; levels are those of the dispatches this one interrupts.
     */
    method Dispatch(evec: nat, answers: seq<bool>, ghost levels: seq<nat>)
      returns (out: Outcome, called: seq<int>, ghost depths: seq<nat>)
      requires |isrList| == NISR == |intrcnt|
      requires var ipl := evec % 4096 / 4 - ISRLOC;
        Level(ipl) ==> isrList[ipl].Valid() && |answers| == |isrList[ipl].nodes|
      modifies this
      ensures var ipl := evec % 4096 / 4 - ISRLOC;
        if !Level(ipl) then out == BadVector && called == [] && Counts() == old(Counts()) && intrcnt == old(intrcnt)
        else
          var nodes := isrList[ipl].nodes;
          var irq := if nodes == [] then NoHandler else if true in answers then Handled else Stray;
          && called == Ids(nodes) && intrcnt == old(intrcnt)[ipl := old(intrcnt[ipl]) + 1]
          && Counts() == Counted(old(Counts()), irq).(panicked := false)
          && (out == TooMany <==> Counted(old(Counts()), irq).panicked)
          && (out == Returned || out == TooMany)
      ensures out != TooMany ==> idepth == old(idepth)
      ensures |depths| == |called|
      ensures var ipl := evec % 4096 / 4 - ISRLOC;
        Level(ipl) ==>
          && (forall i :: 0 <= i < |depths| ==> depths[i] == old(idepth) + if ipl >= IPL_VM then 1 else 0)
          && (forall i :: 0 <= i < |depths| ==> depths[i] == NestStep(Nest(levels, old(idepth)), Enter(ipl)).idepth)
          && (out == Returned ==>
               Nest(levels, idepth) == NestStep(NestStep(Nest(levels, old(idepth)), Enter(ipl)), Leave))
    {
      called, depths := [], [];
      var vec := evec % 4096 / 4;
      if vec < ISRLOC || vec >= ISRLOC + NISR { return BadVector, called, depths; }
      var ipl := vec - ISRLOC;
      intrcnt := intrcnt[ipl := intrcnt[ipl] + 1];
      if ipl >= IPL_VM { idepth := idepth + 1; }
      var list := isrList[ipl];
      if list.first == null {
        unexpected := unexpected + 1;
        if unexpected > 10 { return TooMany, called, depths; }
      } else {
        var handled := false;
        called, handled, depths := CallAll(list, answers);
        if handled {
          straycount := 0;
        } else {
          straycount := straycount + 1;
          if straycount > 50 { return TooMany, called, depths; }
        }
      }
      if ipl >= IPL_VM { idepth := idepth - 1; }
      assert (levels + [ipl])[..|levels|] == levels;
      out := Returned;
    }

    /** cpu_intr_p(). */
    method CpuIntrP() returns (inside: bool)
      ensures inside <==> idepth > 0
    {
      inside := idepth != 0;
    }

    /** Give all the handlers a chance. */
    method CallAll(list: IsrList, answers: seq<bool>)
      returns (called: seq<int>, handled: bool, ghost depths: seq<nat>)
      requires list.Valid() && |answers| == |list.nodes|
      ensures called == Ids(list.nodes) && (handled <==> true in answers)
      ensures |depths| == |called| && forall i :: 0 <= i < |depths| ==> depths[i] == idepth
    {
      called, handled, depths := [], false, [];
      var isr, n := list.first, 0;
      while isr != null
        invariant 0 <= n <= |list.nodes| && isr == if n < |list.nodes| then list.nodes[n] else null
        invariant called == Ids(list.nodes)[..n] && (handled <==> true in answers[..n])
        invariant |depths| == |called| && forall i :: 0 <= i < |depths| ==> depths[i] == idepth
        decreases |list.nodes| - n
      {
        depths := depths + [idepth];
        called := called + [isr.id];
        handled := handled || answers[n];
        assert answers[..n + 1] == answers[..n] + [answers[n]];
        isr, n := isr.next, n + 1;
      }
      assert answers[..n] == answers;
    }
  }
}
