/** bus_space_copy_region_N: overlapping copies over bus space, also with byte swapping. */
module BusCopy {

  type Byte = b: int | 0 <= b < 256
  datatype Tag = Intio | Eio | Ata
  datatype Width = One | Two | Four

  const WRAP: nat := 0x1_0000_0000

  function Bytes(w: Width): nat {
    match w case One => 1 case Two => 2 case Four => 4
  }

  /** c values of width w, in bytes. */
  function Span(w: Width, c: nat): nat {
    match w case One => c case Two => 2 * c case Four => 4 * c
  }

  lemma SpanStep(w: Width, c: nat)
    ensures 1 <= Bytes(w) <= 4 && (c == 0 ==> Span(w, c) == 0)
    ensures c > 0 ==> Span(w, c) == Span(w, c - 1) + Bytes(w)
  {
  }

  /** The number of values of each width. */
  function Range(w: Width): nat {
    match w case One => 256 case Two => 0x1_0000 case Four => WRAP
  }

  // ----- values: the processor is big-endian, ATA data is little-endian

  function Join(b: seq<Byte>): nat
    requires |b| in {1, 2, 4}
  {
    if |b| == 1 then b[0]
    else if |b| == 2 then b[0] as int * 256 + b[1]
    else b[0] as int * 0x100_0000 + b[1] as int * 0x1_0000 + b[2] as int * 256 + b[3]
  }

  function Split(w: Width, v: nat): (b: seq<Byte>)
    requires v < Range(w)
    ensures |b| == Bytes(w)
  {
    match w
    case One => [v]
    case Two => [v / 256, v % 256]
    case Four => [v / 0x100_0000, v / 0x1_0000 % 256, v / 256 % 256, v % 256]
  }

  /** bswap16 and bswap32; a byte has nothing to swap. */
  function BSwap(w: Width, v: nat): nat
    requires v < Range(w)
  {
    match w
    case One => v
    case Two => v % 256 * 256 + v / 256
    case Four => v % 256 * 0x100_0000 + v / 256 % 256 * 0x1_0000 + v / 0x1_0000 % 256 * 256 + v / 0x100_0000
  }

  lemma JoinFits(w: Width, b: seq<Byte>)
    requires |b| == Bytes(w)
    ensures Join(b) < Range(w)
  {
  }

  lemma QuotRem(v: nat, q: nat, r: nat)
    ensures v == q * 256 + r && r < 256 ==> v / 256 == q && v % 256 == r
    ensures v == q * 0x1_0000 + r && r < 0x1_0000 ==> v / 0x1_0000 == q
    ensures v == q * 0x100_0000 + r && r < 0x100_0000 ==> v / 0x100_0000 == q
  {
  }

  /** Splitting a joined value gives the bytes back. */
  lemma SplitJoin(w: Width, b: seq<Byte>)
    requires |b| == Bytes(w)
    ensures Join(b) < Range(w) && Split(w, Join(b)) == b
  {
    JoinFits(w, b);
    var v := Join(b);
    if w == Two {
      QuotRem(v, b[0], b[1]);
    } else if w == Four {
      var b0: nat, b1: nat, b2: nat, b3: nat := b[0], b[1], b[2], b[3];
      QuotRem(v, b0 * 0x1_0000 + b1 * 256 + b2, b3);
      QuotRem(b0 * 0x1_0000 + b1 * 256 + b2, b0 * 256 + b1, b2);
      QuotRem(v, b0 * 256 + b1, b2 * 256 + b3);
      QuotRem(b0 * 256 + b1, b0, b1);
      QuotRem(v, b0, b1 * 0x1_0000 + b2 * 256 + b3);
    }
  }

  function Reversed(b: seq<Byte>): seq<Byte> {
    if |b| == 2 then [b[1], b[0]] else if |b| == 4 then [b[3], b[2], b[1], b[0]] else b
  }

  /** Swapping a value reverses its bytes. */
  lemma BSwapReverses(w: Width, b: seq<Byte>)
    requires |b| == Bytes(w)
    ensures Join(b) < Range(w) && BSwap(w, Join(b)) == Join(Reversed(b))
  {
    SplitJoin(w, b);
    assert Split(w, Join(b)) == b;
  }

  /** What a read through the tag makes of a value, and a write of the value given to it. */
  function Tagged(t: Tag, w: Width, v: nat): nat
    requires v < Range(w)
  {
    if t == Ata then BSwap(w, v) else v
  }

  /** The value of bytes, the first being the lowest. */
  function Little(b: seq<Byte>): nat
    decreases |b|
  {
    if b == [] then 0 else b[0] + 256 * Little(b[1..])
  }

  /** The value of bytes, the first being the highest. */
  function Big(b: seq<Byte>): nat
    decreases |b|
  {
    if b == [] then 0 else 256 * Big(b[..|b| - 1]) + b[|b| - 1]
  }

  lemma BigIsJoin(b: seq<Byte>)
    requires |b| in {1, 2, 4}
    ensures Big(b) == Join(b)
  {
    var b1, b2, b3 := b[..1], if |b| >= 2 then b[..2] else [], if |b| == 4 then b[..3] else [];
    assert b1[..0] == [];
    if |b| == 1 { assert b == b1; }
    if |b| == 2 { assert b[..1] == b1; }
    if |b| == 4 { assert b[..3] == b3 && b3[..2] == b2 && b2[..1] == b1; }
  }

  lemma LittleIsJoin(b: seq<Byte>)
    requires |b| in {1, 2, 4}
    ensures Little(b) == Join(Reversed(b))
  {
    var b1, b2 := b[1..], if |b| == 4 then b[2..] else [];
    if |b| == 1 { assert b1 == []; }
    if |b| == 2 { assert b1 == [b[1]] && b1[1..] == []; }
    if |b| == 4 { assert b1[1..] == b2 && b2[1..] == [b[3]] && b2[1..][1..] == []; }
  }

  /** Reads through the ATA tag take the device's bytes as little-endian, all others as big-endian. */
  lemma ReadOrder(t: Tag, w: Width, b: seq<Byte>)
    requires |b| == Bytes(w)
    ensures Join(b) < Range(w)
    ensures Tagged(t, w, Join(b)) == if t == Ata then Little(b) else Big(b)
  {
    JoinFits(w, b);
    BigIsJoin(b);
    LittleIsJoin(b);
    BSwapReverses(w, b);
  }

  /** The read swap and the write swap cancel for every tag and width. */
  lemma SwapsCancel(t: Tag, w: Width, b: seq<Byte>)
    requires |b| == Bytes(w)
    ensures Join(b) < Range(w) && Tagged(t, w, Join(b)) < Range(w)
    ensures Tagged(t, w, Tagged(t, w, Join(b))) == Join(b)
  {
    JoinFits(w, b);
    if t == Ata {
      BSwapReverses(w, b);
      BSwapReverses(w, Reversed(b));
      assert Reversed(Reversed(b)) == b;
    }
  }

  // ----- the copy

  /** The intended effect: n bytes at src, as they were, end up at dst; nothing else moves. */
  function Moved(m: seq<Byte>, src: nat, dst: nat, n: nat): (r: seq<Byte>)
    requires src + n <= |m| && dst + n <= |m|
  {
    m[..dst] + m[src..src + n] + m[dst + n..]
  }

  lemma MovedPointwise(m: seq<Byte>, r: seq<Byte>, src: nat, dst: nat, n: nat)
    requires src + n <= |m| && dst + n <= |m| == |r|
    requires forall j :: dst <= j < dst + n ==> r[j] == m[j - dst + src]
    requires forall j :: 0 <= j < |r| && !(dst <= j < dst + n) ==> r[j] == m[j]
    ensures r == Moved(m, src, dst, n)
  {
  }

  class Bus {
    const mem: array<Byte>

    constructor (mem: array<Byte>)
      ensures this.mem == mem
    {
      this.mem := mem;
    }

    /** bus_space_read_N. */
    method Read(t: Tag, w: Width, h: nat, o: nat) returns (v: nat)
      requires h + o + Bytes(w) <= mem.Length
      ensures Join(mem[h + o..h + o + Bytes(w)]) < Range(w)
      ensures v == Tagged(t, w, Join(mem[h + o..h + o + Bytes(w)])) && v < Range(w)
      ensures v == if t == Ata then Little(mem[h + o..h + o + Bytes(w)]) else Big(mem[h + o..h + o + Bytes(w)])
    {
      var a := h + o;
      ReadOrder(t, w, mem[a..a + Bytes(w)]);
      SwapsCancel(t, w, mem[a..a + Bytes(w)]);
      v := Tagged(t, w, Join(mem[a..a + Bytes(w)]));
    }

    /** bus_space_write_N. */
    method Write(t: Tag, w: Width, h: nat, o: nat, v: nat)
      requires h + o + Bytes(w) <= mem.Length && v < Range(w) && Tagged(t, w, v) < Range(w)
      modifies mem
      ensures mem[h + o..h + o + Bytes(w)] == Split(w, Tagged(t, w, v))
      ensures forall i :: 0 <= i < mem.Length && !(h + o <= i < h + o + Bytes(w)) ==> mem[i] == old(mem[i])
    {
      var a, b := h + o, Split(w, Tagged(t, w, v));
      mem[a] := b[0];
      if w != One { mem[a + 1] := b[1]; }
      if w == Four { mem[a + 2], mem[a + 3] := b[2], b[3]; }
    }

    /** One step of either loop: the bytes of one value go from one place to the other. */
    method Step(t: Tag, w: Width, h1: nat, o1: nat, h2: nat, o2: nat)
      requires h1 + o1 + Bytes(w) <= mem.Length && h2 + o2 + Bytes(w) <= mem.Length
      modifies mem
      ensures forall j :: h2 + o2 <= j < h2 + o2 + Bytes(w) ==> mem[j] == old(mem[j - (h2 + o2) + (h1 + o1)])
      ensures forall i :: 0 <= i < mem.Length && !(h2 + o2 <= i < h2 + o2 + Bytes(w)) ==> mem[i] == old(mem[i])
    {
      ghost var was := mem[h1 + o1..h1 + o1 + Bytes(w)];
      var v := Read(t, w, h1, o1);
      SwapsCancel(t, w, was);
      SplitJoin(w, was);
      Write(t, w, h2, o2, v);
      forall j | h2 + o2 <= j < h2 + o2 + Bytes(w) ensures mem[j] == was[j - (h2 + o2)] {
        assert mem[h2 + o2..h2 + o2 + Bytes(w)][j - (h2 + o2)] == mem[j];
      }
    }

    /** src after dest: copy forward. */
    method CopyForward(t: Tag, w: Width, h1: nat, h2: nat, o1: nat, o2: nat, count: nat)
      requires h1 + o1 + Span(w, count) <= mem.Length <= WRAP && h1 + o1 >= h2 + o2
      modifies mem
      ensures mem[..] == Moved(old(mem[..]), h1 + o1, h2 + o2, Span(w, count))
    {
      hide Span, Bytes, Moved;
      SpanStep(w, count);
      ghost var m, src, dst, n := mem[..], h1 + o1, h2 + o2, Span(w, count);
      var c: nat, o: nat := count, 0;
      ghost var d: nat := 0;
      while c != 0
        invariant c <= count && d + Span(w, c) == n && d <= n && (c != 0 ==> o == d)
        invariant forall j :: dst <= j < dst + d ==> mem[j] == m[j - dst + src]
        invariant forall j :: 0 <= j < mem.Length && !(dst <= j < dst + d) ==> mem[j] == m[j]
      {
        SpanStep(w, c);
        SpanStep(w, c - 1);
        Step(t, w, h1, o1 + o, h2, o2 + o);
        c, o, d := c - 1, (o + Bytes(w)) % WRAP, d + Bytes(w);
      }
      SpanStep(w, 0);
      MovedPointwise(m, mem[..], src, dst, n);
    }

    /** dest after src: copy backwards; o wraps below zero after the last step. */
    method CopyBackward(t: Tag, w: Width, h1: nat, h2: nat, o1: nat, o2: nat, count: nat)
      requires h2 + o2 + Span(w, count) <= mem.Length <= WRAP && h1 + o1 < h2 + o2
      modifies mem
      ensures mem[..] == Moved(old(mem[..]), h1 + o1, h2 + o2, Span(w, count))
    {
      hide Span, Bytes, Moved;
      SpanStep(w, count);
      ghost var m, src, dst, n := mem[..], h1 + o1, h2 + o2, Span(w, count);
      var c: nat, o: nat := count, (Span(w, count) - Bytes(w)) % WRAP;
      ghost var d: nat := n;
      while c != 0
        invariant c <= count && d == Span(w, c) <= n && (c != 0 ==> o == d - Bytes(w))
        invariant forall j :: dst + d <= j < dst + n ==> mem[j] == m[j - dst + src]
        invariant forall j :: 0 <= j < mem.Length && !(dst + d <= j < dst + n) ==> mem[j] == m[j]
      {
        SpanStep(w, c);
        SpanStep(w, c - 1);
        Step(t, w, h1, o1 + o, h2, o2 + o);
        c, o, d := c - 1, (o - Bytes(w)) % WRAP, d - Bytes(w);
      }
      SpanStep(w, 0);
      MovedPointwise(m, mem[..], src, dst, n);
    }

    /**
     * bus_space_copy_region_N with the arguments in the order of its definition. Offsets
     * are 32-bit: for a count of zero and after the last backward step o wraps, unused.
     */
    method CopyRegion(t: Tag, w: Width, h1: nat, h2: nat, o1: nat, o2: nat, count: nat)
      requires h1 + o1 + Span(w, count) <= mem.Length && h2 + o2 + Span(w, count) <= mem.Length <= WRAP
      modifies mem
      ensures mem[..] == Moved(old(mem[..]), h1 + o1, h2 + o2, Span(w, count))
    {
      if h1 + o1 >= h2 + o2 {
        CopyForward(t, w, h1, h2, o1, o2, count);
      } else {
        CopyBackward(t, w, h1, h2, o1, o2, count);
      }
    }
  }

  // ----- what the copy means through the bus

  /** The values read with width w from a region, the way a driver sees it. */
  function Values(t: Tag, w: Width, m: seq<Byte>, at: nat, c: nat): (r: seq<nat>)
    requires at + Span(w, c) <= |m|
    decreases c
  {
    if c == 0 then []
    else
      JoinFits(w, m[at..at + Bytes(w)]);
      [Tagged(t, w, Join(m[at..at + Bytes(w)]))] + Values(t, w, m, at + Bytes(w), c - 1)
  }

  lemma {:induction false} SameBytesSameValues(t: Tag, w: Width, m: seq<Byte>, p: nat, r: seq<Byte>, q: nat, c: nat)
    requires p + Span(w, c) <= |m| && q + Span(w, c) <= |r|
    requires m[p..p + Span(w, c)] == r[q..q + Span(w, c)]
    ensures Values(t, w, m, p, c) == Values(t, w, r, q, c)
    decreases c
  {
    hide Join, Tagged, BSwap;
    if c > 0 {
      var k, s := Bytes(w), Span(w, c);
      SpanStep(w, c);
      assert m[p..p + k] == m[p..p + s][..k];
      assert r[q..q + k] == r[q..q + s][..k];
      assert m[p + k..p + s] == m[p..p + s][k..];
      assert r[q + k..q + s] == r[q..q + s][k..];
      SameBytesSameValues(t, w, m, p + k, r, q + k, c - 1);
    }
  }

  /** After the copy, reading the destination with any tag gives what the source read before. */
  lemma CopiedValues(t: Tag, w: Width, m: seq<Byte>, src: nat, dst: nat, c: nat)
    requires src + Span(w, c) <= |m| && dst + Span(w, c) <= |m|
    ensures Values(t, w, Moved(m, src, dst, Span(w, c)), dst, c) == Values(t, w, m, src, c)
  {
    var n := Span(w, c);
    assert Moved(m, src, dst, n)[dst..dst + n] == m[src..src + n];
    SameBytesSameValues(t, w, Moved(m, src, dst, n), dst, m, src, c);
  }

  // ----- the argument order of the prototype

  function OneAt(len: nat, i: nat): (m: seq<Byte>)
    ensures |m| == len && forall j :: 0 <= j < len ==> m[j] == if j == i then 1 else 0
  {
    seq(len, j => if j == i then 1 else 0)
  }

  lemma MovedAt(m: seq<Byte>, src: nat, dst: nat, n: nat, j: nat)
    requires src + n <= |m| && dst + n <= |m| && j < |m|
    ensures |Moved(m, src, dst, n)| == |m|
    ensures Moved(m, src, dst, n)[j] == if dst <= j < dst + n then m[j - dst + src] else m[j]
  {
  }

  /** Copies from different places, or to different ones, can be told apart unless both stay put. */
  lemma CopiesDiffer(len: nat, p: nat, q: nat, r: nat, s: nat, n: nat) returns (m: seq<Byte>)
    requires p + n <= len && q + n <= len && r + n <= len && s + n <= len
    requires n > 0 && (p != r || q != s) && !(p == q && r == s)
    ensures |m| == len && Moved(m, p, q, n) != Moved(m, r, s, n)
  {
    var at := if p == q || (r != s && s < q) then s else q;
    var from := if q <= at < q + n then at - q + p else at;
    m := OneAt(len, from);
    MovedAt(m, p, q, n, at);
    MovedAt(m, r, s, n, at);
  }

  /** Copying from p to q and copying from r to s are the same for every memory. */
  ghost predicate SameCopy(len: nat, p: nat, q: nat, r: nat, s: nat, n: nat)
    requires p + n <= len && q + n <= len && r + n <= len && s + n <= len
  {
    forall m: seq<Byte> :: |m| == len ==> Moved(m, p, q, n) == Moved(m, r, s, n)
  }

  /**
   * The prototype and the documentation order the arguments (handle, offset, handle,
   * offset), the definition (handle, handle, offset, offset). A call written by the
   * prototype copies from bsh1 + bsh2 to off1 + off2, sums that may wrap: what was meant,
   * for every memory, if and only if nothing is copied, the second and third argument are
   * equal, or both copies are of a region onto itself.
   */
  lemma PrototypeOrderIff(len: nat, bsh1: nat, off1: nat, bsh2: nat, off2: nat, n: nat)
    requires bsh1 < WRAP && off1 < WRAP && bsh2 < WRAP && off2 < WRAP
    requires (bsh1 + off1) % WRAP + n <= len && (bsh2 + off2) % WRAP + n <= len
    requires (bsh1 + bsh2) % WRAP + n <= len && (off1 + off2) % WRAP + n <= len
    ensures SameCopy(len, (bsh1 + off1) % WRAP, (bsh2 + off2) % WRAP, (bsh1 + bsh2) % WRAP, (off1 + off2) % WRAP, n)
      <==> || n == 0 || off1 == bsh2
           || ((bsh1 + off1) % WRAP == (bsh2 + off2) % WRAP && (bsh1 + bsh2) % WRAP == (off1 + off2) % WRAP)
  {
    var p, q, r, s := (bsh1 + off1) % WRAP, (bsh2 + off2) % WRAP, (bsh1 + bsh2) % WRAP, (off1 + off2) % WRAP;
    SumsDiffer(bsh1, off1, bsh2);
    if n > 0 && off1 != bsh2 && !(p == q && r == s) {
      var m := CopiesDiffer(len, p, q, r, s, n);
    } else if off1 != bsh2 {
      forall m: seq<Byte> | |m| == len ensures Moved(m, p, q, n) == Moved(m, r, s, n) {
        MovedNowhere(m, p, q, n);
        MovedNowhere(m, r, s, n);
      }
    }
  }

  lemma MovedNowhere(m: seq<Byte>, src: nat, dst: nat, n: nat)
    requires src + n <= |m| && dst + n <= |m| && (n == 0 || src == dst)
    ensures Moved(m, src, dst, n) == m
  {
    if n == 0 { assert m[src..src] == []; }
    assert m == m[..dst] + m[dst..dst + n] + m[dst + n..];
  }

  lemma SumsDiffer(a: nat, x: nat, y: nat)
    requires a < WRAP && x < WRAP && y < WRAP
    ensures (a + x) % WRAP == (a + y) % WRAP <==> x == y
  {
    assert (a + x) % WRAP == if a + x < WRAP then a + x else a + x - WRAP;
    assert (a + y) % WRAP == if a + y < WRAP then a + y else a + y - WRAP;
  }
}
