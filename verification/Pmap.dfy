/**
 * Construction of the kernel's MC68030 page tables in physical memory, and the proof that
 * a hardware walk of the words written computes exactly the intended address map.
 */
module Pmap {

  const PAGE_SIZE := 4096
  const NPTEPG := 1024
  const SEGSIZE := 0x40_0000
  const USPACE := 2 * PAGE_SIZE
  const KERNBASE := 0
  const SYSMAP_VA := 0x8000_0000 - PAGE_SIZE * NPTEPG * 2
  const MAXADDR := 0x8000_0000 - PAGE_SIZE
  const SYSMAP_SEG := SYSMAP_VA / SEGSIZE
  const MAX_SEG := MAXADDR / SEGSIZE

  // descriptor bits: type in bits 1-0, write protect in bit 2, cache inhibit in bit 6
  const SG_NV := 0
  const SG_V := 2
  const PG_NV := 0
  const PG_V := 1
  const PG_RO := 4
  const PG_CI := 64

  type Word = w: int | 0 <= w < 0x1_0000_0000

  /** The start of the page a is in. */
  function TruncPage(a: nat): (r: nat)
    ensures r % PAGE_SIZE == 0 && r <= a < r + PAGE_SIZE
  {
    a - a % PAGE_SIZE
  }

  /** The least number of units that hold n. */
  function HowMany(n: nat, unit: nat): (k: nat)
    requires unit > 0
    ensures n <= k * unit < n + unit
  {
    var k := (n + unit - 1) / unit;
    UnitsHold(n + unit - 1, unit);
    k
  }

  lemma UnitsHold(m: nat, unit: nat)
    requires unit > 0
    ensures m / unit * unit <= m < m / unit * unit + unit
  {
    assert m == unit * (m / unit) + m % unit;
  }

  /** The operator |, bit by bit from the lowest. */
  function Or(a: nat, b: nat): nat
    decreases a + b
  {
    if a == 0 then b
    else if b == 0 then a
    else 2 * Or(a / 2, b / 2) + (if a % 2 == 1 || b % 2 == 1 then 1 else 0)
  }

  function Shl(q: nat, k: nat): nat { if k == 0 then q else 2 * Shl(q, k - 1) }

  /** Flag bits below the lowest bit of a shifted number are added to it. */
  lemma {:induction false} OrIsSum(q: nat, k: nat, flags: nat)
    requires flags < Shl(1, k)
    ensures Or(Shl(q, k), flags) == Shl(q, k) + flags
    decreases k
  {
    if k == 0 {
      OrNothing(q);
    } else {
      hide Or;
      OrIsSum(q, k - 1, flags / 2);
      OrEven(Shl(q, k - 1), flags);
    }
  }

  lemma OrNothing(a: nat)
    ensures Or(a, 0) == a
  {
  }

  lemma OrEven(a: nat, b: nat)
    ensures Or(2 * a, b) == 2 * Or(a, b / 2) + b % 2
  {
    assert 2 * a / 2 == a && 2 * a % 2 == 0;
  }

  lemma Shifts(q: nat)
    ensures Shl(q, 2) == 4 * q && Shl(q, 3) == 8 * q && Shl(q, 6) == 64 * q && Shl(q, 7) == 128 * q
  {
    assert Shl(q, 1) == 2 * q;
    assert Shl(q, 2) == 4 * q;
    assert Shl(q, 3) == 8 * q;
    assert Shl(q, 4) == 16 * q;
    assert Shl(q, 5) == 32 * q;
    assert Shl(q, 6) == 64 * q;
  }

  /** The descriptors the code forms: a page-aligned address and one or two flags. */
  lemma EntryWords(frame: nat)
    requires frame % PAGE_SIZE == 0
    ensures Or(frame, SG_V) == frame + SG_V
    ensures Or(Or(frame, PG_CI), PG_V) == frame + PG_CI + PG_V
    ensures Or(Or(frame, PG_RO), PG_V) == frame + PG_RO + PG_V
  {
    hide Or, Shl;
    var q := frame / PAGE_SIZE;
    Shifts(1);
    Shifts(512 * q);
    Shifts(32 * q);
    Shifts(64 * q + 1);
    Shifts(1024 * q + 1);
    OrIsSum(512 * q, 3, SG_V);
    OrIsSum(32 * q, 7, PG_CI);
    OrIsSum(64 * q + 1, 6, PG_V);
    OrIsSum(512 * q, 3, PG_RO);
    OrIsSum(1024 * q + 1, 2, PG_V);
  }

  /** protopte & ~PG_PROT. */
  function ClearProt(w: nat): (r: nat)
    ensures r / 4 % 2 == 0 && (r == w || r + PG_RO == w)
  {
    if w / 4 % 2 == 1 then w - PG_RO else w
  }

  // ----- the walk: 10 + 10 + 12 bits, short descriptors

  datatype Translation =
    | Fault
    | OtherForm
    | Mapped(pa: int, readOnly: bool, cacheInhibit: bool, ptePa: int)

  function DescType(w: Word): int { w % 4 }
  function WriteProtected(w: Word): bool { w / 4 % 2 == 1 }
  function CacheInhibited(w: Word): bool { w / 64 % 2 == 1 }
  function TableAddress(w: Word): int { w - w % 16 }
  function PageFrame(w: Word): int { w - w % PAGE_SIZE }

  /**
   * The translation table search of the MC68030 for TC 0x82c0aa00 from a root pointer to
   * short descriptors. Descriptor types other than the two written here are OtherForm.
   */
  function Walk(m: seq<Word>, root: nat, va: Word): Translation {
    var a := root / 4 + va / SEGSIZE;
    if a >= |m| then OtherForm
    else
      var ste := m[a];
      if DescType(ste) == 0 then Fault
      else if DescType(ste) != SG_V then OtherForm
      else
        var ptePa := TableAddress(ste) + 4 * (va / PAGE_SIZE % NPTEPG);
        if ptePa / 4 >= |m| then OtherForm
        else
          var pte := m[ptePa / 4];
          if DescType(pte) == 0 then Fault
          else if DescType(pte) != PG_V then OtherForm
          else Mapped(PageFrame(pte) + va % PAGE_SIZE, WriteProtected(ste) || WriteProtected(pte),
                      CacheInhibited(pte), ptePa)
  }

  // ----- where everything goes

  datatype Layout = Layout(firstpa: nat, lwp0upa: nat, nptpages: nat, etext: nat) {
    function Kstpa(): nat { lwp0upa + USPACE }
    function Kptmpa(): nat { Kstpa() + PAGE_SIZE }
    function Lkptpa(): nat { Kptmpa() + PAGE_SIZE }
    function Kptpa(): nat { Lkptpa() + PAGE_SIZE }
    function Endpa(): nat { Kptpa() + nptpages * PAGE_SIZE }

    /** Pages of kernel text, and of everything from firstpa to the end of the tables. */
    function TextPages(): nat { TruncPage(etext) / PAGE_SIZE }
    function Pages(): int { (Endpa() - firstpa) / PAGE_SIZE }

    /** What the caller guarantees: aligned, text below the free memory, tables that fit. */
    predicate Fits(words: nat) {
      && firstpa % PAGE_SIZE == 0 && lwp0upa % PAGE_SIZE == 0 && firstpa <= lwp0upa
      && etext <= lwp0upa - firstpa
      && nptpages <= SYSMAP_SEG
      && Endpa() <= 4 * words <= 0x1_0000_0000
      && Pages() <= nptpages * NPTEPG
    }
  }

  // ----- the words the tables hold

  function SegEntry(l: Layout, i: nat): int {
    if i == MAX_SEG then l.Lkptpa() + SG_V
    else if i == SYSMAP_SEG then l.Kptmpa() + SG_V
    else if i < l.nptpages then l.Kptpa() + i * PAGE_SIZE + SG_V
    else SG_NV
  }

  function MapEntry(l: Layout, i: nat): int {
    if i == MAX_SEG then l.Lkptpa() + PG_CI + PG_V
    else if i == SYSMAP_SEG then l.Kptmpa() + PG_CI + PG_V
    else if i < l.nptpages then l.Kptpa() + i * PAGE_SIZE + PG_CI + PG_V
    else PG_NV
  }

  function LastEntry(i: nat): int {
    if i == NPTEPG - 1 then MAXADDR + PG_CI + PG_V else PG_NV
  }

  function PageEntry(l: Layout, i: nat): int {
    if i < l.TextPages() then l.firstpa + i * PAGE_SIZE + PG_RO + PG_V
    else if i < l.Pages() then l.firstpa + i * PAGE_SIZE + PG_V
    else PG_NV
  }

  ghost predicate SegTable(l: Layout, m: seq<Word>) {
    l.Kstpa() / 4 + NPTEPG <= |m| && forall i: nat {:trigger SegEntry(l, i)} ::
      i < NPTEPG ==> m[l.Kstpa() / 4 + i] == SegEntry(l, i)
  }

  ghost predicate MapTable(l: Layout, m: seq<Word>) {
    l.Kptmpa() / 4 + NPTEPG <= |m| && forall i: nat {:trigger MapEntry(l, i)} ::
      i < NPTEPG ==> m[l.Kptmpa() / 4 + i] == MapEntry(l, i)
  }

  ghost predicate LastTable(l: Layout, m: seq<Word>) {
    l.Lkptpa() / 4 + NPTEPG <= |m| && forall i: nat {:trigger LastEntry(i)} ::
      i < NPTEPG ==> m[l.Lkptpa() / 4 + i] == LastEntry(i)
  }

  ghost predicate PageTables(l: Layout, m: seq<Word>) {
    l.Kptpa() / 4 + l.nptpages * NPTEPG <= |m| && forall i: nat {:trigger PageEntry(l, i)} ::
      i < l.nptpages * NPTEPG ==> m[l.Kptpa() / 4 + i] == PageEntry(l, i)
  }

  ghost predicate TablesBuilt(l: Layout, m: seq<Word>) {
    SegTable(l, m) && MapTable(l, m) && LastTable(l, m) && PageTables(l, m)
  }

  // ----- the loops

  /** Physical memory by words, and the kernel variables the construction reads and sets. */
  class Kernel {
    const word: array<Word>
    var sysptsize: nat
    var physmem: nat
    var maxmem: nat
    var etext: nat
    var sysseg: int
    var syssegPa: int
    var sysptmap: int
    var sysmap: int
    var lwp0uarea: int
    var availStart: int
    var availEnd: int
    var memSize: int
    var virtualAvail: int
    var virtualEnd: int
    var caddr1: int
    var caddr2: int
    var vmmap: int
    var msgbufaddr: int

    constructor (word: array<Word>, sysptsize: nat, physmem: nat, maxmem: nat, etext: nat)
      ensures this.word == word && this.sysptsize == sysptsize && this.physmem == physmem
      ensures this.maxmem == maxmem && this.etext == etext
    {
      this.word := word;
      this.sysptsize, this.physmem, this.maxmem, this.etext := sysptsize, physmem, maxmem, etext;
      sysseg, syssegPa, sysptmap, sysmap, lwp0uarea := 0, 0, 0, 0, 0;
      availStart, availEnd, memSize, virtualAvail, virtualEnd := 0, 0, 0, 0, 0;
      caddr1, caddr2, vmmap, msgbufaddr := 0, 0, 0, 0;
    }

    /** while (pte < epte) *pte++ = w; */
    method Fill(pte0: nat, epte: nat, w: Word) returns (pte: nat)
      requires epte <= word.Length
      modifies word
      ensures pte == if pte0 < epte then epte else pte0
      ensures forall i :: pte0 <= i < epte ==> word[i] == w
      ensures forall i :: 0 <= i < word.Length && !(pte0 <= i < epte) ==> word[i] == old(word[i])
    {
      pte := pte0;
      while pte < epte
        invariant pte0 <= pte && (pte <= epte || pte == pte0)
        invariant forall i :: pte0 <= i < pte ==> word[i] == w
        invariant forall i :: 0 <= i < word.Length && !(pte0 <= i < pte) ==> word[i] == old(word[i])
      {
        word[pte] := w;
        pte := pte + 1;
      }
    }

    /** while (pte < epte) { *pte++ = proto; proto += PAGE_SIZE; } */
    method FillPages(pte0: nat, epte: nat, proto0: nat) returns (pte: nat, proto: nat)
      requires epte <= word.Length
      requires pte0 < epte ==> proto0 + (epte - pte0 - 1) * PAGE_SIZE < 0x1_0000_0000
      modifies word
      ensures pte == if pte0 < epte then epte else pte0
      ensures proto == proto0 + (pte - pte0) * PAGE_SIZE
      ensures forall i :: pte0 <= i < epte ==> word[i] == proto0 + (i - pte0) * PAGE_SIZE
      ensures forall i :: 0 <= i < word.Length && !(pte0 <= i < epte) ==> word[i] == old(word[i])
    {
      pte, proto := pte0, proto0;
      while pte < epte
        invariant pte0 <= pte && (pte <= epte || pte == pte0)
        invariant proto == proto0 + (pte - pte0) * PAGE_SIZE
        invariant forall i :: pte0 <= i < pte ==> word[i] == proto0 + (i - pte0) * PAGE_SIZE
        invariant forall i :: 0 <= i < word.Length && !(pte0 <= i < pte) ==> word[i] == old(word[i])
      {
        word[pte] := proto;
        pte, proto := pte + 1, proto + PAGE_SIZE;
      }
    }

    /** The segment descriptor and the page descriptor of a table: the flags or-ed into its address. */
    static method TableEntries(table: nat) returns (ste: nat, pte: nat)
      requires table % PAGE_SIZE == 0
      ensures ste == table + SG_V && pte == table + PG_CI + PG_V
    {
      hide Or;
      EntryWords(table);
      ste, pte := Or(table, SG_V), Or(Or(table, PG_CI), PG_V);
    }

    /** The descriptor of a page of text. */
    static method TextEntry(page: nat) returns (pte: nat)
      requires page % PAGE_SIZE == 0
      ensures pte == page + PG_RO + PG_V
    {
      hide Or;
      EntryWords(page);
      pte := Or(Or(page, PG_RO), PG_V);
    }

    /** The two tables of page-table addresses are filled side by side. */
    method LinkPageTables(l: Layout) returns (ste: nat, pte: nat)
      requires l.Fits(word.Length)
      modifies word
      ensures ste == l.Kstpa() / 4 + l.nptpages && pte == l.Kptmpa() / 4 + l.nptpages
      ensures forall i: nat {:trigger SegEntry(l, i)} :: i < l.nptpages ==> word[l.Kstpa() / 4 + i] == SegEntry(l, i)
      ensures forall i: nat {:trigger MapEntry(l, i)} :: i < l.nptpages ==> word[l.Kptmpa() / 4 + i] == MapEntry(l, i)
      ensures forall i :: 0 <= i < word.Length && !(l.Kstpa() / 4 <= i < l.Lkptpa() / 4) ==> word[i] == old(word[i])
    {
      ste, pte := l.Kstpa() / 4, l.Kptmpa() / 4;
      var epte := pte + l.nptpages;
      TablesAligned(l, word.Length);
      var protoste, protopte := TableEntries(l.Kptpa());
      ghost var n := 0;
      while pte < epte
        invariant 0 <= n <= l.nptpages && ste == l.Kstpa() / 4 + n && pte == l.Kptmpa() / 4 + n
        invariant protoste == l.Kptpa() + n * PAGE_SIZE + SG_V
        invariant protopte == l.Kptpa() + n * PAGE_SIZE + PG_CI + PG_V
        invariant forall i: nat {:trigger SegEntry(l, i)} :: i < n ==> word[l.Kstpa() / 4 + i] == SegEntry(l, i)
        invariant forall i: nat {:trigger MapEntry(l, i)} :: i < n ==> word[l.Kptmpa() / 4 + i] == MapEntry(l, i)
        invariant forall i :: 0 <= i < word.Length && !(l.Kstpa() / 4 <= i < l.Lkptpa() / 4) ==> word[i] == old(word[i])
      {
        word[ste] := protoste;
        ste := ste + 1;
        word[pte] := protopte;
        pte := pte + 1;
        protoste := protoste + PAGE_SIZE;
        protopte := protopte + PAGE_SIZE;
        n := n + 1;
      }
    }

    /** Invalidate the remaining entries of the segment table. */
    method InvalidateSegs(l: Layout, ste0: nat) returns (ste: nat)
      requires l.Fits(word.Length) && ste0 == l.Kstpa() / 4 + l.nptpages
      requires forall i: nat {:trigger SegEntry(l, i)} :: i < l.nptpages ==> word[l.Kstpa() / 4 + i] == SegEntry(l, i)
      modifies word
      ensures forall i: nat {:trigger SegEntry(l, i)} :: i < NPTEPG && i != SYSMAP_SEG && i != MAX_SEG ==>
        word[l.Kstpa() / 4 + i] == SegEntry(l, i)
      ensures forall i :: 0 <= i < word.Length && !(ste0 <= i < l.Kptmpa() / 4) ==> word[i] == old(word[i])
    {
      ste := Fill(ste0, l.Kstpa() / 4 + NPTEPG, SG_NV);
    }

    /** Invalidate the remaining entries of Sysptmap. */
    method InvalidateMap(l: Layout, pte0: nat) returns (pte: nat)
      requires l.Fits(word.Length) && pte0 == l.Kptmpa() / 4 + l.nptpages
      requires forall i: nat {:trigger MapEntry(l, i)} :: i < l.nptpages ==> word[l.Kptmpa() / 4 + i] == MapEntry(l, i)
      modifies word
      ensures forall i: nat {:trigger MapEntry(l, i)} :: i < NPTEPG && i != SYSMAP_SEG && i != MAX_SEG ==>
        word[l.Kptmpa() / 4 + i] == MapEntry(l, i)
      ensures forall i :: 0 <= i < word.Length && !(pte0 <= i < l.Lkptpa() / 4) ==> word[i] == old(word[i])
    {
      pte := Fill(pte0, l.Kptmpa() / 4 + NPTEPG, PG_NV);
    }

    /** Entry i of both tables points to the table at the given address. */
    method LinkTable(l: Layout, i: nat, table: nat)
      requires l.Fits(word.Length) && i < NPTEPG && table % PAGE_SIZE == 0 && table < l.Endpa()
      modifies word
      ensures word[l.Kstpa() / 4 + i] == table + SG_V && word[l.Kptmpa() / 4 + i] == table + PG_CI + PG_V
      ensures forall j :: 0 <= j < word.Length && j != l.Kstpa() / 4 + i && j != l.Kptmpa() / 4 + i ==>
        word[j] == old(word[j])
    {
      var ste, pte := l.Kstpa() / 4 + i, l.Kptmpa() / 4 + i;
      word[ste], word[pte] := TableEntries(table);
    }

    /** The two entries that complete either table: Sysmap and the last page table. */
    method LinkSpecials(l: Layout)
      requires l.Fits(word.Length)
      requires forall i: nat {:trigger SegEntry(l, i)} :: i < NPTEPG && i != SYSMAP_SEG && i != MAX_SEG ==>
        word[l.Kstpa() / 4 + i] == SegEntry(l, i)
      requires forall i: nat {:trigger MapEntry(l, i)} :: i < NPTEPG && i != SYSMAP_SEG && i != MAX_SEG ==>
        word[l.Kptmpa() / 4 + i] == MapEntry(l, i)
      modifies word
      ensures SegTable(l, word[..]) && MapTable(l, word[..])
      ensures forall i :: 0 <= i < word.Length && !(l.Kstpa() / 4 <= i < l.Lkptpa() / 4) ==> word[i] == old(word[i])
    {
      hide SegEntry, MapEntry;
      SpecialEntries(l);
      TablesAligned(l, word.Length);
      LinkTable(l, SYSMAP_SEG, l.Kptmpa());
      LinkTable(l, MAX_SEG, l.Lkptpa());
      forall i: nat | i < NPTEPG
        ensures word[l.Kstpa() / 4 + i] == SegEntry(l, i) && word[l.Kptmpa() / 4 + i] == MapEntry(l, i)
      {
      }
    }

    /** The segment table and Sysptmap: page tables, nothing, Sysmap, the last page table. */
    method InitSegmentTable(l: Layout)
      requires l.Fits(word.Length)
      modifies word
      ensures SegTable(l, word[..]) && MapTable(l, word[..])
      ensures forall i :: 0 <= i < word.Length && !(l.Kstpa() / 4 <= i < l.Lkptpa() / 4) ==> word[i] == old(word[i])
    {
      hide SegEntry, MapEntry, SegTable, MapTable;
      var ste, pte := LinkPageTables(l);
      ste := InvalidateSegs(l, ste);
      pte := InvalidateMap(l, pte);
      LinkSpecials(l);
    }

    /** The last page table: everything invalid but the page that maps to itself. */
    method InitLastTable(l: Layout)
      requires l.Fits(word.Length)
      modifies word
      ensures LastTable(l, word[..])
      ensures forall i :: 0 <= i < word.Length && !(l.Lkptpa() / 4 <= i < l.Kptpa() / 4) ==> word[i] == old(word[i])
    {
      var pte := l.Lkptpa() / 4;
      pte := Fill(pte, pte + NPTEPG - 1, PG_NV);
      hide Or;
      EntryWords(MAXADDR);
      word[pte] := Or(Or(MAXADDR, PG_CI), PG_V);
    }

    /**
     * Validate the entries up to page `to', the protection being what proto carries: the
     * text is mapped by a call that ends with it, the rest by calls that start after it.
     */
    method MapPages(l: Layout, from: nat, to: nat, proto0: nat) returns (pte: nat, proto: nat)
      requires l.Fits(word.Length) && from <= to <= l.Pages()
      requires to <= l.TextPages() || l.TextPages() <= from
      requires proto0 == l.firstpa + from * PAGE_SIZE + PG_V + if to <= l.TextPages() then PG_RO else 0
      requires forall i: nat {:trigger PageEntry(l, i)} :: i < from ==> word[l.Kptpa() / 4 + i] == PageEntry(l, i)
      modifies word
      ensures pte == l.Kptpa() / 4 + to && proto == proto0 + (to - from) * PAGE_SIZE
      ensures forall i: nat {:trigger PageEntry(l, i)} :: i < to ==> word[l.Kptpa() / 4 + i] == PageEntry(l, i)
      ensures forall i :: 0 <= i < word.Length && !(l.Kptpa() / 4 + from <= i < l.Kptpa() / 4 + to) ==>
        word[i] == old(word[i])
    {
      var kpt := l.Kptpa() / 4;
      pte, proto := FillPages(kpt + from, kpt + to, proto0);
      assert forall i: nat {:trigger PageEntry(l, i)} :: from <= i < to ==>
        word[kpt + i] == proto0 + (kpt + i - (kpt + from)) * PAGE_SIZE;
    }

    /** The page tables: text read-only, then data, u-area and the tables themselves. */
    method InitPageTables(l: Layout) returns (pte: nat)
      requires l.Fits(word.Length)
      modifies word
      ensures PageTables(l, word[..])
      ensures pte == l.Kptpa() / 4 + l.Pages()
      ensures forall i :: 0 <= i < word.Length && !(l.Kptpa() / 4 <= i < l.Endpa() / 4) ==> word[i] == old(word[i])
    {
      var kpt := l.Kptpa() / 4;
      var data, end := (l.Kstpa() - l.firstpa) / PAGE_SIZE, (l.Endpa() - l.firstpa) / PAGE_SIZE;
      pte := Fill(kpt, kpt + l.nptpages * NPTEPG, PG_NV);
      var protopte := TextEntry(l.firstpa);
      pte, protopte := MapPages(l, KERNBASE / PAGE_SIZE, TruncPage(l.etext) / PAGE_SIZE, protopte);
      protopte := ClearProt(protopte);
      pte, protopte := MapPages(l, l.TextPages(), data, protopte);
      protopte := ClearProt(protopte);
      pte, protopte := MapPages(l, data, end, protopte);
    }

    /** The number of page-table pages allocated. */
    function NptPages(): (n: nat)
      reads this
      ensures sysptsize * NPTEPG + physmem <= n * NPTEPG < sysptsize * NPTEPG + physmem + NPTEPG
    {
      sysptsize + HowMany(physmem, NPTEPG)
    }

    /** The exported addresses: tables by their kernel addresses, free memory after them. */
    ghost predicate ExportedTables(l: Layout, msgbufsize: nat, pages: nat, maxpages: nat)
      reads `sysseg, `syssegPa, `sysptmap, `sysmap, `lwp0uarea, `availStart, `availEnd, `memSize, `virtualEnd
    {
      && syssegPa == l.Kstpa() && sysseg == l.Kstpa() - l.firstpa && sysptmap == l.Kptmpa() - l.firstpa
      && sysmap == SYSMAP_VA && lwp0uarea == l.lwp0upa - l.firstpa
      && availStart == l.Endpa() && memSize == pages * PAGE_SIZE && virtualEnd == SYSMAP_VA
      && availEnd == maxpages * PAGE_SIZE - (HowMany(msgbufsize, PAGE_SIZE) + 1) * PAGE_SIZE
    }

    /** The special pages, one after the other behind the mapped kernel. */
    ghost predicate ExportedSpecials(l: Layout, msgbufsize: nat)
      reads `caddr1, `caddr2, `vmmap, `msgbufaddr, `virtualAvail
    {
      && caddr1 == l.Endpa() - l.firstpa && caddr2 == caddr1 + PAGE_SIZE && vmmap == caddr2 + PAGE_SIZE
      && msgbufaddr == vmmap + PAGE_SIZE
      && virtualAvail == msgbufaddr + HowMany(msgbufsize, PAGE_SIZE) * PAGE_SIZE
    }

    /**
     * pmap_bootstrap(). The caller guarantees alignment, a kernel text that ends below the
     * first free address, allocations that fit in memory, and page tables below Sysmap.
     */
    method Bootstrap(nextpa: nat, firstpa: nat, msgbufsize: nat) returns (ghost l: Layout)
      requires nextpa % PAGE_SIZE == 0 && firstpa % PAGE_SIZE == 0 && firstpa + etext <= nextpa
      requires NptPages() <= SYSMAP_SEG
      requires Layout(firstpa, nextpa, NptPages(), etext).Endpa() <= firstpa + physmem * PAGE_SIZE
      requires Layout(firstpa, nextpa, NptPages(), etext).Endpa() <= 4 * word.Length <= 0x1_0000_0000
      modifies this, word
      ensures l == Layout(firstpa, nextpa, old(NptPages()), old(etext)) && l.Fits(word.Length)
      ensures TablesBuilt(l, word[..])
      ensures forall i :: 0 <= i < word.Length && !(l.Kstpa() / 4 <= i < l.Endpa() / 4) ==> word[i] == old(word[i])
      ensures ExportedTables(l, msgbufsize, old(physmem), old(maxmem)) && ExportedSpecials(l, msgbufsize)
    {
      hide TablesBuilt, ExportedTables, ExportedSpecials;
      var lwp0upa, next := nextpa, nextpa + USPACE;
      var kstpa := next;
      next := next + PAGE_SIZE;
      var kptmpa := next;
      next := next + PAGE_SIZE;
      var lkptpa := next;
      next := next + PAGE_SIZE;
      var kptpa := next;
      var nptpages := sysptsize + HowMany(physmem, NPTEPG);
      next := next + nptpages * PAGE_SIZE;
      var layout := Layout(firstpa, lwp0upa, nptpages, etext);
      l := layout;
      assert (kstpa, kptmpa, lkptpa, kptpa, next) == (l.Kstpa(), l.Kptmpa(), l.Lkptpa(), l.Kptpa(), l.Endpa());
      assert l.Fits(word.Length);
      BuildTables(layout);
      ExportTables(layout, next, msgbufsize);
      ExportSpecials(layout, next, msgbufsize);
    }

    /** The kernel variables set after the tables are built; next is the first free address. */
    method ExportTables(l: Layout, next: nat, msgbufsize: nat)
      requires next == l.Endpa() && l.firstpa <= l.lwp0upa
      modifies `sysseg, `syssegPa, `sysptmap, `sysmap, `lwp0uarea, `availStart, `availEnd, `memSize, `virtualEnd
      ensures ExportedTables(l, msgbufsize, physmem, maxmem)
    {
      hide HowMany;
      sysseg, syssegPa := l.Kstpa() - l.firstpa, l.Kstpa();
      sysptmap := l.Kptmpa() - l.firstpa;
      sysmap := SYSMAP_VA;
      lwp0uarea := l.lwp0upa - l.firstpa;
      availStart := next;
      availEnd := maxmem * PAGE_SIZE - (HowMany(msgbufsize, PAGE_SIZE) * PAGE_SIZE + PAGE_SIZE);
      memSize := physmem * PAGE_SIZE;
      virtualEnd := SYSMAP_VA;
    }

    /** The pages set aside for the kernel's own use, from the end of the mapped kernel. */
    method ExportSpecials(l: Layout, next: nat, msgbufsize: nat)
      requires l.Fits(word.Length) && next == l.Endpa()
      modifies `caddr1, `caddr2, `vmmap, `msgbufaddr, `virtualAvail
      ensures ExportedSpecials(l, msgbufsize)
    {
      var va := (next - l.firstpa) / PAGE_SIZE * PAGE_SIZE;
      WholePages(l, word.Length);
      hide HowMany;
      caddr1 := va;
      va := va + PAGE_SIZE;
      caddr2 := va;
      va := va + PAGE_SIZE;
      vmmap := va;
      va := va + PAGE_SIZE;
      msgbufaddr := va;
      va := va + HowMany(msgbufsize, PAGE_SIZE) * PAGE_SIZE;
      virtualAvail := va;
    }

    /** The three table-building parts; no part disturbs what an earlier one wrote. */
    method BuildTables(l: Layout)
      requires l.Fits(word.Length)
      modifies word
      ensures TablesBuilt(l, word[..])
      ensures forall i :: 0 <= i < word.Length && !(l.Kstpa() / 4 <= i < l.Endpa() / 4) ==> word[i] == old(word[i])
    {
      InitSegmentTable(l);
      ghost var m := word[..];
      InitLastTable(l);
      SegMapFrame(l, m, word[..]);
      m := word[..];
      var pte := InitPageTables(l);
      SegMapFrame(l, m, word[..]);
      LastFrame(l, m, word[..]);
    }
  }

  lemma PageMultiple(a: int, q: int)
    requires a == PAGE_SIZE * q
    ensures a % PAGE_SIZE == 0 && a / 4 == NPTEPG * q
  {
  }

  /** The table regions are page aligned, so they start at whole words. */
  lemma TablesAligned(l: Layout, words: nat)
    requires l.Fits(words)
    ensures l.Kstpa() % PAGE_SIZE == 0 && l.Kptpa() % PAGE_SIZE == 0 && l.Kptmpa() % PAGE_SIZE == 0
    ensures l.Lkptpa() % PAGE_SIZE == 0 && l.Endpa() % PAGE_SIZE == 0 && (l.Endpa() - l.firstpa) % PAGE_SIZE == 0
    ensures l.Lkptpa() / 4 == l.Kptmpa() / 4 + NPTEPG == l.Kstpa() / 4 + 2 * NPTEPG <= words
  {
    var q, f := l.lwp0upa / PAGE_SIZE, l.firstpa / PAGE_SIZE;
    PageMultiple(l.Kstpa(), q + 2);
    PageMultiple(l.Kptmpa(), q + 3);
    PageMultiple(l.Lkptpa(), q + 4);
    PageMultiple(l.Kptpa(), q + 5);
    PageMultiple(l.Endpa(), q + 5 + l.nptpages);
    PageMultiple(l.Endpa() - l.firstpa, q + 5 + l.nptpages - f);
  }

  lemma SpecialEntries(l: Layout)
    ensures SegEntry(l, SYSMAP_SEG) == l.Kptmpa() + SG_V && SegEntry(l, MAX_SEG) == l.Lkptpa() + SG_V
    ensures MapEntry(l, SYSMAP_SEG) == l.Kptmpa() + PG_CI + PG_V && MapEntry(l, MAX_SEG) == l.Lkptpa() + PG_CI + PG_V
  {
  }

  lemma WholePages(l: Layout, words: nat)
    requires l.Fits(words)
    ensures (l.Endpa() - l.firstpa) / PAGE_SIZE * PAGE_SIZE == l.Endpa() - l.firstpa
  {
    var q, f := l.lwp0upa / PAGE_SIZE, l.firstpa / PAGE_SIZE;
    assert l.Endpa() == PAGE_SIZE * (q + 5 + l.nptpages) && l.firstpa == PAGE_SIZE * f;
  }

  lemma SegMapFrame(l: Layout, m: seq<Word>, n: seq<Word>)
    requires l.Fits(|m|) && |n| == |m| && SegTable(l, m) && MapTable(l, m)
    requires forall i :: l.Kstpa() / 4 <= i < l.Lkptpa() / 4 ==> n[i] == m[i]
    ensures SegTable(l, n) && MapTable(l, n)
  {
  }

  lemma LastFrame(l: Layout, m: seq<Word>, n: seq<Word>)
    requires l.Fits(|m|) && |n| == |m| && LastTable(l, m)
    requires forall i :: l.Lkptpa() / 4 <= i < l.Kptpa() / 4 ==> n[i] == m[i]
    ensures LastTable(l, n)
  {
  }

  // ----- the address map

  /**
   * The map the construction is for. The kernel, from firstpa to the end of its tables,
   * is seen from KERNBASE up; the window at SYSMAP_VA shows the page tables; the page at
   * MAXADDR is itself; nothing else is mapped.
   */
  function Intended(l: Layout, va: Word): Translation {
    var seg, page := va / SEGSIZE, va / PAGE_SIZE % NPTEPG;
    if va < l.Endpa() - l.firstpa then
      Mapped(va + l.firstpa, va < TruncPage(l.etext), false, l.Kptpa() + 4 * (va / PAGE_SIZE))
    else if va >= SYSMAP_VA && seg == SYSMAP_SEG && page < l.nptpages then
      Mapped(l.Kptpa() + page * PAGE_SIZE + va % PAGE_SIZE, false, true, l.Kptmpa() + 4 * page)
    else if seg == SYSMAP_SEG && page == SYSMAP_SEG then
      Mapped(l.Kptmpa() + va % PAGE_SIZE, false, true, l.Kptmpa() + 4 * page)
    else if seg == SYSMAP_SEG && page == MAX_SEG then
      Mapped(l.Lkptpa() + va % PAGE_SIZE, false, true, l.Kptmpa() + 4 * page)
    else if MAXADDR <= va < MAXADDR + PAGE_SIZE then
      Mapped(va, false, true, l.Lkptpa() + 4 * page)
    else Fault
  }
}
