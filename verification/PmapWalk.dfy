/** What the page tables built by Pmap translate, address by address. */
module PmapWalk {
  import opened Pmap

  /** Quotient and remainder are unique. */
  lemma DivIs(w: int, d: int, q: int, r: int)
    requires 0 <= r < d && w == d * q + r
    ensures w / d == q && w % d == r
  {
    var k, n := w / d - q, w % d;
    assert d * (w / d) + n == w;
    assert d * k == r - n;
    assert k >= 1 ==> d * k >= d;
    assert k <= -1 ==> d * k <= -d;
  }

  /** A segment entry: valid, not write protected, pointing to a page-aligned table. */
  lemma TableWord(table: int, w: Word)
    requires table % PAGE_SIZE == 0 && w == table + SG_V
    ensures DescType(w) == SG_V && TableAddress(w) == table && !WriteProtected(w)
  {
    var q := table / PAGE_SIZE;
    assert table == PAGE_SIZE * q;
    DivIs(w, 4, 1024 * q, 2);
    DivIs(w, 16, 256 * q, 2);
    DivIs(1024 * q, 2, 512 * q, 0);
  }

  lemma EntryIndex(table: int, page: int)
    requires table % PAGE_SIZE == 0
    ensures (table + 4 * page) / 4 == table / 4 + page
  {
  }

  /** A segment entry leads to the given table, and the walk ends with that table's word. */
  lemma WalkThrough(m: seq<Word>, root: nat, va: Word, table: int, pte: Word)
    requires root / 4 + va / SEGSIZE < |m| && m[root / 4 + va / SEGSIZE] == table + SG_V
    requires table >= 0 && table % PAGE_SIZE == 0
    requires table / 4 + va / PAGE_SIZE % NPTEPG < |m| && m[table / 4 + va / PAGE_SIZE % NPTEPG] == pte
    ensures DescType(pte) == 0 ==> Walk(m, root, va) == Fault
    ensures DescType(pte) == PG_V ==>
      Walk(m, root, va) == Mapped(PageFrame(pte) + va % PAGE_SIZE, WriteProtected(pte), CacheInhibited(pte),
                                  table + 4 * (va / PAGE_SIZE % NPTEPG))
  {
    hide DescType, TableAddress, PageFrame, WriteProtected, CacheInhibited;
    TableWord(table, table + SG_V);
    EntryIndex(table, va / PAGE_SIZE % NPTEPG);
  }

  /** The descriptor of a page: frame, and protection and caching bits below it. */
  lemma PageWord(frame: nat, ro: bool, ci: bool, w: Word)
    requires frame % PAGE_SIZE == 0
    requires w == frame + PG_V + (if ro then PG_RO else 0) + (if ci then PG_CI else 0)
    ensures DescType(w) == PG_V && PageFrame(w) == frame && WriteProtected(w) == ro && CacheInhibited(w) == ci
  {
    var q, r, i := frame / PAGE_SIZE, if ro then 1 else 0, if ci then 1 else 0;
    assert frame == PAGE_SIZE * q;
    DivIs(w, 4, 1024 * q + 16 * i + r, 1);
    DivIs(1024 * q + 16 * i + r, 2, 512 * q + 8 * i, r);
    DivIs(w, 64, 64 * q + i, 4 * r + 1);
    DivIs(64 * q + i, 2, 32 * q, i);
    DivIs(w, PAGE_SIZE, q, 64 * i + 4 * r + 1);
  }

  /** The two outcomes the tables have: a page word, or zero. */
  lemma WalkToPage(m: seq<Word>, root: nat, va: Word, table: int, frame: int, ro: bool, ci: bool)
    requires root / 4 + va / SEGSIZE < |m| && m[root / 4 + va / SEGSIZE] == table + SG_V
    requires table >= 0 && table % PAGE_SIZE == 0 && frame % PAGE_SIZE == 0
    requires table / 4 + va / PAGE_SIZE % NPTEPG < |m|
    requires m[table / 4 + va / PAGE_SIZE % NPTEPG]
          == frame + PG_V + (if ro then PG_RO else 0) + (if ci then PG_CI else 0)
    ensures Walk(m, root, va) == Mapped(frame + va % PAGE_SIZE, ro, ci, table + 4 * (va / PAGE_SIZE % NPTEPG))
  {
    hide Walk, DescType, PageFrame, WriteProtected, CacheInhibited;
    var pte := m[table / 4 + va / PAGE_SIZE % NPTEPG];
    PageWord(frame, ro, ci, pte);
    WalkThrough(m, root, va, table, pte);
  }

  lemma WalkToFault(m: seq<Word>, root: nat, va: Word, table: int)
    requires root / 4 + va / SEGSIZE < |m| && m[root / 4 + va / SEGSIZE] == table + SG_V
    requires table >= 0 && table % PAGE_SIZE == 0
    requires table / 4 + va / PAGE_SIZE % NPTEPG < |m| && m[table / 4 + va / PAGE_SIZE % NPTEPG] == 0
    ensures Walk(m, root, va) == Fault
  {
    hide Walk;
    WalkThrough(m, root, va, table, 0);
  }

  lemma SegIndex(va: Word)
    ensures 0 <= va / SEGSIZE < NPTEPG && 0 <= va / PAGE_SIZE % NPTEPG < NPTEPG
    ensures va / PAGE_SIZE == va / SEGSIZE * NPTEPG + va / PAGE_SIZE % NPTEPG
    ensures va == va / PAGE_SIZE * PAGE_SIZE + va % PAGE_SIZE
  {
  }

  lemma ZeroWord()
    ensures DescType(0) == 0 && TableAddress(0) == 0 && PageFrame(0) == 0
  {
  }

  lemma PageBelow(va: nat, x: nat)
    requires x % PAGE_SIZE == 0
    ensures va / PAGE_SIZE < x / PAGE_SIZE <==> va < x
  {
  }

  /** The text is part of the kernel. */
  lemma TextInside(l: Layout, words: nat)
    requires l.Fits(words)
    ensures TruncPage(l.etext) % PAGE_SIZE == 0 && TruncPage(l.etext) <= l.Endpa() - l.firstpa
    ensures l.TextPages() <= l.Pages()
  {
  }

  /** What the map says below the window: text, then the rest of the kernel, then nothing. */
  lemma IntendedBelow(l: Layout, words: nat, va: Word)
    requires l.Fits(words) && va / SEGSIZE < l.nptpages
    ensures var p := va / PAGE_SIZE;
      Intended(l, va) ==
        if p < l.Pages() then Mapped(l.firstpa + p * PAGE_SIZE + va % PAGE_SIZE, p < l.TextPages(), false, l.Kptpa() + 4 * p)
        else Fault
  {
    TablesAligned(l, words);
    TextInside(l, words);
    SegIndex(va);
    PageBelow(va, l.Endpa() - l.firstpa);
    PageBelow(va, TruncPage(l.etext));
  }

  /** The kernel ends below the window. */
  lemma KernelBelowWindow(l: Layout, words: nat)
    requires l.Fits(words)
    ensures l.Endpa() - l.firstpa <= l.nptpages * SEGSIZE <= SYSMAP_VA
  {
    TablesAligned(l, words);
  }

  lemma IntendedWindow(l: Layout, words: nat, va: Word)
    requires l.Fits(words) && va / SEGSIZE == SYSMAP_SEG
    ensures var page, at := va / PAGE_SIZE % NPTEPG, l.Kptmpa() + 4 * (va / PAGE_SIZE % NPTEPG);
      Intended(l, va) ==
        if page < l.nptpages then Mapped(l.Kptpa() + page * PAGE_SIZE + va % PAGE_SIZE, false, true, at)
        else if page == SYSMAP_SEG then Mapped(l.Kptmpa() + va % PAGE_SIZE, false, true, at)
        else if page == MAX_SEG then Mapped(l.Lkptpa() + va % PAGE_SIZE, false, true, at)
        else Fault
  {
    KernelBelowWindow(l, words);
  }

  lemma IntendedLast(l: Layout, words: nat, va: Word)
    requires l.Fits(words) && va / SEGSIZE == MAX_SEG
    ensures var page := va / PAGE_SIZE % NPTEPG;
      Intended(l, va) ==
        if page == NPTEPG - 1 then Mapped(MAXADDR + va % PAGE_SIZE, false, true, l.Lkptpa() + 4 * page) else Fault
  {
    KernelBelowWindow(l, words);
    SegIndex(va);
  }

  lemma KernelWord(l: Layout, m: seq<Word>, va: Word)
    requires l.Fits(|m|) && TablesBuilt(l, m) && va / SEGSIZE < l.nptpages
    ensures l.Kstpa() / 4 + va / SEGSIZE < |m|
    ensures m[l.Kstpa() / 4 + va / SEGSIZE] == l.Kptpa() + va / SEGSIZE * PAGE_SIZE + SG_V
    ensures (l.Kptpa() + va / SEGSIZE * PAGE_SIZE) / 4 + va / PAGE_SIZE % NPTEPG == l.Kptpa() / 4 + va / PAGE_SIZE < |m|
    ensures m[l.Kptpa() / 4 + va / PAGE_SIZE] == PageEntry(l, va / PAGE_SIZE)
  {
    TablesAligned(l, |m|);
    SegIndex(va);
    var seg, p := va / SEGSIZE, va / PAGE_SIZE;
    assert m[l.Kstpa() / 4 + seg] == SegEntry(l, seg);
    assert p < l.nptpages * NPTEPG;
  }

  lemma PagesAligned(a: nat, n: nat)
    requires a % PAGE_SIZE == 0
    ensures (a + n * PAGE_SIZE) % PAGE_SIZE == 0
  {
  }

  lemma WalkPageTable(l: Layout, m: seq<Word>, va: Word, table: nat, frame: nat)
    requires l.Kstpa() / 4 + va / SEGSIZE < |m| && m[l.Kstpa() / 4 + va / SEGSIZE] == table + SG_V
    requires table % PAGE_SIZE == 0 && frame == l.firstpa + va / PAGE_SIZE * PAGE_SIZE && frame % PAGE_SIZE == 0
    requires table / 4 + va / PAGE_SIZE % NPTEPG < |m|
    requires m[table / 4 + va / PAGE_SIZE % NPTEPG] == PageEntry(l, va / PAGE_SIZE)
    requires l.TextPages() <= l.Pages()
    ensures Walk(m, l.Kstpa(), va) ==
      if va / PAGE_SIZE < l.Pages() then
        Mapped(frame + va % PAGE_SIZE, va / PAGE_SIZE < l.TextPages(), false, table + 4 * (va / PAGE_SIZE % NPTEPG))
      else Fault
  {
    hide Walk;
    if va / PAGE_SIZE < l.Pages() {
      WalkToPage(m, l.Kstpa(), va, table, frame, va / PAGE_SIZE < l.TextPages(), false);
    } else {
      WalkToFault(m, l.Kstpa(), va, table);
    }
  }

  /** Addresses covered by the static page tables. */
  lemma WalkKernel(l: Layout, m: seq<Word>, va: Word)
    requires l.Fits(|m|) && TablesBuilt(l, m) && va / SEGSIZE < l.nptpages
    ensures Walk(m, l.Kstpa(), va) == Intended(l, va)
  {
    hide Walk, Intended, TablesBuilt, PageEntry;
    var table, frame := l.Kptpa() + va / SEGSIZE * PAGE_SIZE, l.firstpa + va / PAGE_SIZE * PAGE_SIZE;
    TablesAligned(l, |m|);
    TextInside(l, |m|);
    PagesAligned(l.Kptpa(), va / SEGSIZE);
    PagesAligned(l.firstpa, va / PAGE_SIZE);
    KernelWord(l, m, va);
    WalkPageTable(l, m, va, table, frame);
    IntendedBelow(l, |m|, va);
    SegIndex(va);
  }

  lemma SpecialWords(l: Layout, m: seq<Word>, va: Word)
    requires l.Fits(|m|) && TablesBuilt(l, m)
    ensures l.Kstpa() / 4 + NPTEPG <= |m| && l.Kptmpa() / 4 + NPTEPG <= |m| && l.Lkptpa() / 4 + NPTEPG <= |m|
    ensures m[l.Kstpa() / 4 + SYSMAP_SEG] == l.Kptmpa() + SG_V
    ensures m[l.Kstpa() / 4 + MAX_SEG] == l.Lkptpa() + SG_V
    ensures var page := va / PAGE_SIZE % NPTEPG;
      m[l.Kptmpa() / 4 + page] == MapEntry(l, page) && m[l.Lkptpa() / 4 + page] == LastEntry(page)
  {
    assert SegEntry(l, SYSMAP_SEG) == l.Kptmpa() + SG_V && SegEntry(l, MAX_SEG) == l.Lkptpa() + SG_V;
  }

  lemma WalkMap(l: Layout, m: seq<Word>, va: Word)
    requires l.Kstpa() / 4 + va / SEGSIZE < |m| && m[l.Kstpa() / 4 + va / SEGSIZE] == l.Kptmpa() + SG_V
    requires l.Kptmpa() % PAGE_SIZE == 0 && l.Lkptpa() % PAGE_SIZE == 0 && l.Kptpa() % PAGE_SIZE == 0
    requires l.Kptmpa() / 4 + va / PAGE_SIZE % NPTEPG < |m|
    requires m[l.Kptmpa() / 4 + va / PAGE_SIZE % NPTEPG] == MapEntry(l, va / PAGE_SIZE % NPTEPG)
    ensures var page, at := va / PAGE_SIZE % NPTEPG, l.Kptmpa() + 4 * (va / PAGE_SIZE % NPTEPG);
      Walk(m, l.Kstpa(), va) ==
        if page == MAX_SEG then Mapped(l.Lkptpa() + va % PAGE_SIZE, false, true, at)
        else if page == SYSMAP_SEG then Mapped(l.Kptmpa() + va % PAGE_SIZE, false, true, at)
        else if page < l.nptpages then Mapped(l.Kptpa() + page * PAGE_SIZE + va % PAGE_SIZE, false, true, at)
        else Fault
  {
    hide Walk;
    var page, root, table := va / PAGE_SIZE % NPTEPG, l.Kstpa(), l.Kptmpa();
    if page == MAX_SEG {
      WalkToPage(m, root, va, table, l.Lkptpa(), false, true);
    } else if page == SYSMAP_SEG {
      WalkToPage(m, root, va, table, l.Kptmpa(), false, true);
    } else if page < l.nptpages {
      PagesAligned(l.Kptpa(), page);
      WalkToPage(m, root, va, table, l.Kptpa() + page * PAGE_SIZE, false, true);
    } else {
      WalkToFault(m, root, va, table);
    }
  }

  /** Addresses of the window: Sysptmap read as a page table. */
  lemma WalkWindow(l: Layout, m: seq<Word>, va: Word)
    requires l.Fits(|m|) && TablesBuilt(l, m) && va / SEGSIZE == SYSMAP_SEG
    ensures Walk(m, l.Kstpa(), va) == Intended(l, va)
  {
    hide Walk, Intended, TablesBuilt, MapEntry;
    SpecialWords(l, m, va);
    TablesAligned(l, |m|);
    WalkMap(l, m, va);
    IntendedWindow(l, |m|, va);
  }

  lemma WalkLast(l: Layout, m: seq<Word>, va: Word)
    requires l.Fits(|m|) && TablesBuilt(l, m) && va / SEGSIZE == MAX_SEG
    ensures Walk(m, l.Kstpa(), va) == Intended(l, va)
  {
    hide Walk, Intended, TablesBuilt;
    var page := va / PAGE_SIZE % NPTEPG;
    SpecialWords(l, m, va);
    TablesAligned(l, |m|);
    IntendedLast(l, |m|, va);
    if page == NPTEPG - 1 { WalkToPage(m, l.Kstpa(), va, l.Lkptpa(), MAXADDR, false, true); }
    else { WalkToFault(m, l.Kstpa(), va, l.Lkptpa()); }
  }

  lemma IntendedElsewhere(l: Layout, words: nat, va: Word)
    requires l.Fits(words)
    requires va / SEGSIZE >= l.nptpages && va / SEGSIZE != SYSMAP_SEG && va / SEGSIZE != MAX_SEG
    ensures Intended(l, va) == Fault
  {
    KernelBelowWindow(l, words);
  }

  lemma WalkElsewhere(l: Layout, m: seq<Word>, va: Word)
    requires l.Fits(|m|) && TablesBuilt(l, m)
    requires va / SEGSIZE >= l.nptpages && va / SEGSIZE != SYSMAP_SEG && va / SEGSIZE != MAX_SEG
    ensures Walk(m, l.Kstpa(), va) == Intended(l, va)
  {
    hide Intended, MapTable, LastTable, PageTables;
    IntendedElsewhere(l, |m|, va);
    SegIndex(va);
    TablesAligned(l, |m|);
    assert m[l.Kstpa() / 4 + va / SEGSIZE] == SegEntry(l, va / SEGSIZE) == SG_NV;
  }

  /**
   * The main result: for every 32-bit address, the hardware's walk of the tables built is
   * the intended translation. In particular everything not intended faults.
   */
  lemma WalkIsIntended(l: Layout, m: seq<Word>, va: Word)
    requires l.Fits(|m|) && TablesBuilt(l, m)
    ensures Walk(m, l.Kstpa(), va) == Intended(l, va)
  {
    if va / SEGSIZE < l.nptpages { WalkKernel(l, m, va); }
    else if va / SEGSIZE == SYSMAP_SEG { WalkWindow(l, m, va); }
    else if va / SEGSIZE == MAX_SEG { WalkLast(l, m, va); }
    else { WalkElsewhere(l, m, va); }
  }

  /** The kernel sees every address from firstpa to the end of the tables at PA - firstpa. */
  lemma KernelAddresses(l: Layout, m: seq<Word>, pa: nat)
    requires l.Fits(|m|) && TablesBuilt(l, m) && l.firstpa <= pa < l.Endpa()
    ensures pa - l.firstpa < SYSMAP_VA
    ensures var t := Walk(m, l.Kstpa(), pa - l.firstpa);
      t.Mapped? && t.pa == pa && !t.cacheInhibit && (t.readOnly <==> pa - l.firstpa < TruncPage(l.etext))
  {
    hide Walk, TablesBuilt;
    KernelBelowWindow(l, |m|);
    WalkIsIntended(l, m, pa - l.firstpa);
  }

  /** Neither the tables nor the u-area are write protected. */
  lemma TablesAreWritable(l: Layout, m: seq<Word>, pa: nat)
    requires l.Fits(|m|) && TablesBuilt(l, m) && l.lwp0upa <= pa < l.Endpa()
    ensures pa - l.firstpa < SYSMAP_VA
    ensures var t := Walk(m, l.Kstpa(), pa - l.firstpa); t.Mapped? && t.pa == pa && !t.readOnly
  {
    KernelAddresses(l, m, pa);
  }

  /** Exactly these addresses are mapped. */
  lemma MappedIff(l: Layout, m: seq<Word>, va: Word)
    requires l.Fits(|m|) && TablesBuilt(l, m)
    ensures Walk(m, l.Kstpa(), va) != OtherForm
    ensures Walk(m, l.Kstpa(), va).Mapped? <==>
      || va < l.Endpa() - l.firstpa
      || (va / SEGSIZE == SYSMAP_SEG && va / PAGE_SIZE % NPTEPG < l.nptpages)
      || (va / SEGSIZE == SYSMAP_SEG && va / PAGE_SIZE % NPTEPG in {SYSMAP_SEG, MAX_SEG})
      || va / PAGE_SIZE == MAXADDR / PAGE_SIZE
  {
    hide Walk, TablesBuilt;
    KernelBelowWindow(l, |m|);
    SegIndex(va);
    WalkIsIntended(l, m, va);
  }

  /** Where the window shows the page-table entry of va. */
  function WindowOf(va: Word): Word
    requires va / SEGSIZE < NPTEPG
  {
    SYSMAP_VA + 4 * (va / PAGE_SIZE)
  }

  /**
   * The self-map: for every address the static page tables cover, the window address
   * translates to the physical address of the entry the walk of that address ends with.
   */
  lemma SelfMap(l: Layout, m: seq<Word>, va: Word)
    requires l.Fits(|m|) && TablesBuilt(l, m) && va / SEGSIZE < l.nptpages
    ensures WindowOf(va) / SEGSIZE == SYSMAP_SEG
    ensures var w := Walk(m, l.Kstpa(), WindowOf(va));
      && w == Mapped(l.Kptpa() + 4 * (va / PAGE_SIZE), false, true, l.Kptmpa() + 4 * (va / SEGSIZE))
      && w.pa / 4 < |m| && m[w.pa / 4] == PageEntry(l, va / PAGE_SIZE)
      && (Walk(m, l.Kstpa(), va).Mapped? ==> Walk(m, l.Kstpa(), va).ptePa == w.pa)
  {
    hide Walk, Intended, TablesBuilt, PageEntry;
    SegIndex(va);
    var wva := WindowOf(va);
    WindowIndex(va);
    WalkWindow(l, m, wva);
    IntendedWindow(l, |m|, wva);
    WalkKernel(l, m, va);
    IntendedBelow(l, |m|, va);
    KernelWord(l, m, va);
    TablesAligned(l, |m|);
  }

  lemma WindowIndex(va: Word)
    ensures WindowOf(va) / SEGSIZE == SYSMAP_SEG && WindowOf(va) / PAGE_SIZE % NPTEPG == va / SEGSIZE
    ensures WindowOf(va) % PAGE_SIZE == 4 * (va / PAGE_SIZE % NPTEPG)
  {
  }

  lemma EntriesAt(l: Layout, m: seq<Word>, i: nat)
    requires l.Fits(|m|) && TablesBuilt(l, m) && i < NPTEPG
    ensures l.Kstpa() / 4 + i < |m| && l.Kptmpa() / 4 + i < |m|
    ensures m[l.Kstpa() / 4 + i] == SegEntry(l, i) && m[l.Kptmpa() / 4 + i] == MapEntry(l, i)
  {
  }

  lemma LinkWords(frame: int, seg: Word, map_: Word)
    requires frame % PAGE_SIZE == 0 && seg == frame + SG_V && map_ == frame + PG_CI + PG_V
    ensures DescType(seg) == SG_V && DescType(map_) == PG_V && TableAddress(seg) == PageFrame(map_) == frame
  {
    hide DescType, TableAddress, PageFrame, WriteProtected, CacheInhibited;
    TableWord(frame, seg);
    PageWord(frame, false, true, map_);
  }

  /** The software copy and the hardware's table point to the same frames. */
  lemma SysptmapAgrees(l: Layout, m: seq<Word>, i: nat)
    requires l.Fits(|m|) && TablesBuilt(l, m) && i < NPTEPG
    ensures var seg, map_ := m[l.Kstpa() / 4 + i], m[l.Kptmpa() / 4 + i];
      && (DescType(seg) == SG_V <==> DescType(map_) == PG_V) && (DescType(seg) == 0 <==> DescType(map_) == 0)
      && TableAddress(seg) == PageFrame(map_)
  {
    hide TablesBuilt, DescType, TableAddress, PageFrame;
    EntriesAt(l, m, i);
    TablesAligned(l, |m|);
    var seg, map_ := m[l.Kstpa() / 4 + i], m[l.Kptmpa() / 4 + i];
    ZeroWord();
    if seg == 0 { assert map_ == 0; } else { LinkWords(seg - SG_V, seg, map_); }
  }

  /** The addresses set aside after the kernel are free until somebody maps them. */
  lemma SpecialPagesUnmapped(l: Layout, m: seq<Word>, va: Word)
    requires l.Fits(|m|) && TablesBuilt(l, m)
    requires l.Endpa() - l.firstpa <= va < SYSMAP_VA
    ensures Walk(m, l.Kstpa(), va) == Fault
  {
    WalkIsIntended(l, m, va);
  }

  /** The whole of it: after pmap_bootstrap() every walk from the root set is the one intended. */
  method BuildAddressSpace(k: Kernel, nextpa: nat, firstpa: nat, msgbufsize: nat) returns (ghost l: Layout)
    requires nextpa % PAGE_SIZE == 0 && firstpa % PAGE_SIZE == 0 && firstpa + k.etext <= nextpa
    requires k.NptPages() <= SYSMAP_SEG
    requires Layout(firstpa, nextpa, k.NptPages(), k.etext).Endpa() <= firstpa + k.physmem * PAGE_SIZE
    requires Layout(firstpa, nextpa, k.NptPages(), k.etext).Endpa() <= 4 * k.word.Length <= 0x1_0000_0000
    modifies k, k.word
    ensures l == Layout(firstpa, nextpa, old(k.NptPages()), old(k.etext)) && k.syssegPa == l.Kstpa()
    ensures forall va: Word :: Walk(k.word[..], l.Kstpa(), va) == Intended(l, va)
  {
    hide Walk, Intended, TablesBuilt;
    l := k.Bootstrap(nextpa, firstpa, msgbufsize);
    forall va: Word ensures Walk(k.word[..], l.Kstpa(), va) == Intended(l, va) {
      WalkIsIntended(l, k.word[..], va);
    }
  }
}
