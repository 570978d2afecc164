/** Where a crash dump goes on the dump device, and which blocks dumpsys() writes. */
module Dump {

  const PAGE_SIZE := 4096
  const BLOCKS_PER_PAGE := 8

  /** ctod() and dtoc(): pages to blocks and, rounding down, back. */
  function Ctod(pages: int): int { pages * BLOCKS_PER_PAGE }
  function Dtoc(blocks: int): int { blocks / BLOCKS_PER_PAGE }

  /** The dump device: absent, or a partition of so many blocks. */
  datatype Device = NoDev | Partition(nblks: int)

  /** dumplo in blocks, dumpsize in pages. */
  datatype Place = Place(dumplo: int, dumpsize: int)

  predicate Usable(dev: Device) { dev.Partition? && dev.nblks > Ctod(1) }

  /** At the end of the partition, clear of the label, and no more than memory. */
  ghost predicate PlacedAtEnd(p: Place, dev: Device, physmem: nat)
    requires dev.Partition?
  {
    && p.dumplo >= Ctod(1) && p.dumplo + Ctod(p.dumpsize) == dev.nblks
    && p.dumpsize <= physmem + 1
  }

  /** The first block a dump may use when the configured start is `lo'. */
  function Start(lo: int): int { if lo < Ctod(1) then Ctod(1) else lo }

  /**
   * q is what configuring makes of p: nothing on an unusable device; else the dump ends
   * with the partition and is as much of memory as fits after the start.
   */
  ghost predicate ConfiguredFrom(p: Place, q: Place, dev: Device, physmem: nat) {
    if !Usable(dev) then q == p
    else
      var room := Dtoc(dev.nblks - Start(p.dumplo));
      PlacedAtEnd(q, dev, physmem) && q.dumpsize == if room < physmem + 1 then room else physmem + 1
  }

  /** A second call changes nothing, whatever the first one started from. */
  lemma ConfiguringTwice(p: Place, q: Place, r: Place, dev: Device, physmem: nat)
    requires ConfiguredFrom(p, q, dev, physmem) && ConfiguredFrom(q, r, dev, physmem)
    ensures r == q
  {
    if Usable(dev) {
      assert Start(q.dumplo) == q.dumplo && dev.nblks - q.dumplo == Ctod(q.dumpsize);
    }
  }

  /** The dump is not of negative size, and not empty, exactly when the old start leaves room. */
  lemma RoomIff(p: Place, q: Place, dev: Device, physmem: nat)
    requires Usable(dev) && ConfiguredFrom(p, q, dev, physmem)
    ensures q.dumpsize >= 0 <==> p.dumplo <= dev.nblks
    ensures q.dumpsize > 0 <==> Start(p.dumplo) + Ctod(1) <= dev.nblks
    ensures q.dumpsize >= 0 ==> Ctod(1) <= p.dumplo ==> p.dumplo <= q.dumplo <= dev.nblks
  {
  }

  class Dumper {
    var dumplo: int
    var dumpsize: int
    const physmem: nat
    const lowram: nat

    constructor (physmem: nat, lowram: nat)
      ensures this.physmem == physmem && this.lowram == lowram && dumplo == 0 && dumpsize == 0
    {
      this.physmem, this.lowram, dumplo, dumpsize := physmem, lowram, 0, 0;
    }

    ghost function Current(): Place
      reads this
    {
      Place(dumplo, dumpsize)
    }

    /** cpu_dumpconf(). */
    method CpuDumpconf(dev: Device)
      modifies this
      ensures ConfiguredFrom(old(Current()), Current(), dev, physmem)
    {
      if dev.NoDev? { return; }
      var nblks := dev.nblks;
      if nblks <= Ctod(1) { return; }
      dumpsize := physmem + 1;
      if dumplo < Ctod(1) { dumplo := Ctod(1); }
      if dumpsize > Dtoc(nblks - dumplo) { dumpsize := Dtoc(nblks - dumplo); }
      if dumplo < nblks - Ctod(dumpsize) { dumplo := nblks - Ctod(dumpsize); }
    }

    /**
     * The page loop of dumpsys(); errors[i] is what the driver returns for page i, zero for
     * success. The writes are reported as (first block, physical address).
     */
    method Dumpsys(dev: Device, driver: bool, errors: seq<int>) returns (writes: seq<(int, int)>)
      requires dumpsize != 0 ==> Usable(dev) && PlacedAtEnd(Current(), dev, physmem)
      requires |errors| > physmem
      modifies this
      ensures dev.Partition? && driver && old(dumpsize) == 0 ==> ConfiguredFrom(old(Current()), Current(), dev, physmem)
      ensures !(dev.Partition? && driver && old(dumpsize) == 0) ==> Current() == old(Current())
      ensures writes != [] ==> driver && Usable(dev) && PlacedAtEnd(Current(), dev, physmem)
      ensures forall i :: 0 <= i < |writes| ==> writes[i] == (dumplo + Ctod(i), lowram + i * PAGE_SIZE)
      ensures forall i :: 0 <= i < |writes| ==> Ctod(1) <= writes[i].0 && writes[i].0 + BLOCKS_PER_PAGE <= dev.nblks
      ensures forall i :: 0 <= i < |writes| - 1 ==> errors[i] == 0
      ensures driver && Usable(dev) && dumpsize > 0 ==>
        writes != [] && (|writes| == dumpsize || errors[|writes| - 1] != 0)
    {
      writes := [];
      if dev.NoDev? || !driver { return; }
      if dumpsize == 0 {
        CpuDumpconf(dev);
        if dumpsize == 0 { return; }
      }
      if dumplo < 0 { return; }
      var blkno, maddr, pg := dumplo, lowram, 0;
      while pg < dumpsize
        invariant 0 <= pg == |writes| <= |errors| && (dumpsize > 0 ==> pg <= dumpsize)
        invariant blkno == dumplo + Ctod(pg) && maddr == lowram + pg * PAGE_SIZE
        invariant forall i :: 0 <= i < pg ==> writes[i] == (dumplo + Ctod(i), lowram + i * PAGE_SIZE) && errors[i] == 0
        invariant dumpsize <= 0 ==> pg == 0
      {
        writes := writes + [(blkno, maddr)];
        if errors[pg] != 0 { return; }
        maddr := maddr + PAGE_SIZE;
        blkno := blkno + BLOCKS_PER_PAGE;
        pg := pg + 1;
      }
    }
  }
}
